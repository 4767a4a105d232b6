/** Threads, processes and the loaded address space as a state machine: what one timer tick or one
    system call of the running thread does. */
module Scheduling {
  import opened Lists

  // The registers that an interrupt saves.
  datatype Frame = Frame(words: seq<nat>)

  datatype ThreadState = Running | Sleeping | Stopped

  // `process` is the address of the owning process, 0 for a kernel thread; `waitingFor` is the pid that
  // a sleeping thread waits for.
  datatype Thread = Thread(context: Frame, process: nat, state: ThreadState, waitingFor: int)

  datatype Proc = Proc(pid: int, cr3: nat, instances: nat)

  // `table` and `procs` hold the allocated records by address, `spaces` the address spaces that exist.
  datatype Sched = Sched(
    threads: seq<nat>, table: map<nat, Thread>, current: nat, idle: nat,
    active: seq<nat>, procs: map<nat, Proc>, lastPid: int,
    cr3: nat, kernelCr3: nat, spaces: set<nat>,
    queues: map<nat, seq<nat>>)

  // ----- what is always true -----

  function Space(s: Sched, t: nat): nat
    requires t in s.table && (s.table[t].process == 0 || s.table[t].process in s.procs)
  {
    if s.table[t].process == 0 then s.kernelCr3 else s.procs[s.table[t].process].cr3
  }

  // The threads of a process.
  function Members(table: map<nat, Thread>, p: nat): set<nat> {
    set t | t in table && table[t].process == p
  }

  // Exactly the listed threads are allocated, the running thread and the idle thread among them.
  ghost predicate ThreadsOk(s: Sched) {
    && SameElements(s.threads, s.table.Keys) && s.current in s.table && s.idle in s.table
    && s.table[s.idle].state == Running && s.table[s.idle].process == 0
  }

  ghost predicate SameElements(ts: seq<nat>, keys: set<nat>) {
    NoRepeats(ts) && forall t :: t in ts <==> t in keys
  }

  ghost predicate Owned(table: map<nat, Thread>, procs: map<nat, Proc>) {
    0 !in procs && forall t :: t in table && table[t].process != 0 ==> table[t].process in procs
  }

  // Each process has a thread, and `instances` counts its threads.
  ghost predicate Counted(table: map<nat, Thread>, procs: map<nat, Proc>) {
    forall p :: p in procs ==> procs[p].instances == |Members(table, p)| > 0
  }

  ghost predicate PidsOk(procs: map<nat, Proc>, lastPid: int) {
    && 0 <= lastPid && (forall p :: p in procs ==> 0 < procs[p].pid <= lastPid)
    && (forall p, q :: p in procs && q in procs && p != q ==> procs[p].pid != procs[q].pid)
  }

  // Exactly the active processes are allocated.
  ghost predicate ProcsOk(s: Sched) {
    && SameElements(s.active, s.procs.Keys) && Owned(s.table, s.procs) && Counted(s.table, s.procs)
    && PidsOk(s.procs, s.lastPid)
  }

  function Cr3s(procs: map<nat, Proc>): set<nat> {
    set p | p in procs :: procs[p].cr3
  }

  // The existing address spaces are the kernel's and one for each process.
  ghost predicate SpacesOk(procs: map<nat, Proc>, kernelCr3: nat, spaces: set<nat>) {
    && spaces == {kernelCr3} + Cr3s(procs) && kernelCr3 !in Cr3s(procs)
    && (forall p, q :: p in procs && q in procs && p != q ==> procs[p].cr3 != procs[q].cr3)
  }

  // The loaded address space is that of the running thread. This holds inside a tick, too.
  ghost predicate Base(s: Sched) {
    && ThreadsOk(s) && ProcsOk(s) && SpacesOk(s.procs, s.kernelCr3, s.spaces)
    && s.cr3 == Space(s, s.current)
  }

  // Between steps the running thread is not stopped.
  ghost predicate Inv(s: Sched) {
    Base(s) && s.table[s.current].state != Stopped
  }

  // ----- destroying a thread -----

  // The process goes with its last thread.
  function Reap(s: Sched, t: nat): Sched
    requires t in s.table
  {
    var p := s.table[t].process;
    var s1 := s.(threads := Without(s.threads, t), table := s.table - {t});
    if p == 0 || p !in s.procs || s.procs[p].instances == 0 then s1
    else if s.procs[p].instances == 1 then
      s1.(active := Without(s.active, p), procs := s.procs - {p}, spaces := s.spaces - {s.procs[p].cr3})
    else s1.(procs := s.procs[p := s.procs[p].(instances := s.procs[p].instances - 1)])
  }

  lemma MembersLess(table: map<nat, Thread>, t: nat, p: nat)
    requires t in table
    ensures |Members(table - {t}, p)| == |Members(table, p)| - (if table[t].process == p then 1 else 0)
  {
    if table[t].process == p {
      assert Members(table - {t}, p) == Members(table, p) - {t};
    } else {
      assert Members(table - {t}, p) == Members(table, p);
    }
  }

  lemma Unlisted(ts: seq<nat>, keys: set<nat>, t: nat)
    requires SameElements(ts, keys) && t in keys
    ensures SameElements(Without(ts, t), keys - {t})
  {
    hide NoRepeats; hide Without;
    WithoutElements(ts, t);
  }

  // A process without its last thread, or with one thread less.
  lemma LastGone(table: map<nat, Thread>, procs: map<nat, Proc>, t: nat, p: nat)
    requires t in table && table[t].process == p && p != 0 && Owned(table, procs) && Counted(table, procs) && procs[p].instances == 1
    ensures Owned(table - {t}, procs - {p}) && Counted(table - {t}, procs - {p})
  {
    hide Members;
    forall q ensures |Members(table - {t}, q)| == |Members(table, q)| - (if p == q then 1 else 0) {
      MembersLess(table, t, q);
    }
    OnlyMember(table, t);
    NobodyElse(table, t);
  }

  lemma NobodyElse(table: map<nat, Thread>, t: nat)
    requires t in table && Members(table, table[t].process) == {t}
    ensures forall u :: u in table && u != t ==> table[u].process != table[t].process
  {
    forall u | u in table && u != t ensures table[u].process != table[t].process {
      assert u !in Members(table, table[t].process);
    }
  }

  lemma OneGone(table: map<nat, Thread>, procs: map<nat, Proc>, t: nat, p: nat)
    requires t in table && table[t].process == p && p != 0 && Owned(table, procs) && Counted(table, procs) && procs[p].instances > 1
    ensures Owned(table - {t}, procs[p := procs[p].(instances := procs[p].instances - 1)])
    ensures Counted(table - {t}, procs[p := procs[p].(instances := procs[p].instances - 1)])
  {
    hide Members;
    forall q ensures |Members(table - {t}, q)| == |Members(table, q)| - (if p == q then 1 else 0) {
      MembersLess(table, t, q);
    }
  }

  lemma KernelGone(table: map<nat, Thread>, procs: map<nat, Proc>, t: nat)
    requires t in table && table[t].process == 0 && Owned(table, procs) && Counted(table, procs)
    ensures Owned(table - {t}, procs) && Counted(table - {t}, procs)
  {
    hide Members;
    forall q ensures |Members(table - {t}, q)| == |Members(table, q)| - (if 0 == q then 1 else 0) {
      MembersLess(table, t, q);
    }
  }

  lemma SpaceGone(procs: map<nat, Proc>, kernelCr3: nat, spaces: set<nat>, p: nat)
    requires SpacesOk(procs, kernelCr3, spaces) && p in procs
    ensures SpacesOk(procs - {p}, kernelCr3, spaces - {procs[p].cr3})
  {
    var procs' := procs - {p};
    assert procs[p].cr3 in Cr3s(procs);
    forall x ensures x in Cr3s(procs') <==> x in Cr3s(procs) && x != procs[p].cr3 {
      if x in Cr3s(procs) && x != procs[p].cr3 {
        var q :| q in procs && procs[q].cr3 == x;
        assert q in procs' && procs'[q].cr3 == x;
      }
    }
    assert spaces - {procs[p].cr3} == {kernelCr3} + Cr3s(procs');
  }

  lemma SpacesSame(procs: map<nat, Proc>, kernelCr3: nat, spaces: set<nat>, procs': map<nat, Proc>)
    requires SpacesOk(procs, kernelCr3, spaces) && procs'.Keys == procs.Keys && forall p :: p in procs ==> procs'[p].cr3 == procs[p].cr3
    ensures SpacesOk(procs', kernelCr3, spaces)
  {
    assert Cr3s(procs') == Cr3s(procs);
  }

  // A stopped thread other than the running one: its process goes exactly if no other listed thread
  // belongs to it, and the loaded address space is never the one destroyed.
  lemma ReapKeeps(s: Sched, t: nat)
    requires Base(s) && t in s.table && t != s.current && s.table[t].state == Stopped
    ensures Base(Reap(s, t)) && Reap(s, t).cr3 == s.cr3 && s.cr3 in Reap(s, t).spaces
    ensures forall p :: p in s.procs ==>
      (p !in Reap(s, t).procs <==> s.table[t].process == p && Members(s.table, p) == {t})
  {
    hide Members; hide NoRepeats; hide Without; hide SpacesOk; hide SameElements; hide Counted; hide PidsOk; hide Cr3s;
    var p := s.table[t].process;
    Unlisted(s.threads, s.table.Keys, t);
    assert (s.table - {t}).Keys == s.table.Keys - {t};
    if p == 0 {
      KernelGone(s.table, s.procs, t);
    } else {
      OnlyMember(s.table, t);
      CountOf(s.table, s.procs, p);
      if s.procs[p].instances == 1 {
        NobodyElse(s.table, t);
        LastGone(s.table, s.procs, t, p);
        Unlisted(s.active, s.procs.Keys, p);
        assert (s.procs - {p}).Keys == s.procs.Keys - {p};
        SpaceGone(s.procs, s.kernelCr3, s.spaces, p);
      } else {
        OneGone(s.table, s.procs, t, p);
        SpacesSame(s.procs, s.kernelCr3, s.spaces, Reap(s, t).procs);
        assert Reap(s, t).procs.Keys == s.procs.Keys;
      }
    }
    ReapRest(s, t);
    LoadedExists(Reap(s, t));
  }

  lemma CountOf(table: map<nat, Thread>, procs: map<nat, Proc>, p: nat)
    requires Counted(table, procs) && p in procs
    ensures procs[p].instances == |Members(table, p)| > 0
  {
  }

  lemma ReapRest(s: Sched, t: nat)
    requires t in s.table && PidsOk(s.procs, s.lastPid)
    ensures PidsOk(Reap(s, t).procs, s.lastPid)
  {
    hide Without; hide PidsOk;
    var p := s.table[t].process;
    if p != 0 && p in s.procs && s.procs[p].instances > 0 {
      PidsKept(s.procs, s.procs - {p}, s.lastPid);
      PidsKept(s.procs, s.procs[p := s.procs[p].(instances := s.procs[p].instances - 1)], s.lastPid);
    }
  }

  lemma PidsKept(procs: map<nat, Proc>, procs': map<nat, Proc>, lastPid: int)
    requires PidsOk(procs, lastPid) && forall p :: p in procs' ==> p in procs && procs'[p].pid == procs[p].pid
    ensures PidsOk(procs', lastPid)
  {
  }

  lemma LoadedExists(s: Sched)
    requires ThreadsOk(s) && ProcsOk(s) && SpacesOk(s.procs, s.kernelCr3, s.spaces) && s.cr3 == Space(s, s.current)
    ensures s.cr3 in s.spaces
  {
    hide SameElements; hide Counted; hide PidsOk;
  }

  lemma OnlyMember(table: map<nat, Thread>, t: nat)
    requires t in table
    ensures |Members(table, table[t].process)| == 1 <==> Members(table, table[t].process) == {t}
  {
    var ms := Members(table, table[t].process);
    assert t in ms;
    if |ms| == 1 {
      assert |ms - {t}| == 0;
      assert ms == {t};
    }
  }

  // ----- one tick -----

  ghost function FirstRunning(s: Sched, ts: seq<nat>): (k: nat)
    requires forall t :: t in ts ==> t in s.table
    requires exists t :: t in ts && s.table[t].state == Running
    ensures k < |ts| && s.table[ts[k]].state == Running
    ensures forall j :: 0 <= j < k ==> s.table[ts[j]].state != Running
  {
    if s.table[ts[0]].state == Running then 0 else 1 + FirstRunning(s, ts[1..])
  }

  // The stopped threads among `ts` are destroyed, except the one that was running.
  function ReapAll(s: Sched, ts: seq<nat>): Sched
    decreases |ts|
  {
    if ts == [] then s
    else
      var r := ReapAll(s, ts[..|ts| - 1]);
      var t := ts[|ts| - 1];
      if t in r.table && r.table[t].state == Stopped && t != r.current then Reap(r, t) else r
  }

  // The frame of the interrupted thread is saved and it goes to the end of the list.
  function Rotate(s: Sched, f: Frame): Sched
    requires s.current in s.table
  {
    s.(threads := Without(s.threads, s.current) + [s.current],
       table := s.table[s.current := s.table[s.current].(context := f)])
  }

  // The first running thread from the head of the rotated list.
  ghost function Chosen(s: Sched): nat
    requires ThreadsOk(s)
  {
    s.threads[FirstRunning(s, s.threads)]
  }

  // `s` is rotated.
  ghost function Switch(s: Sched): Sched
    requires ThreadsOk(s)
  {
    var k := FirstRunning(s, s.threads);
    var r := ReapAll(s, s.threads[..k]);
    var t := s.threads[k];
    r.(current := t, cr3 := if t in r.table && r.table[t].process in r.procs then r.procs[r.table[t].process].cr3 else s.kernelCr3)
  }

  lemma RotateKeeps(s: Sched, f: Frame)
    requires Base(s)
    ensures Base(Rotate(s, f))
  {
    hide NoRepeats; hide Without; hide SpacesOk; hide PidsOk; hide SameElements; hide Members; hide Counted;
    var s' := Rotate(s, f);
    RotateList(s.threads, s.table.Keys, s.current);
    assert s'.table.Keys == s.table.Keys;
    SameOwners(s.table, s'.table, s.procs);
    assert ThreadsOk(s');
    assert SameElements(s'.active, s'.procs.Keys);
    assert Owned(s'.table, s'.procs);
    assert ProcsOk(s');
    assert s'.cr3 == Space(s', s'.current);
    assert SpacesOk(s'.procs, s'.kernelCr3, s'.spaces);
  }

  lemma SameOwners(table: map<nat, Thread>, table': map<nat, Thread>, procs: map<nat, Proc>)
    requires table'.Keys == table.Keys && forall t :: t in table ==> table'[t].process == table[t].process
    requires Counted(table, procs) && Owned(table, procs)
    ensures Counted(table', procs) && Owned(table', procs)
  {
    forall p ensures Members(table', p) == Members(table, p) {}
  }

  lemma RotateList(ts: seq<nat>, keys: set<nat>, t: nat)
    requires SameElements(ts, keys) && t in keys
    ensures SameElements(Without(ts, t) + [t], keys)
  {
    WithoutElements(ts, t);
  }

  // What destroying threads leaves as it was.
  ghost predicate Trimmed(s: Sched, r: Sched) {
    && r.current == s.current && r.cr3 == s.cr3 && r.kernelCr3 == s.kernelCr3 && r.idle == s.idle
    && r.queues == s.queues && r.lastPid == s.lastPid
    && (forall t :: t in r.table ==> t in s.table && r.table[t] == s.table[t])
    && (forall t :: t in s.table && t !in r.table ==> s.table[t].state == Stopped && t != s.current)
    && (forall p :: p in r.procs ==> p in s.procs && r.procs[p].pid == s.procs[p].pid && r.procs[p].cr3 == s.procs[p].cr3)
  }

  lemma ReapTrims(s: Sched, r: Sched, t: nat)
    requires Trimmed(s, r) && t in r.table && r.table[t].state == Stopped && t != r.current
    ensures Trimmed(s, Reap(r, t))
  {
    hide Without;
  }

  // The list from place `n` on is the end of the other list.
  ghost predicate SameTail(ts: seq<nat>, n: nat, us: seq<nat>) {
    n <= |ts| && |ts| - n <= |us| <= |ts| && us[|us| - (|ts| - n)..] == ts[n..]
  }

  // Destroying the stopped threads of a prefix leaves the rest of the list, and everything about
  // threads that stay, as they were.
  lemma {:induction false} ReapAllKeeps(s: Sched, n: nat)
    requires Base(s) && n <= |s.threads|
    ensures var r := ReapAll(s, s.threads[..n]);
      && Base(r) && Trimmed(s, r) && SameTail(s.threads, n, r.threads)
      && (forall i :: 0 <= i < n && s.table[s.threads[i]].state == Stopped && s.threads[i] != s.current ==> s.threads[i] !in r.table)
  {
    hide Base; hide Trimmed; hide SameTail;
    if n == 0 {
      assert s.threads[..0] == [];
      TailStart(s);
    } else {
      assert s.threads[..n][..n - 1] == s.threads[..n - 1];
      var r, t := ReapAll(s, s.threads[..n - 1]), s.threads[n - 1];
      ReapAllKeeps(s, n - 1);
      TailSize(s.threads, n - 1, r.threads);
      ReapAllStep(s, n, r);
    }
  }

  lemma TailStart(s: Sched)
    ensures Trimmed(s, s) && SameTail(s.threads, 0, s.threads)
  {
  }

  lemma TailSize(ts: seq<nat>, n: nat, us: seq<nat>)
    requires SameTail(ts, n, us) && n < |ts|
    ensures ts[n] in us
  {
    assert us[|us| - (|ts| - n)..][0] == ts[n];
  }

  // Unlinking the first element of the tail moves the tail on by one.
  lemma TailStep(ts: seq<nat>, n: nat, us: seq<nat>)
    requires SameTail(ts, n, us) && n < |ts| && NoRepeats(us)
    ensures ts[n] in us && SameTail(ts, n + 1, us) && SameTail(ts, n + 1, Without(us, ts[n]))
  {
    hide Without; hide NoRepeats;
    var i := |us| - (|ts| - n);
    assert us[i..][0] == ts[n];
    assert us[i + 1..] == us[i..][1..] == ts[n + 1..];
    WithoutAt(us, i);
    assert (us[..i] + us[i + 1..])[i..] == us[i + 1..];
  }

  lemma ReapAllStep(s: Sched, n: nat, r: Sched)
    requires Base(s) && 0 < n <= |s.threads| && Base(r) && Trimmed(s, r) && SameTail(s.threads, n - 1, r.threads)
    ensures var t := s.threads[n - 1];
      && t in r.table && var r' := if r.table[t].state == Stopped && t != r.current then Reap(r, t) else r;
      && Base(r') && Trimmed(s, r') && SameTail(s.threads, n, r'.threads)
      && (s.table[t].state == Stopped && t != s.current ==> t !in r'.table)
      && (forall u :: u in r'.table ==> u in r.table)
  {
    hide Base; hide ReapAll; hide Without; hide NoRepeats; hide Trimmed; hide SameTail;
    var t := s.threads[n - 1];
    ThreadsOf(r);
    ThreadsOf(s);
    TailStep(s.threads, n - 1, r.threads);
    TrimmedAt(s, r, t);
    if r.table[t].state == Stopped && t != r.current {
      ReapTrims(s, r, t);
      ReapKeeps(r, t);
    }
  }

  lemma TrimmedAt(s: Sched, r: Sched, t: nat)
    requires Trimmed(s, r) && t in r.table
    ensures t in s.table && r.table[t] == s.table[t] && r.current == s.current
  {
  }

  lemma ThreadsOf(s: Sched)
    requires Base(s)
    ensures ThreadsOk(s) && NoRepeats(s.threads) && forall t :: t in s.threads <==> t in s.table
  {
  }

  // ----- steps -----

  datatype Event =
    | Tick(frame: Frame)
    | Exit(frame: Frame)
    | QueueSleep(queue: nat, frame: Frame)
    | WakeAll(queue: nat)
    | WaitFor(pid: int, frame: Frame)
    | SpawnKernel(thread: nat, context: Frame)
    | SpawnProcess(proc: nat, thread: nat, cr3: nat, context: Frame, block: bool)
    | SpawnThread(proc: nat, thread: nat, context: Frame)

  // What the callers guarantee: addresses of new records are free, and the idle thread never sleeps.
  ghost predicate Enabled(s: Sched, e: Event)
    requires Inv(s)
  {
    match e
    case Tick(_) => true
    case Exit(_) => true
    case QueueSleep(q, _) => q in s.queues && s.current != s.idle
    case WakeAll(q) => q in s.queues
    case WaitFor(_, _) => s.table[s.current].process != 0
    case SpawnKernel(t, _) => t !in s.table
    case SpawnProcess(p, t, cr3, _, block) =>
      p !in s.procs && p != 0 && t !in s.table && cr3 !in s.spaces && (block ==> s.table[s.current].process != 0)
    case SpawnThread(p, t, _) => p in s.procs && t !in s.table
  }

  // The step stores into allocated thread records only. Every step but a wake-up does; a wake-up writes
  // to the record of each queued thread, wherever that lies.
  predicate Safe(s: Sched, e: Event) {
    e.WakeAll? && e.queue in s.queues ==> forall t :: t in s.queues[e.queue] ==> t in s.table
  }

  // Threads that sleep until process `pid` ends.
  function WakeWaiters(table: map<nat, Thread>, pid: int): map<nat, Thread> {
    map t | t in table :: Woken(table[t], pid)
  }

  function Woken(th: Thread, pid: int): Thread {
    if th.state == Sleeping && th.waitingFor == pid then th.(state := Running, waitingFor := -1) else th
  }

  function WakeListed(table: map<nat, Thread>, ts: seq<nat>): map<nat, Thread> {
    map t | t in table :: if t in ts then table[t].(state := Running) else table[t]
  }

  function NewThread(context: Frame, process: nat): Thread {
    Thread(context, process, Running, 0)
  }

  function Spawned(s: Sched, t: nat, context: Frame, p: nat): Sched {
    s.(threads := s.threads + [t], table := s.table[t := NewThread(context, p)])
  }

  function Adopted(s: Sched, p: nat, cr3: nat): Sched {
    s.(active := s.active + [p], procs := s.procs[p := Proc(s.lastPid + 1, cr3, 0)], lastPid := s.lastPid + 1,
       spaces := s.spaces + {cr3})
  }

  function Hired(s: Sched, p: nat): Sched
    requires p in s.procs
  {
    s.(procs := s.procs[p := s.procs[p].(instances := s.procs[p].instances + 1)])
  }

  function CurrentSet(s: Sched, state: ThreadState, waitingFor: int): Sched
    requires s.current in s.table
  {
    s.(table := s.table[s.current := s.table[s.current].(state := state, waitingFor := waitingFor)])
  }

  // What `scheduler_init` leaves: the idle thread runs, nothing else exists, and the queues are empty.
  function Booted(idle: nat, kernelCr3: nat, queues: set<nat>): Sched {
    Sched([idle], map[idle := Thread(Frame([]), 0, Running, 0)], idle, idle, [], map[], 0, kernelCr3, kernelCr3, {kernelCr3},
          map q | q in queues :: [])
  }

  // The state when the timer interrupt of the step begins, for the steps that yield.
  ghost function Before(s: Sched, e: Event): Sched
    requires Inv(s) && Enabled(s, e)
  {
    var th := s.table[s.current];
    match e
    case Exit(_) =>
      if th.process == 0 then s
      else
        var s1 := s.(table := WakeWaiters(s.table, s.procs[th.process].pid));
        CurrentSet(s1, Stopped, s1.table[s.current].waitingFor)
    case QueueSleep(q, _) => CurrentSet(s, Sleeping, th.waitingFor).(queues := s.queues[q := s.queues[q] + [s.current]])
    case WaitFor(pid, _) => CurrentSet(s, Sleeping, pid)
    case _ => s
  }

  // Whether the step yields the processor.
  ghost predicate Yields(s: Sched, e: Event)
    requires Inv(s)
  {
    e.Tick? || (e.Exit? && s.table[s.current].process != 0) || e.QueueSleep? || e.WaitFor?
  }

  ghost function Step(s: Sched, e: Event): Sched
    requires Inv(s) && Enabled(s, e)
  {
    if Yields(s, e) then Ticked(Before(s, e), e.frame) else
    match e
    case WakeAll(q) => s.(table := WakeListed(s.table, s.queues[q]), queues := s.queues[q := []])
    case SpawnKernel(t, context) => Spawned(s, t, context, 0)
    case SpawnProcess(p, t, cr3, context, block) =>
      var s1 := Spawned(Hired(Adopted(s, p, cr3), p), t, context, p);
      if block then CurrentSet(s1, Sleeping, s.lastPid + 1) else s1
    case SpawnThread(p, t, context) => Spawned(Hired(s, p), t, context, p)
    case _ => s
  }

  ghost function Ticked(s: Sched, f: Frame): Sched {
    if Base(s) then RotateKeeps(s, f); Switch(Rotate(s, f)) else s
  }

  // ----- each step keeps the invariant -----

  lemma SwitchKeeps(s: Sched)
    requires Base(s)
    ensures Inv(Switch(s)) && Switch(s).current == Chosen(s) && s.table[Chosen(s)].state == Running
    ensures SameTail(s.threads, FirstRunning(s, s.threads), Switch(s).threads)
    ensures Trimmed(s, Switch(s).(current := s.current, cr3 := s.cr3))
    ensures forall i :: 0 <= i < FirstRunning(s, s.threads) && s.table[s.threads[i]].state == Stopped && s.threads[i] != s.current ==>
              s.threads[i] !in Switch(s).table
  {
    hide Base; hide Inv; hide ReapAll; hide SameTail; hide Trimmed;
    ThreadsOf(s);
    var k := FirstRunning(s, s.threads);
    var r, t := ReapAll(s, s.threads[..k]), s.threads[k];
    ReapAllKeeps(s, k);
    TailSize(s.threads, k, r.threads);
    ThreadsOf(r);
    TrimmedAt(s, r, t);
    SwitchTo(r, t);
    TrimmedLoose(s, r, t, Switch(s).cr3);
  }

  lemma TrimmedLoose(s: Sched, r: Sched, t: nat, cr3: nat)
    requires Trimmed(s, r)
    ensures r.kernelCr3 == s.kernelCr3 && Trimmed(s, r.(current := t, cr3 := cr3).(current := s.current, cr3 := s.cr3))
  {
  }

  lemma SwitchTo(r: Sched, t: nat)
    requires Base(r) && t in r.table && r.table[t].state == Running
    ensures Inv(r.(current := t, cr3 := if r.table[t].process in r.procs then r.procs[r.table[t].process].cr3 else r.kernelCr3))
  {
    hide NoRepeats; hide SpacesOk; hide PidsOk; hide SameElements; hide Members; hide Counted;
    var s' := r.(current := t, cr3 := if r.table[t].process in r.procs then r.procs[r.table[t].process].cr3 else r.kernelCr3);
    assert ThreadsOk(s');
    assert ProcsOk(s');
    assert s'.cr3 == Space(s', s'.current);
    assert Base(s');
  }

  // A table with the same threads in the same processes.
  lemma TableChange(s: Sched, table: map<nat, Thread>, queues: map<nat, seq<nat>>)
    requires Base(s) && table.Keys == s.table.Keys && forall t :: t in table ==> table[t].process == s.table[t].process
    requires table[s.idle].state == Running
    ensures Base(s.(table := table, queues := queues))
  {
    hide NoRepeats; hide SpacesOk; hide PidsOk; hide SameElements; hide Members; hide Counted;
    SameOwners(s.table, table, s.procs);
  }

  // The running thread goes to sleep or stops.
  lemma CurrentSetKeeps(s: Sched, state: ThreadState, waitingFor: int, queues: map<nat, seq<nat>>)
    requires Base(s) && s.current != s.idle
    ensures Base(CurrentSet(s, state, waitingFor).(queues := queues))
  {
    hide NoRepeats; hide SpacesOk; hide SameElements; hide Members; hide Counted; hide PidsOk;
    var table := CurrentSet(s, state, waitingFor).table;
    assert table.Keys == s.table.Keys;
    TableChange(s, table, queues);
  }

  lemma WakeWaitersKeeps(s: Sched, pid: int)
    requires Base(s)
    ensures Base(s.(table := WakeWaiters(s.table, pid)))
  {
    hide NoRepeats; hide SpacesOk; hide SameElements; hide Members; hide Counted; hide PidsOk;
    var table := WakeWaiters(s.table, pid);
    assert table.Keys == s.table.Keys;
    TableChange(s, table, s.queues);
  }

  lemma CurrentFacts(s: Sched)
    requires Inv(s)
    ensures Base(s) && s.current in s.table && s.idle in s.table && s.table[s.idle].process == 0
    ensures s.table[s.current].process != 0 ==> s.table[s.current].process in s.procs && s.procs[s.table[s.current].process].pid > 0
    ensures s.table[s.current].state != Stopped
  {
  }

  lemma BeforeKeeps(s: Sched, e: Event)
    requires Inv(s) && Enabled(s, e) && Yields(s, e)
    ensures Base(Before(s, e))
  {
    hide Base; hide Inv;
    CurrentFacts(s);
    var th := s.table[s.current];
    match e
    case Exit(_) =>
      var s1 := s.(table := WakeWaiters(s.table, s.procs[th.process].pid));
      WakeWaitersKeeps(s, s.procs[th.process].pid);
      CurrentSetKeeps(s1, Stopped, s1.table[s.current].waitingFor, s.queues);
    case QueueSleep(q, _) =>
      CurrentSetKeeps(s, Sleeping, th.waitingFor, s.queues[q := s.queues[q] + [s.current]]);
    case WaitFor(pid, _) => CurrentSetKeeps(s, Sleeping, pid, s.queues);
    case Tick(_) =>
  }

  lemma WakeKeeps(s: Sched, q: nat)
    requires Inv(s) && q in s.queues
    ensures Inv(s.(table := WakeListed(s.table, s.queues[q]), queues := s.queues[q := []]))
  {
    hide NoRepeats; hide SpacesOk; hide SameElements; hide Members; hide Counted; hide PidsOk;
    var table, queues := WakeListed(s.table, s.queues[q]), s.queues[q := []];
    assert table.Keys == s.table.Keys;
    TableChange(s, table, queues);
  }

  lemma MembersMore(table: map<nat, Thread>, t: nat, th: Thread, p: nat)
    requires t !in table
    ensures |Members(table[t := th], p)| == |Members(table, p)| + (if th.process == p then 1 else 0)
  {
    var table' := table[t := th];
    if th.process == p {
      assert Members(table', p) == Members(table, p) + {t};
    } else {
      assert Members(table', p) == Members(table, p);
    }
  }

  lemma OneMore(table: map<nat, Thread>, procs: map<nat, Proc>, t: nat, th: Thread)
    requires t !in table && Owned(table, procs) && (th.process == 0 || th.process in procs)
    requires forall p :: p in procs ==> procs[p].instances == |Members(table, p)| + (if p == th.process then 1 else 0) > 0
    ensures Owned(table[t := th], procs) && Counted(table[t := th], procs)
  {
    hide Members;
    forall p ensures |Members(table[t := th], p)| == |Members(table, p)| + (if th.process == p then 1 else 0) {
      MembersMore(table, t, th, p);
    }
  }

  lemma NobodyYet(table: map<nat, Thread>, procs: map<nat, Proc>, p: nat)
    requires Owned(table, procs) && p !in procs && p != 0
    ensures |Members(table, p)| == 0
  {
    assert Members(table, p) == {};
  }

  lemma AppendElements(ts: seq<nat>, keys: set<nat>, t: nat)
    requires SameElements(ts, keys) && t !in keys
    ensures SameElements(ts + [t], keys + {t})
  {
  }

  lemma NewSpace(procs: map<nat, Proc>, kernelCr3: nat, spaces: set<nat>, p: nat, pr: Proc)
    requires SpacesOk(procs, kernelCr3, spaces) && p !in procs && pr.cr3 !in spaces
    ensures SpacesOk(procs[p := pr], kernelCr3, spaces + {pr.cr3})
  {
    var procs' := procs[p := pr];
    forall x ensures x in Cr3s(procs') <==> x in Cr3s(procs) || x == pr.cr3 {
      if x in Cr3s(procs) {
        var q :| q in procs && procs[q].cr3 == x;
        assert q in procs' && procs'[q].cr3 == x;
      }
      if x == pr.cr3 { assert p in procs' && procs'[p].cr3 == x; }
    }
    assert spaces + {pr.cr3} == {kernelCr3} + Cr3s(procs');
    forall q | q in procs ensures procs[q].cr3 in spaces {
      assert procs[q].cr3 in Cr3s(procs);
    }
  }

  lemma NewPid(procs: map<nat, Proc>, lastPid: int, p: nat, pr: Proc)
    requires PidsOk(procs, lastPid) && p !in procs && pr.pid == lastPid + 1
    ensures PidsOk(procs[p := pr], lastPid + 1)
  {
  }

  // A thread is added to a process whose count is raised (or to the kernel).
  lemma SpawnKeeps(s: Sched, t: nat, context: Frame, p: nat)
    requires Inv(s) && t !in s.table && (p == 0 || p in s.procs)
    ensures Inv(Spawned(if p == 0 then s else Hired(s, p), t, context, p))
  {
    hide NoRepeats; hide SpacesOk; hide SameElements; hide Members; hide PidsOk; hide Cr3s;
    var s1 := if p == 0 then s else Hired(s, p);
    var s' := Spawned(s1, t, context, p);
    AppendElements(s.threads, s.table.Keys, t);
    assert s'.table.Keys == s.table.Keys + {t};
    assert s1.procs.Keys == s.procs.Keys;
    OneMore(s.table, s1.procs, t, NewThread(context, p));
    PidsKept(s.procs, s1.procs, s.lastPid);
    SpacesSame(s.procs, s.kernelCr3, s.spaces, s1.procs);
  }

  lemma FirstMember(table: map<nat, Thread>, procs: map<nat, Proc>, p: nat, pr: Proc, t: nat, th: Thread)
    requires Owned(table, procs) && Counted(table, procs) && p !in procs && p != 0 && t !in table && th.process == p && pr.instances == 1
    ensures Owned(table[t := th], procs[p := pr]) && Counted(table[t := th], procs[p := pr])
  {
    hide Members;
    NobodyYet(table, procs, p);
    OneMore(table, procs[p := pr], t, th);
  }

  lemma ProcessKeeps(s: Sched, p: nat, t: nat, cr3: nat, context: Frame)
    requires Inv(s) && p !in s.procs && p != 0 && t !in s.table && cr3 !in s.spaces
    ensures Inv(Spawned(Hired(Adopted(s, p, cr3), p), t, context, p))
  {
    hide NoRepeats; hide SpacesOk; hide SameElements; hide Members; hide Cr3s; hide PidsOk; hide Counted;
    FirstMember(s.table, s.procs, p, Proc(s.lastPid + 1, cr3, 1), t, NewThread(context, p));
    NewPid(s.procs, s.lastPid, p, Proc(s.lastPid + 1, cr3, 1));
    var s1 := Hired(Adopted(s, p, cr3), p);
    var s' := Spawned(s1, t, context, p);
    AppendElements(s.threads, s.table.Keys, t);
    AppendElements(s.active, s.procs.Keys, p);
    assert s'.table.Keys == s.table.Keys + {t};
    assert s1.procs == s.procs[p := Proc(s.lastPid + 1, cr3, 1)] && s1.procs.Keys == s.procs.Keys + {p};
    NewSpace(s.procs, s.kernelCr3, s.spaces, p, Proc(s.lastPid + 1, cr3, 1));
  }

  lemma BlockKeeps(s: Sched, pid: int)
    requires Inv(s) && s.current != s.idle
    ensures Inv(CurrentSet(s, Sleeping, pid))
  {
    hide Base;
    CurrentFacts(s);
    CurrentSetKeeps(s, Sleeping, pid, s.queues);
    assert CurrentSet(s, Sleeping, pid).(queues := s.queues) == CurrentSet(s, Sleeping, pid);
  }

  lemma TickedKeeps(s: Sched, f: Frame)
    requires Base(s)
    ensures Inv(Ticked(s, f))
  {
    hide Rotate; hide Switch; hide Inv; hide ThreadsOk; hide ProcsOk; hide SpacesOk;
    RotateKeeps(s, f);
    CurrentListed(s);
    SwitchKeeps(Rotate(s, f));
  }

  lemma CurrentListed(s: Sched)
    requires Base(s)
    ensures s.current in s.table && ThreadsOk(s)
  {
  }

  lemma StepKeeps(s: Sched, e: Event)
    requires Inv(s) && Enabled(s, e)
    ensures Inv(Step(s, e))
  {
    hide Base; hide Inv; hide Ticked; hide Before; hide Spawned; hide Hired; hide Adopted; hide CurrentSet; hide WakeListed;
    CurrentFacts(s);
    ProcNonZero(s);
    if Yields(s, e) {
      BeforeKeeps(s, e);
      TickedKeeps(Before(s, e), e.frame);
    } else {
      match e
      case WakeAll(q) => WakeKeeps(s, q);
      case SpawnKernel(t, context) => SpawnKeeps(s, t, context, 0);
      case SpawnProcess(p, t, cr3, context, block) =>
        ProcessKeeps(s, p, t, cr3, context);
        ProcessOwner(s, p, t, cr3, context);
        if block { BlockKeeps(Spawned(Hired(Adopted(s, p, cr3), p), t, context, p), s.lastPid + 1); }
      case SpawnThread(p, t, context) => SpawnKeeps(s, t, context, p);
      case _ =>
    }
  }

  lemma ProcNonZero(s: Sched)
    requires Inv(s)
    ensures 0 !in s.procs && s.lastPid + 1 > 0
  {
  }

  lemma ProcessOwner(s: Sched, p: nat, t: nat, cr3: nat, context: Frame)
    ensures p in Adopted(s, p, cr3).procs
    ensures var s' := Spawned(Hired(Adopted(s, p, cr3), p), t, context, p); s'.current == s.current && s'.idle == s.idle
  {
  }
}
