/** Wait queues: when the threads in them stay allocated and asleep until they are woken. */
module WaitQueues {
  import opened Scheduling
  import opened SchedulerRuns
  import opened TickRuns

  // Asleep, and not waiting for a process to end.
  predicate Waits(table: map<nat, Thread>, t: nat) {
    t in table && table[t].state == Sleeping && table[t].waitingFor <= 0
  }

  ghost predicate OneQueue(queues: map<nat, seq<nat>>) {
    forall p, q, t :: p in queues && q in queues && t in queues[p] && t in queues[q] ==> p == q
  }

  ghost predicate AllWait(table: map<nat, Thread>, queues: map<nat, seq<nat>>) {
    forall q, t :: q in queues && t in queues[q] ==> Waits(table, t)
  }

  ghost predicate ReadyFree(table: map<nat, Thread>) {
    forall t :: t in table && table[t].state == Running ==> table[t].waitingFor <= 0
  }

  // A queued thread is in one queue, asleep, and waits for nothing else, so that waking a queue never
  // revives a stopped thread and never touches a freed one.
  ghost predicate QueuesOk(table: map<nat, Thread>, queues: map<nat, seq<nat>>) {
    AllWait(table, queues) && OneQueue(queues) && ReadyFree(table)
  }

  ghost predicate InNoQueue(queues: map<nat, seq<nat>>, t: nat) {
    forall q :: q in queues ==> t !in queues[q]
  }

  // Thread `u` is ready and belongs to the process that the running thread waits for.
  predicate Child(s: Sched, u: nat) {
    && u in s.table && s.current in s.table && u != s.current && s.table[u].state == Running
    && s.table[u].process in s.procs && s.table[u].process != 0
    && s.procs[s.table[u].process].pid == s.table[s.current].waitingFor && s.table[s.current].process != 0
  }

  // The running thread waits for a process only if that has a thread that is ready.
  ghost predicate ChildReady(s: Sched) {
    s.current in s.table && s.table[s.current].waitingFor > 0 ==> exists u :: Child(s, u)
  }

  // Between steps the running thread is in no queue. It waits for a process only if it has just started
  // it and goes on until its next tick.
  ghost predicate Quiet(s: Sched) {
    Inv(s) && QueuesOk(s.table, s.queues) && InNoQueue(s.queues, s.current) && ChildReady(s)
  }

  // Nobody joins a queue while waiting for a process as well.
  predicate Careful(s: Sched, e: Event) {
    e.QueueSleep? && s.current in s.table ==> s.table[s.current].waitingFor <= 0
  }

  ghost predicate CarefulRun(s: Sched, es: seq<Event>)
    requires Legal(s, es)
    decreases |es|
  {
    es == [] || (Careful(s, es[0]) && CarefulRun(Step(s, es[0]), es[1..]))
  }

  // Every queued thread is allocated and asleep.
  ghost predicate AllAsleep(s: Sched) {
    forall q, t :: q in s.queues && t in s.queues[q] ==> t in s.table && s.table[t].state == Sleeping
  }

  lemma QuietAsleep(s: Sched)
    requires AllWait(s.table, s.queues)
    ensures AllAsleep(s)
  {
    forall q, t | q in s.queues && t in s.queues[q] ensures t in s.table && s.table[t].state == Sleeping {
      assert Waits(s.table, t);
    }
  }

  // ----- careful steps -----

  // Queued threads stay as they were.
  lemma WaitOn(table: map<nat, Thread>, table': map<nat, Thread>, queues: map<nat, seq<nat>>)
    requires AllWait(table, queues)
    requires forall t :: t in table && table[t].state == Sleeping && table[t].waitingFor <= 0 && !InNoQueue(queues, t) ==>
               t in table' && table'[t].state == Sleeping && table'[t].waitingFor <= 0
    ensures AllWait(table', queues)
  {
    forall q, t | q in queues && t in queues[q] ensures Waits(table', t) {
      assert Waits(table, t) && !InNoQueue(queues, t);
    }
  }

  // The ticked state: only contexts changed, and only stopped threads went.
  lemma KeptQueues(s: Sched, s': Sched)
    requires Kept(s, s') && QueuesOk(s.table, s.queues)
    ensures QueuesOk(s'.table, s'.queues)
  {
    forall x | x in s'.table && s'.table[x].state == Running ensures s'.table[x].waitingFor <= 0 {
      assert s'.table[x].state == s.table[x].state && s'.table[x].waitingFor == s.table[x].waitingFor;
    }
    KeptSleepers(s, s');
    WaitOn(s.table, s'.table, s.queues);
  }

  lemma KeptSleepers(s: Sched, s': Sched)
    requires Kept(s, s')
    ensures forall t :: t in s.table && s.table[t].state == Sleeping ==>
              t in s'.table && s'.table[t].state == Sleeping && s'.table[t].waitingFor == s.table[t].waitingFor
  {
  }

  lemma ReadyInNoQueue(table: map<nat, Thread>, queues: map<nat, seq<nat>>, t: nat)
    requires QueuesOk(table, queues) && t in table && table[t].state == Running
    ensures InNoQueue(queues, t) && table[t].waitingFor <= 0
  {
    forall q | q in queues ensures t !in queues[q] {
      WaitsAt(table, queues, q, t);
    }
  }

  lemma WaitsAt(table: map<nat, Thread>, queues: map<nat, seq<nat>>, q: nat, t: nat)
    requires AllWait(table, queues) && q in queues
    ensures t in queues[q] ==> Waits(table, t)
  {
  }

  // A tick leaves the queues alone and picks a thread outside them.
  lemma TickedQuiet(s: Sched, f: Frame)
    requires Base(s) && QueuesOk(s.table, s.queues)
    ensures Quiet(Ticked(s, f))
  {
    hide Base; hide Inv; hide Ticked; hide QueuesOk; hide InNoQueue; hide Child;
    TickedKept(s, f);
    var s' := Ticked(s, f);
    KeptQueues(s, s');
    KeptFields(s, s', s'.current);
    ReadyInNoQueue(s.table, s.queues, s'.current);
  }

  lemma KeptFields(s: Sched, s': Sched, t: nat)
    requires Kept(s, s') && t in s.table && s.table[t].state != Stopped
    ensures t in s'.table && s'.table[t].state == s.table[t].state && s'.table[t].waitingFor == s.table[t].waitingFor
    ensures s'.table[t].process == s.table[t].process && s'.queues == s.queues
  {
  }

  // The running thread, which is in no queue, changes state and does not become ready.
  lemma SetQuiet(table: map<nat, Thread>, queues: map<nat, seq<nat>>, t: nat, th: Thread)
    requires QueuesOk(table, queues) && t in table && InNoQueue(queues, t) && th.state != Running
    ensures QueuesOk(table[t := th], queues)
  {
    hide OneQueue;
    hide InNoQueue;
    WaitOn(table, table[t := th], queues);
  }

  // The same, and it joins a queue.
  lemma JoinQuiet(table: map<nat, Thread>, queues: map<nat, seq<nat>>, t: nat, th: Thread, q: nat)
    requires QueuesOk(table, queues) && t in table && InNoQueue(queues, t) && th.state == Sleeping && th.waitingFor <= 0 && q in queues
    ensures QueuesOk(table[t := th], queues[q := queues[q] + [t]])
  {
    SetQuiet(table, queues, t, th);
    var queues' := queues[q := queues[q] + [t]];
    forall p, x | p in queues' && x in queues'[p] ensures Waits(table[t := th], x) {
      if x != t { assert x in queues[p]; assert Waits(table, x); }
    }
    JoinOne(queues, q, t);
  }

  lemma JoinOne(queues: map<nat, seq<nat>>, q: nat, t: nat)
    requires OneQueue(queues) && InNoQueue(queues, t) && q in queues
    ensures OneQueue(queues[q := queues[q] + [t]])
  {
    var queues' := queues[q := queues[q] + [t]];
    forall p, x | p in queues' && x in queues'[p] ensures (x == t && p == q) || (x != t && p in queues && x in queues[p]) {}
  }

  // Threads that wait for a process become ready and wait for nothing.
  lemma WakeWaitersQuiet(table: map<nat, Thread>, queues: map<nat, seq<nat>>, pid: int)
    requires QueuesOk(table, queues) && pid > 0
    ensures QueuesOk(WakeWaiters(table, pid), queues)
  {
    hide OneQueue; hide InNoQueue;
    WaitOn(table, WakeWaiters(table, pid), queues);
  }

  lemma WakeWaitersAt(table: map<nat, Thread>, pid: int)
    ensures WakeWaiters(table, pid).Keys == table.Keys
  {
  }

  lemma BeforeQuiet(s: Sched, e: Event)
    requires Quiet(s) && Enabled(s, e) && Yields(s, e) && Careful(s, e)
    ensures QueuesOk(Before(s, e).table, Before(s, e).queues)
  {
    hide Base; hide Inv; hide Child; hide ChildReady; hide QueuesOk; hide InNoQueue; hide WakeWaiters;
    CurrentFacts(s);
    var th, t := s.table[s.current], s.current;
    match e
    case Exit(_) =>
      var pid := s.procs[th.process].pid;
      WakeWaitersQuiet(s.table, s.queues, pid);
      var table := WakeWaiters(s.table, pid);
      WakeWaitersAt(s.table, pid);
      SetQuiet(table, s.queues, t, table[t].(state := Stopped));
    case QueueSleep(q, _) => JoinQuiet(s.table, s.queues, t, th.(state := Sleeping), q);
    case WaitFor(pid, _) => SetQuiet(s.table, s.queues, t, th.(state := Sleeping, waitingFor := pid));
    case Tick(_) =>
  }

  lemma WakeListedQuiet(table: map<nat, Thread>, queues: map<nat, seq<nat>>, q: nat)
    requires QueuesOk(table, queues) && q in queues
    ensures QueuesOk(WakeListed(table, queues[q]), queues[q := []])
    ensures forall t :: t in queues[q] ==> t in table
  {
    var table', queues' := WakeListed(table, queues[q]), queues[q := []];
    forall p, t | p in queues' && t in queues'[p] ensures Waits(table', t) {
      assert Waits(table, t) && p != q && t !in queues[q];
    }
    forall t | t in queues[q] ensures t in table && table[t].waitingFor <= 0 {
      assert Waits(table, t);
    }
    assert OneQueue(queues') by {
      forall p, t | p in queues' && t in queues'[p] ensures p in queues && t in queues[p] {}
    }
  }

  lemma WakeQuiet(s: Sched, q: nat)
    requires Quiet(s) && q in s.queues
    ensures Safe(s, WakeAll(q)) && Quiet(Step(s, WakeAll(q)))
  {
    hide Base; hide Inv; hide Ticked; hide QueuesOk; hide Child; hide ChildReady; hide WakeListed; hide InNoQueue;
    StepKeeps(s, WakeAll(q));
    WakeListedQuiet(s.table, s.queues, q);
    StillInNoQueue(s.queues, q, s.current);
    ChildAwake(s, s.queues[q], s.queues[q := []]);
  }

  lemma StillInNoQueue(queues: map<nat, seq<nat>>, q: nat, t: nat)
    requires InNoQueue(queues, t) && q in queues
    ensures InNoQueue(queues[q := []], t) && t !in queues[q]
  {
  }

  lemma ChildAwake(s: Sched, ts: seq<nat>, queues: map<nat, seq<nat>>)
    requires ChildReady(s) && s.current !in ts
    ensures ChildReady(s.(table := WakeListed(s.table, ts), queues := queues))
  {
    var s' := s.(table := WakeListed(s.table, ts), queues := queues);
    if s.current in s.table && s.table[s.current].waitingFor > 0 {
      var u :| Child(s, u);
      assert Child(s', u);
    }
  }

  // A thread is created: nothing about the other threads and processes changes, but the running thread
  // may start to wait for the new process.
  ghost predicate Grown(s: Sched, e: Event, s': Sched) {
    && s'.queues == s.queues && s'.current == s.current && s.current in s.table && s.current in s'.table
    && (forall t :: t in s.table && t != s.current ==> t in s'.table && s'.table[t] == s.table[t])
    && (forall t :: t in s'.table && t !in s.table ==> s'.table[t].waitingFor == 0)
    && (forall p :: p in s.procs ==> p in s'.procs && s'.procs[p].pid == s.procs[p].pid)
    && s'.table[s.current].process == s.table[s.current].process
    && (if e.SpawnProcess? && e.block then s'.table[s.current].state == Sleeping && Child(s', e.thread) else s'.table[s.current] == s.table[s.current])
  }

  lemma SpawnGrows(s: Sched, e: Event)
    requires Inv(s) && Enabled(s, e) && (e.SpawnKernel? || e.SpawnProcess? || e.SpawnThread?)
    ensures Grown(s, e, Step(s, e))
  {
    hide Base; hide Inv; hide Ticked; hide Before; hide Grown; hide Spawned; hide Hired; hide Adopted; hide CurrentSet;
    CurrentFacts(s);
    ProcNonZero(s);
    match e
    case SpawnKernel(t, context) => ThreadGrows(s, s, e, t, context, 0);
    case SpawnThread(p, t, context) =>
      HiredSame(s, p);
      ThreadGrows(s, Hired(s, p), e, t, context, p);
    case SpawnProcess(p, t, cr3, context, block) =>
      AdoptedSame(s, p, cr3);
      ThreadGrows(s, Hired(Adopted(s, p, cr3), p), SpawnThread(p, t, context), t, context, p);
      ProcessGrows(s, e);
  }

  // Nothing about the threads, and the pids of the processes, changed.
  ghost predicate SameThreads(s: Sched, s1: Sched) {
    && s1.table == s.table && s1.queues == s.queues && s1.current == s.current
    && (forall p :: p in s.procs ==> p in s1.procs && s1.procs[p].pid == s.procs[p].pid)
  }

  lemma HiredSame(s: Sched, p: nat)
    requires p in s.procs
    ensures SameThreads(s, Hired(s, p))
  {
  }

  lemma AdoptedSame(s: Sched, p: nat, cr3: nat)
    requires p !in s.procs
    ensures p in Adopted(s, p, cr3).procs && SameThreads(s, Hired(Adopted(s, p, cr3), p))
    ensures p in Hired(Adopted(s, p, cr3), p).procs && Hired(Adopted(s, p, cr3), p).procs[p].pid == s.lastPid + 1
  {
  }

  lemma ThreadGrows(s: Sched, s1: Sched, e: Event, t: nat, context: Frame, p: nat)
    requires SameThreads(s, s1) && s.current in s.table && t !in s.table && !e.SpawnProcess?
    ensures Grown(s, e, Spawned(s1, t, context, p))
  {
  }

  lemma ProcessGrows(s: Sched, e: Event)
    requires e.SpawnProcess? && s.current in s.table && e.thread !in s.table && e.proc !in s.procs && e.proc != 0
    requires e.block ==> s.table[s.current].process != 0
    requires Grown(s, SpawnThread(e.proc, e.thread, e.context), Spawned(Hired(Adopted(s, e.proc, e.cr3), e.proc), e.thread, e.context, e.proc))
    ensures var s1 := Spawned(Hired(Adopted(s, e.proc, e.cr3), e.proc), e.thread, e.context, e.proc);
      Grown(s, e, if e.block then CurrentSet(s1, Sleeping, s.lastPid + 1) else s1)
  {
    var s1 := Spawned(Hired(Adopted(s, e.proc, e.cr3), e.proc), e.thread, e.context, e.proc);
    hide Child;
    if e.block { BlockGrows(s, e, s1); }
  }

  lemma BlockGrows(s: Sched, e: Event, s1: Sched)
    requires e.SpawnProcess? && e.block && Grown(s, SpawnThread(e.proc, e.thread, e.context), s1) && e.thread != s.current
    requires s.table[s.current].process != 0 && e.proc != 0 && e.proc in s1.procs && s1.procs[e.proc].pid == s.lastPid + 1
    requires e.thread in s1.table && s1.table[e.thread].state == Running && s1.table[e.thread].process == e.proc
    ensures Grown(s, e, CurrentSet(s1, Sleeping, s.lastPid + 1))
  {
  }

  lemma GrownQuiet(s: Sched, e: Event, s': Sched)
    requires Grown(s, e, s') && QueuesOk(s.table, s.queues) && InNoQueue(s.queues, s.current) && ChildReady(s)
    ensures QueuesOk(s'.table, s'.queues) && ChildReady(s')
  {
    WaitOn(s.table, s'.table, s.queues);
    hide InNoQueue; hide AllWait; hide OneQueue;
    if s.table[s.current].waitingFor > 0 && !(e.SpawnProcess? && e.block) {
      var u :| Child(s, u);
      assert Child(s', u);
    }
  }

  lemma SpawnQuiet(s: Sched, e: Event)
    requires Quiet(s) && Enabled(s, e) && (e.SpawnKernel? || e.SpawnProcess? || e.SpawnThread?)
    ensures Quiet(Step(s, e))
  {
    hide Inv; hide QueuesOk; hide ChildReady; hide Child; hide Step; hide Enabled;
    StepKeeps(s, e);
    SpawnGrows(s, e);
    GrownQuiet(s, e, Step(s, e));
  }

  lemma QuietKeeps(s: Sched, e: Event)
    requires Quiet(s) && Enabled(s, e) && Careful(s, e)
    ensures Safe(s, e) && Quiet(Step(s, e))
  {
    hide Base; hide Ticked; hide Before; hide QueuesOk; hide Spawned; hide Hired; hide Adopted; hide CurrentSet; hide WakeListed; hide Child;
    if Yields(s, e) {
      BeforeKeeps(s, e);
      BeforeQuiet(s, e);
      TickedQuiet(Before(s, e), e.frame);
    } else {
      match e
      case WakeAll(q) => WakeQuiet(s, q);
      case SpawnKernel(_, _) => SpawnQuiet(s, e);
      case SpawnProcess(_, _, _, _, _) => SpawnQuiet(s, e);
      case SpawnThread(_, _, _) => SpawnQuiet(s, e);
      case _ =>
    }
  }

  lemma {:induction false} CarefulKeeps(s: Sched, es: seq<Event>)
    requires Quiet(s) && Legal(s, es) && CarefulRun(s, es)
    ensures Quiet(After(s, es))
    decreases |es|
  {
    hide Quiet; hide Inv; hide Step; hide Enabled; hide Safe; hide Careful;
    if es != [] {
      QuietKeeps(s, es[0]);
      CarefulKeeps(Step(s, es[0]), es[1..]);
    }
  }

  // ----- from boot -----

  lemma BootQuiet(idle: nat, kernelCr3: nat, queues: set<nat>)
    ensures Quiet(Booted(idle, kernelCr3, queues))
  {
    var s := Booted(idle, kernelCr3, queues);
    assert Cr3s(s.procs) == {};
    assert s.table.Keys == {idle};
  }
}
