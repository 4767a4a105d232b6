/** No wake-up is lost: every sleeping thread is in a queue or waits for a process that can still end,
    and exactly which waits break this. */
module Wakeups {
  import opened Scheduling
  import opened SchedulerRuns
  import opened TickRuns
  import opened WaitQueues
  import opened StepEffects

  // Thread `u` of process `pid` has not stopped.
  predicate Lives(s: Sched, u: nat, pid: int) {
    && u in s.table && s.table[u].state != Stopped && s.table[u].process != 0
    && s.table[u].process in s.procs && s.procs[s.table[u].process].pid == pid
  }

  ghost predicate Alive(s: Sched, pid: int) {
    exists u :: Lives(s, u, pid)
  }

  // Somebody can still wake thread `t`: whoever wakes a queue it is in, or a process that ends.
  ghost predicate Expected(s: Sched, t: nat)
    requires t in s.table
  {
    !InNoQueue(s.queues, t) || Alive(s, s.table[t].waitingFor)
  }

  // Everybody who sleeps, but perhaps the threads of `heedless`, can be woken.
  ghost predicate NoneLost(s: Sched, heedless: set<nat>) {
    forall t :: t in s.table && s.table[t].state == Sleeping && t !in heedless ==> Expected(s, t)
  }

  // Nobody but the threads of `heedless` starts to wait for a process all of whose threads have stopped.
  ghost predicate Heedful(s: Sched, e: Event, heedless: set<nat>) {
    e.WaitFor? ==> Alive(s, e.pid) || s.current in heedless
  }

  ghost predicate HeedfulRun(s: Sched, es: seq<Event>, heedless: set<nat>)
    requires Legal(s, es)
    decreases |es|
  {
    es == [] || (Heedful(s, es[0], heedless) && HeedfulRun(Step(s, es[0]), es[1..], heedless))
  }

  // ----- processes that can still end -----

  // No process changes its pid.
  ghost predicate PidsStay(s: Sched, s': Sched) {
    forall p :: p in s.procs && p in s'.procs ==> s'.procs[p].pid == s.procs[p].pid
  }

  lemma StepPids(s: Sched, e: Event)
    requires Inv(s) && Enabled(s, e)
    ensures PidsStay(s, Step(s, e)) && s.lastPid <= Step(s, e).lastPid
  {
    hide Base; hide Inv; hide Ticked;
    if Yields(s, e) {
      BeforeKeeps(s, e);
      TickedKept(Before(s, e), e.frame);
    }
  }

  // Thread `u` has not stopped and has its process.
  ghost predicate Goes(s: Sched, s': Sched, u: nat) {
    u in s.table && u in s'.table && s'.table[u].state != Stopped && s'.table[u].process == s.table[u].process
  }

  lemma AliveStays(s: Sched, s': Sched, pid: int, u: nat)
    requires Lives(s, u, pid) && Goes(s, s', u) && PidsStay(s, s') && Inv(s')
    ensures Alive(s', pid)
  {
    ProcessListed(s', u);
    assert Lives(s', u, pid);
  }

  lemma ProcessListed(s: Sched, u: nat)
    requires Inv(s) && u in s.table && s.table[u].process != 0
    ensures s.table[u].process in s.procs
  {
  }

  lemma LivesBefore(s: Sched, s': Sched, pid: int, u: nat)
    requires Lives(s', u, pid) && u in s.table && Goes(s', s, u) && PidsStay(s, s') && Inv(s)
    ensures Alive(s, pid)
  {
    ProcessListed(s, u);
    assert Lives(s, u, pid);
  }

  // Everybody who has not stopped goes on, except the thread that exits.
  lemma StepGoes(s: Sched, e: Event, u: nat)
    requires Inv(s) && Enabled(s, e) && u in s.table && s.table[u].state != Stopped && !(e.Exit? && u == s.current && s.table[u].process != 0)
    ensures Goes(s, Step(s, e), u)
  {
    hide Inv; hide Step; hide Enabled;
    StepEffect(s, e);
  }

  // The effects of all steps, without the new state of the thread that sleeps.
  lemma StepEffect(s: Sched, e: Event)
    requires Inv(s) && Enabled(s, e)
    ensures s.current in s.table && Effect(s, e, Step(s, e))
  {
    hide Inv; hide Step; hide Left; hide Made; hide Ended; hide Awakened;
    CurrentFacts(s);
    match e
    case Tick(f) => TickEffect(s, f);
    case Exit(f) => ExitEffect(s, f);
    case QueueSleep(q, f) => QueueSleepEffect(s, q, f);
    case WakeAll(q) => WakeAllEffect(s, q);
    case WaitFor(pid, f) => WaitForEffect(s, pid, f);
    case SpawnKernel(t, context) => SpawnKernelEffect(s, t, context);
    case SpawnProcess(p, t, cr3, context, block) => SpawnProcessEffect(s, p, t, cr3, context, block);
    case SpawnThread(p, t, context) => SpawnThreadEffect(s, p, t, context);
  }

  ghost predicate Effect(s: Sched, e: Event, s': Sched)
    requires s.current in s.table
  {
    var th := s.table[s.current];
    th.state != Stopped &&
    match e
    case Tick(f) => Left(s, s', f, th.state, th.waitingFor) && s'.queues == s.queues
    case Exit(_) => if th.process == 0 then s' == s else th.process in s.procs && Ended(s, s', s.procs[th.process].pid)
    case QueueSleep(q, f) => q in s.queues && Left(s, s', f, Sleeping, th.waitingFor) && s'.queues == s.queues[q := s.queues[q] + [s.current]]
    case WakeAll(q) => Awakened(s, s', q)
    case WaitFor(pid, f) => Left(s, s', f, Sleeping, pid) && s'.queues == s.queues
    case SpawnKernel(t, context) => Made(s, s', t, context, 0) && s'.table[s.current] == th
    case SpawnThread(p, t, context) => p in s.procs && Made(s, s', t, context, p) && s'.table[s.current] == th
    case SpawnProcess(p, t, _, context, block) =>
      && Made(s, s', t, context, p) && p != 0 && p !in s.procs && p in s'.procs && s'.procs[p].pid == s.lastPid + 1
      && s'.table[s.current] == if block then Thread(th.context, th.process, Sleeping, s.lastPid + 1) else th
  }

  // ----- no wake-up is lost -----

  // A thread that sleeps after the step slept before it with the same wait, or went to sleep with it.
  lemma SleptBefore(s: Sched, e: Event, s': Sched, t: nat)
    requires s.current in s.table && Effect(s, e, s') && t in s'.table && s'.table[t].state == Sleeping
    ensures t in s.table
    ensures (s.table[t].state == Sleeping && s'.table[t].waitingFor == s.table[t].waitingFor)
         || (t == s.current && (e.QueueSleep? || e.WaitFor? || (e.SpawnProcess? && e.block)))
    ensures e.Exit? && s.table[s.current].process != 0 ==> s'.table[t].waitingFor != s.procs[s.table[s.current].process].pid
  {
  }

  lemma StillListed(s: Sched, e: Event, s': Sched, t: nat)
    requires s.current in s.table && Effect(s, e, s') && t in s'.table && s'.table[t].state == Sleeping
    ensures !InNoQueue(s.queues, t) ==> !InNoQueue(s'.queues, t)
    ensures e.QueueSleep? && t == s.current ==> !InNoQueue(s'.queues, t)
  {
    if !InNoQueue(s.queues, t) {
      var q :| q in s.queues && t in s.queues[q];
      assert q in s'.queues && t in s'.queues[q];
    }
    if e.QueueSleep? && t == s.current {
      assert e.queue in s'.queues && t in s'.queues[e.queue];
    }
  }

  lemma AliveKeeps(s: Sched, e: Event, pid: int)
    requires Inv(s) && Enabled(s, e) && Alive(s, pid) && s.current in s.table
    requires e.Exit? && s.table[s.current].process != 0 && s.table[s.current].process in s.procs ==> pid != s.procs[s.table[s.current].process].pid
    ensures Alive(Step(s, e), pid)
  {
    hide Inv; hide Step; hide Enabled; hide Goes; hide PidsStay;
    var u :| Lives(s, u, pid);
    StepGoes(s, e, u);
    StepPids(s, e);
    StepKeeps(s, e);
    AliveStays(s, Step(s, e), pid, u);
  }

  lemma ChildAlive(s: Sched, e: Event, s': Sched)
    requires s.current in s.table && Effect(s, e, s') && e.SpawnProcess?
    ensures Alive(s', s.lastPid + 1)
  {
    assert Lives(s', e.thread, s.lastPid + 1);
  }

  lemma ExpectedKeeps(s: Sched, e: Event, heedless: set<nat>, t: nat)
    requires Inv(s) && Enabled(s, e) && NoneLost(s, heedless) && Heedful(s, e, heedless) && t !in heedless && t in Step(s, e).table && Step(s, e).table[t].state == Sleeping
    ensures Expected(Step(s, e), t)
  {
    hide Inv; hide Step; hide Enabled; hide Effect; hide Alive; hide InNoQueue;
    var s' := Step(s, e);
    StepEffect(s, e);
    SleptBefore(s, e, s', t);
    StillListed(s, e, s', t);
    SleepWaits(s, e, s', t);
    var pid := s'.table[t].waitingFor;
    if InNoQueue(s'.queues, t) {
      if e.SpawnProcess? && e.block && t == s.current {
        ChildAlive(s, e, s');
      } else {
        assert Alive(s, pid);
        AliveKeeps(s, e, pid);
      }
    }
  }

  lemma SleepWaits(s: Sched, e: Event, s': Sched, t: nat)
    requires s.current in s.table && Effect(s, e, s') && t in s'.table
    ensures t == s.current && e.WaitFor? ==> s'.table[t].waitingFor == e.pid
    ensures t == s.current && e.SpawnProcess? && e.block ==> s'.table[t].waitingFor == s.lastPid + 1
  {
  }

  lemma NoneLostKeeps(s: Sched, e: Event, heedless: set<nat>)
    requires Inv(s) && Enabled(s, e) && NoneLost(s, heedless) && Heedful(s, e, heedless)
    ensures Inv(Step(s, e)) && NoneLost(Step(s, e), heedless)
  {
    hide Inv; hide Step; hide Enabled; hide Heedful; hide Expected;
    StepKeeps(s, e);
    forall t | t in Step(s, e).table && Step(s, e).table[t].state == Sleeping && t !in heedless ensures Expected(Step(s, e), t) {
      ExpectedKeeps(s, e, heedless, t);
    }
  }

  // Over every run, whatever the threads do otherwise.
  lemma {:induction false} HeedfulKeeps(s: Sched, es: seq<Event>, heedless: set<nat>)
    requires NoneLost(s, heedless) && Legal(s, es) && HeedfulRun(s, es, heedless)
    ensures NoneLost(After(s, es), heedless)
    decreases |es|
  {
    hide Inv; hide Step; hide Enabled; hide Safe; hide Heedful; hide NoneLost;
    if es != [] {
      NoneLostKeeps(s, es[0], heedless);
      HeedfulKeeps(Step(s, es[0]), es[1..], heedless);
    }
  }

  lemma BootNoneLost(idle: nat, kernelCr3: nat, queues: set<nat>)
    ensures Inv(Booted(idle, kernelCr3, queues)) && NoneLost(Booted(idle, kernelCr3, queues), {})
  {
    BootQuiet(idle, kernelCr3, queues);
  }

  // ----- waits that never end -----

  // Thread `t` sleeps in no queue and waits for a pid that is given out already, or never will be, and of
  // which no thread goes on.
  ghost predicate Forsaken(s: Sched, t: nat) {
    && t in s.table && t != s.current && s.table[t].state == Sleeping && InNoQueue(s.queues, t)
    && s.table[t].waitingFor <= s.lastPid && !Alive(s, s.table[t].waitingFor)
  }

  // Threads are added to processes that can still end only.
  ghost predicate Tidy(s: Sched, e: Event) {
    Careful(s, e) && (e.SpawnThread? && e.proc in s.procs ==> Alive(s, s.procs[e.proc].pid))
  }

  ghost predicate TidyRun(s: Sched, es: seq<Event>)
    requires Legal(s, es)
    decreases |es|
  {
    es == [] || (Tidy(s, es[0]) && TidyRun(Step(s, es[0]), es[1..]))
  }

  // A step does not bring back a process.
  lemma LivedBefore(s: Sched, e: Event, pid: int, u: nat)
    requires Quiet(s) && Enabled(s, e) && Tidy(s, e) && Lives(Step(s, e), u, pid) && pid <= s.lastPid
    ensures Alive(s, pid)
  {
    hide Inv; hide Step; hide Enabled; hide QueuesOk; hide ChildReady; hide Alive; hide InNoQueue;
    assert QueuesOk(s.table, s.queues) && Inv(s);
    var s' := Step(s, e);
    StepEffect(s, e);
    StepPids(s, e);
    if u in s.table {
      QueuedSleep(s);
      WentBefore(s, e, s', u);
      LivesBefore(s, s', pid, u);
    } else {
      NewLives(s, e, s', u, pid);
    }
  }

  lemma QueuedSleep(s: Sched)
    requires QueuesOk(s.table, s.queues)
    ensures AllAsleep(s)
  {
    QuietAsleep(s);
  }

  lemma WentBefore(s: Sched, e: Event, s': Sched, u: nat)
    requires s.current in s.table && Effect(s, e, s') && AllAsleep(s) && u in s.table && u in s'.table && s'.table[u].state != Stopped
    ensures Goes(s', s, u)
  {
  }

  lemma NewLives(s: Sched, e: Event, s': Sched, u: nat, pid: int)
    requires s.current in s.table && Effect(s, e, s') && Tidy(s, e) && PidsStay(s, s') && Lives(s', u, pid) && u !in s.table && pid <= s.lastPid
    ensures Alive(s, pid)
  {
  }

  lemma ForsakenKeeps(s: Sched, e: Event, t: nat)
    requires Quiet(s) && Enabled(s, e) && Tidy(s, e) && Forsaken(s, t)
    ensures Forsaken(Step(s, e), t)
  {
    hide Inv; hide Step; hide Enabled; hide QueuesOk; hide ChildReady; hide Effect; hide Tidy; hide InNoQueue;
    assert Inv(s);
    var s' := Step(s, e);
    StepEffect(s, e);
    StepPids(s, e);
    StepKeeps(s, e);
    CurrentLives(s);
    StaysForsaken(s, e, s', t);
    if Alive(s', s.table[t].waitingFor) {
      var u :| Lives(s', u, s.table[t].waitingFor);
      LivedBefore(s, e, s.table[t].waitingFor, u);
    }
  }

  lemma CurrentLives(s: Sched)
    requires Inv(s)
    ensures s.current in s.table
    ensures s.table[s.current].process != 0 ==> s.table[s.current].process in s.procs && Alive(s, s.procs[s.table[s.current].process].pid)
  {
    CurrentFacts(s);
    if s.table[s.current].process != 0 {
      assert Lives(s, s.current, s.procs[s.table[s.current].process].pid);
    }
  }

  lemma StaysForsaken(s: Sched, e: Event, s': Sched, t: nat)
    requires s.current in s.table && Effect(s, e, s') && t in s.table && t != s.current && s.table[t].state == Sleeping && InNoQueue(s.queues, t)
    requires e.Exit? && s.table[s.current].process != 0 && s.table[s.current].process in s.procs ==> s.procs[s.table[s.current].process].pid != s.table[t].waitingFor
    ensures t in s'.table && s'.table[t] == s.table[t] && t != s'.current && InNoQueue(s'.queues, t)
  {
    forall q | q in s'.queues ensures q in s.queues && t !in s'.queues[q] {}
  }

  // Nothing that anybody does afterwards wakes such a thread.
  lemma {:induction false} ForsakenForEver(s: Sched, es: seq<Event>, t: nat)
    requires Quiet(s) && Legal(s, es) && TidyRun(s, es) && Forsaken(s, t)
    ensures Forsaken(After(s, es), t)
    decreases |es|
  {
    hide Inv; hide Step; hide Enabled; hide Quiet; hide Forsaken;
    if es != [] {
      assert Careful(s, es[0]);
      QuietKeeps(s, es[0]);
      ForsakenKeeps(s, es[0], t);
      ForsakenForEver(Step(s, es[0]), es[1..], t);
    }
  }

  lemma WaitForsakes(s: Sched, pid: int, f: Frame)
    requires Quiet(s) && Enabled(s, WaitFor(pid, f)) && !Alive(s, pid)
    ensures s.current in s.table && Inv(Step(s, WaitFor(pid, f))) && !NoneLost(Step(s, WaitFor(pid, f)), {})
    ensures pid <= s.lastPid ==> Forsaken(Step(s, WaitFor(pid, f)), s.current)
  {
    hide Inv; hide Step; hide Enabled; hide QueuesOk; hide ChildReady; hide InNoQueue; hide Alive;
    var e, t := WaitFor(pid, f), s.current;
    assert Inv(s) && QueuesOk(s.table, s.queues);
    StepKeeps(s, e);
    StepEffect(s, e);
    StepPids(s, e);
    NotBack(s, e, pid);
    assert !Expected(Step(s, e), t);
  }

  lemma NotBack(s: Sched, e: Event, pid: int)
    requires Quiet(s) && Enabled(s, e) && e.WaitFor? && !Alive(s, pid)
    ensures !Alive(Step(s, e), pid)
  {
    hide Inv; hide Step; hide Enabled; hide QueuesOk; hide ChildReady; hide InNoQueue;
    var s' := Step(s, e);
    assert Inv(s) && QueuesOk(s.table, s.queues);
    if Alive(s', pid) {
      var u :| Lives(s', u, pid);
      StepEffect(s, e);
      StepPids(s, e);
      QueuedSleep(s);
      WentBefore(s, e, s', u);
      LivesBefore(s, s', pid, u);
    }
  }

  // A thread that waits for a process that has ended, or for a pid of zero or less, sleeps for ever.
  lemma WaitsForEver(s: Sched, pid: int, f: Frame, es: seq<Event>)
    requires Quiet(s) && Enabled(s, WaitFor(pid, f)) && !Alive(s, pid) && pid <= s.lastPid
    requires Legal(Step(s, WaitFor(pid, f)), es) && TidyRun(Step(s, WaitFor(pid, f)), es)
    ensures var s' := After(Step(s, WaitFor(pid, f)), es); s.current in s'.table && s'.table[s.current].state == Sleeping
  {
    hide Inv; hide Step; hide Enabled; hide InNoQueue; hide QueuesOk; hide ChildReady; hide Alive;
    WaitForsakes(s, pid, f);
    QuietKeeps(s, WaitFor(pid, f));
    ForsakenForEver(Step(s, WaitFor(pid, f)), es, s.current);
  }

  // Over every continuation in which everybody else waits with heed, each sleeping thread can be woken.
  ghost predicate StayExpected(s: Sched) {
    forall es :: Legal(s, es) && HeedfulRun(s, es, {}) ==> NoneLost(After(s, es), {})
  }

  // Waiting for a process loses no wake-up if and only if the process still has a thread at the call.
  lemma WaitsSafelyExactly(s: Sched, pid: int, f: Frame)
    requires Quiet(s) && Enabled(s, WaitFor(pid, f)) && NoneLost(s, {})
    ensures StayExpected(Step(s, WaitFor(pid, f))) <==> Alive(s, pid)
  {
    hide Inv; hide Step; hide Enabled; hide Alive; hide NoneLost; hide QueuesOk; hide ChildReady; hide InNoQueue;
    var e := WaitFor(pid, f);
    assert Inv(s);
    var s1 := Step(s, e);
    if Alive(s, pid) {
      NoneLostKeeps(s, e, {});
      forall es | Legal(s1, es) && HeedfulRun(s1, es, {}) ensures NoneLost(After(s1, es), {}) {
        HeedfulKeeps(s1, es, {});
      }
    } else {
      WaitForsakes(s, pid, f);
      assert Legal(s1, []) && HeedfulRun(s1, [], {}) && After(s1, []) == s1;
    }
  }
}
