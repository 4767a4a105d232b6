/** A thread that sleeps for two reasons at once: what goes wrong, and exactly when. */
module DoubleSleeps {
  import opened Scheduling
  import opened SchedulerRuns
  import opened TickRuns
  import opened WaitQueues
  import opened StepEffects

  predicate Sleepless(es: seq<Event>) {
    forall e :: e in es ==> !e.QueueSleep?
  }

  // A run without queue sleeps is careful.
  lemma {:induction false} NoSleeps(s: Sched, es: seq<Event>)
    requires Legal(s, es) && Sleepless(es)
    ensures CarefulRun(s, es)
    decreases |es|
  {
    hide Inv; hide Step; hide Enabled; hide Safe;
    if es != [] {
      assert es[0] in es;
      NoSleeps(Step(s, es[0]), es[1..]);
    }
  }

  lemma {:induction false} TicksOnly(fs: seq<Frame>)
    ensures Sleepless(TickEvents(fs))
  {
    if fs != [] { TicksOnly(fs[1..]); }
  }

  lemma OneEvent(s: Sched, e: Event)
    requires Inv(s) && Enabled(s, e) && Safe(s, e) && Inv(Step(s, e))
    ensures Legal(s, [e]) && After(s, [e]) == Step(s, e)
  {
    hide Inv; hide Step; hide Enabled; hide Safe;
    assert [e][1..] == [];
    assert Legal(Step(s, e), []);
  }

  lemma ExitStep(s: Sched, f: Frame)
    requires Inv(s) && s.current in s.table && s.table[s.current].process != 0
    ensures s.table[s.current].process in s.procs && Legal(s, [Exit(f)]) && Inv(After(s, [Exit(f)]))
    ensures Ended(s, After(s, [Exit(f)]), s.procs[s.table[s.current].process].pid)
  {
    hide Inv; hide Step; hide Ended; hide Legal; hide After;
    StepKeeps(s, Exit(f));
    ExitEffect(s, f);
    ExitEnabled(s, f);
    OneEvent(s, Exit(f));
  }

  lemma ExitEnabled(s: Sched, f: Frame)
    requires Inv(s)
    ensures Enabled(s, Exit(f))
  {
  }

  // Thread `t` is in queue `q`.
  predicate Listed(s: Sched, q: nat, t: nat) { q in s.queues && t in s.queues[q] }

  // Thread `t` is listed and waits for the process of thread `u`, which is ready.
  ghost predicate Joined(s: Sched, q: nat, t: nat, u: nat) {
    && Inv(s) && Listed(s, q, t) && t in s.table && s.table[t].state == Sleeping && s.table[t].process != 0
    && u in s.table && s.table[u].state == Running && u != t && s.table[u].process in s.procs && s.table[u].process != 0
    && s.procs[s.table[u].process].pid == s.table[t].waitingFor
  }

  // Thread `t` is ready though it is listed.
  ghost predicate Awake(s: Sched, q: nat, t: nat) {
    Inv(s) && Listed(s, q, t) && t in s.table && s.table[t].state == Running && s.table[t].process != 0
  }

  // Thread `t` has stopped though it is listed.
  ghost predicate Over(s: Sched, q: nat, t: nat) {
    Inv(s) && Listed(s, q, t) && t in s.table && s.table[t].state == Stopped && t != s.current
  }

  // The thread that runs ends, when it is reached.
  lemma ReachExit(s: Sched, u: nat) returns (fs: seq<Frame>)
    requires Inv(s) && u in s.table && s.table[u].state == Running && s.table[u].process != 0
    ensures Legal(s, TickEvents(fs))
    ensures var sa, es := After(s, TickEvents(fs)), TickEvents(fs) + [Exit(Frame([]))];
      && Inv(sa) && Kept(s, sa) && sa.current == u && u in sa.table && sa.table[u].process == s.table[u].process
      && sa.table[u].process in sa.procs && Legal(s, es) && Inv(After(s, es)) && Ended(sa, After(s, es), sa.procs[sa.table[u].process].pid)
      && Sleepless(es)
  {
    hide Inv; hide Kept; hide Ended; hide Legal; hide After;
    fs := ReachReady(s, u);
    var sa, f := After(s, TickEvents(fs)), Frame([]);
    AfterInv(s, TickEvents(fs));
    KeptFields(s, sa, u);
    ExitStep(sa, f);
    RunsJoin(s, TickEvents(fs), [Exit(f)]);
    TicksOnly(fs);
  }

  lemma AfterInv(s: Sched, es: seq<Event>)
    requires Legal(s, es)
    ensures Inv(After(s, es))
  {
    RunKeeps(s, es);
  }

  lemma KeptProc(s: Sched, s': Sched, p: nat)
    requires Kept(s, s') && p in s'.procs
    ensures p in s.procs && s'.procs[p].pid == s.procs[p].pid
  {
  }

  lemma EndedAt(s: Sched, s': Sched, pid: int, t: nat)
    requires Ended(s, s', pid) && t in s.table && t != s.current && s.table[t].state == Sleeping && s.table[t].waitingFor == pid
    ensures t in s'.table && s'.table[t].state == Running && s'.table[t].process == s.table[t].process && s'.queues == s.queues
  {
  }

  // The child ends.
  lemma ChildEnds(s: Sched, q: nat, t: nat, u: nat) returns (es: seq<Event>)
    requires Joined(s, q, t, u)
    ensures Legal(s, es) && Sleepless(es) && Awake(After(s, es), q, t)
  {
    hide Inv; hide Kept; hide Ended; hide Legal; hide After;
    var fs := ReachExit(s, u);
    es := TickEvents(fs) + [Exit(Frame([]))];
    var sa := After(s, TickEvents(fs));
    KeptFields(s, sa, t);
    KeptProc(s, sa, s.table[u].process);
    EndedAt(sa, After(s, es), s.table[t].waitingFor, t);
  }

  // The thread ends.
  lemma ThreadEnds(s: Sched, q: nat, t: nat) returns (es: seq<Event>)
    requires Awake(s, q, t)
    ensures Legal(s, es) && Sleepless(es) && Over(After(s, es), q, t)
  {
    hide Inv; hide Kept; hide Legal; hide After;
    var fs := ReachExit(s, t);
    es := TickEvents(fs) + [Exit(Frame([]))];
    KeptFields(s, After(s, TickEvents(fs)), t);
  }

  // The thread is freed.
  lemma ThreadFreed(s: Sched, q: nat, t: nat) returns (es: seq<Event>)
    requires Over(s, q, t)
    ensures Legal(s, es) && Sleepless(es) && Listed(After(s, es), q, t) && t !in After(s, es).table
  {
    hide Inv; hide Legal; hide After;
    var fs := StoppedGoes(s, t);
    es := TickEvents(fs);
    TicksOnly(fs);
  }

  // A run of careful steps after which thread `t` has stopped while it is listed,
  ghost predicate EndsStopped(s: Sched, es: seq<Event>, q: nat, t: nat) {
    && Legal(s, es) && CarefulRun(s, es) && Listed(After(s, es), q, t)
    && t in After(s, es).table && After(s, es).table[t].state == Stopped
  }

  // or is freed while it is listed.
  ghost predicate EndsFreed(s: Sched, es: seq<Event>, q: nat, t: nat) {
    Legal(s, es) && CarefulRun(s, es) && Listed(After(s, es), q, t) && t !in After(s, es).table
  }

  // The running thread joins queue `q` while it waits for its child. Then the child's end makes it ready
  // though it is still listed; when it has ended itself, `stopped` is a run after which a wake-up would
  // revive it, and `freed` goes on until a wake-up would store into its freed record.
  lemma JoinsTwice(s: Sched, q: nat, f: Frame) returns (stopped: seq<Event>, freed: seq<Event>)
    requires Quiet(s) && Enabled(s, QueueSleep(q, f)) && s.current in s.table && s.table[s.current].waitingFor > 0
    ensures EndsStopped(Step(s, QueueSleep(q, f)), stopped, q, s.current)
    ensures EndsFreed(Step(s, QueueSleep(q, f)), freed, q, s.current)
  {
    hide Step; hide QueuesOk; hide Inv; hide Child; hide Joined; hide Awake; hide Legal; hide After; hide CarefulRun;
    var u :| Child(s, u);
    var s1, t := Step(s, QueueSleep(q, f)), s.current;
    JoinStep(s, q, f, u);
    var a := ChildEnds(s1, q, t, u);
    var b := ThreadEnds(After(s1, a), q, t);
    RunsJoin(s1, a, b);
    stopped := a + b;
    var c := ThreadFreed(After(s1, stopped), q, t);
    RunsJoin(s1, stopped, c);
    freed := stopped + c;
    NoSleeps(s1, stopped);
    NoSleeps(s1, freed);
  }

  lemma JoinBefore(s: Sched, q: nat, f: Frame, u: nat)
    requires Quiet(s) && Enabled(s, QueueSleep(q, f)) && Child(s, u)
    ensures s.current in s.table
    ensures var b, t := Before(s, QueueSleep(q, f)), s.current;
      && Listed(b, q, t) && t in b.table && b.table[t].state == Sleeping && b.table[t].process != 0 && u != t
      && b.table[t].waitingFor == s.table[t].waitingFor && Child(b, u) && b.current == t && Base(b)
  {
    hide Base; hide Inv; hide QueuesOk; hide ChildReady; hide InNoQueue;
    CurrentFacts(s);
    BeforeKeeps(s, QueueSleep(q, f));
  }

  // After joining: the thread sleeps in the queue, its child is still ready.
  lemma JoinStep(s: Sched, q: nat, f: Frame, u: nat)
    requires Quiet(s) && Enabled(s, QueueSleep(q, f)) && Child(s, u)
    ensures Joined(Step(s, QueueSleep(q, f)), q, s.current, u)
  {
    hide Base; hide Ticked; hide Before; hide Kept; hide QueuesOk; hide ChildReady; hide InNoQueue; hide Enabled;
    JoinBefore(s, q, f, u);
    StepKeeps(s, QueueSleep(q, f));
    hide Inv;
    var b := Before(s, QueueSleep(q, f));
    TickedKept(b, f);
    KeptFields(b, Ticked(b, f), s.current);
    KeptFields(b, Ticked(b, f), u);
    OwnerListed(Ticked(b, f), u);
    KeptProc(b, Ticked(b, f), b.table[u].process);
  }

  lemma OwnerListed(s: Sched, u: nat)
    requires Inv(s) && u in s.table && s.table[u].process != 0
    ensures s.table[u].process in s.procs
  {
  }

  // Whatever follows, everybody in a queue stays allocated and asleep, as long as others join with care.
  ghost predicate StayAsleep(s: Sched) {
    forall es :: Legal(s, es) && CarefulRun(s, es) ==> AllAsleep(After(s, es))
  }

  // Joining a queue keeps all queued threads allocated and asleep over every continuation if and only if
  // the thread is not waiting for a process at the call.
  lemma JoinsSafelyExactly(s: Sched, q: nat, f: Frame)
    requires Quiet(s) && Enabled(s, QueueSleep(q, f))
    ensures s.current in s.table && Inv(Step(s, QueueSleep(q, f)))
    ensures StayAsleep(Step(s, QueueSleep(q, f))) <==> s.table[s.current].waitingFor <= 0
  {
    hide Step; hide AllAsleep; hide Legal; hide After; hide CarefulRun;
    assert AllWait(s.table, s.queues) && Inv(s);
    CurrentFacts(s);
    hide Inv; hide QueuesOk; hide ChildReady; hide InNoQueue;
    var e := QueueSleep(q, f);
    StepKeeps(s, e);
    var s1 := Step(s, e);
    if s.table[s.current].waitingFor <= 0 {
      QuietKeeps(s, e);
      forall es | Legal(s1, es) && CarefulRun(s1, es) ensures AllAsleep(After(s1, es)) {
        CarefulKeeps(s1, es);
        QuietSleepers(After(s1, es));
      }
    } else {
      var stopped, freed := JoinsTwice(s, q, f);
      FreedAwake(After(s1, freed), q, s.current);
    }
  }

  lemma QuietSleepers(s: Sched)
    requires Quiet(s)
    ensures AllAsleep(s)
  {
    hide Inv; hide ChildReady; hide InNoQueue; hide AllWait; hide AllAsleep;
    QuietAsleep(s);
  }

  lemma FreedAwake(s: Sched, q: nat, t: nat)
    requires Listed(s, q, t) && t !in s.table
    ensures !AllAsleep(s)
  {
  }

  // ----- from boot -----

  // A run from boot after which waking queue `q` stores into the freed record of thread `t`.
  ghost predicate FreedListed(es: seq<Event>, q: nat, t: nat) {
    var s := Booted(1, 5, {9});
    Legal(s, es) && Listed(After(s, es), q, t) && t !in After(s, es).table && !Safe(After(s, es), WakeAll(q))
  }

  lemma EventThen(s: Sched, e: Event, es: seq<Event>)
    requires Inv(s) && Enabled(s, e) && Safe(s, e) && Legal(Step(s, e), es)
    ensures Legal(s, [e] + es) && After(s, [e] + es) == After(Step(s, e), es)
  {
    hide Inv; hide Step; hide Enabled; hide Safe;
    assert ([e] + es)[1..] == es;
  }

  // The running thread joins while it waits for its child, and is freed while it is still listed.
  lemma JoinedThenFreed(s: Sched, q: nat, f: Frame) returns (es: seq<Event>)
    requires Quiet(s) && Enabled(s, QueueSleep(q, f)) && s.current in s.table && s.table[s.current].waitingFor > 0
    ensures Legal(s, es) && Listed(After(s, es), q, s.current) && s.current !in After(s, es).table
  {
    hide Inv; hide Step; hide Enabled; hide Legal; hide After; hide QueuesOk; hide ChildReady; hide CarefulRun; hide InNoQueue;
    var e := QueueSleep(q, f);
    StepKeeps(s, e);
    var _, freed := JoinsTwice(s, q, f);
    EventThen(s, e, freed);
    es := [e] + freed;
  }

  // The first process runs alone with the idle thread.
  ghost predicate OneProcess(s: Sched) {
    && Quiet(s) && s.table.Keys == {1, 2} && s.table[2].state == Running && s.table[2].process == 100 && s.idle == 1
    && s.procs.Keys == {100} && s.procs[100].cr3 == 6 && s.kernelCr3 == 5 && s.queues.Keys == {9}
  }

  // Ticks bring it to run; it starts a child with a blocking call and joins the queue.
  lemma ProcessThenFreed(s: Sched, f: Frame) returns (es: seq<Event>)
    requires OneProcess(s)
    ensures Legal(s, es) && Listed(After(s, es), 9, 2) && 2 !in After(s, es).table
  {
    hide Quiet; hide Inv; hide Step; hide Kept; hide QueuesOk; hide Enabled; hide Legal; hide After; hide CarefulRun; hide Safe;
    QuietInv(s);
    var fs := ReachReady(s, 2);
    var ticks := TickEvents(fs);
    TicksOnly(fs);
    NoSleeps(s, ticks);
    CarefulKeeps(s, ticks);
    var s2, e := After(s, ticks), SpawnProcess(101, 3, 7, f, true);
    SecondProcess(s, s2, f);
    var rest := JoinedThenFreed(Step(s2, e), 9, f);
    EventThen(s2, e, rest);
    RunsJoin(s, ticks, [e] + rest);
    es := ticks + ([e] + rest);
  }

  lemma QuietInv(s: Sched)
    requires Quiet(s)
    ensures Inv(s)
  {
  }

  // A process starts a child with a blocking call, joins a queue before its next tick, is made ready by
  // the child's end, ends itself, and is freed while it is still listed.
  lemma WakeupOfFreedThread()
    ensures exists es, q, t :: FreedListed(es, q, t)
  {
    hide Quiet; hide Inv; hide Step; hide Enabled; hide Legal; hide After; hide Safe; hide Booted; hide OneProcess;
    var s, f := Booted(1, 5, {9}), Frame([]);
    BootQuiet(1, 5, {9});
    var e := SpawnProcess(100, 2, 6, f, false);
    FirstProcess(s, f);
    var rest := ProcessThenFreed(Step(s, e), f);
    EventThen(s, e, rest);
    FreedUnsafe(After(s, [e] + rest), 9, 2);
    assert FreedListed([e] + rest, 9, 2);
  }

  lemma FreedUnsafe(s: Sched, q: nat, t: nat)
    requires Listed(s, q, t) && t !in s.table
    ensures !Safe(s, WakeAll(q))
  {
  }

  lemma FirstProcess(s: Sched, f: Frame)
    requires s == Booted(1, 5, {9}) && Quiet(s)
    ensures var e := SpawnProcess(100, 2, 6, f, false); Inv(s) && Enabled(s, e) && Safe(s, e) && OneProcess(Step(s, e))
  {
    hide Base; hide Inv; hide Ticked; hide Before; hide Spawned; hide Hired; hide Adopted; hide QueuesOk; hide ChildReady; hide InNoQueue;
    var e := SpawnProcess(100, 2, 6, f, false);
    QuietKeeps(s, e);
    FirstStep(s, f);
  }

  lemma FirstStep(s: Sched, f: Frame)
    requires s == Booted(1, 5, {9})
    ensures 100 in Adopted(s, 100, 6).procs
    ensures var s' := Spawned(Hired(Adopted(s, 100, 6), 100), 2, f, 100);
      && s'.table.Keys == {1, 2} && s'.table[2].state == Running && s'.table[2].process == 100 && s'.idle == 1
      && s'.procs.Keys == {100} && s'.procs[100].cr3 == 6 && s'.kernelCr3 == 5 && s'.queues.Keys == {9}
  {
    var s' := Spawned(Hired(Adopted(s, 100, 6), 100), 2, f, 100);
    assert s'.table.Keys == {1, 2} && s'.procs.Keys == {100} && s'.queues.Keys == {9};
  }

  lemma SecondProcess(s1: Sched, s: Sched, f: Frame)
    requires OneProcess(s1) && Quiet(s) && Kept(s1, s) && s.current == 2
    ensures var e := SpawnProcess(101, 3, 7, f, true);
      && Inv(s) && Enabled(s, e) && Safe(s, e) && Quiet(Step(s, e)) && Inv(Step(s, e)) && Step(s, e).current == 2
      && 2 in Step(s, e).table && Step(s, e).table[2].waitingFor > 0 && Enabled(Step(s, e), QueueSleep(9, f))
  {
    var e := SpawnProcess(101, 3, 7, f, true);
    CurrentFacts(s);
    SpacesAre(s);
    assert Enabled(s, e);
    QuietKeeps(s, e);
    ProcNonZero(s);
    hide Base; hide Inv; hide QueuesOk; hide ChildReady; hide InNoQueue; hide Ticked;
  }

  lemma SpacesAre(s: Sched)
    requires Inv(s)
    ensures s.spaces == {s.kernelCr3} + Cr3s(s.procs)
  {
  }
}
