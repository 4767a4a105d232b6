/** What each step does to every thread, in terms of the thread records before and after. */
module StepEffects {
  import opened Scheduling
  import opened SchedulerRuns
  import opened TickRuns

  // Nobody is new, and every thread but the one that ran is as it was; only stopped ones may have gone.
  ghost predicate Others(s: Sched, s': Sched) {
    && (forall x :: x in s'.table ==> x in s.table)
    && (forall x :: x in s.table && x != s.current && x in s'.table ==> s'.table[x] == s.table[x])
    && (forall x :: x in s.table && x !in s'.table ==> s.table[x].state == Stopped)
  }

  // The thread that ran has frame `f` saved and is in that state; nobody else changed.
  ghost predicate Left(s: Sched, s': Sched, f: Frame, state: ThreadState, waitingFor: int) {
    && s.current in s.table && s.current in s'.table
    && s'.table[s.current] == Thread(f, s.table[s.current].process, state, waitingFor)
    && Others(s, s') && s'.current in s'.table && s'.table[s'.current].state == Running
  }

  // Process `pid` ended: exactly the threads that sleep until then are ready, the thread that ran has
  // stopped, and nobody else changed.
  ghost predicate Ended(s: Sched, s': Sched, pid: int) {
    && s.current in s'.table && s'.table[s.current].state == Stopped && s'.queues == s.queues
    && s'.current in s'.table && s'.table[s'.current].state == Running
    && (forall x :: x in s'.table ==> x in s.table)
    && (forall x :: x in s.table && x != s.current && s.table[x].state == Sleeping && s.table[x].waitingFor == pid ==>
          x in s'.table && s'.table[x] == Thread(s.table[x].context, s.table[x].process, Running, -1))
    && (forall x :: x in s.table && x != s.current && !(s.table[x].state == Sleeping && s.table[x].waitingFor == pid) ==>
          if x in s'.table then s'.table[x] == s.table[x] else s.table[x].state == Stopped)
  }

  // Exactly the threads of queue `q` are ready, which is empty; everything else is as it was.
  ghost predicate Awakened(s: Sched, s': Sched, q: nat) {
    && q in s.queues && s'.queues == s.queues[q := []] && s' == s.(table := s'.table, queues := s'.queues)
    && s'.table.Keys == s.table.Keys
    && forall t :: t in s.table ==>
         s'.table[t] == if t in s.queues[q] then Thread(s.table[t].context, s.table[t].process, Running, s.table[t].waitingFor) else s.table[t]
  }

  // Thread `t` is new and last in the list, ready to start with its context; of the other threads only
  // the running one may have changed.
  ghost predicate Made(s: Sched, s': Sched, t: nat, context: Frame, p: nat) {
    && t !in s.table && s'.threads == s.threads + [t] && s'.current == s.current && s'.queues == s.queues
    && s'.table.Keys == s.table.Keys + {t} && s'.table[t] == Thread(context, p, Running, 0)
    && forall x :: x in s.table && x != s.current ==> s'.table[x] == s.table[x]
  }

  // ----- steps that yield -----

  lemma TickedTable(s: Sched, f: Frame)
    requires Base(s)
    ensures var s' := Ticked(s, f);
      && s.current in s.table && s'.queues == s.queues && (forall x :: x in s'.table ==> x in s.table && s'.table[x] == if x == s.current then s.table[x].(context := f) else s.table[x])
      && (forall x :: x in s.table && x !in s'.table ==> x != s.current && s.table[x].state == Stopped)
      && s'.current in s'.table && s'.table[s'.current].state == Running
  {
    hide Base; hide Inv; hide Switch; hide Ticked; hide Rotate; hide Trimmed;
    TickedIs(s, f);
    RotateTable(s, f);
    RotatedTable(s, f);
    SwitchKeeps(Rotate(s, f));
    ChosenListed(Rotate(s, f));
    TrimmedTable(Rotate(s, f), Switch(Rotate(s, f)));
    TickedKept(s, f);
    InvThreads(Ticked(s, f));
  }

  lemma RotatedTable(s: Sched, f: Frame)
    requires s.current in s.table
    ensures Rotate(s, f).table == s.table[s.current := s.table[s.current].(context := f)]
    ensures Rotate(s, f).current == s.current && Rotate(s, f).queues == s.queues
  {
  }

  lemma TrimmedTable(s: Sched, s': Sched)
    requires Trimmed(s, s'.(current := s.current, cr3 := s.cr3))
    ensures s'.queues == s.queues && forall x :: x in s'.table ==> x in s.table && s'.table[x] == s.table[x]
    ensures forall x :: x in s.table && x !in s'.table ==> s.table[x].state == Stopped && x != s.current
  {
  }

  // A tick saves the frame of the running thread and changes nothing else about any thread.
  lemma TickEffect(s: Sched, f: Frame)
    requires Inv(s)
    ensures s.current in s.table && Left(s, Step(s, Tick(f)), f, s.table[s.current].state, s.table[s.current].waitingFor)
    ensures Step(s, Tick(f)).queues == s.queues
  {
    hide Base; hide Ticked;
    CurrentFacts(s);
    TickedTable(s, f);
  }

  // The running thread sleeps at the end of queue `q`.
  lemma QueueSleepEffect(s: Sched, q: nat, f: Frame)
    requires Inv(s) && Enabled(s, QueueSleep(q, f))
    ensures var s' := Step(s, QueueSleep(q, f));
      && s.current in s.table && Left(s, s', f, Sleeping, s.table[s.current].waitingFor)
      && s'.queues == s.queues[q := s.queues[q] + [s.current]]
  {
    hide Base; hide Ticked;
    CurrentFacts(s);
    BeforeKeeps(s, QueueSleep(q, f));
    TickedTable(Before(s, QueueSleep(q, f)), f);
  }

  // The running thread sleeps until process `pid` ends.
  lemma WaitForEffect(s: Sched, pid: int, f: Frame)
    requires Inv(s) && Enabled(s, WaitFor(pid, f))
    ensures Left(s, Step(s, WaitFor(pid, f)), f, Sleeping, pid) && Step(s, WaitFor(pid, f)).queues == s.queues
  {
    hide Base; hide Ticked;
    CurrentFacts(s);
    BeforeKeeps(s, WaitFor(pid, f));
    TickedTable(Before(s, WaitFor(pid, f)), f);
  }

  // The end of a process wakes those who wait for it, and nobody else.
  lemma ExitEffect(s: Sched, f: Frame)
    requires Inv(s)
    ensures s.current in s.table
    ensures if s.table[s.current].process == 0 then Step(s, Exit(f)) == s
            else s.table[s.current].process in s.procs && Ended(s, Step(s, Exit(f)), s.procs[s.table[s.current].process].pid)
  {
    hide Base; hide Ticked;
    CurrentFacts(s);
    if s.table[s.current].process != 0 {
      BeforeKeeps(s, Exit(f));
      TickedTable(Before(s, Exit(f)), f);
    }
  }

  // ----- steps that do not yield -----

  lemma WakeAllEffect(s: Sched, q: nat)
    requires Inv(s) && q in s.queues
    ensures Awakened(s, Step(s, WakeAll(q)), q)
  {
    hide Base; hide Inv;
  }

  lemma SpawnKernelEffect(s: Sched, t: nat, context: Frame)
    requires Inv(s) && Enabled(s, SpawnKernel(t, context))
    ensures var s' := Step(s, SpawnKernel(t, context));
      Made(s, s', t, context, 0) && s' == s.(threads := s'.threads, table := s'.table) && (s.current in s.table ==> s'.table[s.current] == s.table[s.current])
  {
    hide Base; hide Inv;
  }

  lemma SpawnThreadEffect(s: Sched, p: nat, t: nat, context: Frame)
    requires Inv(s) && Enabled(s, SpawnThread(p, t, context))
    ensures var s' := Step(s, SpawnThread(p, t, context));
      && Made(s, s', t, context, p) && (s.current in s.table ==> s'.table[s.current] == s.table[s.current])
      && s'.procs == s.procs[p := Proc(s.procs[p].pid, s.procs[p].cr3, s.procs[p].instances + 1)]
      && s' == s.(threads := s'.threads, table := s'.table, procs := s'.procs)
  {
    hide Base; hide Inv;
  }

  // The process has the next pid and one thread; the caller of a blocking call waits for that pid.
  lemma SpawnProcessEffect(s: Sched, p: nat, t: nat, cr3: nat, context: Frame, block: bool)
    requires Inv(s) && Enabled(s, SpawnProcess(p, t, cr3, context, block))
    ensures var s' := Step(s, SpawnProcess(p, t, cr3, context, block));
      && Made(s, s', t, context, p) && s'.active == s.active + [p] && s'.lastPid == s.lastPid + 1
      && s'.procs == s.procs[p := Proc(s.lastPid + 1, cr3, 1)] && s'.spaces == s.spaces + {cr3} && s'.cr3 == s.cr3
      && s.current in s.table && s'.table[s.current] ==
         if block then Thread(s.table[s.current].context, s.table[s.current].process, Sleeping, s.lastPid + 1) else s.table[s.current]
  {
    hide Base;
    CurrentFacts(s);
    hide Inv;
  }

  // A new thread first runs with the context it was given, however long it waits for that.
  lemma StartsWithContext(s: Sched, e: Event, es: seq<Event>)
    requires Inv(s) && Enabled(s, e) && (e.SpawnKernel? || e.SpawnThread? || e.SpawnProcess?) && Legal(Step(s, e), es)
    requires Waiting(Step(s, e), es, e.thread) && After(Step(s, e), es).current == e.thread
    ensures Inv(After(Step(s, e), es)) && Resumed(After(Step(s, e), es)) == e.context
  {
    hide Base; hide Inv; hide Enabled; hide Step;
    RunKeeps(Step(s, e), es);
    InvThreads(After(Step(s, e), es));
    match e {
      case SpawnKernel(t, context) => SpawnKernelEffect(s, t, context);
      case SpawnProcess(p, t, cr3, context, block) => SpawnProcessEffect(s, p, t, cr3, context, block);
      case SpawnThread(p, t, context) => SpawnThreadEffect(s, p, t, context);
    }
    ContextWaits(Step(s, e), es, e.thread);
  }
}
