/** The scheduler as it is written: the thread list, the thread and process records and the loaded
    address space, updated in place. Each operation is one step of the state machine. */
module Scheduler {
  import opened Prelude
  import opened Lists
  import opened Scheduling
  import opened WaitQueues
  import opened StepEffects

  // The allocated records by address.
  datatype Records = Records(table: map<nat, Thread>, procs: map<nat, Proc>, queues: map<nat, seq<nat>>)

  class Cpu {
    var threads: seq<nat>
    var current: nat
    const idle: nat
    var active: seq<nat>
    var lastPid: int
    var cr3: nat
    const kernelCr3: nat
    ghost var spaces: set<nat>
    var records: Records

    ghost function Abs(): Sched
      reads this
    {
      Sched(threads, records.table, current, idle, active, records.procs, lastPid, cr3, kernelCr3, spaces, records.queues)
    }

    // `scheduler_init`. `waitQueues` are the queues that the kernel allocates, all of them empty.
    constructor (idleThread: nat, kernelSpace: nat, waitQueues: set<nat>)
      ensures Abs() == Booted(idleThread, kernelSpace, waitQueues) && Quiet(Abs())
    {
      idle, kernelCr3 := idleThread, kernelSpace;
      threads, current, active, lastPid := [idleThread], idleThread, [], 0;
      cr3, spaces := kernelSpace, {kernelSpace};
      records := Records(map[idleThread := Thread(Frame([]), 0, Running, 0)], map[], map q | q in waitQueues :: []);
      BootQuiet(idleThread, kernelSpace, waitQueues);
    }

    method SetState(t: nat, state: ThreadState, waitingFor: int)
      requires t in records.table
      modifies this`records
      ensures records == old(records).(table := old(records).table[t := old(records).table[t].(state := state, waitingFor := waitingFor)])
    {
      records := records.(table := records.table[t := records.table[t].(state := state, waitingFor := waitingFor)]);
    }

    // The process goes with its last thread; its address space is not the loaded one.
    method DestroyThread(t: nat)
      requires Base(Abs()) && t in records.table && t != current && records.table[t].state == Stopped
      modifies this
      ensures Abs() == Reap(old(Abs()), t) && Base(Abs())
    {
      hide Base; hide Without;
      ghost var s := Abs();
      ReapKeeps(s, t);
      OwnerCounted(s, t);
      var p := records.table[t].process;
      threads := Without(threads, t);
      records := records.(table := records.table - {t});
      if p != 0 {
        var left := records.procs[p].instances - 1;
        records := records.(procs := records.procs[p := records.procs[p].(instances := left)]);
        if left == 0 {
          active := Without(active, p);
          assert records.procs[p].cr3 != cr3 by { DestroyedIsNotLoaded(s, t); }
          spaces := spaces - {records.procs[p].cr3};
          assert records.procs - {p} == s.procs - {p};
          records := records.(procs := records.procs - {p});
        }
      }
    }

    // Walks to the first ready thread; stopped threads on the way are destroyed. The walk never
    // runs off the list, because the idle thread is always ready, so falling back to it is not needed.
    method ReapToReady() returns (i: nat)
      requires Base(Abs())
      modifies this
      ensures ThreadsOk(old(Abs())) && Base(Abs()) && i < |threads|
      ensures var s := old(Abs()); var k := FirstRunning(s, s.threads);
        Abs() == ReapAll(s, s.threads[..k]) && threads[i] == s.threads[k] && Trimmed(s, Abs()) && threads[i] in records.table
    {
      hide Base; hide Inv; hide Reap; hide ReapAll; hide Without; hide FirstRunning; hide Trimmed; hide SameTail;
      ghost var s := Abs();
      ThreadsOf(s);
      ghost var k := FirstRunning(s, s.threads);
      ghost var j := 0;
      TailStart(s);
      assert s.threads[..0] == [];
      assert ReapAll(s, []) == s by { ReapNone(s); }
      i := 0;
      ReadyAt(s, s, 0, i, k);
      while records.table[threads[i]].state != Running
        invariant j <= k && i < |threads| && Abs() == ReapAll(s, s.threads[..j]) && Base(Abs()) && Trimmed(s, Abs())
        invariant SameTail(s.threads, j, threads) && i == |threads| - (|s.threads| - j)
        invariant threads[i] == s.threads[j] && threads[i] in records.table && records.table[threads[i]] == s.table[threads[i]]
        decreases |s.threads| - j
      {
        ghost var r := Abs();
        assert s.table[s.threads[j]].state != Running;
        ReapOneMore(s, j);
        ReapAllStep(s, j + 1, r);
        var temp := threads[i];
        if records.table[temp].state == Stopped && temp != current {
          ReapShrinks(r, temp);
          DestroyThread(temp);
        } else {
          i := i + 1;
        }
        j := j + 1;
        ReadyAt(s, Abs(), j, i, k);
      }
      assert j == k by { FirstIs(s, j, k); }
    }

    // Saves the frame of the interrupted thread, moves it to the end, and resumes the first ready
    // thread from the head.
    method SchedulerTick(ctx: Frame) returns (resumed: Frame)
      requires Base(Abs())
      modifies this
      ensures Abs() == Ticked(old(Abs()), ctx) && Inv(Abs())
      ensures current in records.table && resumed == records.table[current].context
      ensures old(current) in records.table && records.table[old(current)].context == ctx
    {
      hide Base; hide Inv; hide Reap; hide ReapAll; hide Without; hide FirstRunning; hide Trimmed; hide SameTail;
      TickedTable(Abs(), ctx);
      CurrentListed(Abs());
      RotateKeeps(Abs(), ctx);
      records := records.(table := records.table[current := records.table[current].(context := ctx)]);
      threads := Without(threads, current) + [current];
      ghost var s := Abs();
      assert s == Rotate(old(Abs()), ctx);
      ThreadsOf(s);
      SwitchKeeps(s);
      var i := ReapToReady();
      var next := threads[i];
      SwitchIs(s, Abs(), FirstRunning(s, s.threads));
      if records.table[next].process != 0 {
        if records.table[current].process == 0 || records.procs[records.table[next].process].cr3 != records.procs[records.table[current].process].cr3 {
          cr3 := records.procs[records.table[next].process].cr3;
        }
      } else {
        cr3 := kernelCr3;
      }
      current := next;
      return records.table[next].context;
    }

    // ----- system calls of the running thread -----

    method WakeWaiting(pid: int)
      requires forall t :: t in threads <==> t in records.table
      modifies this`records
      ensures Abs() == old(Abs()).(table := WakeWaiters(old(records).table, pid))
    {
      ghost var s := Abs();
      for i := 0 to |threads|
        invariant Abs() == s.(table := records.table) && records.table.Keys == s.table.Keys
        invariant forall t :: t in s.table ==> records.table[t] == s.table[t] || records.table[t] == Woken(s.table[t], pid)
        invariant forall j :: 0 <= j < i ==> records.table[threads[j]] == Woken(s.table[threads[j]], pid)
      {
        var th := records.table[threads[i]];
        if th.state == Sleeping && th.waitingFor == pid {
          SetState(threads[i], Running, -1);
        }
      }
      assert records.table == WakeWaiters(s.table, pid);
    }

    // Wakes the threads that wait for this process, stops, and yields. A kernel thread is refused.
    method SysExit(ctx: Frame)
      requires Inv(Abs())
      modifies this
      ensures Abs() == Step(old(Abs()), Exit(ctx)) && Inv(Abs())
      ensures var s := old(Abs());
        && s.current in s.table
        && if s.table[s.current].process == 0 then Abs() == s
           else s.table[s.current].process in s.procs && Ended(s, Abs(), s.procs[s.table[s.current].process].pid)
    {
      hide Base; hide Inv; hide Ticked;
      ghost var s := Abs();
      CurrentFacts(s);
      StepKeeps(s, Exit(ctx));
      ExitEffect(s, ctx);
      var p := records.table[current].process;
      if p == 0 {
        return;
      }
      BeforeKeeps(s, Exit(ctx));
      InvListed(s);
      WakeWaiting(records.procs[p].pid);
      SetState(current, Stopped, records.table[current].waitingFor);
      assert Abs() == Before(s, Exit(ctx));
      var _ := SchedulerTick(ctx);
    }

    method QueueSleep(q: nat, ctx: Frame)
      requires Inv(Abs()) && Enabled(Abs(), Event.QueueSleep(q, ctx))
      modifies this
      ensures Abs() == Step(old(Abs()), Event.QueueSleep(q, ctx)) && Inv(Abs())
      ensures var s := old(Abs());
        && s.current in s.table && Left(s, Abs(), ctx, Sleeping, s.table[s.current].waitingFor)
        && records.queues == s.queues[q := s.queues[q] + [s.current]]
    {
      hide Base; hide Inv; hide Ticked;
      ghost var s, e := Abs(), Event.QueueSleep(q, ctx);
      CurrentFacts(s);
      BeforeKeeps(s, e);
      QueueSleepEffect(s, q, ctx);
      records := records.(queues := records.queues[q := records.queues[q] + [current]]);
      SetState(current, Sleeping, records.table[current].waitingFor);
      assert Abs() == Before(s, e);
      var _ := SchedulerTick(ctx);
    }

    method QueueWakeAll(q: nat)
      requires Inv(Abs()) && q in records.queues && Safe(Abs(), WakeAll(q))
      modifies this`records
      ensures Abs() == Step(old(Abs()), WakeAll(q)) && Inv(Abs()) && Awakened(old(Abs()), Abs(), q)
    {
      hide Base; hide Inv; hide Ticked;
      ghost var s := Abs();
      StepKeeps(s, WakeAll(q));
      WakeAllEffect(s, q);
      var ts := records.queues[q];
      records := records.(queues := records.queues[q := []]);
      for i := 0 to |ts|
        invariant records == Records(records.table, s.procs, s.queues[q := []]) && records.table.Keys == s.table.Keys
        invariant forall t :: t in s.table ==> records.table[t] == if t in ts[..i] then s.table[t].(state := Running) else s.table[t]
      {
        SetState(ts[i], Running, records.table[ts[i]].waitingFor);
      }
      assert ts[..|ts|] == ts;
      assert records.table == WakeListed(s.table, ts);
    }

    method SysWaitForProcess(pid: int, ctx: Frame)
      requires Inv(Abs()) && Enabled(Abs(), WaitFor(pid, ctx))
      modifies this
      ensures Abs() == Step(old(Abs()), WaitFor(pid, ctx)) && Inv(Abs())
      ensures Left(old(Abs()), Abs(), ctx, Sleeping, pid) && records.queues == old(records).queues
    {
      hide Base; hide Inv; hide Ticked;
      ghost var s := Abs();
      CurrentFacts(s);
      BeforeKeeps(s, WaitFor(pid, ctx));
      WaitForEffect(s, pid, ctx);
      SetState(current, Sleeping, pid);
      assert Abs() == Before(s, WaitFor(pid, ctx));
      var _ := SchedulerTick(ctx);
    }

    // `t` and `stack` are what `k_alloc` returned for the record and the stack, 0 if it failed.
    method CreateKernelThread(t: nat, stack: nat, context: Frame) returns (made: nat)
      requires Inv(Abs()) && (t != 0 ==> t !in records.table)
      modifies this`threads, this`records
      ensures made == (if stack == 0 then 0 else t) && Inv(Abs())
      ensures Abs() == if made == 0 then old(Abs()) else Step(old(Abs()), SpawnKernel(made, context))
      ensures made != 0 ==> Made(old(Abs()), Abs(), made, context, 0) && records.procs == old(records).procs
    {
      hide Base; hide Inv;
      if stack == 0 || t == 0 {
        return 0;
      }
      StepKeeps(Abs(), SpawnKernel(t, context));
      SpawnKernelEffect(Abs(), t, context);
      records := records.(table := records.table[t := Thread(context, 0, Running, 0)]);
      threads := threads + [t];
      return t;
    }

    // `stack` is what mapping the stack returned, 0 if it failed.
    method CreateUserThread(p: nat, t: nat, stack: nat, context: Frame) returns (made: nat)
      requires Inv(Abs()) && p in records.procs && (t != 0 ==> t !in records.table)
      modifies this`threads, this`records
      ensures made == (if stack == 0 then 0 else t) && Inv(Abs())
      ensures Abs() == if made == 0 then old(Abs()) else Step(old(Abs()), SpawnThread(p, made, context))
      ensures made != 0 ==> Made(old(Abs()), Abs(), made, context, p)
    {
      hide Base; hide Inv;
      if t == 0 || stack == 0 {
        return 0;
      }
      StepKeeps(Abs(), SpawnThread(p, t, context));
      SpawnThreadEffect(Abs(), p, t, context);
      AddUserThread(p, t, context);
      return t;
    }

    method AddUserThread(p: nat, t: nat, context: Frame)
      requires p in records.procs
      modifies this`threads, this`records
      ensures Abs() == Spawned(Hired(old(Abs()), p), t, context, p)
    {
      records := records.(table := records.table[t := Thread(context, p, Running, 0)],
                          procs := records.procs[p := records.procs[p].(instances := records.procs[p].instances + 1)]);
      threads := threads + [t];
    }

    // `loaded` is what opening, reading and loading the program returned. `block`: the parent goes to
    // sleep until the new process ends, from its next tick on.
    method CreateProcess(p: nat, t: nat, space: nat, context: Frame, block: bool, loaded: int) returns (res: int)
      requires Inv(Abs()) && (loaded == PROTO_OK ==> Enabled(Abs(), SpawnProcess(p, t, space, context, block)))
      modifies this
      ensures res == loaded && Inv(Abs())
      ensures Abs() == if res == PROTO_OK then Step(old(Abs()), SpawnProcess(p, t, space, context, block)) else old(Abs())
      ensures res == PROTO_OK ==> Made(old(Abs()), Abs(), t, context, p) && p in records.procs && records.procs[p] == Proc(old(lastPid) + 1, space, 1)
      ensures res == PROTO_OK && block ==>
        current in records.table && records.table[current].state == Sleeping && records.table[current].waitingFor == old(lastPid) + 1
    {
      hide Base; hide Inv;
      res := loaded;
      if loaded != PROTO_OK {
        return;
      }
      CurrentFacts(Abs());
      StepKeeps(Abs(), SpawnProcess(p, t, space, context, block));
      SpawnProcessEffect(Abs(), p, t, space, context, block);
      lastPid := lastPid + 1;
      spaces := spaces + {space};
      records := records.(procs := records.procs[p := Proc(lastPid, space, 0)]);
      active := active + [p];
      AddUserThread(p, t, context);
      if block {
        SetState(current, Sleeping, lastPid);
      }
    }
  }

  lemma InvListed(s: Sched)
    requires Inv(s)
    ensures forall t :: t in s.threads <==> t in s.table
  {
    ThreadsOf(s);
  }

  lemma OwnerCounted(s: Sched, t: nat)
    requires Base(s) && t in s.table
    ensures s.table[t].process != 0 ==> s.table[t].process in s.procs && s.procs[s.table[t].process].instances > 0
    ensures 0 !in s.procs
  {
  }

  lemma DestroyedIsNotLoaded(s: Sched, t: nat)
    requires Base(s) && t in s.table && t != s.current && s.table[t].process != 0 && s.table[t].process in s.procs
    requires s.procs[s.table[t].process].instances == 1
    ensures s.procs[s.table[t].process].cr3 != s.cr3
  {
    hide PidsOk; hide SameElements;
    OnlyMember(s.table, t);
    NobodyElse(s.table, t);
    var p := s.table[t].process;
    assert s.procs[p].cr3 in Cr3s(s.procs);
  }

  lemma ReapNone(s: Sched)
    ensures ReapAll(s, []) == s
  {
  }

  lemma ReapOneMore(s: Sched, j: nat)
    requires j < |s.threads|
    ensures var r, t := ReapAll(s, s.threads[..j]), s.threads[j];
      ReapAll(s, s.threads[..j + 1]) == if t in r.table && r.table[t].state == Stopped && t != r.current then Reap(r, t) else r
  {
    assert s.threads[..j + 1][..j] == s.threads[..j];
  }

  lemma ReapShrinks(s: Sched, t: nat)
    requires Base(s) && t in s.table
    ensures |Reap(s, t).threads| == |s.threads| - 1
  {
    ThreadsOf(s);
    WithoutIs(s.threads, t);
  }

  // The scan has not passed the first ready thread, so the place it looks at exists.
  lemma ReadyAt(s: Sched, r: Sched, j: nat, i: nat, k: nat)
    requires Base(s) && Base(r) && Trimmed(s, r) && SameTail(s.threads, j, r.threads) && i == |r.threads| - (|s.threads| - j) && j <= k < |s.threads|
    ensures i < |r.threads| && r.threads[i] == s.threads[j] && r.threads[i] in r.table && r.threads[i] in s.table && r.table[r.threads[i]] == s.table[r.threads[i]]
  {
    hide Base;
    assert r.threads[i..][0] == s.threads[j..][0];
    ThreadsOf(r);
    TrimmedAt(s, r, r.threads[i]);
  }

  lemma FirstIs(s: Sched, j: nat, k: nat)
    requires ThreadsOk(s) && j <= k < |s.threads| && k == FirstRunning(s, s.threads) && s.threads[j] in s.table && s.table[s.threads[j]].state == Running
    ensures j == k
  {
  }

  lemma SwitchIs(s: Sched, r: Sched, k: nat)
    requires Base(s) && k == FirstRunning(s, s.threads) && r == ReapAll(s, s.threads[..k]) && Base(r) && Trimmed(s, r)
    requires s.threads[k] in r.table
    ensures var t := s.threads[k]; Switch(s) == r.(current := t, cr3 := Space(r, t))
    ensures r.cr3 == Space(r, r.current) && r.kernelCr3 == s.kernelCr3 && 0 !in r.procs
    ensures r.table[s.threads[k]].process != 0 ==> r.table[s.threads[k]].process in r.procs
    ensures r.current in r.table && (r.table[r.current].process != 0 ==> r.table[r.current].process in r.procs)
  {
    hide ReapAll; hide FirstRunning;
  }
}
