/** Whole runs of the scheduler: the invariant, bounded waiting, and that every thread resumes with
    the frame saved when it was last interrupted. */
module SchedulerRuns {
  import opened Lists
  import opened Scheduling

  // A run that the callers may make and in which no wake-up stores into a freed record.
  ghost predicate Legal(s: Sched, es: seq<Event>)
    decreases |es|
  {
    Inv(s) && (es == [] || (Enabled(s, es[0]) && Safe(s, es[0]) && Legal(Step(s, es[0]), es[1..])))
  }

  // One run after another.
  lemma {:induction false} RunsJoin(s: Sched, es: seq<Event>, fs: seq<Event>)
    requires Legal(s, es) && Legal(After(s, es), fs)
    ensures Legal(s, es + fs) && After(s, es + fs) == After(After(s, es), fs)
    decreases |es|
  {
    hide Inv; hide Enabled; hide Step; hide Safe;
    if es == [] {
      assert es + fs == fs;
    } else {
      RunsJoin(Step(s, es[0]), es[1..], fs);
      assert (es + fs)[1..] == es[1..] + fs && (es + fs)[0] == es[0];
    }
  }

  ghost function After(s: Sched, es: seq<Event>): Sched
    requires Legal(s, es)
    decreases |es|
  {
    if es == [] then s else After(Step(s, es[0]), es[1..])
  }

  // No such run leaves the invariant.
  lemma {:induction false} RunKeeps(s: Sched, es: seq<Event>)
    requires Legal(s, es)
    ensures Inv(After(s, es))
    ensures After(s, es).cr3 == Space(After(s, es), After(s, es).current)
    decreases |es|
  {
    hide Inv; hide Enabled; hide Step;
    if es == [] {
      LoadedIsCurrent(s);
    } else {
      RunKeeps(Step(s, es[0]), es[1..]);
    }
  }

  lemma LoadedIsCurrent(s: Sched)
    requires Inv(s)
    ensures s.current in s.table && (s.table[s.current].process == 0 || s.table[s.current].process in s.procs)
    ensures s.cr3 == Space(s, s.current) && s.cr3 in s.spaces
  {
    LoadedExists(s);
  }

  // ----- bounded waiting -----

  // How many listed threads the next tick looks at before `t`.
  function Rank(s: Sched, t: nat): nat {
    Pos(Without(s.threads, s.current) + [s.current], t)
  }

  // For a thread that is not running the rank is its index, less one if the running thread precedes it.
  lemma RankIsIndex(s: Sched, t: nat)
    requires Inv(s) && t in s.table && t != s.current
    ensures Rank(s, t) == Pos(s.threads, t) - (if Pos(s.threads, s.current) < Pos(s.threads, t) then 1 else 0)
  {
    InvThreads(s);
    hide *;
    RankOfList(s.threads, s.current, t);
    RankDef(s, t);
  }

  lemma RankDef(s: Sched, t: nat)
    ensures Rank(s, t) == Pos(Without(s.threads, s.current) + [s.current], t)
  {
  }

  lemma RankOfList(ts: seq<nat>, c: nat, t: nat)
    requires NoRepeats(ts) && t in ts && c in ts && t != c
    ensures Pos(Without(ts, c) + [c], t) == Pos(ts, t) - (if Pos(ts, c) < Pos(ts, t) then 1 else 0)
  {
    hide Without; hide NoRepeats;
    var i, d, w := Pos(ts, t), Pos(ts, c), Without(ts, c);
    WithoutElements(ts, c);
    PosPrefix(w, [c], t);
    var k := if d < i then i - 1 else i;
    WithoutIndex(ts, c, k);
    PosAt(w, k);
  }

  lemma InvThreads(s: Sched)
    requires Inv(s)
    ensures Base(s) && NoRepeats(s.threads) && (forall t :: t in s.threads <==> t in s.table) && s.current in s.table
  {
    ThreadsOf(s);
  }

  // A tick on the rotated list leaves every thread behind the picked one strictly nearer.
  lemma SwitchBehind(s: Sched, t: nat)
    requires Base(s) && t in s.table && ThreadsOk(s) && FirstRunning(s, s.threads) < Pos(s.threads, t)
    ensures Inv(Switch(s)) && t in Switch(s).table && t != Switch(s).current
    ensures Rank(Switch(s), t) == Pos(s.threads, t) - 1 - (|s.threads| - |Switch(s).threads|) < Pos(s.threads, t)
  {
    hide Base; hide Inv; hide Switch; hide SameTail; hide NoRepeats; hide Rank; hide Pos; hide Trimmed;
    ThreadsOf(s);
    SwitchKeeps(s);
    var s' := Switch(s);
    InvThreads(s');
    var k, i := FirstRunning(s, s.threads), Pos(s.threads, t);
    assert t in s.threads;
    TailSizes(s.threads, k, s'.threads);
    TailIndex(s.threads, k, s'.threads, i);
    assert t in s'.threads;
    TailPos(s.threads, k, s'.threads, k);
    TailPos(s.threads, k, s'.threads, i);
    RankIsIndex(s', t);
  }

  // A tick on the rotated list either takes `t`, or leaves it strictly nearer.
  lemma SwitchNearer(s: Sched, t: nat)
    requires Base(s) && t in s.table && s.table[t].state == Running
    ensures t in Switch(s).table && Inv(Switch(s))
    ensures Switch(s).current == t || Rank(Switch(s), t) < Pos(s.threads, t)
  {
    hide Base; hide Inv; hide Switch; hide SameTail; hide NoRepeats; hide Rank; hide Pos; hide Trimmed;
    ThreadsOf(s);
    SwitchKeeps(s);
    var k, i := FirstRunning(s, s.threads), Pos(s.threads, t);
    assert t in s.threads;
    StaysListed(s, Switch(s), t);
    if k < i { SwitchBehind(s, t); }
  }

  lemma StaysListed(s: Sched, s': Sched, t: nat)
    requires Trimmed(s, s'.(current := s.current, cr3 := s.cr3)) && t in s.table && s.table[t].state == Running
    ensures t in s'.table && s'.table[t] == s.table[t]
  {
  }

  lemma TailIndex(ts: seq<nat>, n: nat, us: seq<nat>, i: nat)
    requires SameTail(ts, n, us) && n <= i < |ts|
    ensures i - (|ts| - |us|) >= 0 && us[i - (|ts| - |us|)] == ts[i]
  {
    assert us[|us| - (|ts| - n)..][i - n] == ts[n..][i - n];
  }

  lemma TailPos(ts: seq<nat>, n: nat, us: seq<nat>, i: nat)
    requires SameTail(ts, n, us) && n <= i < |ts| && NoRepeats(us)
    ensures Pos(us, ts[i]) == i - (|ts| - |us|)
  {
    hide SameTail; hide Pos; hide NoRepeats;
    TailIndex(ts, n, us, i);
    TailSizes(ts, n, us);
    PosAt(us, i - (|ts| - |us|));
  }

  lemma TailSizes(ts: seq<nat>, n: nat, us: seq<nat>)
    requires SameTail(ts, n, us)
    ensures n <= |ts| && |ts| - n <= |us| <= |ts|
  {
  }

  lemma TickNearer(s: Sched, f: Frame, t: nat)
    requires Base(s) && t in s.table && s.table[t].state == Running
    ensures t in Ticked(s, f).table && Inv(Ticked(s, f))
    ensures Ticked(s, f).current == t || Rank(Ticked(s, f), t) < Rank(s, t)
  {
    hide Base; hide Inv; hide Switch; hide Without;
    RotateKeeps(s, f);
    CurrentListed(s);
    SwitchNearer(Rotate(s, f), t);
  }

  // What a yielding step does before its tick concerns the running thread and sleepers only.
  lemma BeforeSame(s: Sched, e: Event, t: nat)
    requires Inv(s) && Enabled(s, e) && t in s.table
    ensures t in Before(s, e).table && Rank(Before(s, e), t) == Rank(s, t) && Before(s, e).current == s.current
    ensures Before(s, e).table[t].context == s.table[t].context
    ensures t != s.current && s.table[t].state == Running ==> Before(s, e).table[t].state == Running
  {
    hide Base; hide Without;
    CurrentFacts(s);
  }

  lemma AppendRank(ts: seq<nat>, c: nat, n: nat, t: nat)
    requires NoRepeats(ts) && c in ts && t in ts && t != c && n !in ts
    ensures Pos(Without(ts + [n], c) + [c], t) == Pos(Without(ts, c) + [c], t)
  {
    hide Without; hide Pos;
    WithoutElements(ts, c);
    assert NoRepeats(ts + [n]);
    WithoutElements(ts + [n], c);
    PosPrefix(ts, [n], c);
    WithoutIs(ts, c);
    WithoutIs(ts + [n], c);
    assert Without(ts + [n], c) == Without(ts, c) + [n];
    PosPrefix(Without(ts, c), [c], t);
    PosPrefix(Without(ts, c), [n] + [c], t);
    assert Without(ts, c) + [n] + [c] == Without(ts, c) + ([n] + [c]);
  }

  // A step that does not yield lets the same thread run on and moves no other thread back.
  lemma QuietStep(s: Sched, e: Event, t: nat)
    requires Inv(s) && Enabled(s, e) && !Yields(s, e) && t in s.table
    ensures var s' := Step(s, e);
      s'.current == s.current && t in s'.table && s'.table[t].context == s.table[t].context && (t != s.current ==> Rank(s', t) == Rank(s, t))
  {
    hide Base; hide Without; hide Ticked;
    CurrentFacts(s);
    InvThreads(s);
    hide Inv;
    match e
    case SpawnKernel(n, _) => if t != s.current { AppendRank(s.threads, s.current, n, t); }
    case SpawnProcess(_, n, _, _, _) => if t != s.current { AppendRank(s.threads, s.current, n, t); }
    case SpawnThread(_, n, _) => if t != s.current { AppendRank(s.threads, s.current, n, t); }
    case _ =>
  }

  // `t` is ready to run in every state of the run.
  ghost predicate StaysRunning(s: Sched, es: seq<Event>, t: nat)
    requires Legal(s, es)
    decreases |es|
  {
    t in s.table && s.table[t].state == Running && (es == [] || StaysRunning(Step(s, es[0]), es[1..], t))
  }

  ghost function Ticks(s: Sched, es: seq<Event>): nat
    requires Legal(s, es)
    decreases |es|
  {
    if es == [] then 0 else (if Yields(s, es[0]) then 1 else 0) + Ticks(Step(s, es[0]), es[1..])
  }

  // Some tick of the run picks `t`.
  ghost predicate Picked(s: Sched, es: seq<Event>, t: nat)
    requires Legal(s, es)
    decreases |es|
  {
    es != [] && ((Yields(s, es[0]) && Step(s, es[0]).current == t) || Picked(Step(s, es[0]), es[1..], t))
  }

  // A ready thread is picked within rank + 1 ticks, whatever other threads do meanwhile. For a thread
  // that is running, the count starts with the tick that interrupts it.
  lemma {:induction false} BoundedWaiting(s: Sched, es: seq<Event>, t: nat)
    requires Legal(s, es) && StaysRunning(s, es, t) && Ticks(s, es) > Rank(s, t)
    requires t != s.current || Yields(s, es[0])
    ensures Picked(s, es, t)
    decreases |es|
  {
    hide Inv; hide Enabled; hide Step; hide Yields; hide Rank;
    var e := es[0];
    StepNearer(s, e, t);
    var s' := Step(s, e);
    if !(Yields(s, e) && s'.current == t) {
      BoundedWaiting(s', es[1..], t);
    }
  }

  lemma StepNearer(s: Sched, e: Event, t: nat)
    requires Inv(s) && Enabled(s, e) && t in s.table && s.table[t].state == Running
    requires t in Step(s, e).table && Step(s, e).table[t].state == Running
    requires t != s.current || Yields(s, e)
    ensures var s' := Step(s, e);
      if Yields(s, e) then s'.current == t || Rank(s', t) < Rank(s, t) else s'.current == s.current && Rank(s', t) == Rank(s, t)
  {
    hide Base; hide Inv; hide Rank; hide Before; hide Ticked;
    if Yields(s, e) {
      BeforeKeeps(s, e);
      BeforeSame(s, e, t);
      if Before(s, e).table[t].state == Running {
        TickNearer(Before(s, e), e.frame, t);
      } else {
        Unready(Before(s, e), e.frame, t);
      }
    } else {
      QuietStep(s, e, t);
    }
  }

  // A tick does not wake anybody.
  lemma Unready(s: Sched, f: Frame, t: nat)
    requires Base(s) && t in s.table && s.table[t].state != Running
    ensures t in Ticked(s, f).table ==> Ticked(s, f).table[t].state != Running
  {
    hide Base; hide Inv; hide Switch; hide Without;
    RotateKeeps(s, f);
    CurrentListed(s);
    SwitchKeeps(Rotate(s, f));
  }

  // ----- saved frames -----

  // `t` is allocated and not running in every state of the run but the last.
  ghost predicate Waiting(s: Sched, es: seq<Event>, t: nat)
    requires Legal(s, es)
    decreases |es|
  {
    es == [] || (t in s.table && t != s.current && Waiting(Step(s, es[0]), es[1..], t))
  }

  // The frame that the interrupt returns with.
  ghost function Resumed(s: Sched): Frame
    requires Inv(s)
  {
    s.table[s.current].context
  }

  lemma ContextKept(s: Sched, e: Event, t: nat)
    requires Inv(s) && Enabled(s, e) && t in s.table && t in Step(s, e).table
    ensures Step(s, e).table[t].context == if Yields(s, e) && t == s.current then e.frame else s.table[t].context
  {
    hide Base; hide Inv; hide Rank; hide Before; hide Switch; hide Without;
    if Yields(s, e) {
      BeforeKeeps(s, e);
      BeforeSame(s, e, t);
      RotateKeeps(Before(s, e), e.frame);
      CurrentListed(Before(s, e));
      SwitchKeeps(Rotate(Before(s, e), e.frame));
    } else {
      QuietStep(s, e, t);
    }
  }

  lemma {:induction false} ContextWaits(s: Sched, es: seq<Event>, t: nat)
    requires Legal(s, es) && Waiting(s, es, t) && t in s.table && t in After(s, es).table
    ensures After(s, es).table[t].context == s.table[t].context
    decreases |es|
  {
    hide Inv; hide Enabled; hide Step; hide Yields;
    if es != [] {
      var s' := Step(s, es[0]);
      assert t in s'.table by { if es[1..] == [] { assert After(s, es) == s'; } }
      ContextKept(s, es[0], t);
      ContextWaits(s', es[1..], t);
    }
  }

  // Interrupted with frame `f`, then waiting until a later step makes it run: it resumes with `f`.
  lemma ResumesWithSaved(s: Sched, e: Event, es: seq<Event>)
    requires Inv(s) && Enabled(s, e) && Yields(s, e) && Legal(Step(s, e), es)
    requires Waiting(Step(s, e), es, s.current) && s.current in Step(s, e).table && After(Step(s, e), es).current == s.current
    ensures Inv(After(Step(s, e), es)) && Resumed(After(Step(s, e), es)) == e.frame
  {
    hide Base; hide Enabled; hide Step; hide Yields;
    RunKeeps(Step(s, e), es);
    InvThreads(s);
    ContextKept(s, e, s.current);
    InvThreads(After(Step(s, e), es));
    ContextWaits(Step(s, e), es, s.current);
  }
}
