/** Runs in which only the timer ticks: exactly when each ready thread is picked, and when each stopped
    one is destroyed. */
module TickRuns {
  import opened Lists
  import opened Scheduling
  import opened SchedulerRuns

  function TickEvents(fs: seq<Frame>): (es: seq<Event>)
    ensures |es| == |fs|
  {
    if fs == [] then [] else [Tick(fs[0])] + TickEvents(fs[1..])
  }

  lemma {:induction false} TicksLegal(s: Sched, fs: seq<Frame>)
    requires Inv(s)
    ensures Legal(s, TickEvents(fs))
    decreases |fs|
  {
    hide Inv; hide Step;
    if fs != [] {
      StepKeeps(s, Tick(fs[0]));
      TicksLegal(Step(s, Tick(fs[0])), fs[1..]);
      assert TickEvents(fs)[1..] == TickEvents(fs[1..]);
    }
  }

  lemma TickedIs(s: Sched, f: Frame)
    requires Base(s)
    ensures s.current in s.table && Base(Rotate(s, f)) && ThreadsOk(Rotate(s, f)) && Ticked(s, f) == Switch(Rotate(s, f)) && Inv(Ticked(s, f))
  {
    hide Switch; hide Rotate; hide Without;
    CurrentListed(s);
    RotateKeeps(s, f);
    CurrentListed(Rotate(s, f));
    TickedKeeps(s, f);
  }

  lemma TickIs(s: Sched, f: Frame)
    requires Inv(s)
    ensures Base(s) && s.current in s.table && Base(Rotate(s, f)) && ThreadsOk(Rotate(s, f)) && Step(s, Tick(f)) == Switch(Rotate(s, f)) && Inv(Step(s, Tick(f)))
    ensures forall x :: Rank(s, x) == Pos(Rotate(s, f).threads, x)
  {
    hide Switch; hide Rotate; hide Without; hide Pos; hide Ticked; hide Base;
    CurrentFacts(s);
    TickedIs(s, f);
    RotatedRank(s, f);
  }

  lemma RotatedRank(s: Sched, f: Frame)
    requires s.current in s.table
    ensures forall x :: Rank(s, x) == Pos(Rotate(s, f).threads, x)
  {
    hide Pos; hide Without;
  }

  // ----- what ticks leave alone -----

  // Contexts may change and stopped threads may go, with their processes.
  ghost predicate Kept(s: Sched, s': Sched) {
    && s'.queues == s.queues && s'.idle == s.idle && s'.kernelCr3 == s.kernelCr3 && s'.lastPid == s.lastPid
    && (forall x :: x in s'.table ==> x in s.table && s'.table[x].(context := s.table[x].context) == s.table[x])
    && (forall x :: x in s.table && s.table[x].state != Stopped ==> x in s'.table)
    && (forall p :: p in s'.procs ==> p in s.procs && s'.procs[p].pid == s.procs[p].pid && s'.procs[p].cr3 == s.procs[p].cr3)
  }

  lemma KeptThen(a: Sched, b: Sched, c: Sched)
    requires Kept(a, b) && Kept(b, c)
    ensures Kept(a, c)
  {
  }

  // The interrupted thread stays even if it has stopped.
  lemma TickedKept(s: Sched, f: Frame)
    requires Base(s)
    ensures Kept(s, Ticked(s, f)) && s.current in Ticked(s, f).table && Inv(Ticked(s, f))
    ensures Ticked(s, f).current in s.table && s.table[Ticked(s, f).current].state == Running
  {
    hide Base; hide Inv; hide Switch; hide Without; hide Ticked; hide Rotate; hide Trimmed; hide Kept;
    TickedIs(s, f);
    RotateCurrent(s, f);
    RotateTable(s, f);
    SwitchKeeps(Rotate(s, f));
    InvThreads(Switch(Rotate(s, f)));
    SwitchKept(s, f, Switch(Rotate(s, f)));
    ChosenListed(Rotate(s, f));
  }

  lemma ChosenListed(s: Sched)
    requires ThreadsOk(s)
    ensures Chosen(s) in s.table
  {
  }

  lemma TickKept(s: Sched, f: Frame)
    requires Inv(s)
    ensures Kept(s, Step(s, Tick(f)))
  {
    hide Base; hide Ticked; hide Kept;
    TickedKept(s, f);
  }

  lemma SwitchKept(s: Sched, f: Frame, s': Sched)
    requires s.current in s.table && Trimmed(Rotate(s, f), s'.(current := s.current, cr3 := s.cr3))
    ensures Kept(s, s') && s.current in s'.table
  {
    hide Without;
  }

  // ----- exactly when a ready thread is picked -----

  // The ready threads that the next ticks come to before `t`.
  ghost function Ahead(s: Sched, t: nat): set<nat> {
    set x | x in s.table && s.table[x].state == Running && Rank(s, x) < Rank(s, t)
  }

  // One tick picks `t` if nobody is ahead, and else exactly one of those who are.
  lemma TickAhead(s: Sched, f: Frame, t: nat)
    requires Inv(s) && t in s.table && s.table[t].state == Running
    ensures var s' := Step(s, Tick(f));
      && Inv(s') && t in s'.table && s'.table[t].state == Running
      && (s'.current == t <==> Ahead(s, t) == {})
      && (s'.current != t ==> s'.current in Ahead(s, t) && Ahead(s', t) == Ahead(s, t) - {s'.current})
  {
    hide Base; hide Inv; hide Switch; hide Rank; hide Pos; hide Without; hide Step; hide Rotate; hide SameTail; hide Trimmed;
    TickIs(s, f);
    var r, s' := Rotate(s, f), Step(s, Tick(f));
    TickKept(s, f);
    SwitchKeeps(r);
    ThreadsOf(r);
    RotateTable(s, f);
    var k := FirstRunning(r, r.threads);
    var c := r.threads[k];
    PosAt(r.threads, k);
    forall x | x in s.table && s.table[x].state == Running ensures Pos(r.threads, x) >= k && (x != c ==> Pos(r.threads, x) > k) {
      assert x in r.threads;
      assert r.threads[Pos(r.threads, x)] == x;
    }
    var d := 1 + |r.threads| - |s'.threads|;
    forall x | x in s.table && s.table[x].state == Running && x != c ensures Rank(s', x) == Rank(s, x) - d {
      SwitchBehind(r, x);
    }
    SameReady(s, s');
    if c != t { CurrentLast(s', t); }
    hide *;
    AheadLess(s, s', c, t, d);
  }

  lemma SameReady(s: Sched, s': Sched)
    requires Kept(s, s')
    ensures forall x :: (x in s'.table && s'.table[x].state == Running) <==> (x in s.table && s.table[x].state == Running)
  {
  }

  lemma AheadLess(s: Sched, s': Sched, c: nat, t: nat, d: int)
    requires c in s.table && s.table[c].state == Running && t in s.table && s.table[t].state == Running
    requires forall x :: (x in s'.table && s'.table[x].state == Running) <==> (x in s.table && s.table[x].state == Running)
    requires forall x :: x in s.table && s.table[x].state == Running && x != c ==> Rank(s', x) == Rank(s, x) - d
    requires forall x :: x in s.table && s.table[x].state == Running && x != c ==> Rank(s, x) > Rank(s, c)
    requires c != t ==> Rank(s', t) < Rank(s', c)
    ensures c == t <==> Ahead(s, t) == {}
    ensures c != t ==> c in Ahead(s, t) && Ahead(s', t) == Ahead(s, t) - {c}
  {
    hide Rank;
    if c != t { assert c in Ahead(s, t); }
  }

  lemma RotateTable(s: Sched, f: Frame)
    requires s.current in s.table
    ensures Rotate(s, f).table.Keys == s.table.Keys && forall x :: x in s.table ==> Rotate(s, f).table[x].state == s.table[x].state
  {
  }

  // The running thread comes last.
  lemma CurrentLast(s: Sched, t: nat)
    requires Inv(s) && t in s.table && t != s.current
    ensures Rank(s, t) < Rank(s, s.current)
  {
    hide Base; hide Without; hide Pos;
    InvThreads(s);
    hide Inv;
    var w := Without(s.threads, s.current);
    WithoutElements(s.threads, s.current);
    PosPrefix(w, [s.current], t);
    var ts := w + [s.current];
    assert forall j :: 0 <= j < |w| ==> ts[j] == w[j];
    assert Pos(ts, s.current) >= |w| > Pos(w, t);
  }

  // A ready thread is picked within `n` ticks if and only if fewer than `n` ready threads are ahead of it.
  lemma {:induction false} PickedExactly(s: Sched, fs: seq<Frame>, t: nat)
    requires Inv(s) && t in s.table && s.table[t].state == Running
    ensures Legal(s, TickEvents(fs)) && (Picked(s, TickEvents(fs), t) <==> |Ahead(s, t)| < |fs|)
    decreases |fs|
  {
    hide Inv; hide Step; hide Ahead;
    TicksLegal(s, fs);
    if fs != [] {
      var e := Tick(fs[0]);
      TickAhead(s, fs[0], t);
      assert TickEvents(fs)[1..] == TickEvents(fs[1..]) && TickEvents(fs)[0] == e;
      var s' := Step(s, e);
      PickedExactly(s', fs[1..], t);
      if s'.current != t {
        assert |Ahead(s', t)| == |Ahead(s, t)| - 1;
      } else {
        assert |Ahead(s, t)| == 0;
      }
    }
  }

  ghost function OthersReady(s: Sched): set<nat> {
    set x | x in s.table && x != s.current && s.table[x].state == Running
  }

  // The running thread at index `i`, while it stays ready, is picked within `i + 1` ticks if and only if
  // at most `i` other threads are ready.
  lemma RunningPicked(s: Sched, fs: seq<Frame>)
    requires Inv(s) && s.current in s.table && s.table[s.current].state == Running && |fs| == Pos(s.threads, s.current) + 1
    ensures Legal(s, TickEvents(fs))
    ensures Picked(s, TickEvents(fs), s.current) <==> |OthersReady(s)| <= Pos(s.threads, s.current)
  {
    hide Inv; hide Step; hide Rank; hide Pos;
    PickedExactly(s, fs, s.current);
    forall x | x in s.table && x != s.current ensures Rank(s, x) < Rank(s, s.current) {
      CurrentLast(s, x);
    }
    assert Ahead(s, s.current) == OthersReady(s);
  }

  // A ready thread that is not running is picked within its index + 1 ticks.
  lemma WaitingPicked(s: Sched, fs: seq<Frame>, t: nat)
    requires Inv(s) && t in s.table && s.table[t].state == Running && t != s.current && |fs| == Pos(s.threads, t) + 1
    ensures Legal(s, TickEvents(fs)) && Picked(s, TickEvents(fs), t)
  {
    hide Inv; hide Step; hide Pos; hide Rank; hide Ahead;
    PickedExactly(s, fs, t);
    AheadBound(s, t);
    RankIsIndex(s, t);
  }

  lemma AheadBound(s: Sched, t: nat)
    requires Inv(s)
    ensures |Ahead(s, t)| <= Rank(s, t)
  {
    hide Base; hide Pos; hide Without;
    InvThreads(s);
    hide Inv;
    WithoutElements(s.threads, s.current);
    var ts := Without(s.threads, s.current) + [s.current];
    var n := Rank(s, t);
    assert n <= |ts|;
    forall x | x in Ahead(s, t) ensures x in Elements(ts, n) {
      assert x in ts;
      assert ts[Pos(ts, x)] == x;
      ElementsAre(ts, n);
    }
    ElementsSize(ts, n);
    Smaller(Ahead(s, t), Elements(ts, n));
  }

  function Elements(ts: seq<nat>, n: nat): set<nat>
    requires n <= |ts|
  {
    if n == 0 then {} else Elements(ts, n - 1) + {ts[n - 1]}
  }

  lemma {:induction false} ElementsAre(ts: seq<nat>, n: nat)
    requires n <= |ts|
    ensures forall i :: 0 <= i < n ==> ts[i] in Elements(ts, n)
  {
    if n > 0 { ElementsAre(ts, n - 1); }
  }

  lemma {:induction false} ElementsSize(ts: seq<nat>, n: nat)
    requires n <= |ts|
    ensures |Elements(ts, n)| <= n
  {
    if n > 0 { ElementsSize(ts, n - 1); }
  }

  lemma {:induction false} Smaller(a: set<nat>, b: set<nat>)
    requires a <= b
    ensures |a| <= |b|
  {
    if a != {} {
      var x :| x in a;
      Smaller(a - {x}, b - {x});
    }
  }

  // The running thread is at index 0 and stays ready, but the next tick picks another thread.
  ghost predicate PassedOver(s: Sched, f: Frame) {
    Legal(s, TickEvents([f])) && Pos(s.threads, s.current) == 0 && s.table[s.current].state == Running && !Picked(s, TickEvents([f]), s.current)
  }

  // So, counted from its own index, the running thread may wait longer than index + 1 ticks.
  lemma RunningThreadWaitsLonger()
    ensures exists s, f :: PassedOver(s, f)
  {
    var th := Thread(Frame([]), 0, Running, 0);
    var s := Sched([1, 2], map[1 := th, 2 := th], 1, 2, [], map[], 0, 5, 5, {5}, map[]);
    TwoKernelThreads(s);
    var f := Frame([]);
    assert 2 in OthersReady(s);
    RunningPicked(s, [f]);
    assert PassedOver(s, f);
  }

  lemma TwoKernelThreads(s: Sched)
    requires s.threads == [1, 2] && s.table.Keys == {1, 2} && s.current == 1 && s.idle == 2 && s.active == [] && s.procs == map[]
    requires s.lastPid == 0 && s.cr3 == s.kernelCr3 && s.spaces == {s.kernelCr3} && s.queues == map[]
    requires forall t :: t in s.table ==> s.table[t].process == 0 && s.table[t].state == Running && s.table[t].waitingFor == 0
    ensures Inv(s) && Pos(s.threads, 1) == 0
  {
    assert Cr3s(s.procs) == {};
  }

  // ----- ticks until a thread runs, or is gone -----

  // Ticks bring every ready thread to run.
  lemma {:induction false} ReachReady(s: Sched, t: nat) returns (fs: seq<Frame>)
    requires Inv(s) && t in s.table && s.table[t].state == Running
    ensures Legal(s, TickEvents(fs)) && After(s, TickEvents(fs)).current == t && Kept(s, After(s, TickEvents(fs)))
    decreases if s.current == t then 0 else Rank(s, t) + 1
  {
    hide Inv; hide Step; hide Rank;
    if s.current == t {
      fs := [];
      assert Kept(s, s);
      TicksLegal(s, []);
    } else {
      var f := Frame([]);
      StepKeeps(s, Tick(f));
      TickKept(s, f);
      var s' := Step(s, Tick(f));
      TickYields(s, f);
      StepNearer(s, Tick(f), t);
      var rest := ReachReady(s', t);
      fs := [f] + rest;
      OneTick(s, f, rest);
      KeptThen(s, s', After(s', TickEvents(rest)));
    }
  }

  lemma TickYields(s: Sched, f: Frame)
    requires Inv(s)
    ensures Yields(s, Tick(f)) && Enabled(s, Tick(f)) && Safe(s, Tick(f))
  {
  }

  lemma OneTick(s: Sched, f: Frame, rest: seq<Frame>)
    requires Inv(s) && Legal(Step(s, Tick(f)), TickEvents(rest))
    ensures Legal(s, TickEvents([f] + rest)) && After(s, TickEvents([f] + rest)) == After(Step(s, Tick(f)), TickEvents(rest))
  {
    hide Inv; hide Step;
    assert ([f] + rest)[1..] == rest;
    assert TickEvents([f] + rest) == [Tick(f)] + TickEvents(rest);
    assert ([Tick(f)] + TickEvents(rest))[1..] == TickEvents(rest);
  }

  // A stopped thread is destroyed within rank + 1 ticks.
  lemma {:induction false} StoppedGoes(s: Sched, t: nat) returns (fs: seq<Frame>)
    requires Inv(s) && t in s.table && s.table[t].state == Stopped && t != s.current
    ensures |fs| <= Rank(s, t) + 1
    ensures Legal(s, TickEvents(fs)) && t !in After(s, TickEvents(fs)).table && Kept(s, After(s, TickEvents(fs)))
    decreases Rank(s, t)
  {
    hide Inv; hide Step; hide Rank; hide Kept;
    var f := Frame([]);
    StepKeeps(s, Tick(f));
    TickKept(s, f);
    var s' := Step(s, Tick(f));
    StoppedNearer(s, f, t);
    if t in s'.table {
      KeptState(s, s', t);
      var rest := StoppedGoes(s', t);
      fs := [f] + rest;
      OneTick(s, f, rest);
      KeptThen(s, s', After(s', TickEvents(rest)));
    } else {
      fs := [f] + [];
      TicksLegal(s', []);
      OneTick(s, f, []);
    }
  }

  lemma KeptState(s: Sched, s': Sched, t: nat)
    requires Kept(s, s') && t in s'.table
    ensures t in s.table && s'.table[t].state == s.table[t].state
  {
  }

  // A tick passes a stopped thread and destroys it, or brings it nearer to the head.
  lemma StoppedNearer(s: Sched, f: Frame, t: nat)
    requires Inv(s) && t in s.table && s.table[t].state == Stopped && t != s.current
    ensures var s' := Step(s, Tick(f)); Inv(s') && (t in s'.table ==> t != s'.current && Rank(s', t) < Rank(s, t))
  {
    hide Base; hide Inv; hide Switch; hide Rank; hide Pos; hide Without; hide Step; hide Rotate; hide SameTail; hide Trimmed;
    TickIs(s, f);
    var r := Rotate(s, f);
    SwitchKeeps(r);
    ThreadsOf(r);
    RotateTable(s, f);
    RotateCurrent(s, f);
    var k, i := FirstRunning(r, r.threads), Pos(r.threads, t);
    assert t in r.threads;
    assert r.threads[i] == t;
    if k < i { SwitchBehind(r, t); }
  }

  lemma RotateCurrent(s: Sched, f: Frame)
    requires s.current in s.table
    ensures Rotate(s, f).current == s.current && Rotate(s, f).cr3 == s.cr3
  {
  }
}
