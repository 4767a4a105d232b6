/** The ticket lock under any interleaving of its atomic operations: drawing a ticket, reading the
    owner, and releasing. Both counters are 32 bits wide and wrap around. */
module TicketLock {
  const WRAP: nat := 0x1_0000_0000

  type Counter = c: nat | c < WRAP

  // Between operations a contender has no ticket, spins on its ticket, or holds the lock.
  datatype Phase = Idle | Spinning(my: Counter) | Holding(my: Counter)

  datatype Lock = Lock(next: Counter, owner: Counter, phases: seq<Phase>)

  // Contender `t` performs its next atomic operation.
  function Step(l: Lock, t: nat): (r: Lock)
    requires t < |l.phases|
    ensures |r.phases| == |l.phases|
  {
    match l.phases[t]
    case Idle => Lock((l.next + 1) % WRAP, l.owner, l.phases[t := Spinning(l.next)])
    case Spinning(my) => if l.owner == my then l.(phases := l.phases[t := Holding(my)]) else l
    case Holding(_) => Lock(l.next, (l.owner + 1) % WRAP, l.phases[t := Idle])
  }

  function Start(n: nat): (l: Lock)
    ensures |l.phases| == n
  {
    Lock(0, 0, seq(n, _ => Idle))
  }

  // ----- the history of a run -----

  // Who drew a ticket and who entered, in order, and how many have left.
  datatype History = History(drawn: seq<nat>, entered: seq<nat>, left: nat)

  function Record(l: Lock, h: History, t: nat): History
    requires t < |l.phases|
  {
    match l.phases[t]
    case Idle => h.(drawn := h.drawn + [t])
    case Spinning(my) => if l.owner == my then h.(entered := h.entered + [t]) else h
    case Holding(_) => h.(left := h.left + 1)
  }

  // The contenders in `drawn` from place `left` on are the ones with outstanding tickets, and their
  // tickets count up from the owner, modulo 2^32.
  ghost predicate Outstanding(l: Lock, h: History) {
    && h.left <= |h.drawn|
    && (forall i, j :: h.left <= i < j < |h.drawn| ==> h.drawn[i] != h.drawn[j])
    && (forall i :: h.left <= i < |h.drawn| ==> HasTicket(l, h.drawn[i], i % WRAP))
    && (forall t :: 0 <= t < |l.phases| && !l.phases[t].Idle? ==> Queued(h, t))
  }

  predicate HasTicket(l: Lock, t: nat, my: nat) {
    t < |l.phases| && !l.phases[t].Idle? && l.phases[t].my == my
  }

  predicate Queued(h: History, t: nat) {
    exists i :: h.left <= i < |h.drawn| && h.drawn[i] == t
  }

  // A holder has the oldest outstanding ticket; those who entered are a prefix of those who drew.
  ghost predicate Inv(l: Lock, h: History) {
    && Outstanding(l, h) && l.next == |h.drawn| % WRAP && l.owner == h.left % WRAP
    && (forall t :: 0 <= t < |l.phases| && l.phases[t].Holding? ==> h.left < |h.drawn| && h.drawn[h.left] == t)
    && |h.entered| == h.left + (if Busy(l, h) then 1 else 0) && h.entered <= h.drawn
  }

  predicate Busy(l: Lock, h: History) {
    h.left < |h.drawn| && h.drawn[h.left] < |l.phases| && l.phases[h.drawn[h.left]].Holding?
  }

  // Distinct contenders below `n` number at most `n`.
  lemma {:induction false} Pigeonhole(ts: seq<nat>, n: nat)
    requires (forall i :: 0 <= i < |ts| ==> ts[i] < n) && forall i, j :: 0 <= i < j < |ts| ==> ts[i] != ts[j]
    ensures |ts| <= n
  {
    assert ts != [] ==> ts[0] < n;
    if ts != [] {
      if k :| 0 <= k < |ts| && ts[k] == n - 1 {
        var us := ts[..k] + ts[k + 1..];
        forall i | 0 <= i < |us| ensures us[i] == ts[if i < k then i else i + 1] {}
        Pigeonhole(us, n - 1);
      } else {
        Pigeonhole(ts, n - 1);
      }
    }
  }

  lemma AtMostAll(l: Lock, h: History)
    requires Outstanding(l, h)
    ensures |h.drawn| - h.left <= |l.phases|
  {
    var ts := h.drawn[h.left..];
    forall i | 0 <= i < |ts| ensures ts[i] < |l.phases| {
      assert HasTicket(l, h.drawn[h.left + i], (h.left + i) % WRAP);
    }
    Pigeonhole(ts, |l.phases|);
  }

  lemma SmallDifference(a: nat, b: nat)
    requires a <= b < a + WRAP && a % WRAP == b % WRAP
    ensures a == b
  {
  }

  lemma Successor(a: nat)
    ensures (a % WRAP + 1) % WRAP == (a + 1) % WRAP
  {
  }

  lemma StartInv(n: nat)
    ensures Inv(Start(n), History([], [], 0))
  {
  }

  // One operation of any contender, when there are at most 2^32 of them.
  lemma StepKeeps(l: Lock, h: History, t: nat)
    requires Inv(l, h) && t < |l.phases| <= WRAP
    ensures Inv(Step(l, t), Record(l, h, t))
  {
    match l.phases[t]
    case Idle => DrawKeeps(l, h, t);
    case Spinning(_) => LookKeeps(l, h, t);
    case Holding(_) => LeaveKeeps(l, h, t);
  }

  lemma DrawKeeps(l: Lock, h: History, t: nat)
    requires Inv(l, h) && t < |l.phases| && l.phases[t].Idle?
    ensures Inv(Step(l, t), Record(l, h, t))
  {
    var l', h' := Step(l, t), Record(l, h, t);
    Successor(|h.drawn|);
    forall i | h.left <= i < |h'.drawn| ensures HasTicket(l', h'.drawn[i], i % WRAP) {
      if i < |h.drawn| { assert HasTicket(l, h.drawn[i], i % WRAP); }
    }
    forall u | 0 <= u < |l.phases| && !l'.phases[u].Idle? ensures Queued(h', u) {
      if u == t {
        assert h'.drawn[|h.drawn|] == t;
      } else {
        assert Queued(h, u);
        var i :| h.left <= i < |h.drawn| && h.drawn[i] == u;
        assert h'.drawn[i] == u;
      }
    }
    forall i | h.left <= i < |h.drawn| ensures h.drawn[i] != t {
      assert HasTicket(l, h.drawn[i], i % WRAP);
    }
  }

  // The owner counter equals one outstanding ticket only, that of the oldest.
  lemma LookKeeps(l: Lock, h: History, t: nat)
    requires Inv(l, h) && t < |l.phases| <= WRAP && l.phases[t].Spinning?
    ensures Inv(Step(l, t), Record(l, h, t))
  {
    var l', h' := Step(l, t), Record(l, h, t);
    if l.owner == l.phases[t].my {
      assert Queued(h, t);
      var i :| h.left <= i < |h.drawn| && h.drawn[i] == t;
      assert HasTicket(l, h.drawn[i], i % WRAP);
      AtMostAll(l, h);
      SmallDifference(h.left, i);
      forall j | h.left <= j < |h.drawn| ensures HasTicket(l', h.drawn[j], j % WRAP) {
        assert HasTicket(l, h.drawn[j], j % WRAP);
      }
      assert h'.entered == h.drawn[..h.left + 1];
    }
  }

  lemma LeaveKeeps(l: Lock, h: History, t: nat)
    requires Inv(l, h) && t < |l.phases| && l.phases[t].Holding?
    ensures Inv(Step(l, t), Record(l, h, t))
  {
    var l', h' := Step(l, t), Record(l, h, t);
    Successor(h.left);
    forall i | h'.left <= i < |h.drawn| ensures HasTicket(l', h.drawn[i], i % WRAP) {
      assert HasTicket(l, h.drawn[i], i % WRAP);
    }
    forall u | 0 <= u < |l.phases| && !l'.phases[u].Idle? ensures Queued(h', u) {
      assert Queued(h, u);
      var i :| h.left <= i < |h.drawn| && h.drawn[i] == u;
      assert h'.left <= i;
    }
  }

  // ----- what the invariant means -----

  predicate Exclusive(l: Lock) {
    forall t, u :: 0 <= t < |l.phases| && 0 <= u < |l.phases| && l.phases[t].Holding? && l.phases[u].Holding? ==> t == u
  }

  function Run(l: Lock, ts: seq<nat>): (r: Lock)
    requires forall i :: 0 <= i < |ts| ==> ts[i] < |l.phases|
    ensures |r.phases| == |l.phases|
    decreases |ts|
  {
    if ts == [] then l else Run(Step(l, ts[0]), ts[1..])
  }

  function RunHistory(l: Lock, h: History, ts: seq<nat>): History
    requires forall i :: 0 <= i < |ts| ==> ts[i] < |l.phases|
    decreases |ts|
  {
    if ts == [] then h else RunHistory(Step(l, ts[0]), Record(l, h, ts[0]), ts[1..])
  }

  // Over every schedule of at most 2^32 contenders: one holder at a time, entering in the order of
  // the tickets, and the outstanding tickets are exactly those from the owner up to the next.
  lemma {:induction false} EveryRun(l: Lock, h: History, ts: seq<nat>)
    requires Inv(l, h) && |l.phases| <= WRAP && forall i :: 0 <= i < |ts| ==> ts[i] < |l.phases|
    ensures var l', h' := Run(l, ts), RunHistory(l, h, ts);
      && Inv(l', h') && Exclusive(l') && h'.entered <= h'.drawn
      && (|h'.drawn| - h'.left) % WRAP == (l'.next - l'.owner) % WRAP && |h'.drawn| - h'.left <= |l.phases|
    decreases |ts|
  {
    if ts == [] {
      AtMostAll(l, h);
      Distance(h.left, |h.drawn|);
    } else {
      StepKeeps(l, h, ts[0]);
      EveryRun(Step(l, ts[0]), Record(l, h, ts[0]), ts[1..]);
    }
  }

  lemma Distance(a: nat, b: nat)
    requires a <= b
    ensures (b - a) % WRAP == (b % WRAP - a % WRAP) % WRAP
  {
    assert b - a == (b % WRAP - a % WRAP) + WRAP * (b / WRAP - a / WRAP);
    Multiple(b % WRAP - a % WRAP, b / WRAP - a / WRAP);
  }

  lemma Multiple(x: int, k: int)
    ensures (x + WRAP * k) % WRAP == x % WRAP
  {
  }

  // No deadlock: while tickets are outstanding, the oldest contender holds the lock or gets it by
  // looking once.
  lemma OldestProceeds(l: Lock, h: History)
    requires Inv(l, h) && h.left < |h.drawn|
    ensures h.drawn[h.left] < |l.phases| && Step(l, h.drawn[h.left]).phases[h.drawn[h.left]] != l.phases[h.drawn[h.left]]
    ensures l.phases[h.drawn[h.left]].Spinning? ==> Step(l, h.drawn[h.left]).phases[h.drawn[h.left]].Holding?
  {
    assert HasTicket(l, h.drawn[h.left], h.left % WRAP);
  }

  // ----- one contender more is too many -----

  // The first `k` contenders have drawn their tickets, nobody has looked.
  function AllDrawn(n: nat, k: nat): Lock
    requires k <= n
  {
    Lock(k % WRAP, 0, seq(n, t => if t < k then Spinning(t % WRAP) else Idle))
  }

  function UpTo(k: nat): (ts: seq<nat>)
    ensures |ts| == k && forall i :: 0 <= i < k ==> ts[i] == i
  {
    seq(k, i => i)
  }

  lemma {:induction false} RunAppend(l: Lock, ts: seq<nat>, us: seq<nat>)
    requires forall i :: 0 <= i < |ts| ==> ts[i] < |l.phases|
    requires forall i :: 0 <= i < |us| ==> us[i] < |l.phases|
    ensures forall i :: 0 <= i < |ts + us| ==> (ts + us)[i] < |l.phases|
    ensures Run(l, ts + us) == Run(Run(l, ts), us)
    decreases |ts|
  {
    if ts == [] {
      assert ts + us == us;
    } else {
      assert (ts + us)[1..] == ts[1..] + us;
      RunAppend(Step(l, ts[0]), ts[1..], us);
    }
  }

  lemma {:induction false} DrawAll(n: nat, k: nat)
    requires k <= n
    ensures Run(Start(n), UpTo(k)) == AllDrawn(n, k)
  {
    if k == 0 {
      assert AllDrawn(n, 0).phases == Start(n).phases;
    } else {
      DrawAll(n, k - 1);
      var l := AllDrawn(n, k - 1);
      Successor(k - 1);
      assert UpTo(k) == UpTo(k - 1) + [k - 1];
      RunAppend(Start(n), UpTo(k - 1), [k - 1]);
      assert Run(l, [k - 1]) == Step(l, k - 1) by { assert [k - 1][1..] == []; }
      assert Step(l, k - 1).phases == AllDrawn(n, k).phases;
    }
  }

  // The schedule in which all draw a ticket, and then the first and the last of 2^32 + 1 look.
  function Crowd(n: nat): (ts: seq<nat>)
    requires n > WRAP
    ensures forall i :: 0 <= i < |ts| ==> ts[i] < n
  {
    UpTo(WRAP + 1) + [0, WRAP]
  }

  lemma CrowdClashes(n: nat)
    requires n > WRAP
    ensures !Exclusive(Run(Start(n), Crowd(n)))
  {
    DrawAll(n, WRAP + 1);
    var l := AllDrawn(n, WRAP + 1);
    RunAppend(Start(n), UpTo(WRAP + 1), [0, WRAP]);
    assert [0, WRAP][1..] == [WRAP] && [WRAP][1..] == [];
    var l1 := Step(l, 0);
    assert l.phases[0] == Spinning(0) && l.phases[WRAP] == Spinning(0);
    var l2 := Step(l1, WRAP);
    assert Run(l, [0, WRAP]) == l2 by { assert Run(l1, [WRAP]) == l2 by { assert Run(l2, []) == l2; } }
    assert l2.phases[0].Holding? && l2.phases[WRAP].Holding?;
  }

  // A schedule of `n` contenders.
  ghost predicate Schedule(n: nat, ts: seq<nat>) {
    forall i :: 0 <= i < |ts| ==> ts[i] < n
  }

  // Mutual exclusion holds over all schedules if and only if at most 2^32 contend.
  lemma ExclusiveExactlyUpTo(n: nat)
    ensures (forall ts :: Schedule(n, ts) ==> Exclusive(Run(Start(n), ts))) <==> n <= WRAP
  {
    if n <= WRAP {
      forall ts | Schedule(n, ts) ensures Exclusive(Run(Start(n), ts)) {
        StartInv(n);
        EveryRun(Start(n), History([], [], 0), ts);
      }
    } else {
      CrowdClashes(n);
      assert Schedule(n, Crowd(n));
    }
  }
}
