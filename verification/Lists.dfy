/** Lists of records as sequences, and what unlinking does to them. */
module Lists {
  predicate NoRepeats<T(==)>(ts: seq<T>) {
    forall i, j :: 0 <= i < j < |ts| ==> ts[i] != ts[j]
  }

  // Unlinking.
  function Without<T(==)>(ts: seq<T>, t: T): (r: seq<T>)
    ensures |ts| - 1 <= |r| <= |ts|
  {
    if ts == [] then [] else if ts[0] == t then ts[1..] else [ts[0]] + Without(ts[1..], t)
  }

  function Pos<T(==)>(ts: seq<T>, t: T): (i: nat)
    ensures i <= |ts| && (t in ts ==> i < |ts| && ts[i] == t) && forall j :: 0 <= j < i ==> ts[j] != t
  {
    if ts == [] || ts[0] == t then 0 else 1 + Pos(ts[1..], t)
  }

  lemma {:induction false} WithoutIs<T>(ts: seq<T>, t: T)
    requires t in ts
    ensures Without(ts, t) == ts[..Pos(ts, t)] + ts[Pos(ts, t) + 1..]
  {
    if ts[0] != t {
      WithoutIs(ts[1..], t);
      var i := Pos(ts[1..], t);
      assert ts[..i + 1] == [ts[0]] + ts[1..][..i];
    }
  }

  lemma WithoutIndex<T>(ts: seq<T>, t: T, j: nat)
    requires t in ts && j < |ts| - 1
    ensures |Without(ts, t)| == |ts| - 1 && Without(ts, t)[j] == ts[if j < Pos(ts, t) then j else j + 1]
  {
    WithoutIs(ts, t);
  }

  lemma WithoutElements<T>(ts: seq<T>, t: T)
    requires NoRepeats(ts) && t in ts
    ensures NoRepeats(Without(ts, t)) && forall u :: u in Without(ts, t) <==> u in ts && u != t
  {
    hide Without; hide Pos;
    var i, w := Pos(ts, t), Without(ts, t);
    WithoutIs(ts, t);
    forall j | 0 <= j < |w| ensures w[j] == ts[if j < i then j else j + 1] {
      WithoutIndex(ts, t, j);
    }
    forall u | u in ts && u != t ensures u in w {
      var j :| 0 <= j < |ts| && ts[j] == u;
      assert w[if j < i then j else j - 1] == u;
    }
  }

  lemma PosAt<T>(ts: seq<T>, i: nat)
    requires NoRepeats(ts) && i < |ts|
    ensures Pos(ts, ts[i]) == i
  {
  }

  lemma WithoutAt<T>(ts: seq<T>, i: nat)
    requires NoRepeats(ts) && i < |ts|
    ensures Without(ts, ts[i]) == ts[..i] + ts[i + 1..]
  {
    PosAt(ts, i);
    WithoutIs(ts, ts[i]);
  }

  lemma PosPrefix<T>(ts: seq<T>, us: seq<T>, t: T)
    requires t in ts
    ensures Pos(ts + us, t) == Pos(ts, t)
  {
    hide Pos;
    var i, j := Pos(ts, t), Pos(ts + us, t);
    assert (ts + us)[i] == t;
    assert forall k :: 0 <= k < i ==> (ts + us)[k] == ts[k];
  }

  // ----- what is taken out of a list, and what stays -----

  ghost function Earlier(hits: set<nat>, k: nat): nat {
    |set j | j in hits && j < k|
  }

  ghost predicate Places<T>(ts: seq<T>, hits: set<nat>) {
    forall k :: k in hits ==> k < |ts|
  }

  // The elements at those places, in order.
  ghost predicate PickedOut<T>(ts: seq<T>, hits: set<nat>, r: seq<T>) {
    && Places(ts, hits) && |r| == |hits|
    && forall k :: k in hits ==> Earlier(hits, k) < |r| && r[Earlier(hits, k)] == ts[k]
  }

  // The elements at all other places, in order.
  ghost predicate LeftOver<T>(ts: seq<T>, hits: set<nat>, r: seq<T>) {
    && Places(ts, hits) && |r| == |ts| - |hits|
    && forall k: nat :: k < |ts| && k !in hits ==> 0 <= k - Earlier(hits, k) < |r| && r[k - Earlier(hits, k)] == ts[k]
  }

  lemma EarlierAll(hits: set<nat>, n: nat)
    requires forall k :: k in hits ==> k < n
    ensures Earlier(hits, n) == |hits| && Earlier(hits + {n}, n) == |hits| && |hits + {n}| == |hits| + 1
    ensures forall k: nat :: k < n ==> Earlier(hits + {n}, k) == Earlier(hits, k)
  {
    assert (set j | j in hits && j < n) == hits;
    assert (set j | j in hits + {n} && j < n) == hits;
    forall k: nat | k < n ensures Earlier(hits + {n}, k) == Earlier(hits, k) {
      assert (set j | j in hits + {n} && j < k) == (set j | j in hits && j < k);
    }
  }

  // One more element stays, or is taken.
  lemma OneStays<T>(ts: seq<T>, hits: set<nat>, r: seq<T>, t: T)
    requires LeftOver(ts, hits, r)
    ensures LeftOver(ts + [t], hits, r + [t])
  {
    hide Earlier;
    EarlierAll(hits, |ts|);
  }

  lemma OneLess<T>(ts: seq<T>, hits: set<nat>, r: seq<T>, t: T)
    requires LeftOver(ts, hits, r)
    ensures LeftOver(ts + [t], hits + {|ts|}, r)
  {
    hide Earlier;
    EarlierAll(hits, |ts|);
  }

  lemma OnePassed<T>(ts: seq<T>, hits: set<nat>, r: seq<T>, t: T)
    requires PickedOut(ts, hits, r)
    ensures PickedOut(ts + [t], hits, r)
  {
  }

  lemma OnePicked<T>(ts: seq<T>, hits: set<nat>, r: seq<T>, t: T)
    requires PickedOut(ts, hits, r)
    ensures PickedOut(ts + [t], hits + {|ts|}, r + [t])
  {
    hide Earlier;
    EarlierAll(hits, |ts|);
  }
}
