/** The firmware memory map, and the order in which the frame allocator enumerates its pages. */
module MemoryMap {
  import opened Lists
  import opened Words

  datatype Region = Region(base: nat, length: nat, usable: bool)

  const ONE_MIB: nat := 0x10_0000

  // `aligned_start`, raised to 1 MiB, and `aligned_end`.
  function Start(r: Region): nat {
    var s := AlignUp(r.base);
    if s < ONE_MIB then ONE_MIB else s
  }

  function End(r: Region): nat { AlignDown(r.base + r.length) }

  function PageCount(r: Region): (n: nat)
    ensures r.usable && Start(r) < End(r) ==> n >= 1 && Start(r) + n * PAGE_SIZE == End(r)
    ensures !(r.usable && Start(r) < End(r)) ==> n == 0
  {
    if r.usable && Start(r) < End(r) then (End(r) - Start(r)) / PAGE_SIZE else 0
  }

  // Frame numbers of the whole pages of a usable region, at or above 1 MiB.
  function RegionPages(r: Region): (ps: seq<nat>)
    ensures |ps| == PageCount(r)
    ensures forall j :: 0 <= j < |ps| ==> ps[j] == Start(r) / PAGE_SIZE + j
  {
    seq(PageCount(r), j => Start(r) / PAGE_SIZE + j)
  }

  // The pages of the first `k` regions, in memory-map order.
  function PagesUpTo(map_: seq<Region>, k: nat): seq<nat>
    requires k <= |map_|
  {
    if k == 0 then [] else PagesUpTo(map_, k - 1) + RegionPages(map_[k - 1])
  }

  function AllPages(map_: seq<Region>): seq<nat> { PagesUpTo(map_, |map_|) }

  lemma {:induction false} UpToIsPrefix(map_: seq<Region>, j: nat, k: nat)
    requires j <= k <= |map_|
    ensures PagesUpTo(map_, j) <= PagesUpTo(map_, k)
  {
    if j < k {
      UpToIsPrefix(map_, j, k - 1);
    }
  }

  // A page belongs to the enumeration exactly if it is a whole page of some usable region and not
  // below 1 MiB.
  lemma {:induction false} Enumerated(map_: seq<Region>, k: nat, p: nat)
    requires k <= |map_|
    ensures p in PagesUpTo(map_, k) <==>
      exists e :: 0 <= e < k && map_[e].usable && ONE_MIB <= p * PAGE_SIZE &&
                  map_[e].base <= p * PAGE_SIZE && (p + 1) * PAGE_SIZE <= map_[e].base + map_[e].length
  {
    if k > 0 {
      Enumerated(map_, k - 1, p);
      InRegion(map_[k - 1], p);
    }
  }

  lemma InRegion(r: Region, p: nat)
    ensures p in RegionPages(r) <==>
      r.usable && ONE_MIB <= p * PAGE_SIZE && r.base <= p * PAGE_SIZE && (p + 1) * PAGE_SIZE <= r.base + r.length
  {
    var s := Start(r) / PAGE_SIZE;
    assert Start(r) == s * PAGE_SIZE;
    if r.usable && s <= p < s + PageCount(r) {
      assert RegionPages(r)[p - s] == p;
    }
  }

  // Regions that share no byte have no page in common, so the enumeration has no duplicate.
  ghost predicate Disjoint(map_: seq<Region>) {
    forall i, j :: 0 <= i < j < |map_| && map_[i].usable && map_[j].usable ==>
      map_[i].base + map_[i].length <= map_[j].base || map_[j].base + map_[j].length <= map_[i].base
  }

  lemma {:induction false} PagesDistinct(map_: seq<Region>, k: nat)
    requires k <= |map_| && Disjoint(map_)
    ensures NoRepeats(PagesUpTo(map_, k))
  {
    if k > 0 {
      PagesDistinct(map_, k - 1);
      var front, r := PagesUpTo(map_, k - 1), map_[k - 1];
      forall p | p in front ensures p !in RegionPages(r) {
        Enumerated(map_, k - 1, p);
        InRegion(r, p);
      }
      AppendDistinct(front, RegionPages(r));
    }
  }

  lemma AppendDistinct<T>(a: seq<T>, b: seq<T>)
    requires NoRepeats(a) && NoRepeats(b) && forall x :: x in a ==> x !in b
    ensures NoRepeats(a + b)
  {
    var s := a + b;
    forall i, j | 0 <= i < j < |s| ensures s[i] != s[j] {
      if i < |a| <= j {
        assert s[i] in a && s[j] in b;
      }
    }
  }

  lemma SplitDistinct<T>(s: seq<T>, a: nat, b: nat)
    requires NoRepeats(s) && a <= b <= |s|
    ensures forall x :: x in s[..b] <==> x in s[..a] || x in s[a..b]
    ensures forall x :: x in s[a..b] ==> x !in s[..a]
    ensures b < |s| ==> s[b] !in s[..b]
  {
    assert s[..b] == s[..a] + s[a..b];
    forall x | x in s[a..b] ensures x !in s[..a] {
      var k :| 0 <= k < b - a && s[a..b][k] == x;
      assert s[a + k] == x;
    }
  }
}
