/** The intrusive lists of the kernel: records linked both ways through their own fields, where the
    first record's back pointer leads to the last one. */
module LinkedLists {
  import opened Lists

  // The link fields of a record.
  class Link {
    var next: Link?
    var prev: Link?
  }

  function At(items: seq<Link>, i: int): Link? {
    if 0 <= i < |items| then items[i] else null
  }

  // The record before place `i`; the last one for the first.
  function Behind(items: seq<Link>, i: nat): Link? {
    if i == 0 then At(items, |items| - 1) else At(items, i - 1)
  }

  class List {
    var head: Link?
    ghost var items: seq<Link>

    ghost predicate Valid()
      reads this, items
    {
      && NoRepeats(items)
      && head == At(items, 0)
      && (forall i :: 0 <= i < |items| ==> items[i].next == At(items, i + 1))
      && (forall i :: 0 <= i < |items| ==> items[i].prev == Behind(items, i))
    }

    constructor ()
      ensures Valid() && items == []
    {
      head, items := null, [];
    }

    // LL_APPEND
    method Append(item: Link)
      requires Valid() && item !in items
      modifies this, item, items
      ensures Valid() && items == old(items) + [item]
    {
      hide At; hide Behind; hide NoRepeats;
      ghost var was := items;
      Ends(was);
      item.next := null;
      if head == null {
        head := item;
      } else {
        item.prev := head.prev;
        head.prev.next := item;
      }
      head.prev := item;
      items := items + [item];
      Appended(was, item);
    }

    // LL_UNLINK
    method Unlink(item: Link)
      requires Valid() && item in items
      modifies this, items
      ensures Valid() && items == Without(old(items), item)
    {
      hide Without; hide Pos; hide At; hide Behind; hide NoRepeats;
      ghost var i, was := Pos(items, item), items;
      Ends(was);
      Neighbours(was, i);
      assert was[i] == item && item.next == At(was, i + 1) && item.prev == Behind(was, i);
      if item.next != null {
        item.next.prev := item.prev;
      } else {
        head.prev := item.prev;
      }
      if item != head {
        item.prev.next := item.next;
      } else {
        head := item.next;
      }
      items := Without(was, item);
      Unlinked(was, item);
    }
  }

  lemma Ends(ts: seq<Link>)
    ensures At(ts, 0) == null <==> ts == []
    ensures ts != [] ==> At(ts, 0) == ts[0] && Behind(ts, 0) == ts[|ts| - 1]
  {
  }

  lemma Neighbours(ts: seq<Link>, i: nat)
    requires NoRepeats(ts) && i < |ts|
    ensures At(ts, i + 1) == null <==> i == |ts| - 1
    ensures i + 1 < |ts| ==> At(ts, i + 1) == ts[i + 1] && ts[i + 1] != ts[i]
    ensures i > 0 ==> Behind(ts, i) == ts[i - 1] && ts[i - 1] != ts[i] && ts[0] != ts[i]
  {
  }

  lemma Appended(ts: seq<Link>, item: Link)
    requires NoRepeats(ts) && item !in ts
    ensures NoRepeats(ts + [item])
    ensures forall j: nat :: At(ts + [item], j) == if j < |ts| then At(ts, j) else if j == |ts| then item else null
    ensures forall j :: 0 <= j <= |ts| ==> Behind(ts + [item], j) == if j == 0 then item else if j < |ts| then Behind(ts, j) else ts[|ts| - 1]
    ensures forall j, k :: 0 <= j < |ts| && 0 <= k < |ts| && j != k ==> ts[j] != ts[k]
  {
  }

  // The neighbours in the shorter list.
  lemma Unlinked(ts: seq<Link>, item: Link)
    requires NoRepeats(ts) && item in ts
    ensures var w, i, n := Without(ts, item), Pos(ts, item), |ts|;
      && NoRepeats(w) && |w| == n - 1
      && (forall j :: 0 <= j < n - 1 ==> w[j] == ts[if j < i then j else j + 1])
      && (forall j: nat :: At(w, j) == At(ts, if j < i then j else j + 1))
      && (forall j :: 0 <= j < n - 1 ==>
            Behind(w, j) == if j == i || (j == 0 && i == n - 1) then Behind(ts, i) else Behind(ts, if j < i then j else j + 1))
      && (forall j, k :: 0 <= j < n && 0 <= k < n && j != k ==> ts[j] != ts[k])
  {
    hide Without; hide Pos;
    WithoutElements(ts, item);
    WithoutIs(ts, item);
  }
}
