/** File descriptors shared between processes: reference counts, and the asynchronous operations that
    name them. */
module Descriptors {
  import opened Prelude
  import opened Lists

  const MAX_FDS: nat := 255

  // A table slot holds the address of a descriptor; 0 is an empty slot.
  datatype Proc = Proc(pid: int, fds: seq<nat>)

  datatype Op = Op(pid: int, fd: nat, mode: int)

  // The allocated descriptors and their reference counts.
  datatype Descs = Descs(refs: map<nat, int>)

  // ----- counting slots -----

  function Slots(fds: seq<nat>, d: nat): (n: nat) {
    if fds == [] then 0 else Slots(fds[..|fds| - 1], d) + (if fds[|fds| - 1] == d then 1 else 0)
  }

  // Slots of all processes that point to `d`.
  function Refs(ps: seq<Proc>, d: nat): (n: nat) {
    if ps == [] then 0 else Refs(ps[..|ps| - 1], d) + Slots(ps[|ps| - 1].fds, d)
  }

  // The places of the slots that point to `d`: process and slot.
  ghost function PointersTo(ps: seq<Proc>, d: nat): set<(nat, nat)> {
    set i: nat, k: nat | i < |ps| && k < |ps[i].fds| && ps[i].fds[k] == d :: (i, k)
  }

  // `Refs` is their number.
  lemma {:induction false} RefsCount(ps: seq<Proc>, d: nat)
    ensures Refs(ps, d) == |PointersTo(ps, d)|
  {
    hide Slots;
    if ps == [] {
      assert PointersTo(ps, d) == {};
    } else {
      var n := |ps| - 1;
      var front, last := ps[..n], ps[n];
      RefsCount(front, d);
      SlotsCount(last.fds, d, n);
      assert PointersTo(ps, d) == PointersTo(front, d) + SlotPlaces(last.fds, d, n);
      assert PointersTo(front, d) !! SlotPlaces(last.fds, d, n);
    }
  }

  ghost function SlotPlaces(fds: seq<nat>, d: nat, i: nat): set<(nat, nat)> {
    set k: nat | k < |fds| && fds[k] == d :: (i, k)
  }

  lemma {:induction false} SlotsCount(fds: seq<nat>, d: nat, i: nat)
    ensures Slots(fds, d) == |SlotPlaces(fds, d, i)|
  {
    if fds == [] {
      assert SlotPlaces(fds, d, i) == {};
    } else {
      var n := |fds| - 1;
      SlotsCount(fds[..n], d, i);
      assert SlotPlaces(fds, d, i) == if fds[n] == d then SlotPlaces(fds[..n], d, i) + {(i, n)} else SlotPlaces(fds[..n], d, i);
    }
  }

  lemma {:induction false} SlotSet(fds: seq<nat>, k: nat, x: nat, d: nat)
    requires k < |fds|
    ensures Slots(fds[k := x], d) == Slots(fds, d) - (if fds[k] == d then 1 else 0) + (if x == d then 1 else 0)
  {
    var n := |fds| - 1;
    if k < n {
      SlotSet(fds[..n], k, x, d);
      assert fds[k := x][..n] == fds[..n][k := x];
    } else {
      assert fds[k := x][..n] == fds[..n];
    }
  }

  lemma {:induction false} RefsSet(ps: seq<Proc>, i: nat, p: Proc, d: nat)
    requires i < |ps|
    ensures Refs(ps[i := p], d) == Refs(ps, d) - Slots(ps[i].fds, d) + Slots(p.fds, d)
  {
    var n := |ps| - 1;
    if i < n {
      RefsSet(ps[..n], i, p, d);
      assert ps[i := p][..n] == ps[..n][i := p];
    } else {
      assert ps[i := p][..n] == ps[..n];
    }
  }

  lemma RefsAppend(ps: seq<Proc>, p: Proc, d: nat)
    ensures Refs(ps + [p], d) == Refs(ps, d) + Slots(p.fds, d)
  {
    assert (ps + [p])[..|ps|] == ps;
  }

  lemma {:induction false} RefsRemove(ps: seq<Proc>, i: nat, d: nat)
    requires i < |ps|
    ensures Refs(ps[..i] + ps[i + 1..], d) == Refs(ps, d) - Slots(ps[i].fds, d)
  {
    hide Slots;
    var n := |ps| - 1;
    if i < n {
      RefsRemove(ps[..n], i, d);
      assert (ps[..i] + ps[i + 1..])[..n - 1] == ps[..n][..i] + ps[..n][i + 1..];
    } else {
      assert ps[..i] + ps[i + 1..] == ps[..n];
    }
  }

  lemma {:induction false} SlotsSome(fds: seq<nat>, d: nat)
    ensures Slots(fds, d) > 0 <==> d in fds
  {
    if fds != [] {
      SlotsSome(fds[..|fds| - 1], d);
      assert fds == fds[..|fds| - 1] + [fds[|fds| - 1]];
    }
  }

  lemma {:induction false} RefsSome(ps: seq<Proc>, i: nat, d: nat)
    requires i < |ps| && d in ps[i].fds
    ensures Refs(ps, d) > 0
  {
    var n := |ps| - 1;
    if i < n {
      RefsSome(ps[..n], i, d);
    } else {
      SlotsSome(ps[n].fds, d);
    }
  }

  // ----- invariant -----

  // Two used slots of one process never share a descriptor.
  ghost predicate TableOk(p: Proc) {
    |p.fds| == MAX_FDS && forall j, k :: 0 <= j < k < MAX_FDS && p.fds[j] != 0 ==> p.fds[j] != p.fds[k]
  }

  ghost predicate TablesOk(ps: seq<Proc>) {
    && (forall i :: 0 <= i < |ps| ==> TableOk(ps[i]))
    && (forall i, j :: 0 <= i < j < |ps| ==> ps[i].pid != ps[j].pid)
  }

  // A descriptor is allocated exactly while some slot points to it, and counts those slots.
  ghost predicate Counted(ps: seq<Proc>, descs: Descs) {
    && 0 !in descs.refs
    && forall d: nat :: d != 0 ==> (if d in descs.refs then descs.refs[d] == Refs(ps, d) > 0 else Refs(ps, d) == 0)
  }

  predicate Holds(ps: seq<Proc>, pid: int, d: nat) {
    exists i :: 0 <= i < |ps| && ps[i].pid == pid && d in ps[i].fds
  }

  // Operations are unique, and each names a descriptor in the table of a live process.
  ghost predicate OpsOk(ps: seq<Proc>, ops: seq<Op>) {
    && NoRepeats(ops)
    && (forall o :: o in ops ==> o.fd != 0 && Holds(ps, o.pid, o.fd))
  }

  // The operations that stay when those of one process on one descriptor are removed.
  function Dropped(ops: seq<Op>, pid: int, d: nat): (r: seq<Op>)
    ensures forall o :: o in r <==> o in ops && !(o.pid == pid && o.fd == d)
  {
    if ops == [] then [] else
    var r := Dropped(ops[..|ops| - 1], pid, d);
    var o := ops[|ops| - 1];
    assert ops == ops[..|ops| - 1] + [o];
    if o.pid == pid && o.fd == d then r else r + [o]
  }

  // The operations that stay when one descriptor has become ready.
  function Unnotified(ops: seq<Op>, d: nat, mode: int): (r: seq<Op>)
    ensures forall o :: o in r <==> o in ops && !(o.fd == d && o.mode == mode)
  {
    if ops == [] then [] else
    var r := Unnotified(ops[..|ops| - 1], d, mode);
    var o := ops[|ops| - 1];
    assert ops == ops[..|ops| - 1] + [o];
    if o.fd == d && o.mode == mode then r else r + [o]
  }

  // Who is told, in queue order.
  function Notified(ops: seq<Op>, d: nat, mode: int): seq<int> {
    if ops == [] then [] else
    var r := Notified(ops[..|ops| - 1], d, mode);
    var o := ops[|ops| - 1];
    if o.fd == d && o.mode == mode then r + [o.pid] else r
  }

  // The places of the operations that have become ready.
  ghost function ReadyAt(ops: seq<Op>, d: nat, mode: int): set<nat> {
    set k | 0 <= k < |ops| && ops[k].fd == d && ops[k].mode == mode
  }

  // The places of one process's operations on one descriptor.
  ghost function OwnedAt(ops: seq<Op>, pid: int, d: nat): set<nat> {
    set k | 0 <= k < |ops| && ops[k].pid == pid && ops[k].fd == d
  }

  function Pids(ops: seq<Op>): seq<int> {
    seq(|ops|, i requires 0 <= i < |ops| => ops[i].pid)
  }

  // The operations that are ready go and the others stay in order.
  lemma {:induction false} UnnotifiedInOrder(ops: seq<Op>, d: nat, mode: int)
    ensures LeftOver(ops, ReadyAt(ops, d, mode), Unnotified(ops, d, mode))
  {
    hide LeftOver; hide ReadyAt;
    if ops == [] {
      NoneReady(d, mode);
    } else {
      var n := |ops| - 1;
      var front, o := ops[..n], ops[n];
      UnnotifiedInOrder(front, d, mode);
      ReadyLast(front, o, d, mode);
      assert ops == front + [o];
      if o.fd == d && o.mode == mode {
        OneLess(front, ReadyAt(front, d, mode), Unnotified(front, d, mode), o);
      } else {
        OneStays(front, ReadyAt(front, d, mode), Unnotified(front, d, mode), o);
      }
    }
  }

  // The pids told are those of the operations that went, in order.
  lemma {:induction false} NotifiedInOrder(ops: seq<Op>, d: nat, mode: int)
    ensures PickedOut(Pids(ops), ReadyAt(ops, d, mode), Notified(ops, d, mode))
  {
    hide PickedOut; hide ReadyAt; hide Pids;
    if ops == [] {
      NoneReady(d, mode);
    } else {
      var n := |ops| - 1;
      var front, o := ops[..n], ops[n];
      NotifiedInOrder(front, d, mode);
      ReadyLast(front, o, d, mode);
      assert ops == front + [o];
      PidsLast(front, o);
      if o.fd == d && o.mode == mode {
        OnePicked(Pids(front), ReadyAt(front, d, mode), Notified(front, d, mode), o.pid);
      } else {
        OnePassed(Pids(front), ReadyAt(front, d, mode), Notified(front, d, mode), o.pid);
      }
    }
  }

  lemma NoneReady(d: nat, mode: int)
    ensures ReadyAt([], d, mode) == {} && LeftOver<Op>([], {}, []) && PickedOut(Pids([]), {}, [])
  {
  }

  lemma PidsLast(ops: seq<Op>, o: Op)
    ensures Pids(ops + [o]) == Pids(ops) + [o.pid] && |Pids(ops)| == |ops|
  {
  }

  lemma ReadyLast(ops: seq<Op>, o: Op, d: nat, mode: int)
    ensures ReadyAt(ops + [o], d, mode) == if o.fd == d && o.mode == mode then ReadyAt(ops, d, mode) + {|ops|} else ReadyAt(ops, d, mode)
  {
  }

  // The process's operations on the descriptor go and the others stay in order.
  lemma {:induction false} DroppedInOrder(ops: seq<Op>, pid: int, d: nat)
    ensures LeftOver(ops, OwnedAt(ops, pid, d), Dropped(ops, pid, d))
  {
    hide LeftOver; hide OwnedAt;
    if ops == [] {
      NoneOwned(pid, d);
    } else {
      var n := |ops| - 1;
      var front, o := ops[..n], ops[n];
      DroppedInOrder(front, pid, d);
      OwnedLast(front, o, pid, d);
      assert ops == front + [o];
      if o.pid == pid && o.fd == d {
        OneLess(front, OwnedAt(front, pid, d), Dropped(front, pid, d), o);
      } else {
        OneStays(front, OwnedAt(front, pid, d), Dropped(front, pid, d), o);
      }
    }
  }

  lemma NoneOwned(pid: int, d: nat)
    ensures OwnedAt([], pid, d) == {} && LeftOver<Op>([], {}, [])
  {
  }

  lemma OwnedLast(ops: seq<Op>, o: Op, pid: int, d: nat)
    ensures OwnedAt(ops + [o], pid, d) == if o.pid == pid && o.fd == d then OwnedAt(ops, pid, d) + {|ops|} else OwnedAt(ops, pid, d)
  {
  }

  // The operations of all other processes, in order.
  function Others(ops: seq<Op>, pid: int): (r: seq<Op>)
    ensures forall o :: o in r ==> o in ops && o.pid != pid
  {
    if ops == [] then [] else
    var r := Others(ops[..|ops| - 1], pid);
    var o := ops[|ops| - 1];
    if o.pid == pid then r else r + [o]
  }

  lemma {:induction false} OthersInOrder(ops: seq<Op>, pid: int)
    ensures LeftOver(ops, OfAt(ops, pid), Others(ops, pid))
  {
    hide LeftOver; hide OfAt;
    if ops == [] {
      NoneOf(pid);
    } else {
      var n := |ops| - 1;
      var front, o := ops[..n], ops[n];
      OthersInOrder(front, pid);
      OfLast(front, o, pid);
      assert ops == front + [o];
      if o.pid == pid {
        OneLess(front, OfAt(front, pid), Others(front, pid), o);
      } else {
        OneStays(front, OfAt(front, pid), Others(front, pid), o);
      }
    }
  }

  ghost function OfAt(ops: seq<Op>, pid: int): set<nat> {
    set k | 0 <= k < |ops| && ops[k].pid == pid
  }

  lemma NoneOf(pid: int)
    ensures OfAt([], pid) == {} && LeftOver<Op>([], {}, [])
  {
  }

  lemma OfLast(ops: seq<Op>, o: Op, pid: int)
    ensures OfAt(ops + [o], pid) == if o.pid == pid then OfAt(ops, pid) + {|ops|} else OfAt(ops, pid)
  {
  }

  lemma {:induction false} OthersDropped(ops: seq<Op>, pid: int, d: nat)
    ensures Others(Dropped(ops, pid, d), pid) == Others(ops, pid)
  {
    if ops != [] {
      var n := |ops| - 1;
      OthersDropped(ops[..n], pid, d);
      var r := Dropped(ops[..n], pid, d);
      assert (r + [ops[n]])[..|r|] == r;
    }
  }

  lemma {:induction false} AllOthers(ops: seq<Op>, pid: int)
    requires forall o :: o in ops ==> o.pid != pid
    ensures Others(ops, pid) == ops
  {
    if ops != [] {
      var n := |ops| - 1;
      AllOthers(ops[..n], pid);
      assert ops == ops[..n] + [ops[n]];
    }
  }

  lemma {:induction false} DroppedUnique(ops: seq<Op>, pid: int, d: nat)
    requires NoRepeats(ops)
    ensures NoRepeats(Dropped(ops, pid, d))
  {
    if ops != [] {
      DroppedUnique(ops[..|ops| - 1], pid, d);
      assert ops[|ops| - 1] !in ops[..|ops| - 1];
    }
  }

  lemma {:induction false} UnnotifiedUnique(ops: seq<Op>, d: nat, mode: int)
    requires NoRepeats(ops)
    ensures NoRepeats(Unnotified(ops, d, mode))
  {
    if ops != [] {
      UnnotifiedUnique(ops[..|ops| - 1], d, mode);
      assert ops[|ops| - 1] !in ops[..|ops| - 1];
    }
  }

  class Files {
    var procs: seq<Proc>
    var descs: Descs
    var ops: seq<Op>

    ghost predicate Valid()
      reads this
    {
      TablesOk(procs) && Counted(procs, descs) && OpsOk(procs, ops)
    }

    constructor ()
      ensures Valid() && procs == [] && descs.refs == map[] && ops == []
    {
      procs, descs, ops := [], Descs(map[]), [];
    }

    // The first process starts with the console as slots 0 and 1; `stdin` and `stdout` are the addresses
    // of the descriptors that opening it yields, 0 if it fails.
    method CreateRoot(pid: int, stdin: nat, stdout: nat)
      requires Valid() && forall j :: 0 <= j < |procs| ==> procs[j].pid != pid
      requires stdin !in descs.refs && stdout !in descs.refs && (stdin != 0 ==> stdin != stdout)
      modifies this`procs, this`descs
      ensures Valid() && procs == old(procs) + [Proc(pid, NoFds()[0 := stdin][1 := stdout])]
    {
      var was, i := procs, |procs|;
      EmptyTable(procs, descs, ops, pid);
      procs := was + [Proc(pid, NoFds())];
      if stdin != 0 {
        Opened(procs, descs, ops, i, 0, stdin);
        descs := Descs(descs.refs[stdin := 1]);
        procs := procs[i := Proc(pid, NoFds()[0 := stdin])];
      }
      assert NoFds()[0 := 0] == NoFds() && NoFds()[0 := stdin][1 := 0] == NoFds()[0 := stdin];
      assert procs == was + [Proc(pid, NoFds()[0 := stdin])];
      if stdout != 0 {
        assert TableOk(procs[i]);
        Opened(procs, descs, ops, i, 1, stdout);
        descs := Descs(descs.refs[stdout := 1]);
        procs := procs[i := Proc(pid, NoFds()[0 := stdin][1 := stdout])];
      }
    }

    // Drops one reference; the descriptor goes with the last.
    method VfsClose(d: nat) returns (res: int)
      requires d in descs.refs
      modifies this`descs
      ensures res == PROTO_OK
      ensures descs.refs == if old(descs.refs)[d] > 1 then old(descs.refs)[d := old(descs.refs)[d] - 1] else old(descs.refs) - {d}
    {
      var left := descs.refs[d] - 1;
      if left > 0 {
        descs := Descs(descs.refs[d := left]);
        return PROTO_OK;
      }
      descs := Descs(descs.refs - {d});
      return PROTO_OK;
    }

    // `file` is the address of the descriptor that opening the path yields, 0 if it fails; it is not
    // asked for when the table is full. The lowest empty slot is used.
    method SysOpen(i: nat, file: nat) returns (res: int)
      requires Valid() && i < |procs| && file !in descs.refs
      modifies this`procs, this`descs
      ensures Valid()
      ensures res == -PROTO_ERR_MAX_FD_REACHED <==> 0 !in old(procs[i]).fds
      ensures res == -PROTO_ERR_UNKNOWN <==> 0 in old(procs[i]).fds && file == 0
      ensures res < 0 ==> procs == old(procs) && descs == old(descs)
      ensures res >= 0 ==> res < MAX_FDS && |old(procs[i]).fds| == MAX_FDS && old(procs[i]).fds[res] == 0 && (forall k :: 0 <= k < res ==> old(procs[i]).fds[k] != 0)
      ensures res >= 0 ==> procs == old(procs)[i := Proc(old(procs[i]).pid, old(procs[i]).fds[res := file])] && descs.refs == old(descs.refs)[file := 1]
    {
      assert TableOk(procs[i]);
      var k := 0;
      while k < MAX_FDS && procs[i].fds[k] != 0
        invariant k <= MAX_FDS && forall j :: 0 <= j < k ==> procs[i].fds[j] != 0
      {
        k := k + 1;
      }
      if k == MAX_FDS {
        return -PROTO_ERR_MAX_FD_REACHED;
      }
      assert procs[i].fds[k] == 0;
      if file == 0 {
        return -PROTO_ERR_UNKNOWN;
      }
      Opened(procs, descs, ops, i, k, file);
      descs := Descs(descs.refs[file := 1]);
      procs := procs[i := procs[i].(fds := procs[i].fds[k := file])];
      return k;
    }

    // Operations of this process on the descriptor are removed before its reference goes.
    method SysClose(i: nat, fd: nat) returns (res: int)
      requires Valid() && i < |procs|
      modifies this
      ensures Valid()
      ensures res == if fd >= MAX_FDS then PROTO_ERR_MAX_FD_REACHED else if old(procs[i]).fds[fd] == 0 then PROTO_ERR_INVALID_FD else PROTO_OK
      ensures res != PROTO_OK ==> procs == old(procs) && descs == old(descs) && ops == old(ops)
      ensures res == PROTO_OK ==> procs == old(procs)[i := Proc(old(procs[i]).pid, old(procs[i]).fds[fd := 0])] &&
                                  ops == Dropped(old(ops), old(procs[i]).pid, old(procs[i]).fds[fd])
    {
      assert TableOk(procs[i]);
      if fd >= MAX_FDS {
        return PROTO_ERR_MAX_FD_REACHED;
      }
      var d := procs[i].fds[fd];
      if d == 0 {
        return PROTO_ERR_INVALID_FD;
      }
      SlotAllocated(procs, descs, i, fd);
      Closed(procs, descs, ops, i, fd);
      procs := procs[i := procs[i].(fds := procs[i].fds[fd := 0])];
      AioRemove(procs[i].pid, d);
      res := VfsClose(d);
    }

    // Copies the table of the parent, process number `parent`, and counts every copied slot once more.
    method CreateProcess(parent: nat, pid: int)
      requires Valid() && parent < |procs| && forall j :: 0 <= j < |procs| ==> procs[j].pid != pid
      modifies this`procs, this`descs
      ensures Valid() && procs == old(procs) + [Proc(pid, old(procs[parent]).fds)]
    {
      ghost var was, before := procs, descs;
      var fds := procs[parent].fds;
      assert TableOk(procs[parent]);
      assert fds[..0] == [];
      for k := 0 to MAX_FDS
        invariant procs == was && descs.refs.Keys == before.refs.Keys
        invariant forall d :: d in descs.refs ==> descs.refs[d] == before.refs[d] + Slots(fds[..k], d)
      {
        assert fds[..k + 1][..k] == fds[..k];
        if fds[k] != 0 {
          SlotAllocated(procs, before, parent, k);
          descs := Descs(descs.refs[fds[k] := descs.refs[fds[k]] + 1]);
        }
      }
      assert fds[..MAX_FDS] == fds;
      Inherited(was, before, descs, ops, parent, pid);
      procs := procs + [Proc(pid, fds)];
    }

    // Closes every descriptor of process number `i`, then forgets the process.
    method DestroyProcess(i: nat)
      requires Valid() && i < |procs|
      modifies this
      ensures Valid() && procs == old(procs)[..i] + old(procs)[i + 1..]
      ensures ops == Others(old(ops), old(procs[i]).pid) && LeftOver(old(ops), OfAt(old(ops), old(procs[i]).pid), ops)
    {
      ghost var was := procs;
      ghost var opsWas := ops;
      var k := 0;
      assert TableOk(procs[i]);
      while k < MAX_FDS
        invariant k <= MAX_FDS && Valid() && i < |procs| == |was| && TableOk(procs[i]) && procs == was[i := procs[i]]
        invariant procs[i].pid == was[i].pid && |was[i].fds| == MAX_FDS
        invariant forall j :: 0 <= j < k ==> procs[i].fds[j] == 0
        invariant forall j :: k <= j < MAX_FDS ==> procs[i].fds[j] == was[i].fds[j]
        invariant Others(ops, was[i].pid) == Others(opsWas, was[i].pid)
      {
        var d := procs[i].fds[k];
        if d != 0 {
          OthersDropped(ops, was[i].pid, d);
          var _ := SysClose(i, k);
          assert TableOk(procs[i]);
        }
        k := k + 1;
      }
      Forgotten(procs, descs, ops, i);
      AllOthers(ops, was[i].pid);
      OthersInOrder(opsWas, was[i].pid);
      procs := procs[..i] + procs[i + 1..];
      assert procs == was[..i] + was[i + 1..];
    }

    // ----- asynchronous operations -----

    // A process asks to be told when its descriptor is ready; asking twice is asking once.
    method AioEnqueue(i: nat, d: nat, mode: int) returns (res: int)
      requires Valid() && i < |procs| && d != 0 && d in procs[i].fds
      modifies this`ops
      ensures Valid() && res == PROTO_OK
      ensures ops == if Op(procs[i].pid, d, mode) in old(ops) then old(ops) else old(ops) + [Op(procs[i].pid, d, mode)]
    {
      var o := Op(procs[i].pid, d, mode);
      var k := 0;
      while k < |ops|
        invariant k <= |ops| && o !in ops[..k]
      {
        if ops[k].pid == o.pid && ops[k].fd == d && ops[k].mode == mode {
          return PROTO_OK;
        }
        k := k + 1;
      }
      assert ops[..|ops|] == ops;
      ops := ops + [o];
      return PROTO_OK;
    }

    // Tells every process that waits for the descriptor, once each.
    method AioNotify(d: nat, mode: int) returns (res: int, told: seq<int>)
      requires Valid()
      modifies this`ops
      ensures Valid() && ops == Unnotified(old(ops), d, mode) && told == Notified(old(ops), d, mode)
      ensures LeftOver(old(ops), ReadyAt(old(ops), d, mode), ops) && PickedOut(Pids(old(ops)), ReadyAt(old(ops), d, mode), told)
      ensures res == PROTO_OK <==> exists o :: o in old(ops) && o.fd == d && o.mode == mode
      ensures res == PROTO_OK || res == PROTO_ERR_UNKNOWN
    {
      ghost var was := ops;
      told := [];
      var notified := false;
      var rest: seq<Op> := [];
      var n := |ops|;
      for k := 0 to n
        invariant ops == was && rest == Unnotified(was[..k], d, mode) && told == Notified(was[..k], d, mode)
        invariant notified <==> exists o :: o in was[..k] && o.fd == d && o.mode == mode
      {
        assert was[..k + 1][..k] == was[..k];
        if ops[k].fd == d && ops[k].mode == mode {
          told := told + [ops[k].pid];
          notified := true;
        } else {
          rest := rest + [ops[k]];
        }
      }
      assert was[..n] == was;
      UnnotifiedUnique(was, d, mode);
      UnnotifiedInOrder(was, d, mode);
      NotifiedInOrder(was, d, mode);
      ops := rest;
      return if notified then PROTO_OK else PROTO_ERR_UNKNOWN, told;
    }

    method AioRemove(pid: int, d: nat)
      modifies this`ops
      ensures ops == Dropped(old(ops), pid, d) && LeftOver(old(ops), OwnedAt(old(ops), pid, d), ops)
    {
      ghost var was := ops;
      DroppedInOrder(ops, pid, d);
      var rest: seq<Op> := [];
      var n := |ops|;
      for k := 0 to n
        invariant ops == was && rest == Dropped(was[..k], pid, d)
      {
        assert was[..k + 1][..k] == was[..k];
        if !(ops[k].pid == pid && ops[k].fd == d) {
          rest := rest + [ops[k]];
        }
      }
      assert was[..n] == was;
      ops := rest;
    }
  }

  // ----- how each step keeps the counts -----

  function NoFds(): seq<nat> { seq(MAX_FDS, _ => 0) }

  // A process with an empty table enters.
  lemma EmptyTable(ps: seq<Proc>, descs: Descs, ops: seq<Op>, pid: int)
    requires TablesOk(ps) && Counted(ps, descs) && OpsOk(ps, ops) && forall j :: 0 <= j < |ps| ==> ps[j].pid != pid
    ensures var ps' := ps + [Proc(pid, NoFds())]; TableOk(Proc(pid, NoFds())) && TablesOk(ps') && Counted(ps', descs) && OpsOk(ps', ops)
  {
    hide Refs; hide Slots;
    var p := Proc(pid, NoFds());
    forall x: nat | x != 0 ensures Refs(ps + [p], x) == Refs(ps, x) {
      RefsAppend(ps, p, x);
      SlotsSome(p.fds, x);
    }
    forall o | o in ops ensures Holds(ps + [p], o.pid, o.fd) {
      var j :| 0 <= j < |ps| && ps[j].pid == o.pid && o.fd in ps[j].fds;
      assert (ps + [p])[j] == ps[j];
    }
  }

  lemma SlotAllocated(ps: seq<Proc>, descs: Descs, i: nat, k: nat)
    requires Counted(ps, descs) && i < |ps| && k < |ps[i].fds| && ps[i].fds[k] != 0
    ensures ps[i].fds[k] in descs.refs
  {
    RefsSome(ps, i, ps[i].fds[k]);
  }

  lemma NotHeld(ps: seq<Proc>, descs: Descs, i: nat, d: nat)
    requires Counted(ps, descs) && i < |ps| && d != 0 && d !in descs.refs
    ensures d !in ps[i].fds
  {
    if d in ps[i].fds { RefsSome(ps, i, d); }
  }

  lemma Opened(ps: seq<Proc>, descs: Descs, ops: seq<Op>, i: nat, k: nat, d: nat)
    requires TablesOk(ps) && Counted(ps, descs) && OpsOk(ps, ops) && i < |ps| && k < MAX_FDS
    requires d != 0 && d !in descs.refs && TableOk(ps[i]) && ps[i].fds[k] == 0
    ensures var ps' := ps[i := ps[i].(fds := ps[i].fds[k := d])];
      TablesOk(ps') && Counted(ps', Descs(descs.refs[d := 1])) && OpsOk(ps', ops)
  {
    hide Refs; hide Slots;
    var p' := ps[i].(fds := ps[i].fds[k := d]);
    var ps' := ps[i := p'];
    NotHeld(ps, descs, i, d);
    assert TableOk(p');
    forall x ensures Refs(ps', x) == Refs(ps, x) + (if x == d then 1 else 0) - (if x == 0 then 1 else 0) {
      RefsSet(ps, i, p', x);
      SlotSet(ps[i].fds, k, d, x);
    }
    forall x | x in ps[i].fds && x != 0 ensures x in p'.fds {
      var j :| 0 <= j < MAX_FDS && ps[i].fds[j] == x;
      assert p'.fds[j] == x;
    }
    StillHeld(ps, i, p', ops, 0);
  }

  // Operations keep their descriptors when a table changes only in a slot with `gone`.
  lemma StillHeld(ps: seq<Proc>, i: nat, p': Proc, ops: seq<Op>, gone: nat)
    requires OpsOk(ps, ops) && i < |ps| && p'.pid == ps[i].pid && forall d :: d in ps[i].fds && d != gone ==> d in p'.fds
    requires forall o :: o in ops ==> !(o.pid == p'.pid && o.fd == gone)
    ensures OpsOk(ps[i := p'], ops)
  {
    forall o | o in ops ensures Holds(ps[i := p'], o.pid, o.fd) {
      var j :| 0 <= j < |ps| && ps[j].pid == o.pid && o.fd in ps[j].fds;
      assert ps[i := p'][j].pid == o.pid && o.fd in ps[i := p'][j].fds;
    }
  }

  lemma Closed(ps: seq<Proc>, descs: Descs, ops: seq<Op>, i: nat, k: nat)
    requires TablesOk(ps) && Counted(ps, descs) && OpsOk(ps, ops) && i < |ps| && k < MAX_FDS
    requires TableOk(ps[i]) && ps[i].fds[k] != 0 && ps[i].fds[k] in descs.refs
    ensures var d := ps[i].fds[k]; var ps' := ps[i := ps[i].(fds := ps[i].fds[k := 0])];
      && TablesOk(ps') && OpsOk(ps', Dropped(ops, ps[i].pid, d))
      && Counted(ps', Descs(if descs.refs[d] > 1 then descs.refs[d := descs.refs[d] - 1] else descs.refs - {d}))
  {
    hide Refs; hide Slots; hide Dropped;
    var d := ps[i].fds[k];
    var p' := ps[i].(fds := ps[i].fds[k := 0]);
    var ps' := ps[i := p'];
    assert TableOk(p');
    forall x ensures Refs(ps', x) == Refs(ps, x) - (if x == d then 1 else 0) + (if x == 0 then 1 else 0) {
      RefsSet(ps, i, p', x);
      SlotSet(ps[i].fds, k, 0, x);
    }
    DroppedUnique(ops, ps[i].pid, d);
    var rest := Dropped(ops, ps[i].pid, d);
    assert OpsOk(ps, rest);
    forall x | x in ps[i].fds && x != d ensures x in p'.fds {
      var j :| 0 <= j < MAX_FDS && ps[i].fds[j] == x;
      assert p'.fds[j] == x;
    }
    StillHeld(ps, i, p', rest, d);
  }

  lemma Inherited(ps: seq<Proc>, descs: Descs, descs': Descs, ops: seq<Op>, parent: nat, pid: int)
    requires TablesOk(ps) && Counted(ps, descs) && OpsOk(ps, ops) && parent < |ps| && forall j :: 0 <= j < |ps| ==> ps[j].pid != pid
    requires descs'.refs.Keys == descs.refs.Keys
    requires forall d :: d in descs'.refs ==> descs'.refs[d] == descs.refs[d] + Slots(ps[parent].fds, d)
    ensures var ps' := ps + [Proc(pid, ps[parent].fds)]; TablesOk(ps') && Counted(ps', descs') && OpsOk(ps', ops)
  {
    hide Refs; hide Slots;
    var p := Proc(pid, ps[parent].fds);
    var ps' := ps + [p];
    assert TableOk(ps[parent]);
    assert TableOk(p);
    forall x ensures Refs(ps', x) == Refs(ps, x) + Slots(p.fds, x) { RefsAppend(ps, p, x); }
    forall x: nat | x != 0 && x !in descs.refs ensures Slots(p.fds, x) == 0 {
      NotHeld(ps, descs, parent, x);
      SlotsSome(p.fds, x);
    }
    forall o | o in ops ensures Holds(ps', o.pid, o.fd) {
      var j :| 0 <= j < |ps| && ps[j].pid == o.pid && o.fd in ps[j].fds;
      assert ps'[j] == ps[j];
    }
  }

  // A process with an empty table may go; no operation is its own any more.
  lemma Forgotten(ps: seq<Proc>, descs: Descs, ops: seq<Op>, i: nat)
    requires TablesOk(ps) && Counted(ps, descs) && OpsOk(ps, ops) && i < |ps| && |ps[i].fds| == MAX_FDS
    requires forall j :: 0 <= j < MAX_FDS ==> ps[i].fds[j] == 0
    ensures var ps' := ps[..i] + ps[i + 1..]; TablesOk(ps') && Counted(ps', descs) && OpsOk(ps', ops)
    ensures forall o :: o in ops ==> o.pid != ps[i].pid
  {
    hide Refs; hide Slots;
    var ps' := ps[..i] + ps[i + 1..];
    forall x: nat | x != 0 ensures Refs(ps', x) == Refs(ps, x) {
      RefsRemove(ps, i, x);
      SlotsSome(ps[i].fds, x);
    }
    forall j | 0 <= j < |ps'| ensures ps'[j] == ps[if j < i then j else j + 1] {}
    forall o | o in ops ensures Holds(ps', o.pid, o.fd) && o.pid != ps[i].pid {
      var j :| 0 <= j < |ps| && ps[j].pid == o.pid && o.fd in ps[j].fds;
      assert j != i;
      assert ps'[if j < i then j else j - 1] == ps[j];
    }
  }
}
