/** Messages between processes: queues, wake-ups and topics. */
module Ipc {
  import opened Prelude
  import opened Lists
  import opened Strings

  const NAME: nat := 255

  // `name` is what fits the name field.
  datatype Message = Message(sender: int, name: string, data: seq<nat>)

  // The message queue of a process.
  datatype Mailbox = Mailbox(pid: int, messages: seq<Message>, topics: seq<string>, waiters: seq<nat>)

  datatype History = History(sent: map<int, seq<Message>>, received: map<int, seq<Message>>)

  // What was sent is what was received, followed by what is queued; whoever waits, waits for nothing
  // that is there; no topic is listed twice.
  ghost predicate BoxOk(b: Mailbox, h: History) {
    && b.pid in h.sent && b.pid in h.received && h.sent[b.pid] == h.received[b.pid] + b.messages
    && (b.messages != [] ==> b.waiters == [])
    && NoRepeats(b.topics) && forall i :: 0 <= i < |b.topics| ==> Clean(b.topics[i]) && |b.topics[i]| <= NAME
  }

  predicate PidsDistinct(ps: seq<Mailbox>) {
    forall i, j :: 0 <= i < j < |ps| ==> ps[i].pid != ps[j].pid
  }

  // The message comes last and nobody waits any longer.
  function Delivered(b: Mailbox, m: Message): (r: Mailbox)
    ensures r.messages == b.messages + [m] && r.waiters == [] && r.pid == b.pid && r.topics == b.topics
  {
    b.(messages := b.messages + [m], waiters := [])
  }

  function Logged(h: map<int, seq<Message>>, pid: int, m: Message): (r: map<int, seq<Message>>)
    requires pid in h
    ensures r.Keys == h.Keys && r[pid] == h[pid] + [m] && forall p :: p in h && p != pid ==> r[p] == h[p]
  {
    h[pid := h[pid] + [m]]
  }

  class Ipc {
    // The active processes in list order.
    var procs: seq<Mailbox>
    ghost var history: History

    ghost predicate Valid()
      reads this
    {
      PidsDistinct(procs) && forall i :: 0 <= i < |procs| ==> BoxOk(procs[i], history)
    }

    constructor ()
      ensures Valid() && procs == [] && history == History(map[], map[])
    {
      procs, history := [], History(map[], map[]);
    }

    // A new process starts with an empty queue; pids are not used again.
    method Enter(pid: int)
      requires Valid() && pid !in history.sent && pid !in history.received
      modifies this
      ensures Valid() && procs == old(procs) + [Mailbox(pid, [], [], [])]
      ensures history == History(old(history.sent)[pid := []], old(history.received)[pid := []])
    {
      ghost var was, h := procs, history;
      procs := procs + [Mailbox(pid, [], [], [])];
      history := History(history.sent[pid := []], history.received[pid := []]);
      forall j | 0 <= j < |procs| ensures BoxOk(procs[j], history) {
        if j < |was| { assert BoxOk(was[j], h); }
      }
      forall i, j | 0 <= i < j < |procs| ensures procs[i].pid != procs[j].pid {
        assert BoxOk(was[i], h);
      }
    }

    method Leave(i: nat)
      requires Valid() && i < |procs|
      modifies this`procs
      ensures Valid() && procs == old(procs)[..i] + old(procs)[i + 1..]
    {
      ghost var was := procs;
      procs := procs[..i] + procs[i + 1..];
      forall j | 0 <= j < |procs| ensures BoxOk(procs[j], history) {
        assert BoxOk(was[if j < i then j else j + 1], history);
      }
    }

    // The place of a process in the list, or its length.
    method Find(pid: int) returns (i: nat)
      ensures i <= |procs| && (i < |procs| ==> procs[i].pid == pid)
      ensures i == |procs| ==> forall j :: 0 <= j < |procs| ==> procs[j].pid != pid
    {
      i := 0;
      while i < |procs| && procs[i].pid != pid
        invariant i <= |procs| && forall j :: 0 <= j < i ==> procs[j].pid != pid
      {
        i := i + 1;
      }
    }

    // Queues a copy for the process and wakes everybody who waits there. `room` says whether memory
    // for the copy was found.
    method IpcSend(pid: int, message: Option<string>, data: seq<nat>, sender: int, room: bool) returns (res: int, woken: seq<nat>)
      requires Valid() && (message.Some? ==> Clean(message.value))
      modifies this
      ensures Valid() && |procs| == |old(procs)|
      ensures res == if message.None? then PROTO_ERR_INVALID_ARGUMENT else if !room then PROTO_ERR_OUT_OF_MEMORY
                     else if exists i :: 0 <= i < |procs| && old(procs[i]).pid == pid then PROTO_OK else PROTO_ERR_PROCESS_NOT_FOUND
      ensures res != PROTO_OK ==> procs == old(procs) && history == old(history) && woken == []
      ensures res == PROTO_OK ==> forall i :: 0 <= i < |procs| ==>
        procs[i] == if old(procs[i]).pid == pid then Delivered(old(procs[i]), Message(sender, Prefix(message.value, NAME), data)) else old(procs[i])
      ensures res == PROTO_OK ==> forall i :: 0 <= i < |procs| && old(procs[i]).pid == pid ==> woken == old(procs[i]).waiters
      ensures res == PROTO_OK ==> (pid in old(history.sent) &&
        history == History(Logged(old(history.sent), pid, Message(sender, Prefix(message.value, NAME), data)), old(history.received)))
    {
      woken := [];
      if message.None? {
        return PROTO_ERR_INVALID_ARGUMENT, [];
      }
      if !room {
        return PROTO_ERR_OUT_OF_MEMORY, [];
      }
      var m := Message(sender, Prefix(message.value, NAME), data);
      var i := Find(pid);
      if i == |procs| {
        return PROTO_ERR_PROCESS_NOT_FOUND, [];
      }
      ghost var was := procs;
      assert BoxOk(was[i], history);
      woken := procs[i].waiters;
      procs := procs[i := Delivered(procs[i], m)];
      history := History(Logged(history.sent, pid, m), history.received);
      forall j | 0 <= j < |procs| ensures BoxOk(procs[j], history) {
        assert BoxOk(was[j], old(history));
        if j == i { assert was[i].messages + [m] == procs[i].messages; }
      }
      return PROTO_OK, woken;
    }

    // One round of a blocking receive by thread `t` of process number `i`: takes the oldest message, or
    // joins the waiters. After waking up the thread goes round again.
    method IpcReceive(i: nat, t: nat) returns (got: Option<Message>)
      requires Valid() && i < |procs|
      modifies this
      ensures Valid() && |procs| == |old(procs)| && forall j :: 0 <= j < |procs| && j != i ==> procs[j] == old(procs[j])
      ensures got.None? <==> old(procs[i]).messages == []
      ensures got.None? ==> procs[i] == old(procs[i]).(waiters := old(procs[i]).waiters + [t]) && history == old(history)
      ensures got.Some? ==> Taken(old(procs[i]), procs[i], got.value)
      ensures got.Some? ==> (old(procs[i]).pid in old(history.received) &&
        history == History(old(history.sent), Logged(old(history.received), old(procs[i]).pid, got.value)))
    {
      ghost var was := procs;
      assert BoxOk(was[i], history);
      if procs[i].messages == [] {
        procs := procs[i := procs[i].(waiters := procs[i].waiters + [t])];
        forall j | 0 <= j < |procs| ensures BoxOk(procs[j], history) { assert BoxOk(was[j], history); }
        return None;
      }
      var m := Take(i);
      return Some(m);
    }

    // The same without waiting.
    method IpcReceiveNb(i: nat) returns (res: int, got: Option<Message>)
      requires Valid() && i < |procs|
      modifies this
      ensures Valid() && |procs| == |old(procs)| && forall j :: 0 <= j < |procs| && j != i ==> procs[j] == old(procs[j])
      ensures res == if old(procs[i]).messages == [] then PROTO_ERR_WOULD_BLOCK else PROTO_OK
      ensures got.Some? <==> res == PROTO_OK
      ensures got.None? ==> procs == old(procs) && history == old(history)
      ensures got.Some? ==> Taken(old(procs[i]), procs[i], got.value)
      ensures got.Some? ==> (old(procs[i]).pid in old(history.received) &&
        history == History(old(history.sent), Logged(old(history.received), old(procs[i]).pid, got.value)))
    {
      assert BoxOk(procs[i], history);
      if procs[i].messages == [] {
        return PROTO_ERR_WOULD_BLOCK, None;
      }
      var m := Take(i);
      return PROTO_OK, Some(m);
    }

    method Take(i: nat) returns (m: Message)
      requires Valid() && i < |procs| && procs[i].messages != []
      modifies this
      ensures Valid() && |procs| == |old(procs)| && forall j :: 0 <= j < |procs| && j != i ==> procs[j] == old(procs[j])
      ensures Taken(old(procs[i]), procs[i], m) && old(procs[i]).pid in old(history.received)
      ensures history == History(old(history.sent), Logged(old(history.received), old(procs[i]).pid, m))
    {
      ghost var was, h := procs, history;
      assert BoxOk(was[i], h);
      m := procs[i].messages[0];
      procs := procs[i := procs[i].(messages := procs[i].messages[1..])];
      history := History(h.sent, Logged(h.received, procs[i].pid, m));
      forall j | 0 <= j < |procs| ensures BoxOk(procs[j], history) {
        assert BoxOk(was[j], h);
        if j == i { assert h.received[was[i].pid] + was[i].messages == history.received[was[i].pid] + procs[i].messages; }
      }
    }

    // Sends a copy to every process that lists the topic. `room[i]` says whether memory is found for
    // the copy to process number `i`. A copy that is not sent is not an error.
    method IpcDispatch(message: Option<string>, data: Option<seq<nat>>, sender: int, room: seq<bool>) returns (res: int)
      requires Valid() && (message.Some? ==> Clean(message.value)) && |room| == |procs|
      modifies this
      ensures Valid() && |procs| == |old(procs)|
      ensures res == if message.None? || data.None? then PROTO_ERR_INVALID_ARGUMENT else PROTO_OK
      ensures res != PROTO_OK ==> procs == old(procs)
      ensures res == PROTO_OK ==> forall i :: 0 <= i < |procs| ==>
        procs[i] == if Prefix(message.value, NAME) in old(procs[i]).topics && room[i]
                    then Delivered(old(procs[i]), Message(sender, Prefix(message.value, NAME), data.value)) else old(procs[i])
    {
      if message.None? || data.None? {
        return PROTO_ERR_INVALID_ARGUMENT;
      }
      ghost var was := procs;
      var topic := Prefix(message.value, NAME);
      CleanPrefix(message.value, NAME);
      var m := Message(sender, topic, data.value);
      for i := 0 to |procs|
        invariant Valid() && |procs| == |was|
        invariant forall j :: 0 <= j < |was| ==> procs[j] == if j < i && topic in was[j].topics && room[j] then Delivered(was[j], m) else was[j]
      {
        var topics := procs[i].topics;
        assert BoxOk(procs[i], history);
        for k := 0 to |topics|
          invariant Valid() && |procs| == |was|
          invariant forall j :: 0 <= j < |was| && j != i ==> procs[j] == if j < i && topic in was[j].topics && room[j] then Delivered(was[j], m) else was[j]
          invariant procs[i] == if topic in topics[..k] && room[i] then Delivered(was[i], m) else was[i]
        {
          var c := StrNCmp(topics[k], message.value, NAME);
          assert Prefix(topics[k], NAME) == topics[k];
          assert topic in topics[..k] ==> topics[k] != topic;
          if c == 0 {
            ghost var before := procs;
            var _, _ := IpcSend(procs[i].pid, message, data.value, sender, room[i]);
            assert forall j :: 0 <= j < |was| && j != i ==> before[j].pid != before[i].pid;
          }
          assert topics[..k + 1] == topics[..k] + [topics[k]];
        }
        assert topics[..|topics|] == topics;
      }
      return PROTO_OK;
    }

    // A topic that is listed already is not listed again.
    method IpcSubscribe(i: nat, topic: string, room: bool) returns (res: int)
      requires Valid() && i < |procs| && Clean(topic)
      modifies this`procs
      ensures Valid() && |procs| == |old(procs)| && forall j :: 0 <= j < |procs| && j != i ==> procs[j] == old(procs[j])
      ensures res == if room || Prefix(topic, NAME) in old(procs[i]).topics then PROTO_OK else PROTO_ERR_OUT_OF_MEMORY
      ensures procs[i] == if res == PROTO_OK && Prefix(topic, NAME) !in old(procs[i]).topics
                          then old(procs[i]).(topics := old(procs[i]).topics + [Prefix(topic, NAME)]) else old(procs[i])
    {
      var k := FindTopic(i, topic);
      if k < |procs[i].topics| {
        return PROTO_OK;
      }
      if !room {
        return PROTO_ERR_OUT_OF_MEMORY;
      }
      ghost var was := procs;
      CleanPrefix(topic, NAME);
      procs := procs[i := procs[i].(topics := procs[i].topics + [Prefix(topic, NAME)])];
      forall j | 0 <= j < |procs| ensures BoxOk(procs[j], history) { assert BoxOk(was[j], history); }
      return PROTO_OK;
    }

    method IpcUnsubscribe(i: nat, topic: string)
      requires Valid() && i < |procs| && Clean(topic)
      modifies this`procs
      ensures Valid() && |procs| == |old(procs)| && forall j :: 0 <= j < |procs| && j != i ==> procs[j] == old(procs[j])
      ensures procs[i] == old(procs[i]).(topics := procs[i].topics)
      ensures forall x :: x in procs[i].topics <==> x in old(procs[i]).topics && x != Prefix(topic, NAME)
    {
      ghost var was := procs;
      assert BoxOk(was[i], history);
      var k := FindTopic(i, topic);
      if k < |procs[i].topics| {
        var topics := procs[i].topics;
        WithoutAt(topics, k);
        WithoutElements(topics, topics[k]);
        procs := procs[i := procs[i].(topics := topics[..k] + topics[k + 1..])];
        forall j | 0 <= j < |procs| ensures BoxOk(procs[j], history) {
          assert BoxOk(was[j], history);
          assert forall x :: x in procs[i].topics ==> x in topics;
        }
      }
    }

    // The place of a topic in the list of process number `i`, or the length of the list.
    method FindTopic(i: nat, topic: string) returns (k: nat)
      requires Valid() && i < |procs| && Clean(topic)
      ensures k <= |procs[i].topics| && (k < |procs[i].topics| ==> procs[i].topics[k] == Prefix(topic, NAME))
      ensures k == |procs[i].topics| <==> Prefix(topic, NAME) !in procs[i].topics
    {
      assert BoxOk(procs[i], history);
      k := 0;
      while k < |procs[i].topics|
        invariant k <= |procs[i].topics| && forall j :: 0 <= j < k ==> procs[i].topics[j] != Prefix(topic, NAME)
      {
        assert Prefix(procs[i].topics[k], NAME) == procs[i].topics[k];
        var c := StrNCmp(procs[i].topics[k], topic, NAME);
        if c == 0 {
          return;
        }
        k := k + 1;
      }
    }
  }

  // The oldest message was taken, nothing else changed.
  ghost predicate Taken(b: Mailbox, b': Mailbox, m: Message) {
    b.messages == [m] + b'.messages && b' == b.(messages := b'.messages)
  }
}
