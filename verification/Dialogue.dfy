/** The conversation of the handshake: what each side sends, accepts and refuses. */
module Dialogue {
  import opened Wrappers
  import opened Protocol
  import opened StorageSpec
  import opened Replication
  import opened Network
  import opened HandshakeSpec
  import opened Handshake
  import opened Connection
  import opened Storage

  /** Assignments up to the closing message, and what follows it; keep-alives are skipped, anything else is refused. */
  function Gather(input: seq<Message>, done: Message): (r: Option<(seq<Message>, seq<Message>)>) {
    if input == [] then None
    else if input[0] == done then Some(([], input[1..]))
    else if input[0].KeepAlive? then Gather(input[1..], done)
    else if !input[0].EntryAssign? then None
    else
      var more := Gather(input[1..], done);
      if more.Some? then Some(([input[0]] + more.value.0, more.value.1)) else None
  }

  /**
   The outcome of one side: what it sent at once, what it leaves unread, its table, what goes to the queues, and the
   revision with which it is to connect again, if any.
   */
  datatype Talk = Talk(
    ok: bool,
    sent: seq<Message>,
    rest: seq<Message>,
    table: Table,
    out: seq<Outgoing>,
    again: Option<nat>)

  function Greeting(s: Table, protoRev: nat, identity: Text): seq<Message> {
    (if protoRev >= PROTO_3 then [ServerHello(0, identity)] else []) + Snapshot(s, s.localmap) + [ServerHelloDone]
  }

  function ServerTalk(s: Table, uid: nat, defaultProto: nat, identity: Text, input: seq<Message>): Talk {
    if input == [] || !input[0].ClientHello? then Talk(false, [], if input == [] then [] else input[1..], s, [], None)
    else if input[0].protoRev > defaultProto then Talk(false, [ProtoUnsup(defaultProto)], input[1..], s, [], None)
    else
      var protoRev := input[0].protoRev;
      var greeting := Greeting(s, protoRev, identity);
      if protoRev < PROTO_3 then Talk(true, greeting, input[1..], s, [], None)
      else
        match Gather(input[1..], ClientHelloDone)
        case None => Talk(false, greeting, [], s, [], None)
        case Some((assigns, rest)) =>
          var e := Drain(s, assigns, Conn(uid, protoRev));
          Talk(true, greeting, rest, e.table, e.out, None)
  }

  /** Only a server that speaks nothing but the revision 2.0 is worth another attempt. */
  function Again(m: Message): Option<nat>
    requires m.ProtoUnsup?
  {
    if m.protoRev == PROTO_2 then Some(PROTO_2) else None
  }

  function ClientTalk(c: Table, conn: Conn, identity: Text, input: seq<Message>): Talk {
    var hello := [ClientHello(conn.protoRev, Some(identity))];
    if input == [] then Talk(false, hello, [], c, [], None)
    else if input[0].ProtoUnsup? then Talk(false, hello, input[1..], c, [], Again(input[0]))
    else if conn.protoRev >= PROTO_3 && !input[0].ServerHello? then Talk(false, hello, input[1..], c, [], None)
    else
      match Gather(if conn.protoRev >= PROTO_3 then input[1..] else input, ServerHelloDone)
      case None => Talk(false, hello, [], c, [], None)
      case Some((assigns, rest)) =>
        var i := ApplyInitial(c, assigns, conn);
        Talk(true, hello + i.assigns + (if conn.protoRev >= PROTO_3 then [ClientHelloDone] else []), rest,
             i.table, i.updates, None)
  }

  // ---------------------------------------------------------------- the two sides meet

  function WithoutKeepAlives(ms: seq<Message>): seq<Message> {
    if ms == [] then []
    else (if ms[0].KeepAlive? then [] else [ms[0]]) + WithoutKeepAlives(ms[1..])
  }

  predicate Assignments(ms: seq<Message>) {
    forall k :: 0 <= k < |ms| ==> ms[k].EntryAssign?
  }

  lemma {:induction false} GatherFinds(input: seq<Message>, assigns: seq<Message>, done: Message)
    requires WithoutKeepAlives(input) == assigns + [done] && Assignments(assigns)
    requires !done.EntryAssign? && !done.KeepAlive?
    ensures var g := Gather(input, done); g.Some? && g.value.0 == assigns && WithoutKeepAlives(g.value.1) == []
    decreases |input|
  {
    if input[0].KeepAlive? {
      assert [] + WithoutKeepAlives(input[1..]) == WithoutKeepAlives(input[1..]);
      GatherFinds(input[1..], assigns, done);
    } else {
      assert input[0] == (assigns + [done])[0];
      assert WithoutKeepAlives(input[1..]) == (assigns + [done])[1..];
      if assigns != [] {
        assert (assigns + [done])[1..] == assigns[1..] + [done];
        GatherFinds(input[1..], assigns[1..], done);
        assert [assigns[0]] + assigns[1..] == assigns;
      }
    }
  }

  lemma {:induction false} SnapshotAssigns(t: Table, names: seq<Text>)
    ensures Assignments(Snapshot(t, names)) && Assignments(Requests(t, names))
  {
    if names != [] {
      SnapshotAssigns(t, names[..|names| - 1]);
    }
  }

  lemma FirstIsKept(ms: seq<Message>)
    requires ms != [] && !ms[0].KeepAlive?
    ensures var plain := WithoutKeepAlives(ms);
            plain != [] && plain[0] == ms[0] && plain[1..] == WithoutKeepAlives(ms[1..])
  {
  }

  /** The client accepts a greeting. */
  lemma ClientHears(s: Table, c: Table, conn: Conn, sid: Text, cid: Text, fromServer: seq<Message>)
    requires fromServer != [] && !fromServer[0].KeepAlive? && conn.protoRev >= PROTO_3
    requires WithoutKeepAlives(fromServer) == Greeting(s, conn.protoRev, sid)
    ensures var b, i := ClientTalk(c, conn, cid, fromServer), ApplyInitial(c, Snapshot(s, s.localmap), conn);
            && b.ok && b.sent == [ClientHello(conn.protoRev, Some(cid))] + i.assigns + [ClientHelloDone]
            && b.table == i.table && b.out == i.updates && WithoutKeepAlives(b.rest) == []
  {
    hide Snapshot, ApplyInitial, Gather, WithoutKeepAlives;
    FirstIsKept(fromServer);
    SnapshotAssigns(s, s.localmap);
    assert Greeting(s, conn.protoRev, sid)[1..] == Snapshot(s, s.localmap) + [ServerHelloDone];
    GatherFinds(fromServer[1..], Snapshot(s, s.localmap), ServerHelloDone);
  }

  /** The server accepts requests. */
  lemma ServerHears(s: Table, conn: Conn, defaultProto: nat, sid: Text, cid: Text, assigns: seq<Message>,
      fromClient: seq<Message>)
    requires fromClient != [] && !fromClient[0].KeepAlive? && PROTO_3 <= conn.protoRev <= defaultProto
    requires WithoutKeepAlives(fromClient) == [ClientHello(conn.protoRev, Some(cid))] + assigns + [ClientHelloDone]
    requires Assignments(assigns)
    ensures var a := ServerTalk(s, conn.uid, defaultProto, sid, fromClient);
            a.ok && WithoutKeepAlives(a.rest) == [] && Effect(a.table, a.out) == Drain(s, assigns, conn)
  {
    hide Greeting, Drain, Gather, WithoutKeepAlives;
    FirstIsKept(fromClient);
    assert WithoutKeepAlives(fromClient)[1..] == assigns + [ClientHelloDone];
    GatherFinds(fromClient[1..], assigns, ClientHelloDone);
  }

  /** The first words do not depend on what the other side says. */
  lemma FirstWords(s: Table, c: Table, conn: Conn, defaultProto: nat, sid: Text, cid: Text, input: seq<Message>)
    ensures var sent := ClientTalk(c, conn, cid, input).sent;
            sent != [] && sent[0] == ClientHello(conn.protoRev, Some(cid))
    ensures input != [] && input[0] == ClientHello(conn.protoRev, Some(cid))
              && PROTO_3 <= conn.protoRev <= defaultProto ==>
              ServerTalk(s, conn.uid, defaultProto, sid, input).sent == Greeting(s, conn.protoRev, sid)
  {
    hide Snapshot, ApplyInitial, Drain, Gather;
  }

  /**
   If each side hears what the other says, with keep-alives anywhere in between, both accept. The server has
   taken in the client's requests, the client the server's snapshot, and each has read everything.
   */
  lemma TalksMeet(s: Table, c: Table, conn: Conn, defaultProto: nat, sid: Text, cid: Text,
                  fromServer: seq<Message>, fromClient: seq<Message>)
    requires s.server && !c.server && PROTO_3 <= conn.protoRev <= defaultProto
    requires fromServer != [] && !fromServer[0].KeepAlive? && fromClient != [] && !fromClient[0].KeepAlive?
    requires WithoutKeepAlives(fromServer) == ServerTalk(s, conn.uid, defaultProto, sid, fromClient).sent
    requires WithoutKeepAlives(fromClient) == ClientTalk(c, conn, cid, fromServer).sent
    ensures var a, b := ServerTalk(s, conn.uid, defaultProto, sid, fromClient), ClientTalk(c, conn, cid, fromServer);
            var i := ApplyInitial(c, Snapshot(s, s.localmap), conn);
            && a.ok && b.ok && WithoutKeepAlives(a.rest) == [] && WithoutKeepAlives(b.rest) == []
            && b.table == i.table && b.out == i.updates
            && Effect(a.table, a.out) == Drain(s, i.assigns, conn)
  {
    hide Snapshot, ApplyInitial, Drain, ServerTalk, ClientTalk, Greeting, WithoutKeepAlives;
    FirstIsKept(fromClient);
    FirstWords(s, c, conn, defaultProto, sid, cid, fromServer);
    FirstWords(s, c, conn, defaultProto, sid, cid, fromClient);
    ClientHears(s, c, conn, sid, cid, fromServer);
    RequestsAssign(c, Snapshot(s, s.localmap), conn);
    ServerHears(s, conn, defaultProto, sid, cid, ApplyInitial(c, Snapshot(s, s.localmap), conn).assigns, fromClient);
  }

  lemma RequestsAssign(c: Table, ms: seq<Message>, conn: Conn)
    ensures Assignments(ApplyInitial(c, ms, conn).assigns)
  {
    hide ApplyInitialAll;
    var t := ApplyInitialAll(ForgetIds(c), ms, conn).table;
    SnapshotAssigns(t, t.localmap);
  }

  /** After the conversation, and once the queues have been read, the storages are those of the exchange. */
  lemma TalksLeadToExchange(s: Table, c: Table, conn: Conn, defaultProto: nat, sid: Text, cid: Text,
                            fromServer: seq<Message>, fromClient: seq<Message>)
    requires s.server && !c.server && PROTO_3 <= conn.protoRev <= defaultProto
    requires fromServer != [] && !fromServer[0].KeepAlive? && fromClient != [] && !fromClient[0].KeepAlive?
    requires WithoutKeepAlives(fromServer) == ServerTalk(s, conn.uid, defaultProto, sid, fromClient).sent
    requires WithoutKeepAlives(fromClient) == ClientTalk(c, conn, cid, fromServer).sent
    ensures var a, b := ServerTalk(s, conn.uid, defaultProto, sid, fromClient), ClientTalk(c, conn, cid, fromServer);
            var e := Drain(a.table, Messages(b.out), conn);
            var e' := Drain(b.table, Routed(a.out + e.out, conn), conn);
            Exchange(s, c, conn) == Meeting(e.table, e'.table, e'.out)
  {
    hide Snapshot, ApplyInitial, Drain, ServerTalk, ClientTalk, WithoutKeepAlives, Routed, Messages;
    TalksMeet(s, c, conn, defaultProto, sid, cid, fromServer, fromClient);
  }

  /** A client that asks for a newer revision than the server speaks learns which one to use, and changes nothing. */
  lemma TooNewIsRefused(s: Table, c: Table, uid: nat, conn: Conn, defaultProto: nat, sid: Text, cid: Text)
    requires conn.protoRev > defaultProto
    ensures var a := ServerTalk(s, uid, defaultProto, sid, ClientTalk(c, conn, cid, []).sent);
            var b := ClientTalk(c, conn, cid, a.sent);
            && !a.ok && !b.ok && a.sent == [ProtoUnsup(defaultProto)] && a.table == s && b.table == c
            && b.again == if defaultProto == PROTO_2 then Some(PROTO_2) else None
  {
  }

  /**
   A client that is sent away by a server of revision 2.0 connects again with that revision, and then both accept: the
   client takes the snapshot, and its requests are left for the server to read as ordinary messages.
   */
  lemma FallsBack(s: Table, c: Table, uid: nat, sid: Text, cid: Text, conn: Conn)
    requires conn.protoRev > PROTO_2
    ensures var refused := ServerTalk(s, uid, PROTO_2, sid, ClientTalk(c, conn, cid, []).sent);
            var first := ClientTalk(c, conn, cid, refused.sent);
            && first.again == Some(PROTO_2) && first.table == c && refused.table == s
            && var conn' := conn.(protoRev := first.again.value);
               var b := ClientTalk(c, conn', cid, Greeting(s, PROTO_2, sid));
               var a := ServerTalk(s, uid, PROTO_2, sid, b.sent);
               var i := ApplyInitial(c, Snapshot(s, s.localmap), conn');
               && a.ok && b.ok && a.sent == Greeting(s, PROTO_2, sid) && a.table == s && b.table == i.table
               && a.rest == i.assigns && b.rest == []
  {
    hide Snapshot, ApplyInitial, Gather, WithoutKeepAlives, Drain;
    TooNewIsRefused(s, c, uid, conn, PROTO_2, sid, cid);
    var names := Snapshot(s, s.localmap);
    assert Greeting(s, PROTO_2, sid) == names + [ServerHelloDone] by { assert [] + names == names; }
    SnapshotAssigns(s, s.localmap);
    GatherEndsWith(names, ServerHelloDone);
    var i := ApplyInitial(c, names, conn.(protoRev := PROTO_2));
    var hello := ClientHello(PROTO_2, Some(cid));
    assert ([hello] + i.assigns + [])[1..] == i.assigns;
  }

  lemma {:induction false} GatherEndsWith(assigns: seq<Message>, done: Message)
    requires Assignments(assigns) && !done.EntryAssign? && !done.KeepAlive?
    ensures Gather(assigns + [done], done) == Some((assigns, []))
  {
    if assigns == [] {
      assert [] + [done] == [done];
    } else {
      assert (assigns + [done])[1..] == assigns[1..] + [done];
      GatherEndsWith(assigns[1..], done);
      assert [assigns[0]] + assigns[1..] == assigns;
    }
  }

  // ---------------------------------------------------------------- the loops

  /** The messages that the connection delivers; no more messages means that the peer has gone. */
  class Inbox {
    var queue: seq<Message>

    constructor (queue: seq<Message>)
      ensures this.queue == queue
    {
      this.queue := queue;
    }

    method GetMsg() returns (msg: Option<Message>)
      modifies this
      ensures old(queue) == [] ==> msg == None && queue == []
      ensures old(queue) != [] ==> msg == Some(old(queue)[0]) && queue == old(queue)[1..]
    {
      if queue == [] {
        return None;
      }
      msg := Some(queue[0]);
      queue := queue[1..];
    }
  }

  /** The message that has been taken from the connection, and those that have not. */
  function InHand(msg: Option<Message>, queue: seq<Message>): seq<Message> {
    if msg.Some? then [msg.value] + queue else queue
  }

  /** What has been collected, followed by what is still to come. */
  function Collected(soFar: seq<Message>, more: Option<(seq<Message>, seq<Message>)>)
      : Option<(seq<Message>, seq<Message>)> {
    if more.Some? then Some((soFar + more.value.0, more.value.1)) else None
  }

  lemma CollectedNothing(more: Option<(seq<Message>, seq<Message>)>)
    ensures Collected([], more) == more
  {
    if more.Some? { assert [] + more.value.0 == more.value.0; }
  }

  /** One round of the loops. */
  lemma GatherNext(soFar: seq<Message>, input: seq<Message>, done: Message)
    requires input != [] && !done.KeepAlive?
    ensures Collected(soFar, Gather(input, done)) ==
            if input[0] == done then Some((soFar, input[1..]))
            else if input[0].KeepAlive? then Collected(soFar, Gather(input[1..], done))
            else if !input[0].EntryAssign? then None
            else Collected(soFar + [input[0]], Gather(input[1..], done))
  {
    if input[0] == done {
      assert soFar + [] == soFar;
    } else {
      var more := Gather(input[1..], done);
      if more.Some? { assert soFar + ([input[0]] + more.value.0) == soFar + [input[0]] + more.value.0; }
    }
  }

  /** Both loops: the client's stops at `ServerHelloDone`, the server's at `ClientHelloDone`. */
  method GatherAssignments(inbox: Inbox, first: Option<Message>, done: Message) returns (r: Option<seq<Message>>)
    requires first.None? ==> inbox.queue == []
    requires !done.KeepAlive?
    modifies inbox
    ensures var g := Gather(InHand(first, old(inbox.queue)), done);
            if g.Some? then r == Some(g.value.0) && inbox.queue == g.value.1 else r == None
  {
    hide Gather;
    var msg := first;
    var incoming: seq<Message> := [];
    CollectedNothing(Gather(InHand(first, inbox.queue), done));
    while true
      invariant msg.None? ==> inbox.queue == []
      invariant Gather(InHand(first, old(inbox.queue)), done)
                == Collected(incoming, Gather(InHand(msg, inbox.queue), done))
      decreases |InHand(msg, inbox.queue)|
    {
      if msg.None? {
        NothingToGather(done);
        return None;
      }
      ghost var input := InHand(msg, inbox.queue);
      GatherNext(incoming, input, done);
      assert input[1..] == inbox.queue;
      if msg.value == done {
        return Some(incoming);
      }
      if !msg.value.KeepAlive? {
        if !msg.value.EntryAssign? {
          return None;
        }
        incoming := incoming + [msg.value];
      }
      msg := inbox.GetMsg();
      assert InHand(msg, inbox.queue) == input[1..];
    }
  }

  lemma NothingToGather(done: Message)
    ensures Gather([], done) == None
  {
  }

  /** A server processes the gathered requests one by one. */
  method ProcessAll(storage: Storage, msgs: seq<Message>, conn: Conn) returns (out: seq<Outgoing>)
    requires storage.Valid()
    modifies storage.Repr
    ensures storage.Valid() && fresh(storage.Repr - old(storage.Repr))
    ensures Effect(storage.View(), out) == Drain(old(storage.View()), msgs, conn)
  {
    hide Storage.Valid, Storage.View, ProcessIncoming;
    out := [];
    for i := 0 to |msgs|
      invariant storage.Valid() && fresh(storage.Repr - old(storage.Repr))
      invariant Effect(storage.View(), out) == Drain(old(storage.View()), msgs[..i], conn)
    {
      assert msgs[..i + 1][..i] == msgs[..i];
      var more := storage.ProcessMessage(msgs[i], conn);
      out := out + more;
    }
    assert msgs[..|msgs|] == msgs;
  }

  method ServerHandshake(storage: Storage, conn: NetworkConnection, inbox: Inbox, defaultProto: nat, identity: Text)
    returns (ok: bool, sent: seq<Message>, out: seq<Outgoing>)
    requires storage.Valid() && {conn, inbox} !! storage.Repr
    modifies storage.Repr, conn`state, conn`protoRev, inbox
    ensures storage.Valid() && fresh(storage.Repr - old(storage.Repr))
    ensures var talk := ServerTalk(old(storage.View()), conn.uid, defaultProto, identity, old(inbox.queue));
            && ok == talk.ok && sent == talk.sent && storage.View() == talk.table && out == talk.out
            && (ok ==> inbox.queue == talk.rest && conn.protoRev == old(inbox.queue)[0].protoRev)
    ensures ok ==> conn.state == if old(conn.state) == Dead then Dead else Synchronized
  {
    hide Storage.Valid, Storage.View, Snapshot, Gather, Drain;
    sent, out := [], [];
    var msg := inbox.GetMsg();
    if msg.None? || !msg.value.ClientHello? {
      return false, sent, out;
    }
    var protoRev := msg.value.protoRev;
    if protoRev > defaultProto {
      return false, [ProtoUnsup(defaultProto)], out;
    }
    conn.SetProtoRev(protoRev);
    if protoRev >= PROTO_3 {
      sent := [ServerHello(0, identity)];
    }
    var announce := conn.SetState(Synchronized);
    var snapshot := storage.GetInitialAssignments();
    sent := sent + snapshot + [ServerHelloDone];
    if protoRev >= PROTO_3 {
      var next := inbox.GetMsg();
      assert InHand(next, inbox.queue) == old(inbox.queue)[1..];
      var incoming := GatherAssignments(inbox, next, ClientHelloDone);
      if incoming.None? {
        return false, sent, out;
      }
      out := ProcessAll(storage, incoming.value, Conn(conn.uid, protoRev));
    }
    ok := true;
  }

  method ClientHandshake(storage: Storage, conn: NetworkConnection, inbox: Inbox, identity: Text)
    returns (ok: bool, sent: seq<Message>, out: seq<Outgoing>, again: Option<nat>)
    requires storage.Valid() && {conn, inbox} !! storage.Repr && !storage.server
    modifies storage.Repr, conn`state, inbox
    ensures storage.Valid() && fresh(storage.Repr - old(storage.Repr))
    ensures var talk := ClientTalk(old(storage.View()), Conn(conn.uid, conn.protoRev), identity, old(inbox.queue));
            && ok == talk.ok && sent == talk.sent && storage.View() == talk.table && out == talk.out
            && again == talk.again
            && (ok ==> inbox.queue == talk.rest)
    ensures ok ==> conn.state == if old(conn.state) == Dead then Dead else Synchronized
  {
    hide Storage.Valid, Storage.View, ApplyInitial, Gather;
    sent, out, again := [ClientHello(conn.protoRev, Some(identity))], [], None;
    var msg := inbox.GetMsg();
    assert InHand(msg, inbox.queue) == old(inbox.queue);
    if msg.None? {
      return false, sent, out, None;
    }
    if msg.value.ProtoUnsup? {
      if msg.value.protoRev == PROTO_2 {
        again := Some(PROTO_2);
      }
      return false, sent, out, again;
    }
    if conn.protoRev >= PROTO_3 {
      if !msg.value.ServerHello? {
        return false, sent, out, None;
      }
      msg := inbox.GetMsg();
      assert InHand(msg, inbox.queue) == old(inbox.queue)[1..];
    }
    var incoming := GatherAssignments(inbox, msg, ServerHelloDone);
    if incoming.None? {
      return false, sent, out, None;
    }
    var announce := conn.SetState(Synchronized);
    var assigns;
    out, assigns := storage.ApplyInitialAssignments(incoming.value, Conn(conn.uid, conn.protoRev));
    sent := sent + assigns;
    if conn.protoRev >= PROTO_3 {
      sent := sent + [ClientHelloDone];
    }
    ok := true;
  }
}
