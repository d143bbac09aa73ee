/** A server, one client that only follows, and the messages in flight between them. */
module Network {
  import opened Wrappers
  import opened Serial
  import opened Protocol
  import opened StorageSpec
  import opened Index
  import opened Receiver
  import opened Replication

  /** What a storage shows of an entry that has a value. */
  datatype LiveEntry = LiveEntry(id: nat, value: Option<Value>, flags: int, seqNum: U16)

  function Live(t: Table): map<Text, LiveEntry> {
    map n | n in t.entries && t.entries[n].value.Some? ::
      LiveEntry(t.entries[n].id, t.entries[n].value, t.entries[n].flags, t.entries[n].seqNum)
  }

  lemma CellsGiveLive(s: Table, c: Table)
    requires Settled(s) && Settled(c) && CellsOf(s) == CellsOf(c)
    ensures Live(s) == Live(c)
  {
    LiveIncluded(s, c);
    LiveIncluded(c, s);
  }

  lemma LiveIncluded(s: Table, c: Table)
    requires Settled(s) && Settled(c) && CellsOf(s) == CellsOf(c)
    ensures forall n :: n in Live(s) ==> n in Live(c) && Live(c)[n] == Live(s)[n]
  {
    forall n | n in Live(s) ensures n in Live(c) && Live(c)[n] == Live(s)[n] {
      var i := s.entries[n].id;
      assert RecordOk(s, n) && RecordExact(s, n);
      assert i in CellsOf(s) && CellsOf(c)[i].name == n;
      assert SlotExact(c, i);
    }
  }

  /** The messages of an operation that go to one connection. */
  function Routed(out: seq<Outgoing>, to: Conn): seq<Message> {
    if out == [] then []
    else Routed(out[..|out| - 1], to) + (if out[|out| - 1].except == Some(to) then [] else [out[|out| - 1].msg])
  }

  lemma RoutedOne(o: Outgoing, conn: Conn)
    ensures Routed([o], conn) == if o.except == Some(conn) then [] else [o.msg]
  {
    assert [o][..0] == [];
  }

  /** A storage processes messages in order; what it sends in return is collected. */
  function Drain(t: Table, ms: seq<Message>, conn: Conn): Effect {
    if ms == [] then Effect(t, [])
    else
      var e := Drain(t, ms[..|ms| - 1], conn);
      var e' := ProcessIncoming(e.table, ms[|ms| - 1], conn);
      Effect(e'.table, e.out + e'.out)
  }

  lemma {:induction false} DrainConcat(t: Table, xs: seq<Message>, ys: seq<Message>, conn: Conn)
    ensures Drain(t, xs + ys, conn).table == Drain(Drain(t, xs, conn).table, ys, conn).table
    ensures Drain(t, xs + ys, conn).out == Drain(t, xs, conn).out + Drain(Drain(t, xs, conn).table, ys, conn).out
    decreases |ys|
  {
    hide ProcessIncoming;
    if ys == [] {
      assert xs + ys == xs;
    } else {
      var k := |ys| - 1;
      assert (xs + ys)[..|xs + ys| - 1] == xs + ys[..k];
      DrainConcat(t, xs, ys[..k], conn);
    }
  }

  /** A follower that processes messages that fit refines the id-keyed receiver. */
  lemma {:induction false} DrainFollows(t: Table, ms: seq<Message>, conn: Conn)
    requires Settled(t) && !t.server && conn.protoRev >= PROTO_3 && FitsAll(CellsOf(t), ms)
    ensures var e := Drain(t, ms, conn);
            && Settled(e.table) && !e.table.server && e.out == []
            && CellsOf(e.table) == ApplyCells(Follower, CellsOf(t), ms)
    decreases |ms|
  {
    if ms != [] {
      var k := |ms| - 1;
      DrainFollows(t, ms[..k], conn);
      FollowStep(Drain(t, ms[..k], conn).table, ms[k], conn);
    }
  }

  // ---------------------------------------------------------------- the system

  /** `wire` is what the server has sent to the client and the client has not read yet. */
  datatype Net = Net(server: Table, wire: seq<Message>, client: Table)

  datatype Event = ServerOp(op: Op) | Deliver

  /** `conn` is the connection to the client, on either end. */
  function Next(net: Net, e: Event, conn: Conn): Net {
    match e
    case ServerOp(op) =>
      var eff := Step(net.server, op);
      net.(server := eff.table, wire := net.wire + Routed(eff.out, conn))
    case Deliver =>
      if net.wire == [] then net
      else net.(wire := net.wire[1..], client := ProcessIncoming(net.client, net.wire[0], conn).table)
  }

  function Play(net: Net, events: seq<Event>, conn: Conn): Net {
    if events == [] then net
    else Next(Play(net, events[..|events| - 1], conn), events[|events| - 1], conn)
  }

  /** Local operations and messages of other connections, whose ids are 16 bits wide. */
  predicate Allowed(e: Event, conn: Conn) {
    e.ServerOp? ==> OpInRange(e.op) && (e.op.Incoming? ==> e.op.conn != conn)
  }

  /** The messages in flight turn the client's table into the server's. */
  predicate Synced(net: Net) {
    && net.server.server && Settled(net.server)
    && !net.client.server && Settled(net.client)
    && FitsAll(CellsOf(net.client), net.wire)
    && ApplyCells(Follower, CellsOf(net.client), net.wire) == CellsOf(net.server)
  }

  /** Where everything starts. */
  lemma EmptyIsSynced()
    ensures Synced(Net(Empty(), [], EmptyClient()))
  {
    var s, c := Empty(), EmptyClient();
    assert CellsOf(s) == map[] && CellsOf(c) == map[];
  }

  lemma RoutedToAll(t: Table, op: Op, conn: Conn)
    requires op.Incoming? ==> op.conn != conn
    requires |Step(t, op).out| <= 1
    ensures Routed(Step(t, op).out, conn) == Messages(Step(t, op).out)
  {
    hide Step;
    var out := Step(t, op).out;
    assert forall o :: o in out ==> o.except != Some(conn);
    if |out| == 1 { assert Routed(out[..0], conn) == []; }
  }

  lemma ServerOpKeepsSync(net: Net, op: Op, conn: Conn)
    requires Synced(net) && Allowed(ServerOp(op), conn)
    requires |Step(net.server, op).table.idmap| <= UNASSIGNED
    ensures Synced(Next(net, ServerOp(op), conn))
  {
    var eff := Step(net.server, op);
    StepAnnounced(net.server, op);
    StepKeepsIndexed(net.server, op);
    RoutedToAll(net.server, op, conn);
    Announce(CellsOf(net.client), net.wire, CellsOf(net.server), CellsOf(eff.table), eff.out);
  }

  lemma Announce(cells: Cells, wire: seq<Message>, was: Cells, now: Cells, out: seq<Outgoing>)
    requires FitsAll(cells, wire) && ApplyCells(Follower, cells, wire) == was
    requires Announced(was, now, out)
    ensures FitsAll(cells, wire + Messages(out)) && ApplyCells(Follower, cells, wire + Messages(out)) == now
  {
    hide Fits, ApplyCell, FitsAll, ApplyCells;
    if out == [] {
      assert wire + Messages(out) == wire;
    } else {
      assert Messages(out) == [out[0].msg];
      OneMoreFits(cells, wire, out[0].msg);
    }
  }

  lemma OneMoreFits(cells: Cells, wire: seq<Message>, m: Message)
    requires FitsAll(cells, wire) && Fits(ApplyCells(Follower, cells, wire), m)
    ensures FitsAll(cells, wire + [m])
    ensures ApplyCells(Follower, cells, wire + [m]) == ApplyCell(Follower, ApplyCells(Follower, cells, wire), m)
  {
    hide Fits, ApplyCell;
    assert (wire + [m])[..|wire|] == wire;
  }

  lemma DeliverKeepsSync(net: Net, conn: Conn)
    requires Synced(net) && conn.protoRev >= PROTO_3
    ensures Synced(Next(net, Deliver, conn))
    ensures net.wire != [] ==> ProcessIncoming(net.client, net.wire[0], conn).out == []
  {
    if net.wire != [] {
      var m, rest := net.wire[0], net.wire[1..];
      assert net.wire == [m] + rest;
      FitsAllConcat(CellsOf(net.client), [m], rest);
      ApplyCellsConcat(Follower, CellsOf(net.client), [m], rest);
      ApplyCellsOne(Follower, CellsOf(net.client), m);
      assert [m][..0] == [];
      FollowStep(net.client, m, conn);
    }
  }

  /**
   Replication: whatever the server does, and however its operations interleave with the client's reads,
   the client is on its way to the server's table.
   */
  lemma {:induction false} PlayKeepsSync(net: Net, events: seq<Event>, conn: Conn)
    requires Synced(net) && conn.protoRev >= PROTO_3
    requires forall e :: e in events ==> Allowed(e, conn)
    requires |Play(net, events, conn).server.idmap| <= UNASSIGNED
    ensures Synced(Play(net, events, conn))
    decreases |events|
  {
    hide Synced, Step, ProcessIncoming;
    if events != [] {
      var k := |events| - 1;
      var was := Play(net, events[..k], conn);
      if events[k].ServerOp? {
        PlayKeepsSync(net, events[..k], conn);
        ServerOpKeepsSync(was, events[k].op, conn);
      } else {
        PlayKeepsSync(net, events[..k], conn);
        DeliverKeepsSync(was, conn);
      }
    }
  }

  /** Once the client has read what is in flight it shows the server's entries: ids, values, flags, seqs. */
  lemma DrainedClientEqualsServer(net: Net, events: seq<Event>, conn: Conn)
    requires Synced(net) && conn.protoRev >= PROTO_3
    requires forall e :: e in events ==> Allowed(e, conn)
    requires |Play(net, events, conn).server.idmap| <= UNASSIGNED
    ensures var end := Play(net, events, conn);
            var e := Drain(end.client, end.wire, conn);
            Live(e.table) == Live(end.server) && e.out == []
  {
    PlayKeepsSync(net, events, conn);
    var end := Play(net, events, conn);
    DrainFollows(end.client, end.wire, conn);
    CellsGiveLive(Drain(end.client, end.wire, conn).table, end.server);
  }
}
