/**
 The way of messages from the storage to the queues of the connections: what the runs of a joining client and the
 network of a server and its followers say of it is what the dispatcher does with its connections.
 */
module Routing {
  import opened Wrappers
  import opened Protocol
  import opened StorageSpec
  import opened Network
  import opened Coalescer
  import opened Connection
  import opened EndToEnd
  import opened Handout
  import opened Joining
  import QueuedWriter

  /** Where a connection is in its life, as the joining runs see it. */
  function PhaseOf(state: State): Phase {
    match state
    case Created => Phase.Handshaking
    case Init => Phase.Handshaking
    case Handshake => Phase.Handshaking
    case Synchronized => Phase.Synchronized
    case Active => Phase.Active
    case Dead => Phase.Dead
  }

  function ConnOf(c: NetworkConnection): Conn
    reads c
  {
    Conn(c.uid, c.protoRev)
  }

  /** No two connections have the same number. */
  ghost predicate Distinct(d: Dispatcher, other: NetworkConnection?)
    reads d
  {
    && (forall i, j :: 0 <= i < j < |d.connections| ==> d.connections[i].uid != d.connections[j].uid)
    && (other != null ==> forall i :: 0 <= i < |d.connections| && d.connections[i].uid == other.uid ==>
          d.connections[i] == other)
  }

  predicate Stands(conn: Option<Conn>, c: NetworkConnection?)
    reads c
  {
    if c == null then conn.None? else conn == Some(ConnOf(c))
  }

  lemma {:induction false} QueueAllValid(p: Pending, ms: seq<Message>)
    requires Coalescer.Valid(p)
    ensures Coalescer.Valid(QueueAll(p, ms))
    decreases |ms|
  {
    hide Enqueue, Coalescer.Valid;
    if ms != [] {
      EnqueueKeepsValid(p, ms[0]);
      QueueAllValid(Enqueue(p, ms[0]), ms[1..]);
    }
  }

  lemma {:induction false} QueueAllConcat(p: Pending, xs: seq<Message>, ys: seq<Message>)
    requires Coalescer.Valid(p)
    ensures Coalescer.Valid(QueueAll(p, xs)) && QueueAll(p, xs + ys) == QueueAll(QueueAll(p, xs), ys)
    decreases |xs|
  {
    hide Enqueue, Coalescer.Valid;
    QueueAllValid(p, xs);
    if xs == [] {
      assert xs + ys == ys;
    } else {
      assert (xs + ys)[1..] == xs[1..] + ys;
      EnqueueKeepsValid(p, xs[0]);
      QueueAllConcat(Enqueue(p, xs[0]), xs[1..], ys);
    }
  }

  lemma QueueAllOne(p: Pending, m: Message)
    requires Coalescer.Valid(p)
    ensures QueueAll(p, []) == p && QueueAll(p, [m]) == Enqueue(p, m)
  {
    hide Enqueue, Coalescer.Valid;
    EnqueueKeepsValid(p, m);
    assert [m][1..] == [];
  }

  /** Starting from nothing, this is the queue of the other modules. */
  lemma {:induction false} QueueAllFromEmpty(ms: seq<Message>)
    ensures Coalescer.Valid(EMPTY) && QueueAll(EMPTY, ms) == EnqueueAll(ms)
  {
    hide Enqueue;
    if ms != [] {
      var k := |ms| - 1;
      QueueAllFromEmpty(ms[..k]);
      QueueAllConcat(EMPTY, ms[..k], [ms[k]]);
      QueueAllOne(EnqueueAll(ms[..k]), ms[k]);
      assert ms == ms[..k] + [ms[k]];
    }
  }

  /** What a connection gets of some messages: nothing unless it is open, and not what it has sent itself. */
  function Share(state: State, conn: Conn, out: seq<Outgoing>): seq<Message> {
    if Open(PhaseOf(state)) then Routed(out, conn) else []
  }

  /** One message of the storage reaches exactly the queues that the runs say. */
  method QueueOne(d: Dispatcher, o: Outgoing, sender: NetworkConnection?)
    requires d.Valid() && Distinct(d, sender) && Stands(o.except, sender)
    modifies d.connections`pendingOutgoing, d.connections`pendingUpdate
    ensures d.Valid()
    ensures forall i :: 0 <= i < |d.connections| ==>
              var c := d.connections[i];
              old(c.Valid()) && c.Queue() == QueueAll(old(c.Queue()), Share(c.state, ConnOf(c), [o]))
  {
    hide Coalescer.Valid, Enqueue;
    ghost var was := map c | c in d.connections :: c.Queue();
    forall i | 0 <= i < |d.connections| ensures Coalescer.Valid(was[d.connections[i]]) {
      assert d.connections[i].Valid();
    }
    d.QueueOutgoing(o.msg, null, sender);
    forall i | 0 <= i < |d.connections|
      ensures d.connections[i].Queue()
              == QueueAll(was[d.connections[i]], Share(d.connections[i].state, ConnOf(d.connections[i]), [o]))
    {
      var c := d.connections[i];
      RoutedOne(o, ConnOf(c));
      QueueAllOne(was[c], o.msg);
    }
  }

  /** The loop that runs after the lock has been given up. */
  method QueueOutgoings(d: Dispatcher, out: seq<Outgoing>, senders: seq<NetworkConnection?>)
    requires d.Valid() && |senders| == |out|
    requires forall k :: 0 <= k < |out| ==> Distinct(d, senders[k]) && Stands(out[k].except, senders[k])
    modifies d.connections`pendingOutgoing, d.connections`pendingUpdate
    ensures d.Valid()
    ensures forall i :: 0 <= i < |d.connections| ==>
              var c := d.connections[i];
              old(c.Valid()) && c.Queue() == QueueAll(old(c.Queue()), Share(c.state, ConnOf(c), out))
  {
    hide Coalescer.Valid, Enqueue, QueueAll, Share;
    ghost var was := map c | c in d.connections :: c.Queue();
    forall i | 0 <= i < |d.connections| ensures Coalescer.Valid(was[d.connections[i]]) {
      assert d.connections[i].Valid();
    }
    forall i | 0 <= i < |d.connections| ensures ServedTo(d.connections[i], was[d.connections[i]], []) {
      NothingShared(was[d.connections[i]], d.connections[i].state, ConnOf(d.connections[i]));
    }
    for k := 0 to |out|
      invariant d.Valid()
      invariant forall i :: 0 <= i < |d.connections| ==> ServedTo(d.connections[i], was[d.connections[i]], out[..k])
    {
      label Before:
      assert forall i :: 0 <= i < |d.connections| ==> ServedTo(d.connections[i], was[d.connections[i]], out[..k]);
      QueueOne(d, out[k], senders[k]);
      forall i | 0 <= i < |d.connections| ensures ServedTo(d.connections[i], was[d.connections[i]], out[..k + 1]) {
        var c := d.connections[i];
        assert old@Before(ServedTo(c, was[c], out[..k]));
        ShareNext(was[c], c.state, ConnOf(c), out[..k], out[k]);
        assert out[..k + 1] == out[..k] + [out[k]];
      }
    }
    assert out[..|out|] == out;
    forall i | 0 <= i < |d.connections|
      ensures d.connections[i].Queue() == QueueAll(was[d.connections[i]],
                                                    Share(d.connections[i].state, ConnOf(d.connections[i]), out))
    {
      assert ServedTo(d.connections[i], was[d.connections[i]], out);
    }
  }

  ghost predicate ServedTo(c: NetworkConnection, was: Pending, out: seq<Outgoing>)
    reads c
  {
    Coalescer.Valid(was) && c.Queue() == QueueAll(was, Share(c.state, ConnOf(c), out))
  }

  lemma NothingShared(p: Pending, state: State, conn: Conn)
    requires Coalescer.Valid(p)
    ensures QueueAll(p, Share(state, conn, [])) == p
  {
  }

  lemma ShareNext(p: Pending, state: State, conn: Conn, out: seq<Outgoing>, o: Outgoing)
    requires Coalescer.Valid(p)
    ensures Coalescer.Valid(QueueAll(p, Share(state, conn, out)))
    ensures QueueAll(QueueAll(p, Share(state, conn, out)), Share(state, conn, [o]))
            == QueueAll(p, Share(state, conn, out + [o]))
  {
    hide QueueAll, Coalescer.Valid;
    QueueAllConcat(p, Share(state, conn, out), Share(state, conn, [o]));
    RoutedOne(o, conn);
    assert (out + [o])[..|out|] == out;
    var none: seq<Message> := [];
    assert none + none == none && Routed(out, conn) + none == Routed(out, conn);
  }

  // ---------------------------------------------------------------- the other definitions

  /** Who gets a message is a matter of its state, of who has sent it, and of whom it is for. */
  lemma ReceivesIff(d: Dispatcher, c: NetworkConnection, only: NetworkConnection?, sender: NetworkConnection?,
                    o: Outgoing)
    requires Stands(o.except, sender) && (sender != null && sender.uid == c.uid ==> sender == c)
    ensures d.Receives(c, only, sender)
            <==> Share(c.state, ConnOf(c), [o]) == [o.msg] && (only != null ==> c == only)
  {
    RoutedOne(o, ConnOf(c));
  }

  /** What a joining client's queue gets in a move of the runs is what the dispatcher gives its connection. */
  lemma JoinerIsServed(j: Joint, w: nat, state: State, conn: Conn)
    requires HasNext(j.desk, w) && j.phase == PhaseOf(state)
    ensures var o := j.desk.lists[j.desk.workers[w].list][j.desk.workers[w].next];
            QueueAll(EnqueueAll(j.raw), Share(state, conn, [o]))
            == EnqueueAll(Do(j, Thread(Motion.Next(w)), conn).raw)
  {
    hide Enqueue, Coalescer.Valid, QueueAll, EnqueueAll, Share, Do;
    var o := j.desk.lists[j.desk.workers[w].list][j.desk.workers[w].next];
    JoinerGets(j, w, state, conn);
    QueueAllFromEmpty(j.raw);
    QueueAllFromEmpty(j.raw + Share(state, conn, [o]));
    QueueAllConcat(EMPTY, j.raw, Share(state, conn, [o]));
  }

  lemma JoinerGets(j: Joint, w: nat, state: State, conn: Conn)
    requires HasNext(j.desk, w) && j.phase == PhaseOf(state)
    ensures var o := j.desk.lists[j.desk.workers[w].list][j.desk.workers[w].next];
            Do(j, Thread(Motion.Next(w)), conn).raw == j.raw + Share(state, conn, [o])
  {
    hide Go, Routed;
  }

  // ---------------------------------------------------------------- posts

  lemma SomethingIsPending(raw: seq<Message>)
    ensures EnqueueAll(raw).list == [] <==> raw == []
    ensures raw == [] ==> EnqueueAll(raw) == EMPTY
  {
    if raw != [] { NeverShrinks(EnqueueAll(raw[..|raw| - 1]), raw[|raw| - 1]); }
  }

  lemma NeverShrinks(p: Pending, m: Message)
    requires Coalescer.Valid(p)
    ensures Enqueue(p, m).list != []
  {
    if (IsWrite(m) || m.FlagsUpdate?) && m.id in p.slots { assert PairOk(p, m.id); }
  }

  /** A post and the write thread behind it: what is pending goes on the wire, and the queue is empty. */
  method PostAndWrite(c: NetworkConnection, ghost raw: seq<Message>, now: int) returns (ms: seq<Message>)
    requires c.Valid() && c.Queue() == EnqueueAll(raw)
    modifies c`pendingOutgoing, c`pendingUpdate, c`outgoing, c`lastPost
    ensures c.Valid() && c.Queue() == EMPTY && ms == Delivered([raw])
    ensures c.outgoing == old(c.outgoing) + if raw == [] then [] else [EnqueueAll(raw).list]
  {
    hide EnqueueAll;
    SomethingIsPending(raw);
    DeliveredInterval(raw);
    var before := |c.outgoing|;
    c.PostOutgoing(false, now);
    if |c.outgoing| > before {
      ms := Surviving(c.outgoing[|c.outgoing| - 1]);
    } else {
      ms := [];
    }
  }

  lemma DeliveredInterval(raw: seq<Message>)
    ensures Delivered([raw]) == Compact(EnqueueAll(raw).list) && (raw == [] ==> Delivered([raw]) == [])
  {
    hide EnqueueAll, Compact;
    assert [raw][..0] == [] && Delivered([]) == [];
    if raw == [] {
      SomethingIsPending(raw);
      NothingLeft();
    }
  }

  lemma NothingLeft()
    ensures Compact([]) == []
  {
  }

  /** The posts of the other modules put the same on the wire. */
  lemma PostsAgree(line: Line, lane: QueuedWriter.Lane, conn: Conn, link: Conn)
    requires Coalescer.Valid(line.pending) && line.pending == EnqueueAll(line.raw)
    ensures EndToEnd.Act(line, Action.Post, conn)
            == line.(wire := line.wire + Delivered([line.raw]), raw := [], pending := EMPTY)
    ensures QueuedWriter.Act(lane, QueuedWriter.PostsUp, conn, link)
            == lane.(up := lane.up + Delivered([lane.raw]), raw := [])
    ensures QueuedWriter.Act(lane, QueuedWriter.PostsDown, conn, link)
            == lane.(down := lane.down + Delivered([lane.rawDown]), rawDown := [])
  {
    hide EnqueueAll, Compact;
    DeliveredInterval(line.raw);
    DeliveredInterval(lane.raw);
    DeliveredInterval(lane.rawDown);
  }
}
