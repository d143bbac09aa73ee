/** One connection: its outgoing queue, updated in place, and its life cycle. */
module Connection {
  import opened Wrappers
  import opened Protocol
  import opened Coalescer

  datatype State = Created | Init | Handshake | Synchronized | Active | Dead

  class NetworkConnection {
    var pendingOutgoing: seq<Option<Message>>
    var pendingUpdate: map<nat, Pair>
    /** The batches that the write thread has not taken yet. */
    var outgoing: seq<seq<Option<Message>>>
    /** In milliseconds. */
    var lastPost: int
    var state: State
    var protoRev: nat
    const uid: nat

    ghost function Queue(): Pending
      reads this
    {
      Pending(pendingOutgoing, pendingUpdate)
    }

    ghost predicate Valid()
      reads this
    {
      Coalescer.Valid(Queue())
    }

    constructor (uid: nat, protoRev: nat)
      ensures Valid() && Queue() == EMPTY && outgoing == [] && lastPost == 0 && state == Created
      ensures this.uid == uid && this.protoRev == protoRev
    {
      this.uid, this.protoRev := uid, protoRev;
      pendingOutgoing, pendingUpdate, outgoing := [], map[], [];
      lastPost, state := 0, Created;
    }

    method QueueOutgoing(msg: Message)
      requires Valid()
      modifies this`pendingOutgoing, this`pendingUpdate
      ensures Valid() && Queue() == Enqueue(old(Queue()), msg)
    {
      EnqueueKeepsValid(Queue(), msg);
      match msg
      case EntryAssign(_, _, _, _, _) => QueueWrite(msg);
      case EntryUpdate(_, _, _) => QueueWrite(msg);
      case EntryDelete(_) => QueueDelete(msg);
      case FlagsUpdate(_, _) => QueueFlags(msg);
      case ClearEntries => QueueClear();
      case _ => pendingOutgoing := pendingOutgoing + [Some(msg)];
    }

    method QueueWrite(msg: Message)
      requires Valid() && IsWrite(msg)
      modifies this`pendingOutgoing, this`pendingUpdate
      ensures Queue() == EnqueueWrite(old(Queue()), msg)
    {
      var id := msg.id;
      if id == UNASSIGNED {
        pendingOutgoing := pendingOutgoing + [Some(msg)];
        return;
      }
      if id in pendingUpdate && pendingUpdate[id].first != 0 {
        assert PairOk(Queue(), id);
        var k := pendingUpdate[id].first - 1;
        var oldMsg := pendingOutgoing[k];
        if oldMsg.Some? && oldMsg.value.EntryAssign? && msg.EntryUpdate? {
          oldMsg := Some(EntryAssign(oldMsg.value.name, id, msg.seqNum, msg.value, oldMsg.value.flags));
        } else {
          oldMsg := Some(msg);
        }
        pendingOutgoing := pendingOutgoing[k := oldMsg];
      } else {
        var pos := |pendingOutgoing|;
        pendingOutgoing := pendingOutgoing + [Some(msg)];
        pendingUpdate := pendingUpdate[id := Pair(pos + 1, 0)];
      }
    }

    method QueueDelete(msg: Message)
      requires Valid() && msg.EntryDelete?
      modifies this`pendingOutgoing, this`pendingUpdate
      ensures Queue() == EnqueueDelete(old(Queue()), msg)
    {
      var id := msg.id;
      if id == UNASSIGNED {
        pendingOutgoing := pendingOutgoing + [Some(msg)];
        return;
      }
      if id in pendingUpdate {
        assert PairOk(Queue(), id);
        var pair := pendingUpdate[id];
        if pair.first != 0 {
          pendingOutgoing := pendingOutgoing[pair.first - 1 := None];
        }
        if pair.second != 0 {
          pendingOutgoing := pendingOutgoing[pair.second - 1 := None];
        }
        pendingUpdate := pendingUpdate[id := Pair(0, 0)];
      }
      pendingOutgoing := pendingOutgoing + [Some(msg)];
    }

    method QueueFlags(msg: Message)
      requires Valid() && msg.FlagsUpdate?
      modifies this`pendingOutgoing, this`pendingUpdate
      ensures Queue() == EnqueueFlags(old(Queue()), msg)
    {
      var id := msg.id;
      if id in pendingUpdate && pendingUpdate[id].second != 0 {
        assert PairOk(Queue(), id);
        pendingOutgoing := pendingOutgoing[pendingUpdate[id].second - 1 := Some(msg)];
      } else {
        var pos := |pendingOutgoing|;
        pendingOutgoing := pendingOutgoing + [Some(msg)];
        pendingUpdate := pendingUpdate[id := Pair(0, pos + 1)];
      }
    }

    method QueueClear()
      modifies this`pendingOutgoing, this`pendingUpdate
      ensures pendingOutgoing == KnockOutAll(old(pendingOutgoing)) + [Some(ClearEntries)] && pendingUpdate == map[]
    {
      var i := 0;
      while i < |pendingOutgoing|
        invariant 0 <= i <= |pendingOutgoing| == |old(pendingOutgoing)|
        invariant pendingOutgoing[..i] == KnockOutAll(old(pendingOutgoing))[..i]
        invariant pendingOutgoing[i..] == old(pendingOutgoing)[i..]
      {
        var m := pendingOutgoing[i];
        assert m == old(pendingOutgoing)[i..][0];
        if m.Some? && IsEntryMessage(m.value) {
          pendingOutgoing := pendingOutgoing[i := None];
        }
        assert KnockOutAll(old(pendingOutgoing))[..i + 1] == KnockOutAll(old(pendingOutgoing))[..i] + [KnockOut(m)];
        i := i + 1;
      }
      pendingUpdate := map[];
      pendingOutgoing := pendingOutgoing + [Some(ClearEntries)];
    }

    /** Hands the pending messages to the write thread, or a keep-alive if a second has passed in silence. */
    method PostOutgoing(keepAlive: bool, now: int)
      requires Valid()
      modifies this`pendingOutgoing, this`pendingUpdate, this`outgoing, this`lastPost
      ensures Valid() && Queue() == if old(pendingOutgoing) == [] then old(Queue()) else EMPTY
      ensures outgoing == old(outgoing) +
                if old(pendingOutgoing) != [] then [old(pendingOutgoing)]
                else if keepAlive && now - old(lastPost) >= 1000 then [[Some(KeepAlive)]]
                else []
      ensures lastPost == if outgoing == old(outgoing) then old(lastPost) else now
    {
      if pendingOutgoing == [] {
        if !keepAlive || now - lastPost < 1000 {
          return;
        }
        outgoing := outgoing + [[Some(KeepAlive)]];
      } else {
        outgoing := outgoing + [pendingOutgoing];
        pendingOutgoing, pendingUpdate := [], map[];
      }
      lastPost := now;
    }

    method SetProtoRev(protoRev: nat)
      modifies this`protoRev
      ensures this.protoRev == protoRev
    {
      this.protoRev := protoRev;
    }

    /** A dead connection stays dead. The result says which change of connection to announce, if any. */
    method SetState(new': State) returns (announce: Option<bool>)
      modifies this`state
      ensures state == if old(state) == Dead then Dead else new'
      ensures announce == if old(state) == Dead || old(state) == state then None
                          else if state == Active then Some(true)
                          else if state == Dead then Some(false)
                          else None
    {
      announce := None;
      if state == Dead {
        return;
      }
      if state != Active && new' == Active {
        announce := Some(true);
      } else if state != Dead && new' == Dead {
        announce := Some(false);
      }
      state := new';
    }
  }

  /** The messages of a batch that the write thread encodes: it skips the gaps. */
  method Surviving(batch: seq<Option<Message>>) returns (ms: seq<Message>)
    ensures ms == Compact(batch)
  {
    ms := [];
    for i := 0 to |batch|
      invariant ms == Compact(batch[..i])
    {
      assert batch[..i + 1][..i] == batch[..i];
      if batch[i].Some? {
        ms := ms + [batch[i].value];
      }
    }
    assert batch[..|batch|] == batch;
  }

  // ---------------------------------------------------------------- routing

  class Dispatcher {
    var connections: seq<NetworkConnection>

    ghost predicate Valid()
      reads this, connections
    {
      && (forall i, j :: 0 <= i < j < |connections| ==> connections[i] != connections[j])
      && (forall i :: 0 <= i < |connections| ==> connections[i].Valid())
    }

    /** Which connections a message is queued on. */
    predicate Receives(c: NetworkConnection, only: NetworkConnection?, except': NetworkConnection?)
      reads c
    {
      c != except' && (only == null || c == only) && (c.state == Synchronized || c.state == Active)
    }

    method QueueOn(conn: NetworkConnection, msg: Message, only: NetworkConnection?, except': NetworkConnection?)
      requires conn.Valid()
      modifies conn`pendingOutgoing, conn`pendingUpdate
      ensures conn.Valid()
      ensures conn.Queue() == if Receives(conn, only, except') then Enqueue(old(conn.Queue()), msg)
                else old(conn.Queue())
    {
      if conn == except' {
        return;
      }
      if only != null && conn != only {
        return;
      }
      if conn.state != Synchronized && conn.state != Active {
        return;
      }
      conn.QueueOutgoing(msg);
    }

    method QueueOutgoing(msg: Message, only: NetworkConnection?, except': NetworkConnection?)
      requires Valid()
      modifies connections`pendingOutgoing, connections`pendingUpdate
      ensures Valid()
      ensures forall i :: 0 <= i < |connections| ==>
                var c := connections[i];
                c.Queue() == if Receives(c, only, except') then Enqueue(old(c.Queue()), msg) else old(c.Queue())
    {
      hide Coalescer.Valid, Enqueue;
      ghost var conns := connections;
      ghost var was := seq(|conns|, i requires 0 <= i < |conns| reads conns => conns[i].Queue());
      forall k | 0 <= k < |connections| ensures Coalescer.Valid(was[k]) {
        assert connections[k].Valid();
      }
      var i := 0;
      while i < |connections|
        invariant 0 <= i <= |connections|
        invariant Valid()
        invariant forall k :: 0 <= k < i ==>
                    connections[k].Queue()
                    == if Receives(connections[k], only, except') then Enqueue(was[k], msg) else was[k]
        invariant forall k :: i <= k < |connections| ==> connections[k].Queue() == was[k]
      {
        assert connections[i].Valid();
        QueueOn(connections[i], msg, only, except');
        i := i + 1;
      }
    }
  }
}
