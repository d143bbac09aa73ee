/**
 What a server does with the messages of its clients, told by network id: what each message changes, and who else is
 told of it.
 */
module Relaying {
  import opened Wrappers
  import opened Serial
  import opened Protocol
  import opened StorageSpec
  import opened Index
  import opened Receiver
  import opened Replication
  import opened Network

  predicate IsRequest(m: Message) {
    m.EntryAssign? && m.id == UNASSIGNED
  }

  /** A client of protocol 2.0 knows no flags: its assignment leaves those of the entry alone. */
  function Understood(cells: Cells, m: Message, conn: Conn): Message {
    if m.EntryAssign? && conn.protoRev < PROTO_3 && m.id in cells then
      EntryAssign(m.name, m.id, m.seqNum, m.value, cells[m.id].flags)
    else m
  }

  /** Older writes are dropped, and so is what is about an id that nobody has, or gives an entry another name. */
  predicate Accepted(cells: Cells, m: Message) {
    match m
    case EntryAssign(name, id, seqNum, _, _) =>
      id in cells && cells[id].name == name && !(1 <= Offset(seqNum, cells[id].seqNum) < HALF)
    case EntryUpdate(id, seqNum, _) => id in cells && !(Offset(seqNum, cells[id].seqNum) < HALF)
    case FlagsUpdate(id, _) => id in cells
    case EntryDelete(id) => id in cells
    case ClearEntries => true
    case _ => false
  }

  lemma NewerByDistance(a: U16, b: U16)
    ensures Newer(a, b) <==> 1 <= Offset(b, a) < HALF
    ensures NewerOrEqual(a, b) <==> Offset(b, a) < HALF
  {
    NewerIsAhead(a, b);
  }

  lemma HasCell(t: Table, n: Text)
    requires Settled(t) && n in t.entries && t.entries[n].id < UNASSIGNED
    ensures t.entries[n].id in CellsOf(t) && CellsOf(t)[t.entries[n].id] == RecordCell(n, t.entries[n])
  {
    CellsOfPut(t, n, t.entries[n], t.dirty);
  }

  lemma KnownAssignHeard(t: Table, n: Text, m: Message, conn: Conn)
    requires Settled(t) && t.server && m.EntryAssign? && n in t.entries && t.entries[n].id == m.id < UNASSIGNED
    ensures var e, cells := AssignKnown(t, n, m, conn, false), CellsOf(t);
            && CellsOf(e.table) == ApplyCell(Authority, cells, Understood(cells, m, conn))
            && e.out == if Accepted(cells, m) then [Outgoing(Understood(cells, m, conn), Some(conn))] else []
  {
    hide Indexed, Exact, CellsOf, Offset, Newer;
    HasCell(t, n);
    NewerByDistance(t.entries[n].seqNum, m.seqNum);
    var e := AssignKnown(t, n, m, conn, false);
    if e.out != [] { CellsOfPut(t, n, e.table.entries[n], e.table.dirty); }
  }

  lemma UpdateHeard(t: Table, n: Text, m: Message, conn: Conn)
    requires Settled(t) && t.server && m.EntryUpdate? && n in t.entries && t.entries[n].id == m.id < UNASSIGNED
    ensures var e, cells := IncomingUpdate(t, n, m, conn), CellsOf(t);
            && CellsOf(e.table) == ApplyCell(Authority, cells, m)
            && e.out == if Accepted(cells, m) then [Outgoing(m, Some(conn))] else []
  {
    hide Indexed, Exact, CellsOf, Offset, NewerOrEqual;
    HasCell(t, n);
    NewerByDistance(t.entries[n].seqNum, m.seqNum);
    var e := IncomingUpdate(t, n, m, conn);
    if e.out != [] { CellsOfPut(t, n, e.table.entries[n], e.table.dirty); }
  }

  lemma FlagsHeard(t: Table, n: Text, m: Message)
    requires Settled(t) && m.FlagsUpdate? && n in t.entries && t.entries[n].id == m.id < UNASSIGNED
    requires t.entries[n].value.Some?
    ensures m.id in CellsOf(t)
    ensures CellsOf(SetFlags(t, n, m.flags, false).table) == ApplyCell(Authority, CellsOf(t), m)
  {
    CellsOfPut(t, n, t.entries[n], t.dirty);
    hide Settled, CellsOf;
    var t' := SetFlags(t, n, m.flags, false).table;
    if t' != t { CellsOfPut(t, n, t'.entries[n], t'.dirty); }
  }

  lemma DeletionHeard(t: Table, n: Text, m: Message)
    requires Settled(t) && m.EntryDelete? && n in t.entries && t.entries[n].id == m.id < UNASSIGNED
    ensures m.id in CellsOf(t)
    ensures CellsOf(Delete(t, n, false).table) == ApplyCell(Authority, CellsOf(t), m)
  {
    CellsOfPut(t, n, t.entries[n], t.dirty);
    CellsOfDelete(t, n, false);
  }

  lemma NobodyHasIt(t: Table, id: nat)
    requires Settled(t)
    ensures id in CellsOf(t) <==> Lookup(t, id).Some?
    ensures UNASSIGNED !in CellsOf(t)
  {
  }

  /**
   A message that is no request does to the server's entries what it says, and everyone but its sender is told if and
   only if it is accepted; if it is not, nothing happens. This holds of every message and of both revisions.
   */
  lemma MessageServed(t: Table, m: Message, conn: Conn)
    requires Settled(t) && t.server && !IsRequest(m)
    ensures var e, cells := Step(t, Incoming(m, conn)), CellsOf(t);
            && CellsOf(e.table) == ApplyCell(Authority, cells, Understood(cells, m, conn))
            && e.out == if Accepted(cells, m) then [Outgoing(Understood(cells, m, conn), Some(conn))] else []
  {
    hide Indexed, Exact, CellsOf, Lookup, AssignKnown, IncomingUpdate, SetFlags, Delete, DeleteNames, Newer,
         NewerOrEqual, Offset;
    if m.EntryAssign? || m.EntryUpdate? || m.FlagsUpdate? || m.EntryDelete? {
      NobodyHasIt(t, m.id);
      if Lookup(t, m.id).Some? {
        var n := Lookup(t, m.id).value;
        SlotGives(t, m.id);
        match m
        case EntryAssign(_, _, _, _, _) => KnownAssignHeard(t, n, m, conn);
        case EntryUpdate(_, _, _) => UpdateHeard(t, n, m, conn);
        case FlagsUpdate(_, _) => FlagsHeard(t, n, m);
        case EntryDelete(_) => DeletionHeard(t, n, m);
      }
    } else if m.ClearEntries? {
      CellsOfClear(t);
    }
  }

  /** So whatever changes an entry is told to everyone else. */
  lemma ChangesAreRelayed(t: Table, m: Message, conn: Conn)
    requires Settled(t) && t.server && !IsRequest(m)
    requires CellsOf(Step(t, Incoming(m, conn)).table) != CellsOf(t)
    ensures Step(t, Incoming(m, conn)).out == [Outgoing(Understood(CellsOf(t), m, conn), Some(conn))]
  {
    hide Settled, CellsOf, Step, Newer, NewerOrEqual, Offset;
    MessageServed(t, m, conn);
    if !Accepted(CellsOf(t), m) { NotAcceptedIsNothing(CellsOf(t), m, conn); }
  }

  lemma NotAcceptedIsNothing(cells: Cells, m: Message, conn: Conn)
    requires !IsRequest(m) && !Accepted(cells, m)
    ensures ApplyCell(Authority, cells, Understood(cells, m, conn)) == cells
  {
    if (m.EntryAssign? || m.EntryUpdate?) && m.id in cells { NewerIsAhead(cells[m.id].seqNum, m.seqNum); }
    if m.EntryDelete? { assert cells - {m.id} == cells; }
  }

  // ---------------------------------------------------------------- requests

  lemma NameIsTakenIff(t: Table, n: Text)
    requires Settled(t)
    ensures (exists i :: i in CellsOf(t) && CellsOf(t)[i].name == n) <==> At(t, n).id != UNASSIGNED
  {
    LiveNameHasCell(t, n);
    if n in t.entries { assert RecordOk(t, n); }
    if At(t, n).id == UNASSIGNED { NamesDiffer(t, n); }
  }

  lemma FirstValue(t: Table, m: Message)
    requires IsRequest(m) && t.server && m.name in t.entries && t.entries[m.name] == Requested(m)
    ensures var e, r := SetValue(t, m.name, m.value, false), Record(Some(m.value), m.flags, |t.idmap|, m.seqNum, false);
            && e.out == ToAll(EntryAssign(m.name, |t.idmap|, m.seqNum, m.value, m.flags))
            && e.table == Put(t.(idmap := t.idmap + [Some(m.name)], dirty := e.table.dirty), m.name, r)
  {
  }

  lemma NextIdIsFree(t: Table, n: Text)
    ensures |t.idmap| !in CellsOf(t) && GetOrNew(t, n).idmap == t.idmap
  {
  }

  lemma RequestServed(t: Table, m: Message)
    requires Settled(t) && t.server && IsRequest(m) && At(t, m.name).id == UNASSIGNED && |t.idmap| < UNASSIGNED
    ensures var e, answer := AssignRequest(t, m), EntryAssign(m.name, |t.idmap|, m.seqNum, m.value, m.flags);
            e.out == ToAll(answer) && CellsOf(e.table) == ApplyCell(Follower, CellsOf(t), answer)
  {
    hide Indexed, Exact, CellsOf, SetValue;
    CellsOfGetOrNew(t, m.name);
    GetOrNewKeeps(t, m.name);
    RequestPrepares(t, m);
    NextIdIsFree(t, m.name);
    var t1 := GetOrNew(t, m.name);
    CellsOfUnassigned(t1, m.name, Requested(m), t1.dirty);
    assert t1.(dirty := t1.dirty) == t1;
    var t2 := Put(t1, m.name, Requested(m));
    FirstValue(t2, m);
    CellsOfAppend(t2, m.name, Record(Some(m.value), m.flags, |t2.idmap|, m.seqNum, false));
  }

  /** A request numbers an entry without a value, and everybody is told; a later one is ignored. */
  lemma RequestHeard(t: Table, m: Message, conn: Conn)
    requires Settled(t) && t.server && IsRequest(m) && |t.idmap| < UNASSIGNED
    ensures var e, answer := Step(t, Incoming(m, conn)), EntryAssign(m.name, |t.idmap|, m.seqNum, m.value, m.flags);
            if exists i :: i in CellsOf(t) && CellsOf(t)[i].name == m.name then
              e.out == [] && CellsOf(e.table) == CellsOf(t)
            else
              e.out == ToAll(answer) && CellsOf(e.table) == ApplyCell(Follower, CellsOf(t), answer)
  {
    NameIsTakenIff(t, m.name);
    hide Indexed, Exact, CellsOf, SetValue, GetOrNew;
    CellsOfGetOrNew(t, m.name);
    if At(t, m.name).id == UNASSIGNED { RequestServed(t, m); }
  }

  // ---------------------------------------------------------------- from one client to another

  lemma SlotsStay(t: Table, m: Message, conn: Conn)
    requires Indexed(t) && t.server && !IsRequest(m)
    ensures |Step(t, Incoming(m, conn)).table.idmap| <= UNASSIGNED
  {
  }

  /**
   One client tells the server something, and another client, which was in step, reads what it is sent: it ends with
   the server's entries, and these are what the message made of them.
   */
  lemma OneClientTellsAnother(net: Net, m: Message, sender: Conn, conn: Conn)
    requires Synced(net) && sender != conn && conn.protoRev >= PROTO_3 && IdInRange(m) && !IsRequest(m)
    ensures var end := Next(net, ServerOp(Incoming(m, sender)), conn);
            CellsOf(Drain(end.client, end.wire, conn).table) == CellsOf(end.server)
            == ApplyCell(Authority, CellsOf(net.server), Understood(CellsOf(net.server), m, sender))
  {
    hide Indexed, Exact, CellsOf, ProcessIncoming, FitsAll, ApplyCell, Understood;
    MessageServed(net.server, m, sender);
    SlotsStay(net.server, m, sender);
    ServerOpKeepsSync(net, Incoming(m, sender), conn);
    var end := Next(net, ServerOp(Incoming(m, sender)), conn);
    DrainFollows(end.client, end.wire, conn);
  }
}
