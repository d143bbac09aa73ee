/**
 A server broadcasts exactly the changes of its own table, and a client that only follows ends up with
 that table: for every run of local operations and of messages from other connections.
 */
module Replication {
  import opened Wrappers
  import opened Serial
  import opened Protocol
  import opened StorageSpec
  import opened Index
  import opened Receiver

  function RecordCell(n: Text, r: Record): Cell {
    Cell(n, r.value, r.flags, r.seqNum)
  }

  /** The live entries of a storage, by network id. */
  function CellsOf(t: Table): Cells {
    map i | 0 <= i < |t.idmap| && t.idmap[i].Some? :: RecordCell(t.idmap[i].value, At(t, t.idmap[i].value))
  }

  // ---------------------------------------------------------------- how cells change

  lemma CellsOfPut(t: Table, n: Text, r: Record, dirty: bool)
    requires Settled(t) && n in t.entries && r.id == t.entries[n].id && r.id != UNASSIGNED
    ensures CellsOf(Put(t.(dirty := dirty), n, r)) == CellsOf(t)[r.id := RecordCell(n, r)]
    ensures r.id in CellsOf(t) && CellsOf(t)[r.id] == RecordCell(n, t.entries[n])
  {
    SlotOfEntry(t, n);
    assert RecordOk(t, n);
  }

  lemma CellsOfAppend(t: Table, n: Text, r: Record)
    requires Settled(t) && n in t.entries && t.entries[n].id == UNASSIGNED
    ensures forall dirty :: CellsOf(Put(t.(idmap := t.idmap + [Some(n)], dirty := dirty), n, r))
                            == CellsOf(t)[|t.idmap| := RecordCell(n, r)]
  {
    SlotOfEntry(t, n);
  }

  lemma CellsOfUnassigned(t: Table, n: Text, r: Record, dirty: bool)
    requires Settled(t) && At(t, n).id == UNASSIGNED
    ensures CellsOf(Put(t.(dirty := dirty), n, r)) == CellsOf(t)
  {
    forall i | 0 <= i < |t.idmap| ensures t.idmap[i] != Some(n) { assert SlotExact(t, i); }
  }

  lemma CellsOfGetOrNew(t: Table, n: Text)
    requires Settled(t)
    ensures CellsOf(GetOrNew(t, n)) == CellsOf(t)
  {
  }

  lemma CellsOfDelete(t: Table, n: Text, local: bool)
    requires Settled(t) && n in t.entries
    ensures CellsOf(Delete(t, n, local).table) == CellsOf(t) - {t.entries[n].id}
  {
    SlotOfEntry(t, n);
    assert RecordOk(t, n);
  }

  lemma CellsOfClear(t: Table)
    requires Settled(t)
    ensures CellsOf(DeleteNames(t, Unprotected(t))) == Kept(CellsOf(t))
  {
    var t' := DeleteNames(t, Unprotected(t));
    forall i | 0 <= i < |t.idmap| && t.idmap[i].Some?
      ensures t'.idmap[i] == if Persistent(At(t, t.idmap[i].value).flags) then t.idmap[i] else None
    {
      var n := t.idmap[i].value;
      assert SlotExact(t, i) && RecordOk(t, n);
      forall k | k in Unprotected(t) && t.entries[k].id == i ensures k == n { assert RecordOk(t, k); }
    }
  }

  /** No two live entries of a settled storage have the same name. */
  lemma NamesDiffer(t: Table, n: Text)
    requires Settled(t) && At(t, n).id == UNASSIGNED
    ensures forall j :: j in CellsOf(t) ==> CellsOf(t)[j].name != n
  {
    forall j | j in CellsOf(t) ensures CellsOf(t)[j].name != n { assert SlotExact(t, j); }
  }

  // ---------------------------------------------------------------- the server's side

  function Messages(out: seq<Outgoing>): seq<Message> {
    seq(|out|, i requires 0 <= i < |out| => out[i].msg)
  }

  /** The messages sent are exactly what a follower needs to go from one set of cells to the other. */
  predicate Announced(cells: Cells, cells': Cells, out: seq<Outgoing>) {
    && |out| <= 1
    && (out == [] ==> cells' == cells)
    && (out != [] ==> Fits(cells, out[0].msg) && cells' == ApplyCell(Follower, cells, out[0].msg))
  }

  /** A record changes in place: what the follower has to do is to change the cell. */
  lemma PutAnnounced(t: Table, n: Text, r: Record, dirty: bool, out: seq<Outgoing>)
    requires Settled(t) && n in t.entries && r.id == t.entries[n].id && r.id != UNASSIGNED
    requires |out| <= 1
    requires out == [] ==> r.(localWrite := t.entries[n].localWrite) == t.entries[n]
    requires forall cells: Cells | out != [] && r.id in cells && cells[r.id] == RecordCell(n, t.entries[n]) ::
               Fits(cells, out[0].msg) && ApplyCell(Follower, cells, out[0].msg) == cells[r.id := RecordCell(n, r)]
    ensures Announced(CellsOf(t), CellsOf(Put(t.(dirty := dirty), n, r)), out)
  {
    hide Settled, Fits, ApplyCell;
    CellsOfPut(t, n, r, dirty);
  }

  lemma SetValueAnnounced(t: Table, n: Text, v: Value, local: bool)
    requires Settled(t) && t.server && n in t.entries && |SetValue(t, n, v, local).table.idmap| <= UNASSIGNED
    requires local || t.entries[n].id == UNASSIGNED
    ensures Announced(CellsOf(t), CellsOf(SetValue(t, n, v, local).table), SetValue(t, n, v, local).out)
  {
    assert RecordOk(t, n) && RecordExact(t, n);
    var r := Written(t, t.entries[n], v, local);
    if t.entries[n].id == UNASSIGNED {
      NamesDiffer(t, n);
      CellsOfAppend(t, n, r);
      assert CellsOf(SetValue(t, n, v, local).table) == CellsOf(t)[r.id := RecordCell(n, r)];
    } else {
      hide Settled;
      var e := SetValue(t, n, v, local);
      NewerIsAhead(t.entries[n].seqNum, r.seqNum);
      NewerIsAhead(r.seqNum, t.entries[n].seqNum);
      PutAnnounced(t, n, r, e.table.dirty, e.out);
      assert t.(idmap := t.idmap, dirty := e.table.dirty) == t.(dirty := e.table.dirty);
    }
  }

  lemma SetFlagsAnnounced(t: Table, n: Text, f: int)
    requires Settled(t) && n in t.entries
    ensures Announced(CellsOf(t), CellsOf(SetFlags(t, n, f, true).table), SetFlags(t, n, f, true).out)
  {
    var e := SetFlags(t, n, f, true);
    assert RecordOk(t, n) && RecordExact(t, n);
    hide Settled, CellsOf;
    if e.table != t {
      PutAnnounced(t, n, e.table.entries[n], e.table.dirty, e.out);
    }
  }

  lemma DeleteAnnounced(t: Table, n: Text)
    requires Settled(t) && n in t.entries
    ensures Announced(CellsOf(t), CellsOf(Delete(t, n, true).table), Delete(t, n, true).out)
  {
    assert RecordOk(t, n) && RecordExact(t, n);
    CellsOfDelete(t, n, true);
    assert UNASSIGNED !in CellsOf(t);
  }

  lemma ClearAnnounced(t: Table)
    requires Settled(t)
    ensures Announced(CellsOf(t), CellsOf(DeleteAllEntries(t).table), DeleteAllEntries(t).out)
  {
    CellsOfClear(t);
    if Unprotected(t) == {} {
      var cells := CellsOf(t);
      forall i | i in cells ensures Persistent(cells[i].flags) {
        assert SlotExact(t, i) && RecordOk(t, cells[i].name);
        assert cells[i].name !in Unprotected(t);
      }
      assert Kept(cells) == cells;
    }
  }

  lemma AssignKnownAnnounced(t: Table, n: Text, m: Message, conn: Conn)
    requires Settled(t) && t.server && m.EntryAssign? && n in t.entries && t.entries[n].id == m.id < UNASSIGNED
    ensures var e := AssignKnown(t, n, m, conn, false); Announced(CellsOf(t), CellsOf(e.table), e.out)
  {
    hide Settled, CellsOf;
    var e := AssignKnown(t, n, m, conn, false);
    if e.out != [] {
      PutAnnounced(t, n, e.table.entries[n], e.table.dirty, e.out);
    }
  }

  lemma UpdateAnnounced(t: Table, n: Text, m: Message, conn: Conn)
    requires Settled(t) && t.server && m.EntryUpdate? && n in t.entries && t.entries[n].id == m.id < UNASSIGNED
    ensures Announced(CellsOf(t), CellsOf(IncomingUpdate(t, n, m, conn).table), IncomingUpdate(t, n, m, conn).out)
  {
    hide Settled, CellsOf;
    var e := IncomingUpdate(t, n, m, conn);
    if e.out != [] {
      PutAnnounced(t, n, e.table.entries[n], e.table.dirty, e.out);
    }
  }

  /** A flags message of another peer: relayed even when it changes nothing. */
  lemma FlagsAnnounced(t: Table, n: Text, m: Message, out: seq<Outgoing>)
    requires Settled(t) && m.FlagsUpdate? && n in t.entries && t.entries[n].id == m.id < UNASSIGNED
    requires |out| == 1 && out[0].msg == m && t.entries[n].value.Some?
    ensures Announced(CellsOf(t), CellsOf(SetFlags(t, n, m.flags, false).table), out)
  {
    hide Settled, CellsOf;
    var t' := SetFlags(t, n, m.flags, false).table;
    PutAnnounced(t, n, t'.entries[n], t'.dirty, out);
    assert t' == Put(t.(dirty := t'.dirty), n, t'.entries[n]);
  }

  lemma AssignRequestAnnounced(t: Table, m: Message)
    requires m.EntryAssign? && Settled(t) && t.server && |AssignRequest(t, m).table.idmap| <= UNASSIGNED
    ensures Announced(CellsOf(t), CellsOf(AssignRequest(t, m).table), AssignRequest(t, m).out)
  {
    hide Indexed, Exact, SetValue, CellsOf;
    GetOrNewKeeps(t, m.name);
    CellsOfGetOrNew(t, m.name);
    if At(t, m.name).id == UNASSIGNED {
      RequestPrepares(t, m);
      var t1 := GetOrNew(t, m.name);
      CellsOfUnassigned(t1, m.name, Requested(m), t1.dirty);
      assert t1.(dirty := t1.dirty) == t1;
      SetValueAnnounced(Put(t1, m.name, Requested(m)), m.name, m.value, false);
    }
  }

  lemma IncomingAnnounced(t: Table, m: Message, conn: Conn)
    requires Settled(t) && t.server && IdInRange(m) && |ProcessIncoming(t, m, conn).table.idmap| <= UNASSIGNED
    ensures Announced(CellsOf(t), CellsOf(ProcessIncoming(t, m, conn).table), ProcessIncoming(t, m, conn).out)
  {
    hide Indexed, Exact, CellsOf, Lookup, AssignKnown, AssignRequest, IncomingUpdate, SetFlags, Delete, DeleteNames;
    match m
    case EntryAssign(_, id, _, _, _) =>
      if id == UNASSIGNED {
        AssignRequestAnnounced(t, m);
      } else if Lookup(t, id).Some? {
        SlotGives(t, id);
        AssignKnownAnnounced(t, Lookup(t, id).value, m, conn);
      }
    case EntryUpdate(id, _, _) =>
      if Lookup(t, id).Some? {
        SlotGives(t, id);
        UpdateAnnounced(t, Lookup(t, id).value, m, conn);
      }
    case FlagsUpdate(id, f) =>
      if Lookup(t, id).Some? {
        SlotGives(t, id);
        FlagsAnnounced(t, Lookup(t, id).value, m, Relay(t, m, conn));
      }
    case EntryDelete(id) =>
      if Lookup(t, id).Some? {
        SlotGives(t, id);
        CellsOfDelete(t, Lookup(t, id).value, false);
      }
    case ClearEntries => CellsOfClear(t);
    case _ =>
  }

  /** Every operation of a server sends at most one message, which says exactly what it did to the table. */
  lemma StepAnnounced(t: Table, op: Op)
    requires Settled(t) && t.server && OpInRange(op) && |Step(t, op).table.idmap| <= UNASSIGNED
    ensures Announced(CellsOf(t), CellsOf(Step(t, op).table), Step(t, op).out)
  {
    hide Indexed, Exact, CellsOf, GetOrNew, SetValue, SetFlags, Delete, DeleteAllEntries, ProcessIncoming;
    match op
    case Set(n, v) =>
      GetOrNewKeeps(t, n);
      CellsOfGetOrNew(t, n);
      if Step(t, op) == SetValue(GetOrNew(t, n), n, v, true) { SetValueAnnounced(GetOrNew(t, n), n, v, true); }
    case ForceSet(n, v) =>
      GetOrNewKeeps(t, n);
      CellsOfGetOrNew(t, n);
      if n != [] { SetValueAnnounced(GetOrNew(t, n), n, v, true); }
    case SetDefault(n, v) =>
      GetOrNewKeeps(t, n);
      CellsOfGetOrNew(t, n);
      if Step(t, op) == SetValue(GetOrNew(t, n), n, v, true) { SetValueAnnounced(GetOrNew(t, n), n, v, true); }
    case ChangeFlags(n, f) =>
      if n != [] && n in t.entries { SetFlagsAnnounced(t, n, f); }
    case Remove(n) =>
      if n != [] && n in t.entries { DeleteAnnounced(t, n); }
    case RemoveAll => ClearAnnounced(t);
    case Incoming(m, conn) => IncomingAnnounced(t, m, conn);
  }

  // ---------------------------------------------------------------- the follower's side

  /** The new table t' differs from t in one record, and the cells call for exactly that. */
  predicate Followed(t: Table, m: Message, e: Effect) {
    && Settled(e.table) && !e.table.server && e.out == []
    && CellsOf(e.table) == ApplyCell(Follower, CellsOf(t), m)
  }

  /** The message changes one record in place, as it changes the cell. */
  lemma PutFollowed(t: Table, n: Text, r: Record, dirty: bool, m: Message)
    requires Settled(t) && !t.server && n in t.entries
    requires r.id == t.entries[n].id && r.id != UNASSIGNED && r.value.Some?
    requires forall cells: Cells | r.id in cells && cells[r.id] == RecordCell(n, t.entries[n]) ::
               ApplyCell(Follower, cells, m) == cells[r.id := RecordCell(n, r)]
    ensures Followed(t, m, Effect(Put(t.(dirty := dirty), n, r), []))
  {
    PutKeeps(t, n, r, dirty);
    hide Settled, ApplyCell;
    CellsOfPut(t, n, r, dirty);
  }

  lemma FollowKnownAssign(t: Table, n: Text, m: Message, conn: Conn)
    requires Settled(t) && !t.server && conn.protoRev >= PROTO_3
    requires m.EntryAssign? && n == m.name && n in t.entries && t.entries[n].id == m.id < UNASSIGNED
    ensures Followed(t, m, AssignKnown(t, n, m, conn, false))
  {
    assert RecordOk(t, n);
    hide Settled, CellsOf;
    var e := AssignKnown(t, n, m, conn, false);
    PutFollowed(t, n, e.table.entries[n], e.table.dirty, m);
    assert e.table == Put(t.(dirty := e.table.dirty), n, e.table.entries[n]);
  }

  lemma FollowUpdate(t: Table, n: Text, m: Message, conn: Conn)
    requires Settled(t) && !t.server && m.EntryUpdate? && n in t.entries && t.entries[n].id == m.id < UNASSIGNED
    ensures Followed(t, m, IncomingUpdate(t, n, m, conn))
  {
    assert RecordOk(t, n);
    hide Settled, CellsOf;
    var e := IncomingUpdate(t, n, m, conn);
    PutFollowed(t, n, e.table.entries[n], e.table.dirty, m);
    assert e.table == Put(t.(dirty := e.table.dirty), n, e.table.entries[n]);
  }

  lemma FollowFlags(t: Table, n: Text, m: Message)
    requires Settled(t) && !t.server && m.FlagsUpdate? && n in t.entries && t.entries[n].id == m.id < UNASSIGNED
    ensures Followed(t, m, Effect(SetFlags(t, n, m.flags, false).table, []))
  {
    assert RecordOk(t, n);
    hide Settled, CellsOf;
    var t' := SetFlags(t, n, m.flags, false).table;
    PutFollowed(t, n, t'.entries[n], t'.dirty, m);
    assert t' == Put(t.(dirty := t'.dirty), n, t'.entries[n]);
  }

  lemma AssignNewFrame(t: Table, m: Message, conn: Conn)
    requires m.EntryAssign? && m.id < |t.idmap| && At(t, m.name).value.None?
    ensures AssignNew(t, m, conn).out == []
    ensures AssignNew(t, m, conn).table
            == Put(GetOrNew(t, m.name).(idmap := t.idmap[m.id := Some(m.name)]), m.name,
                   Record(Some(m.value), m.flags, m.id, m.seqNum, At(t, m.name).localWrite))
  {
  }

  lemma CellsOfNewSlot(t: Table, n: Text, r: Record)
    requires Settled(t) && r.id < |t.idmap| && At(t, n).id == UNASSIGNED
    ensures CellsOf(Put(GetOrNew(t, n).(idmap := t.idmap[r.id := Some(n)]), n, r))
            == CellsOf(t)[r.id := RecordCell(n, r)]
  {
    var t' := Put(GetOrNew(t, n).(idmap := t.idmap[r.id := Some(n)]), n, r);
    NamesDiffer(t, n);
    forall i | 0 <= i < |t.idmap| && i != r.id && t.idmap[i].Some?
      ensures At(t', t'.idmap[i].value) == At(t, t.idmap[i].value)
    {
      assert CellsOf(t)[i].name != n;
    }
  }

  lemma LiveNameHasCell(t: Table, n: Text)
    requires Settled(t)
    ensures At(t, n).value.Some? ==> exists j :: j in CellsOf(t) && CellsOf(t)[j].name == n
    ensures At(t, n).value.None? ==> At(t, n).id == UNASSIGNED
  {
    if n in t.entries {
      assert RecordOk(t, n) && RecordExact(t, n);
      var i := t.entries[n].id;
      assert i != UNASSIGNED ==> i in CellsOf(t) && CellsOf(t)[i].name == n;
    }
  }

  lemma FollowNewAssign(t: Table, m: Message, conn: Conn)
    requires Settled(t) && !t.server && Fits(CellsOf(t), m)
    requires m.EntryAssign? && m.id < |t.idmap| && t.idmap[m.id].None?
    ensures Followed(t, m, AssignNew(t, m, conn))
  {
    LiveNameHasCell(t, m.name);
    AssignNewFrame(t, m, conn);
    AssignNewKeeps(t, m, conn);
    CellsOfNewSlot(t, m.name, Record(Some(m.value), m.flags, m.id, m.seqNum, At(t, m.name).localWrite));
  }

  lemma FollowAssign(t: Table, m: Message, conn: Conn)
    requires Settled(t) && !t.server && conn.protoRev >= PROTO_3 && m.EntryAssign? && Fits(CellsOf(t), m)
    ensures Followed(t, m, IncomingAssign(t, m, conn))
  {
    if Lookup(t, m.id).Some? {
      SlotGives(t, m.id);
      assert m.id in CellsOf(t);
      assert t.(idmap := t.idmap) == t;
      FollowKnownAssign(t, Lookup(t, m.id).value, m, conn);
    } else {
      var t' := t.(idmap := ExtendTo(t.idmap, m.id));
      ExtendKeeps(t, m.id);
      assert CellsOf(t') == CellsOf(t);
      FollowNewAssign(t', m, conn);
    }
  }

  /** A client without writes of its own does with a message what its cells call for, and answers nothing. */
  lemma FollowStep(t: Table, m: Message, conn: Conn)
    requires Settled(t) && !t.server && conn.protoRev >= PROTO_3 && Fits(CellsOf(t), m)
    ensures Followed(t, m, ProcessIncoming(t, m, conn))
  {
    hide Indexed, Exact, IncomingAssign, IncomingUpdate, SetFlags, Delete, DeleteNames;
    if m.EntryUpdate? || m.FlagsUpdate? || m.EntryDelete? {
      assert m.id in CellsOf(t) <==> Lookup(t, m.id).Some?;
      if Lookup(t, m.id).Some? { SlotGives(t, m.id); }
    }
    hide CellsOf, Lookup;
    match m
    case EntryAssign(_, _, _, _, _) => FollowAssign(t, m, conn);
    case EntryUpdate(id, _, _) => FollowUpdate(t, Lookup(t, id).value, m, conn);
    case FlagsUpdate(id, _) => FollowFlags(t, Lookup(t, id).value, m);
    case EntryDelete(id) =>
      if Lookup(t, id).Some? {
        DeleteKeeps(t, Lookup(t, id).value, false);
        CellsOfDelete(t, Lookup(t, id).value, false);
      }
    case ClearEntries =>
      DeleteNamesKeeps(t, Unprotected(t));
      CellsOfClear(t);
  }
}
