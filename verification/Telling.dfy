/**
 What a client tells the server about its own operations, also while some of its entries have no id yet: every change
 of a numbered entry, and for the others a request when they are new or change their type.
 */
module Telling {
  import opened Wrappers
  import opened Serial
  import opened Protocol
  import opened StorageSpec
  import opened Index
  import opened Receiver
  import opened Replication
  import opened Effects
  import opened Relaying

  /** The slots of a client lead to entries that have their id; entries without an id may have a value. */
  predicate Traced(t: Table) {
    Indexed(t) && forall i {:trigger SlotExact(t, i)} :: 0 <= i < |t.idmap| ==> SlotExact(t, i)
  }

  lemma CellsOfChange(t: Table, n: Text, r: Record, dirty: bool)
    requires Traced(t) && n in t.entries && r.id == t.entries[n].id
    ensures CellsOf(Put(t.(dirty := dirty), n, r))
            == if r.id == UNASSIGNED then CellsOf(t) else CellsOf(t)[r.id := RecordCell(n, r)]
    ensures r.id != UNASSIGNED ==> r.id in CellsOf(t) && CellsOf(t)[r.id] == RecordCell(n, t.entries[n])
  {
    assert RecordOk(t, n);
    forall i | 0 <= i < |t.idmap| && t.idmap[i] == Some(n) ensures t.entries[n].id == i { assert SlotExact(t, i); }
  }

  lemma NewIsTraced(t: Table, n: Text)
    requires Traced(t)
    ensures Traced(GetOrNew(t, n)) && CellsOf(GetOrNew(t, n)) == CellsOf(t)
  {
    GetOrNewKeeps(t, n);
    NewIsNowhere(t, n);
    hide Indexed;
    forall i | 0 <= i < |t.idmap| ensures SlotExact(GetOrNew(t, n), i) { assert SlotExact(t, i); }
  }

  lemma NewIsNowhere(t: Table, n: Text)
    requires Indexed(t)
    ensures GetOrNew(t, n).idmap == t.idmap && CellsOf(GetOrNew(t, n)) == CellsOf(t)
  {
    forall i | 0 <= i < |t.idmap| ensures SlotOk(t, i) {}
  }

  /** The server's view of the client's entries follows the messages, which mean something to it. */
  predicate Tells(cells: Cells, e: Effect) {
    && |e.out| <= 1
    && (forall o :: o in e.out ==> o.except.None?)
    && CellsOf(e.table) == (if e.out == [] then cells else ApplyCell(Authority, cells, e.out[0].msg))
    && (e.out != [] ==> Fits(cells, e.out[0].msg) || (e.out[0].msg.EntryAssign? && e.out[0].msg.id == UNASSIGNED))
  }

  lemma NextIsAccepted(s: U16)
    ensures !NewerOrEqual(s, Increment(s)) && !Newer(s, Increment(s))
  {
  }

  lemma ClientRecord(t: Table, n: Text, v: Value)
    requires !t.server && n in t.entries
    ensures var e, r := SetValue(t, n, v, true), Written(t, t.entries[n], v, true);
            e.table == Put(t.(dirty := e.table.dirty), n, r) && e.out == ChangeMessage(t, n, t.entries[n], r, v, true)
  {
    hide Written, ChangeMessage;
    assert t.(idmap := t.idmap, dirty := SetValue(t, n, v, true).table.dirty)
           == t.(dirty := SetValue(t, n, v, true).table.dirty);
  }

  lemma IdIsSmall(t: Table, n: Text)
    requires Traced(t) && n in t.entries
    ensures t.entries[n].id != UNASSIGNED ==> t.entries[n].id < UNASSIGNED && t.entries[n].value.Some?
  {
    assert RecordOk(t, n);
  }

  lemma SetTells(t: Table, n: Text, v: Value)
    requires Traced(t) && !t.server && n in t.entries
    ensures Tells(CellsOf(t), SetValue(t, n, v, true))
  {
    hide Traced, SetValue, CellsOf, Newer, NewerOrEqual, Increment;
    var e, was, r := SetValue(t, n, v, true), t.entries[n], Written(t, t.entries[n], v, true);
    IdIsSmall(t, n);
    ClientRecord(t, n, v);
    CellsOfChange(t, n, r, e.table.dirty);
    NextIsAccepted(was.seqNum);
  }

  lemma FlagsTell(t: Table, n: Text, f: int)
    requires Traced(t) && n in t.entries
    ensures Tells(CellsOf(t), SetFlags(t, n, f, true))
  {
    hide Traced, CellsOf;
    IdIsSmall(t, n);
    var e := SetFlags(t, n, f, true);
    CellsOfChange(t, n, e.table.entries[n], e.table.dirty);
    assert e.table == Put(t.(dirty := e.table.dirty), n, e.table.entries[n]);
  }

  lemma DeletionTells(t: Table, n: Text)
    requires Traced(t) && n in t.entries
    ensures Tells(CellsOf(t), Delete(t, n, true))
  {
    hide Traced, CellsOf;
    IdIsSmall(t, n);
    CellsOfDeleted(t, n, true);
  }

  lemma CellsOfDeleted(t: Table, n: Text, local: bool)
    requires Traced(t) && n in t.entries
    ensures CellsOf(Delete(t, n, local).table) == CellsOf(t) - {t.entries[n].id}
    ensures UNASSIGNED !in CellsOf(t) && CellsOf(t) - {UNASSIGNED} == CellsOf(t)
  {
    assert RecordOk(t, n);
    forall i | 0 <= i < |t.idmap| && t.idmap[i] == Some(n) ensures t.entries[n].id == i { assert SlotExact(t, i); }
  }

  lemma CellsOfUnsaved(t: Table)
    requires Traced(t)
    ensures CellsOf(DeleteNames(t, Unprotected(t))) == Kept(CellsOf(t))
  {
    var t' := DeleteNames(t, Unprotected(t));
    forall i | 0 <= i < |t.idmap| && t.idmap[i].Some?
      ensures t'.idmap[i] == if Persistent(At(t, t.idmap[i].value).flags) then t.idmap[i] else None
    {
      var n := t.idmap[i].value;
      assert SlotExact(t, i) && RecordOk(t, n);
      forall k | k in Unprotected(t) && t.entries[k].id == i ensures k == n { assert RecordOk(t, k); }
    }
  }

  lemma NothingUnsaved(t: Table)
    requires Traced(t) && Unprotected(t) == {}
    ensures Kept(CellsOf(t)) == CellsOf(t)
  {
    var cells := CellsOf(t);
    forall i | i in cells ensures Persistent(cells[i].flags) {
      assert SlotExact(t, i) && RecordOk(t, cells[i].name);
      assert cells[i].name !in Unprotected(t);
    }
  }

  lemma ClearTells(t: Table)
    requires Traced(t)
    ensures Tells(CellsOf(t), DeleteAllEntries(t))
  {
    CellsOfUnsaved(t);
    if Unprotected(t) == {} { NothingUnsaved(t); }
  }

  /** Every operation of a client's program sends what makes the server follow it, and nothing to nobody else. */
  lemma ClientTells(t: Table, op: Op)
    requires Traced(t) && !t.server && !op.Incoming?
    ensures Tells(CellsOf(t), Step(t, op))
  {
    hide Indexed, CellsOf, GetOrNew, SetValue, SetFlags, Delete, DeleteAllEntries, ProcessIncoming;
    match op
    case Set(n, v) => SetOrNewTells(t, n, v);
    case ForceSet(n, v) => SetOrNewTells(t, n, v);
    case SetDefault(n, v) => SetOrNewTells(t, n, v);
    case ChangeFlags(n, f) => if n in t.entries { FlagsTell(t, n, f); }
    case Remove(n) => if n in t.entries { DeletionTells(t, n); }
    case RemoveAll => ClearTells(t);
  }

  lemma SetOrNewTells(t: Table, n: Text, v: Value)
    requires Traced(t) && !t.server
    ensures Tells(CellsOf(t), SetValue(GetOrNew(t, n), n, v, true)) && CellsOf(GetOrNew(t, n)) == CellsOf(t)
  {
    NewIsTraced(t, n);
    SetTells(GetOrNew(t, n), n, v);
  }

  lemma SetRequests(t: Table, n: Text, v: Value)
    requires !t.server
    ensures var out, was := SetValue(GetOrNew(t, n), n, v, true).out, At(t, n);
            var seqNum := if was.value == Some(v) then was.seqNum else Increment(was.seqNum);
            if was.value.None? || was.value.value.Type() != v.Type() then
              out == ToAll(EntryAssign(n, was.id, seqNum, v, was.flags))
            else forall o :: o in out ==> !o.msg.EntryAssign?
  {
  }

  lemma OthersRequestNothing(t: Table, op: Op)
    requires op.ChangeFlags? || op.Remove? || op.RemoveAll?
    ensures forall o :: o in Step(t, op).out ==> !o.msg.EntryAssign?
    ensures forall n :: At(Step(t, op).table, n).value.Some? ==> At(Step(t, op).table, n).value == At(t, n).value
  {
  }

  /**
   A client asks for an id exactly when an entry that has none gets its first value or one of another type, and then
   with everything that the server needs.
   */
  lemma RequestIff(t: Table, op: Op, n: Text)
    requires !t.server && !op.Incoming?
    ensures var e, was := Step(t, op), At(t, n); var now := At(e.table, n);
            && ((exists o :: o in e.out && o.msg.EntryAssign? && o.msg.name == n && o.msg.id == UNASSIGNED)
                <==> was.id == UNASSIGNED && now.value.Some?
                     && (was.value.None? || was.value.value.Type() != now.value.value.Type()))
            && forall o :: o in e.out && o.msg.EntryAssign? && o.msg.name == n ==>
                 now.value.Some? && o.msg == EntryAssign(n, was.id, now.seqNum, now.value.value, now.flags)
  {
    hide GetOrNew, SetValue, SetFlags, Delete, DeleteNames, Unprotected;
    match op
    case Set(k, v) => SetTouches(t, k, v, n); SetRequests(t, k, v);
    case ForceSet(k, v) => SetTouches(t, k, v, n); SetRequests(t, k, v);
    case SetDefault(k, v) => SetTouches(t, k, v, n); SetRequests(t, k, v);
    case _ => OthersRequestNothing(t, op);
  }

  // ---------------------------------------------------------------- what a client hears

  lemma KnownAssignTaken(t: Table, n: Text, m: Message, conn: Conn)
    requires Traced(t) && !t.server && m.EntryAssign? && n in t.entries && t.entries[n].id == m.id != UNASSIGNED
    ensures var e, cells := AssignKnown(t, n, m, conn, false), CellsOf(t);
            e.out == [] && m.id in cells && CellsOf(e.table) == ApplyCell(Follower, cells, Understood(cells, m, conn))
  {
    CellsOfChange(t, n, t.entries[n], t.dirty);
    hide Indexed, CellsOf, Newer;
    var e := AssignKnown(t, n, m, conn, false);
    if e.table != t { CellsOfChange(t, n, e.table.entries[n], e.table.dirty); }
  }

  lemma UpdateTaken(t: Table, n: Text, m: Message, conn: Conn)
    requires Traced(t) && !t.server && m.EntryUpdate? && n in t.entries && t.entries[n].id == m.id != UNASSIGNED
    ensures var e := IncomingUpdate(t, n, m, conn);
            e.out == [] && CellsOf(e.table) == ApplyCell(Follower, CellsOf(t), m)
  {
    CellsOfChange(t, n, t.entries[n], t.dirty);
    hide Indexed, CellsOf, NewerOrEqual;
    var e := IncomingUpdate(t, n, m, conn);
    if e.table != t { CellsOfChange(t, n, e.table.entries[n], e.table.dirty); }
  }

  lemma FlagsTaken(t: Table, n: Text, m: Message)
    requires Traced(t) && m.FlagsUpdate? && n in t.entries && t.entries[n].id == m.id != UNASSIGNED
    ensures CellsOf(SetFlags(t, n, m.flags, false).table) == ApplyCell(Follower, CellsOf(t), m)
  {
    assert RecordOk(t, n);
    CellsOfChange(t, n, t.entries[n], t.dirty);
    hide Indexed, CellsOf;
    var t' := SetFlags(t, n, m.flags, false).table;
    if t' != t { CellsOfChange(t, n, t'.entries[n], t'.dirty); }
  }

  lemma DeletionTaken(t: Table, n: Text, m: Message)
    requires Traced(t) && m.EntryDelete? && n in t.entries && t.entries[n].id == m.id != UNASSIGNED
    ensures CellsOf(Delete(t, n, false).table) == ApplyCell(Follower, CellsOf(t), m)
  {
    hide Traced, CellsOf, Delete;
    CellsOfDeleted(t, n, false);
  }

  lemma ValuelessIsNowhere(t: Table, n: Text)
    requires Traced(t) && At(t, n).value.None?
    ensures forall i :: 0 <= i < |t.idmap| ==> t.idmap[i] != Some(n)
  {
    if n in t.entries { assert RecordOk(t, n); }
    forall i | 0 <= i < |t.idmap| ensures t.idmap[i] != Some(n) { assert SlotOk(t, i) && SlotExact(t, i); }
  }

  lemma CellsOfLonger(t: Table, id: nat)
    ensures CellsOf(t.(idmap := ExtendTo(t.idmap, id))) == CellsOf(t)
  {
  }

  lemma CellsOfFilled(t: Table, n: Text, r: Record, id: nat)
    requires id < |t.idmap| && forall i :: 0 <= i < |t.idmap| ==> t.idmap[i] != Some(n)
    ensures CellsOf(Put(GetOrNew(t, n).(idmap := t.idmap[id := Some(n)]), n, r))
            == CellsOf(t)[id := RecordCell(n, r)]
  {
  }

  lemma NewAssignTaken(t: Table, m: Message, conn: Conn)
    requires Traced(t) && !t.server && m.EntryAssign? && m.id < UNASSIGNED && Lookup(t, m.id).None?
    requires At(t, m.name).value.None?
    ensures var e := IncomingAssign(t, m, conn); e.out == [] && CellsOf(e.table) == ApplyCell(Follower, CellsOf(t), m)
  {
    hide Traced, CellsOf, AssignNew, At;
    var t' := t.(idmap := ExtendTo(t.idmap, m.id));
    SameRecords(t, t');
    ValuelessIsNowhere(t, m.name);
    CellsOfLonger(t, m.id);
    AssignNewFrame(t', m, conn);
    CellsOfFilled(t', m.name, Record(Some(m.value), m.flags, m.id, m.seqNum, At(t', m.name).localWrite), m.id);
    SlotLeads(t, m.id);
  }

  lemma SameRecords(t: Table, t': Table)
    requires t'.entries == t.entries
    ensures forall n :: At(t', n) == At(t, n)
  {
  }

  lemma SlotLeads(t: Table, id: nat)
    requires Traced(t)
    ensures id in CellsOf(t) <==> Lookup(t, id).Some?
    ensures Lookup(t, id).Some? ==>
              Lookup(t, id).value in t.entries && At(t, Lookup(t, id).value).id == id != UNASSIGNED
  {
    if Lookup(t, id).Some? { assert SlotOk(t, id) && SlotExact(t, id); }
  }

  /**
   A client does with each message what it says to a follower, whatever the message and the revision, and answers
   nothing; only the first assignment of an entry that it has already is another matter.
   */
  lemma MessageFollowed(t: Table, m: Message, conn: Conn)
    requires Traced(t) && !t.server && IdInRange(m)
    requires m.EntryAssign? && m.id != UNASSIGNED && m.id !in CellsOf(t) ==> At(t, m.name).value.None?
    ensures var e, cells := Step(t, Incoming(m, conn)), CellsOf(t);
            e.out == [] && CellsOf(e.table) == ApplyCell(Follower, cells, Understood(cells, m, conn))
  {
    hide Indexed, CellsOf, Lookup, AssignKnown, AssignNew, IncomingUpdate, SetFlags, Delete, DeleteNames;
    if m.EntryAssign? || m.EntryUpdate? || m.FlagsUpdate? || m.EntryDelete? {
      SlotLeads(t, m.id);
      if Lookup(t, m.id).Some? {
        var n := Lookup(t, m.id).value;
        match m
        case EntryAssign(_, _, _, _, _) => KnownSlot(t, m.id); KnownAssignTaken(t, n, m, conn);
        case EntryUpdate(_, _, _) => UpdateTaken(t, n, m, conn);
        case FlagsUpdate(_, _) => FlagsTaken(t, n, m);
        case EntryDelete(_) => DeletionTaken(t, n, m);
      } else if m.EntryAssign? && m.id != UNASSIGNED {
        NewAssignTaken(t, m, conn);
      } else if m.EntryDelete? {
        assert CellsOf(t) - {m.id} == CellsOf(t);
      }
    } else if m.ClearEntries? {
      CellsOfUnsaved(t);
    }
  }

  lemma KnownSlot(t: Table, id: nat)
    requires Lookup(t, id).Some?
    ensures ExtendTo(t.idmap, id) == t.idmap && t.(idmap := t.idmap) == t && t.idmap[id] == Lookup(t, id)
  {
  }

  /** The slots of a client reach as far as the highest id that it has heard an assignment of. */
  lemma SlotsReach(t: Table, m: Message, conn: Conn)
    requires !t.server
    ensures |Step(t, Incoming(m, conn)).table.idmap|
            == if m.EntryAssign? && m.id != UNASSIGNED && m.id >= |t.idmap| then m.id + 1 else |t.idmap|
  {
  }
}
