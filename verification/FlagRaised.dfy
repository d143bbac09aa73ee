/** When the dirty flag goes up: the other half of its meaning, so that a server does not save what has not changed. */
module FlagRaised {
  import opened Wrappers
  import opened Serial
  import opened Protocol
  import opened StorageSpec
  import opened Index
  import opened DirtyFlag

  /** The flag goes up exactly if the persistent entries change, or for this other reason. */
  predicate RaisedExactly(t: Table, t': Table, other: bool) {
    t'.dirty <==> t.dirty || PersistentEntries(t') != PersistentEntries(t) || other
  }

  predicate Saved(r: Record) {
    r.value.Some? && Persistent(r.flags)
  }

  lemma PutChangesIff(t: Table, n: Text, r: Record, idmap: seq<Option<Text>>, dirty: bool)
    requires n in t.entries
    ensures PersistentEntries(Put(t.(idmap := idmap, dirty := dirty), n, r)) == PersistentEntries(t)
            <==> (Saved(r) <==> Saved(t.entries[n])) && (Saved(r) ==> r.value == t.entries[n].value)
  {
    var p, p' := PersistentEntries(t), PersistentEntries(Put(t.(idmap := idmap, dirty := dirty), n, r));
    assert n in p <==> Saved(t.entries[n]);
    assert n in p' <==> Saved(r);
    if p == p' && Saved(r) { assert p[n] == p'[n]; }
  }

  lemma SetValueRaises(t: Table, n: Text, v: Value, local: bool)
    requires n in t.entries
    ensures RaisedExactly(t, SetValue(t, n, v, local).table, false)
  {
    var t' := SetValue(t, n, v, local).table;
    PutChangesIff(t, n, t'.entries[n], t'.idmap, t'.dirty);
    hide PersistentEntries;
  }

  lemma SetFlagsRaises(t: Table, n: Text, f: int, local: bool)
    requires n in t.entries
    ensures RaisedExactly(t, SetFlags(t, n, f, local).table, false)
  {
    var t' := SetFlags(t, n, f, local).table;
    PutChangesIff(t, n, t'.entries[n], t'.idmap, t'.dirty);
    hide PersistentEntries;
    if t' != t { assert t.(idmap := t.idmap, dirty := t'.dirty) == t.(dirty := t'.dirty); }
  }

  lemma DeleteRaises(t: Table, n: Text, local: bool)
    requires n in t.entries
    ensures RaisedExactly(t, Delete(t, n, local).table, t.entries[n].value.None? && Persistent(t.entries[n].flags))
  {
    var t' := Delete(t, n, local).table;
    PutChangesIff(t, n, t'.entries[n], t'.idmap, t'.dirty);
    hide PersistentEntries;
  }

  lemma ClearRaises(t: Table)
    ensures DeleteNames(t, Unprotected(t)).dirty == t.dirty
    ensures PersistentEntries(DeleteNames(t, Unprotected(t))) == PersistentEntries(t)
  {
  }

  lemma KnownAssignRaises(t: Table, n: Text, m: Message, conn: Conn)
    requires m.EntryAssign? && n in t.entries && t.entries[n].value.Some?
    ensures RaisedExactly(t, AssignKnown(t, n, m, conn, false).table, false)
  {
    hide PersistentEntries;
    var t' := AssignKnown(t, n, m, conn, false).table;
    if t' != t {
      PutChangesIff(t, n, t'.entries[n], t.idmap, t'.dirty);
      assert t.(idmap := t.idmap, dirty := t'.dirty) == t.(dirty := t'.dirty);
    }
  }

  /** An update that is taken, of a saved entry, with the value that it has already. */
  predicate Repeats(r: Record, m: Message) {
    m.EntryUpdate? && !NewerOrEqual(r.seqNum, m.seqNum) && Saved(r) && r.value == Some(m.value)
  }

  lemma UpdateRaises(t: Table, n: Text, m: Message, conn: Conn)
    requires m.EntryUpdate? && n in t.entries && t.entries[n].value.Some?
    ensures RaisedExactly(t, IncomingUpdate(t, n, m, conn).table, Repeats(t.entries[n], m))
  {
    hide PersistentEntries;
    var t' := IncomingUpdate(t, n, m, conn).table;
    if t' != t || !NewerOrEqual(t.entries[n].seqNum, m.seqNum) {
      PutChangesIff(t, n, t'.entries[n], t.idmap, t'.dirty);
      assert t.(idmap := t.idmap, dirty := t'.dirty) == t.(dirty := t'.dirty);
    }
  }

  lemma RequestRaises(t: Table, m: Message)
    requires Settled(t) && t.server && m.EntryAssign? && m.id == UNASSIGNED
    ensures RaisedExactly(t, AssignRequest(t, m).table, false)
  {
    GetOrNewKeeps(t, m.name);
    GetOrNewDirty(t, m.name);
    var t1 := GetOrNew(t, m.name);
    if t1.entries[m.name].id == UNASSIGNED {
      assert RecordExact(t1, m.name);
      hide Settled, Indexed, Exact, PersistentEntries;
      var r := t1.entries[m.name].(flags := m.flags, seqNum := m.seqNum);
      PutChangesIff(t1, m.name, r, t1.idmap, t1.dirty);
      assert t1.(idmap := t1.idmap, dirty := t1.dirty) == t1;
      SetValueRaises(Put(t1, m.name, r), m.name, m.value, false);
    }
  }

  /** The other reasons: such an update, and the deletion of an entry that has a mark and no value. */
  predicate OtherReason(t: Table, op: Op) {
    match op
    case Incoming(m, _) =>
      m.EntryUpdate? && Lookup(t, m.id).Some? && Repeats(At(t, Lookup(t, m.id).value), m)
    case Remove(n) => n != [] && At(t, n).value.None? && Persistent(At(t, n).flags)
    case _ => false
  }

  lemma IncomingRaises(t: Table, m: Message, conn: Conn)
    requires Settled(t) && t.server
    ensures RaisedExactly(t, ProcessIncoming(t, m, conn).table, OtherReason(t, Incoming(m, conn)))
  {
    hide AssignRequest, AssignKnown, IncomingUpdate, SetFlags, Delete, DeleteNames, PersistentEntries, Indexed, Exact,
         Repeats;
    if m.EntryAssign? && m.id == UNASSIGNED {
      RequestRaises(t, m);
    } else if m.EntryAssign? || m.EntryUpdate? || m.FlagsUpdate? || m.EntryDelete? {
      if Lookup(t, m.id).Some? {
        SlotGives(t, m.id);
        var n := Lookup(t, m.id).value;
        match m
        case EntryAssign(_, _, _, _, _) => KnownAssignRaises(t, n, m, conn);
        case EntryUpdate(_, _, _) => UpdateRaises(t, n, m, conn);
        case FlagsUpdate(_, f) => SetFlagsRaises(t, n, f, false);
        case EntryDelete(_) => DeleteRaises(t, n, false);
      }
    } else if m.ClearEntries? {
      ClearRaises(t);
    }
  }

  /**
   The flag is up after an operation, or on a server after a message, if and only if it was up before, the persistent
   entries have changed, or one of the two other reasons applies. A clear never raises it.
   */
  lemma StepRaisesIff(t: Table, op: Op)
    requires op.Incoming? ==> Settled(t) && t.server
    ensures Step(t, op).table.dirty
            <==> t.dirty || PersistentEntries(Step(t, op).table) != PersistentEntries(t) || OtherReason(t, op)
  {
    hide Indexed, Exact, GetOrNew, SetValue, SetFlags, Delete, DeleteNames, ProcessIncoming, PersistentEntries;
    match op
    case Set(n, v) =>
      GetOrNewDirty(t, n);
      SetValueRaises(GetOrNew(t, n), n, v, true);
    case ForceSet(n, v) =>
      GetOrNewDirty(t, n);
      SetValueRaises(GetOrNew(t, n), n, v, true);
    case SetDefault(n, v) =>
      GetOrNewDirty(t, n);
      SetValueRaises(GetOrNew(t, n), n, v, true);
    case ChangeFlags(n, f) =>
      if n in t.entries { SetFlagsRaises(t, n, f, true); }
    case Remove(n) =>
      if n in t.entries { DeleteRaises(t, n, true); }
    case RemoveAll => ClearRaises(t);
    case Incoming(m, conn) => IncomingRaises(t, m, conn);
  }
}
