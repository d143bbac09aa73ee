/** The three indexes of a storage agree, whatever operations it goes through. */
module Index {
  import opened Wrappers
  import opened Protocol
  import opened StorageSpec

  /** Names and handles are in bijection. */
  predicate Handles(t: Table) {
    && (forall i, j :: 0 <= i < j < |t.localmap| ==> t.localmap[i] != t.localmap[j])
    && (forall n :: n in t.localmap ==> n in t.entries)
    && (forall n :: n in t.entries ==> n in t.localmap)
  }

  /** An assigned id leads back to its entry, and an id or a local write goes with a value. */
  predicate RecordOk(t: Table, n: Text)
    requires n in t.entries
  {
    var r := t.entries[n];
    && (r.id != UNASSIGNED ==> r.id < |t.idmap| && t.idmap[r.id] == Some(n) && r.value.Some?)
    && (r.localWrite ==> r.value.Some?)
  }

  predicate SlotOk(t: Table, i: nat)
    requires i < |t.idmap|
  {
    t.idmap[i].Some? ==> t.idmap[i].value in t.entries
  }

  /** What every storage keeps. */
  predicate Indexed(t: Table) {
    && Handles(t)
    && |t.idmap| <= UNASSIGNED
    && (forall n {:trigger RecordOk(t, n)} :: n in t.entries ==> RecordOk(t, n))
    && (forall i {:trigger SlotOk(t, i)} :: 0 <= i < |t.idmap| ==> SlotOk(t, i))
  }

  predicate RecordExact(t: Table, n: Text)
    requires n in t.entries
  {
    t.entries[n].value.Some? ==> t.entries[n].id != UNASSIGNED
  }

  predicate SlotExact(t: Table, i: nat)
    requires i < |t.idmap|
  {
    t.idmap[i].Some? ==> t.idmap[i].value in t.entries && t.entries[t.idmap[i].value].id == i
  }

  predicate Exact(t: Table) {
    && (forall n {:trigger RecordExact(t, n)} :: n in t.entries ==> RecordExact(t, n))
    && (forall i {:trigger SlotExact(t, i)} :: 0 <= i < |t.idmap| ==> SlotExact(t, i))
  }

  /** What a server keeps, and a client that only follows: ids and values go together, slots are exact. */
  predicate Settled(t: Table) {
    Indexed(t) && Exact(t)
  }

  /** Ids are 16-bit numbers on the wire. */
  predicate IdInRange(m: Message) {
    match m
    case EntryAssign(_, id, _, _, _) => id <= UNASSIGNED
    case EntryUpdate(id, _, _) => id <= UNASSIGNED
    case FlagsUpdate(id, _) => id <= UNASSIGNED
    case EntryDelete(id) => id <= UNASSIGNED
    case _ => true
  }

  predicate OpInRange(op: Op) {
    op.Incoming? ==> IdInRange(op.msg)
  }

  // ---------------------------------------------------------------- operations on one entry

  predicate SlotChange(t: Table, t': Table, n: Text, i: nat)
    requires i < |t'.idmap|
  {
    var was := Lookup(t, i);
    || t'.idmap[i] == was
    || (was.None? && t'.idmap[i] == Some(n))
    || (t'.idmap[i].None? && n in t.entries && t.entries[n].id == i)
  }

  /** From t to t' only the entry n changes, and only the slots that belong to it. */
  predicate OnlyEntry(t: Table, t': Table, n: Text) {
    && n in t'.entries
    && t'.entries.Keys == t.entries.Keys + {n}
    && (forall k :: k in t.entries && k != n ==> t'.entries[k] == t.entries[k])
    && Handles(t')
    && |t.idmap| <= |t'.idmap| <= UNASSIGNED
    && (forall i {:trigger SlotChange(t, t', n, i)} :: 0 <= i < |t'.idmap| ==> SlotChange(t, t', n, i))
  }

  lemma OnlyEntryKeeps(t: Table, t': Table, n: Text)
    requires Indexed(t) && OnlyEntry(t, t', n) && RecordOk(t', n)
    ensures Indexed(t')
    ensures Settled(t) && RecordExact(t', n)
            && (forall i :: 0 <= i < |t'.idmap| && t'.idmap[i] == Some(n) ==> t'.entries[n].id == i)
            ==> Settled(t')
  {
    if n in t.entries { assert RecordOk(t, n); }
    forall k | k in t'.entries ensures RecordOk(t', k) {
      if k != n {
        assert RecordOk(t, k);
        if t.entries[k].id != UNASSIGNED { assert SlotChange(t, t', n, t.entries[k].id); }
      }
    }
    forall i | 0 <= i < |t'.idmap| ensures SlotOk(t', i) {
      assert SlotChange(t, t', n, i);
      if i < |t.idmap| { assert SlotOk(t, i); }
    }
    if && Settled(t) && RecordExact(t', n)
       && (forall i :: 0 <= i < |t'.idmap| && t'.idmap[i] == Some(n) ==> t'.entries[n].id == i) {
      forall k | k in t'.entries ensures RecordExact(t', k) {
        if k != n { assert RecordExact(t, k); }
      }
      forall i | 0 <= i < |t'.idmap| ensures SlotExact(t', i) {
        assert SlotChange(t, t', n, i);
        if i < |t.idmap| { assert SlotExact(t, i); }
      }
    }
  }

  /** In a settled table an entry is in no slot but its own. */
  lemma SlotOfEntry(t: Table, n: Text)
    requires Settled(t) && n in t.entries
    ensures forall i :: 0 <= i < |t.idmap| && t.idmap[i] == Some(n) ==> t.entries[n].id == i
  {
    forall i | 0 <= i < |t.idmap| && t.idmap[i] == Some(n) ensures t.entries[n].id == i {
      assert SlotExact(t, i);
    }
  }

  lemma GetOrNewKeeps(t: Table, n: Text)
    requires Indexed(t)
    ensures Indexed(GetOrNew(t, n)) && (Settled(t) ==> Settled(GetOrNew(t, n)))
  {
    if n !in t.entries {
      var t' := GetOrNew(t, n);
      forall i | 0 <= i < |t'.idmap| ensures SlotChange(t, t', n, i) && t'.idmap[i] != Some(n) { assert SlotOk(t, i); }
      OnlyEntryKeeps(t, t', n);
    }
  }

  /** The record of one entry changes, its id does not. */
  lemma PutKeeps(t: Table, n: Text, r: Record, dirty: bool)
    requires Indexed(t) && n in t.entries
    requires r.id == t.entries[n].id && (r.value.Some? || (r.id == UNASSIGNED && !r.localWrite))
    ensures Indexed(Put(t.(dirty := dirty), n, r))
    ensures Settled(t) && (r.value.Some? ==> r.id != UNASSIGNED) ==> Settled(Put(t.(dirty := dirty), n, r))
  {
    var t' := Put(t.(dirty := dirty), n, r);
    assert RecordOk(t, n);
    forall i | 0 <= i < |t'.idmap| ensures SlotChange(t, t', n, i) {}
    if Settled(t) { SlotOfEntry(t, n); }
    OnlyEntryKeeps(t, t', n);
  }

  lemma SetValueKeeps(t: Table, n: Text, v: Value, local: bool)
    requires Indexed(t) && n in t.entries
    requires |SetValue(t, n, v, local).table.idmap| <= UNASSIGNED
    ensures Indexed(SetValue(t, n, v, local).table)
    ensures t.server && Settled(t) ==> Settled(SetValue(t, n, v, local).table)
  {
    hide ChangeMessage;
    var t' := SetValue(t, n, v, local).table;
    assert RecordOk(t, n);
    forall i | 0 <= i < |t'.idmap| ensures SlotChange(t, t', n, i) {}
    if Settled(t) { SlotOfEntry(t, n); }
    OnlyEntryKeeps(t, t', n);
  }

  lemma DeleteKeeps(t: Table, n: Text, local: bool)
    requires Indexed(t) && n in t.entries
    ensures Indexed(Delete(t, n, local).table)
    ensures Settled(t) ==> Settled(Delete(t, n, local).table)
  {
    var t' := Delete(t, n, local).table;
    assert RecordOk(t, n);
    forall i | 0 <= i < |t'.idmap| ensures SlotChange(t, t', n, i) {}
    if Settled(t) { SlotOfEntry(t, n); }
    OnlyEntryKeeps(t, t', n);
  }

  lemma AssignKnownKeeps(t: Table, n: Text, m: Message, conn: Conn, mayNeedUpdate: bool)
    requires m.EntryAssign? && Indexed(t) && n in t.entries
    requires mayNeedUpdate ==> t.entries[n].value.Some?
    ensures Indexed(AssignKnown(t, n, m, conn, mayNeedUpdate).table)
    ensures Settled(t) && t.entries[n].id != UNASSIGNED ==> Settled(AssignKnown(t, n, m, conn, mayNeedUpdate).table)
  {
    var t' := AssignKnown(t, n, m, conn, mayNeedUpdate).table;
    if t' != t {
      PutKeeps(t, n, t'.entries[n], t'.dirty);
    }
  }

  /** A free slot goes to an entry. */
  lemma NewSlotKeeps(t: Table, n: Text, r: Record)
    requires Indexed(t) && n in t.entries && r.id < |t.idmap| && t.idmap[r.id].None? && r.value.Some?
    ensures Indexed(Put(t.(idmap := t.idmap[r.id := Some(n)]), n, r))
    ensures Settled(t) && t.entries[n].value.None? ==> Settled(Put(t.(idmap := t.idmap[r.id := Some(n)]), n, r))
  {
    var t' := Put(t.(idmap := t.idmap[r.id := Some(n)]), n, r);
    forall i | 0 <= i < |t'.idmap| ensures SlotChange(t, t', n, i) {}
    assert RecordOk(t, n);
    if Settled(t) { SlotOfEntry(t, n); }
    OnlyEntryKeeps(t, t', n);
  }

  lemma AssignNewKeeps(t: Table, m: Message, conn: Conn)
    requires m.EntryAssign? && Indexed(t) && m.id < |t.idmap| && t.idmap[m.id].None?
    ensures Indexed(AssignNew(t, m, conn).table)
    ensures Settled(t) && At(t, m.name).value.None? ==> Settled(AssignNew(t, m, conn).table)
  {
    hide Indexed, Exact, AssignKnown;
    GetOrNewKeeps(t, m.name);
    var t1 := GetOrNew(t, m.name);
    var r := t1.entries[m.name].(id := m.id);
    if r.value.None? {
      NewSlotKeeps(t1, m.name, r.(value := Some(m.value), flags := m.flags, seqNum := m.seqNum));
    } else {
      NewSlotKeeps(t1, m.name, r);
      AssignKnownKeeps(Put(t1.(idmap := t1.idmap[m.id := Some(m.name)]), m.name, r), m.name, m, conn, true);
    }
  }

  // ---------------------------------------------------------------- all operations

  lemma DeleteNamesKeeps(t: Table, doomed: set<Text>)
    requires Indexed(t)
    ensures Indexed(DeleteNames(t, doomed))
    ensures Settled(t) ==> Settled(DeleteNames(t, doomed))
  {
    var t' := DeleteNames(t, doomed);
    forall k | k in t'.entries ensures RecordOk(t', k) {
      assert RecordOk(t, k);
      forall n | n in doomed && n in t.entries && n != k && t.entries[k].id != UNASSIGNED
        ensures t.entries[n].id != t.entries[k].id
      {
        assert RecordOk(t, n);
      }
    }
    forall i | 0 <= i < |t'.idmap| ensures SlotOk(t', i) { assert SlotOk(t, i); }
    if Settled(t) {
      forall k | k in t'.entries ensures RecordExact(t', k) { assert RecordExact(t, k); }
      forall i | 0 <= i < |t'.idmap| ensures SlotExact(t', i) { assert SlotExact(t, i); }
    }
  }

  lemma ExtendKeeps(t: Table, id: nat)
    requires Indexed(t) && id < UNASSIGNED
    ensures Indexed(t.(idmap := ExtendTo(t.idmap, id)))
    ensures Settled(t) ==> Settled(t.(idmap := ExtendTo(t.idmap, id)))
  {
    var t' := t.(idmap := ExtendTo(t.idmap, id));
    forall k | k in t'.entries ensures RecordOk(t', k) { assert RecordOk(t, k); }
    forall i | 0 <= i < |t'.idmap| ensures SlotOk(t', i) {
      if i < |t.idmap| { assert SlotOk(t, i); }
    }
    if Settled(t) {
      forall k | k in t'.entries ensures RecordExact(t', k) { assert RecordExact(t, k); }
      forall i | 0 <= i < |t'.idmap| ensures SlotExact(t', i) {
        if i < |t.idmap| { assert SlotExact(t, i); }
      }
    }
  }

  function Requested(m: Message): Record
    requires m.EntryAssign?
  {
    BLANK.(seqNum := m.seqNum, flags := m.flags)
  }

  /** A request first sets the flags and the sequence number of an entry that has no value yet. */
  lemma RequestPrepares(t: Table, m: Message)
    requires Settled(t) && t.server && m.EntryAssign? && At(t, m.name).id == UNASSIGNED
    ensures var t1 := GetOrNew(t, m.name);
            && AssignRequest(t, m) == SetValue(Put(t1, m.name, Requested(m)), m.name, m.value, false)
            && Settled(Put(t1, m.name, Requested(m)))
  {
    GetOrNewKeeps(t, m.name);
    var t1 := GetOrNew(t, m.name);
    assert RecordOk(t1, m.name) && RecordExact(t1, m.name);
    assert t1.(dirty := t1.dirty) == t1;
    PutKeeps(t1, m.name, Requested(m), t1.dirty);
  }

  lemma AssignRequestKeeps(t: Table, m: Message)
    requires m.EntryAssign? && Settled(t) && t.server
    requires |AssignRequest(t, m).table.idmap| <= UNASSIGNED
    ensures Settled(AssignRequest(t, m).table)
  {
    hide Indexed, Exact, SetValue;
    GetOrNewKeeps(t, m.name);
    if At(t, m.name).id == UNASSIGNED {
      RequestPrepares(t, m);
      SetValueKeeps(Put(GetOrNew(t, m.name), m.name, Requested(m)), m.name, m.value, false);
    }
  }

  lemma IncomingAssignKeeps(t: Table, m: Message, conn: Conn)
    requires m.EntryAssign? && IdInRange(m) && Indexed(t) && (t.server ==> Settled(t))
    requires |IncomingAssign(t, m, conn).table.idmap| <= UNASSIGNED
    ensures Indexed(IncomingAssign(t, m, conn).table)
    ensures t.server ==> Settled(IncomingAssign(t, m, conn).table)
  {
    if t.server && m.id == UNASSIGNED {
      AssignRequestKeeps(t, m);
    } else if t.server {
      if Lookup(t, m.id).Some? {
        assert SlotOk(t, m.id) && SlotExact(t, m.id);
        AssignKnownKeeps(t, Lookup(t, m.id).value, m, conn, false);
      }
    } else if m.id != UNASSIGNED {
      ExtendKeeps(t, m.id);
      var t' := t.(idmap := ExtendTo(t.idmap, m.id));
      assert SlotOk(t', m.id);
      if t'.idmap[m.id].None? {
        AssignNewKeeps(t', m, conn);
      } else {
        AssignKnownKeeps(t', t'.idmap[m.id].value, m, conn, false);
      }
    }
  }

  lemma SetFlagsKeeps(t: Table, n: Text, f: int, local: bool)
    requires Indexed(t) && n in t.entries
    ensures Indexed(SetFlags(t, n, f, local).table)
    ensures Settled(t) ==> Settled(SetFlags(t, n, f, local).table)
  {
    var t' := SetFlags(t, n, f, local).table;
    if t' != t {
      if Settled(t) { assert RecordExact(t, n); }
      PutKeeps(t, n, t'.entries[n], t'.dirty);
    }
  }

  lemma IncomingUpdateKeeps(t: Table, n: Text, m: Message, conn: Conn)
    requires Indexed(t) && m.EntryUpdate? && n in t.entries
    ensures Indexed(IncomingUpdate(t, n, m, conn).table)
    ensures Settled(t) && t.entries[n].id != UNASSIGNED ==> Settled(IncomingUpdate(t, n, m, conn).table)
  {
    var t' := IncomingUpdate(t, n, m, conn).table;
    if t' != t {
      PutKeeps(t, n, t'.entries[n], t'.dirty);
    }
  }

  /** The entry that an id leads to; on a settled table it has that id. */
  lemma SlotGives(t: Table, id: nat)
    requires Indexed(t) && Lookup(t, id).Some?
    ensures var n := Lookup(t, id).value;
            && n in t.entries
            && (Settled(t) ==> t.entries[n].id == id < UNASSIGNED && t.entries[n].value.Some?)
  {
    assert SlotOk(t, id) && RecordOk(t, t.idmap[id].value);
    if Settled(t) { assert SlotExact(t, id); }
  }

  lemma ProcessKeepsIndexed(t: Table, m: Message, conn: Conn)
    requires Indexed(t) && IdInRange(m) && (t.server ==> Settled(t))
    requires |ProcessIncoming(t, m, conn).table.idmap| <= UNASSIGNED
    ensures Indexed(ProcessIncoming(t, m, conn).table)
    ensures t.server ==> Settled(ProcessIncoming(t, m, conn).table)
  {
    hide Indexed, Settled, Lookup, IncomingAssign, IncomingUpdate, SetFlags, Delete, DeleteNames;
    match m
    case EntryAssign(_, _, _, _, _) => IncomingAssignKeeps(t, m, conn);
    case EntryUpdate(id, _, _) =>
      if Lookup(t, id).Some? {
        SlotGives(t, id);
        IncomingUpdateKeeps(t, Lookup(t, id).value, m, conn);
      }
    case FlagsUpdate(id, f) =>
      if Lookup(t, id).Some? {
        SlotGives(t, id);
        SetFlagsKeeps(t, Lookup(t, id).value, f, false);
      }
    case EntryDelete(id) =>
      if Lookup(t, id).Some? {
        SlotGives(t, id);
        DeleteKeeps(t, Lookup(t, id).value, false);
      }
    case ClearEntries => DeleteNamesKeeps(t, Unprotected(t));
    case _ =>
  }

  /** Every operation keeps the indexes in agreement, on a client under any messages at all. */
  lemma StepKeepsIndexed(t: Table, op: Op)
    requires Indexed(t) && OpInRange(op) && (t.server ==> Settled(t))
    requires |Step(t, op).table.idmap| <= UNASSIGNED
    ensures Indexed(Step(t, op).table)
    ensures t.server ==> Settled(Step(t, op).table)
  {
    hide Indexed, Settled, GetOrNew, SetValue, SetFlags, Delete, DeleteNames, ProcessIncoming;
    match op
    case Set(n, v) =>
      GetOrNewKeeps(t, n);
      if Step(t, op) == SetValue(GetOrNew(t, n), n, v, true) { SetValueKeeps(GetOrNew(t, n), n, v, true); }
    case ForceSet(n, v) =>
      GetOrNewKeeps(t, n);
      if n != [] { SetValueKeeps(GetOrNew(t, n), n, v, true); }
    case SetDefault(n, v) =>
      GetOrNewKeeps(t, n);
      if Step(t, op) == SetValue(GetOrNew(t, n), n, v, true) { SetValueKeeps(GetOrNew(t, n), n, v, true); }
    case ChangeFlags(n, f) =>
      if n != [] && n in t.entries { SetFlagsKeeps(t, n, f, true); }
    case Remove(n) =>
      if n != [] && n in t.entries { DeleteKeeps(t, n, true); }
    case RemoveAll => DeleteNamesKeeps(t, Unprotected(t));
    case Incoming(m, conn) => ProcessKeepsIndexed(t, m, conn);
  }

  // ---------------------------------------------------------------- whole runs

  function Run(t: Table, ops: seq<Op>): Table
    decreases |ops|
  {
    if ops == [] then t else Run(Step(t, ops[0]).table, ops[1..])
  }

  lemma {:induction false} RunExtends(t: Table, ops: seq<Op>)
    ensures Extends(t, Run(t, ops))
    decreases |ops|
  {
    if ops != [] {
      RunExtends(Step(t, ops[0]).table, ops[1..]);
    }
  }

  /** The indexes agree in every reachable state; a server stays within its budget of 65535 ids. */
  lemma {:induction false} RunKeepsIndexed(t: Table, ops: seq<Op>)
    requires Indexed(t) && (t.server ==> Settled(t))
    requires forall op :: op in ops ==> OpInRange(op)
    requires |Run(t, ops).idmap| <= UNASSIGNED
    ensures Indexed(Run(t, ops)) && (t.server ==> Settled(Run(t, ops)))
    decreases |ops|
  {
    if ops != [] {
      var op, rest := ops[0], ops[1..];
      RunExtends(Step(t, op).table, rest);
      StepKeepsIndexed(t, op);
      RunKeepsIndexed(Step(t, op).table, rest);
    }
  }

  // ---------------------------------------------------------------- file loads

  /** The record that a load leaves has a value, an own id and the mark it had. */
  lemma LoadOneTable(t: Table, n: Text, v: Value, persistent: bool)
    ensures var t1, t' := GetOrNew(t, n), LoadOne(t, n, v, persistent).table;
            var was, r := t1.entries[n], At(t', n);
            && t' == Put(t1.(idmap := if NeedsId(t1, was) then t1.idmap + [Some(n)] else t1.idmap), n, r)
            && r.value.Some? && r.localWrite == was.localWrite
            && r.id == if NeedsId(t1, was) then |t1.idmap| else was.id
  {
  }

  lemma LoadOneKeeps(t: Table, n: Text, v: Value, persistent: bool)
    requires Indexed(t) && (t.server ==> Settled(t))
    requires |LoadOne(t, n, v, persistent).table.idmap| <= UNASSIGNED
    ensures Indexed(LoadOne(t, n, v, persistent).table)
    ensures t.server ==> Settled(LoadOne(t, n, v, persistent).table)
  {
    hide LoadOne;
    GetOrNewKeeps(t, n);
    LoadOneTable(t, n, v, persistent);
    var t1, t' := GetOrNew(t, n), LoadOne(t, n, v, persistent).table;
    assert RecordOk(t1, n);
    forall i | 0 <= i < |t'.idmap| ensures SlotChange(t1, t', n, i) {}
    if Settled(t1) { SlotOfEntry(t1, n); }
    OnlyEntryKeeps(t1, t', n);
  }

  lemma {:induction false} LoadKeepsIndexed(t: Table, loaded: seq<(Text, Value)>, persistent: bool)
    requires Indexed(t) && (t.server ==> Settled(t))
    requires |LoadAll(t, loaded, persistent).table.idmap| <= UNASSIGNED
    ensures Indexed(LoadAll(t, loaded, persistent).table)
    ensures t.server ==> Settled(LoadAll(t, loaded, persistent).table)
    decreases |loaded|
  {
    hide Indexed, Exact, LoadOne;
    if loaded != [] {
      var k := |loaded| - 1;
      LoadKeepsIndexed(t, loaded[..k], persistent);
      LoadOneKeeps(LoadAll(t, loaded[..k], persistent).table, loaded[k].0, loaded[k].1, persistent);
    }
  }

  // ---------------------------------------------------------------- the budget of ids

  /**
   A server can number a new entry exactly while fewer than 65535 ids have been handed out. The next id would
   be 0xFFFF, which means "none": the entry has a value then, but no id that anyone could address it by.
   */
  lemma BudgetIsTight(t: Table, n: Text, v: Value)
    requires Settled(t) && t.server && n != [] && At(t, n).value.None?
    ensures var t' := SetEntryTypeValue(t, n, v).table;
            && (Settled(t') <==> |t.idmap| < UNASSIGNED)
            && At(t', n).value == Some(v)
            && (At(t', n).id == UNASSIGNED <==> |t.idmap| == UNASSIGNED)
  {
    GetOrNewKeeps(t, n);
    var t1 := GetOrNew(t, n);
    assert RecordOk(t1, n) && RecordExact(t1, n);
    if |t.idmap| < UNASSIGNED {
      SetValueKeeps(t1, n, v, true);
    }
  }
}
