/**
 One entry, followed through a server's operations and through the messages that a client reads, in whatever
 order these arrive.
 */
module Tracking {
  import opened Wrappers
  import opened Serial
  import opened Protocol
  import opened StorageSpec
  import opened Index
  import opened Receiver
  import opened Replication
  import opened Network
  import opened Handshake

  // ---------------------------------------------------------------- one entry

  /** The values that an entry has had, by sequence number. */
  type Log = map<U16, Value>

  /** The entry n with the id i, whose sequence number has not left the half window after a base. */
  datatype Spot = Spot(name: Text, id: nat, base: U16)

  function Place(spot: Spot, s: U16): nat {
    Offset(spot.base, s)
  }

  predicate Alive(t: Table, spot: Spot) {
    At(t, spot.name).id == spot.id != UNASSIGNED && Place(spot, At(t, spot.name).seqNum) < HALF
    && |t.idmap| <= UNASSIGNED
  }

  /** The entry does not exist yet, and its id has not been handed out. */
  predicate Unborn(t: Table, spot: Spot) {
    At(t, spot.name).value.None? && |t.idmap| <= spot.id < UNASSIGNED
  }

  predicate Writes(m: Message, id: nat) {
    (m.EntryAssign? || m.EntryUpdate?) && m.id == id
  }

  /** Name and id go together, and nobody clears. */
  predicate Paired(m: Message, spot: Spot) {
    (m.EntryAssign? ==> (m.name == spot.name <==> m.id == spot.id)) && !m.ClearEntries?
  }

  /** The message is about other entries, or carries a value that the entry has had. */
  predicate Known(m: Message, spot: Spot, log: Log) {
    && Paired(m, spot)
    && (Writes(m, spot.id) ==> m.seqNum in log && log[m.seqNum] == m.value)
    && (m.EntryDelete? ==> m.id != spot.id)
  }

  predicate Holds(t: Table, spot: Spot, log: Log) {
    var r := At(t, spot.name);
    r.value.Some? && r.seqNum in log && log[r.seqNum] == r.value.value
  }

  /** The entry holds a value that it has had, and none that came later is in the log. */
  predicate Tops(t: Table, spot: Spot, log: Log) {
    && Holds(t, spot, log)
    && forall s :: s in log ==> Place(spot, s) <= Place(spot, At(t, spot.name).seqNum)
  }

  /** The message carries what the entry holds now. */
  predicate Brings(m: Message, t: Table, spot: Spot) {
    Writes(m, spot.id) && m.seqNum == At(t, spot.name).seqNum
  }

  // ---------------------------------------------------------------- the server's operations

  /** A write that is sent is what the table holds now, under the name that its id leads to. */
  predicate Tells(t: Table, m: Message) {
    m.EntryAssign? || m.EntryUpdate? ==>
      && Lookup(t, m.id).Some?
      && var n := Lookup(t, m.id).value;
         && At(t, n).seqNum == m.seqNum && At(t, n).value == Some(m.value)
         && (m.EntryAssign? ==> m.name == n)
  }

  lemma SetValueTells(t: Table, n: Text, v: Value, local: bool)
    requires Settled(t) && t.server && n in t.entries
    ensures forall o :: o in SetValue(t, n, v, local).out ==> Tells(SetValue(t, n, v, local).table, o.msg)
  {
    assert RecordOk(t, n);
  }

  lemma AssignKnownTells(t: Table, n: Text, m: Message, conn: Conn)
    requires m.EntryAssign? && Lookup(t, m.id) == Some(n) && n in t.entries
    ensures forall o :: o in AssignKnown(t, n, m, conn, false).out ==>
              Tells(AssignKnown(t, n, m, conn, false).table, o.msg)
  {
  }

  lemma AssignRequestTells(t: Table, m: Message)
    requires Settled(t) && t.server && m.EntryAssign?
    ensures forall o :: o in AssignRequest(t, m).out ==> Tells(AssignRequest(t, m).table, o.msg)
  {
    hide Settled, SetValue;
    if At(t, m.name).id == UNASSIGNED {
      RequestPrepares(t, m);
      SetValueTells(Put(GetOrNew(t, m.name), m.name, Requested(m)), m.name, m.value, false);
    }
  }

  lemma IncomingTells(t: Table, m: Message, conn: Conn)
    requires Settled(t) && t.server
    ensures forall o :: o in ProcessIncoming(t, m, conn).out ==> Tells(ProcessIncoming(t, m, conn).table, o.msg)
  {
    hide Indexed, Exact, AssignKnown, AssignRequest, SetFlags, Delete, DeleteNames;
    match m
    case EntryAssign(_, id, _, _, _) =>
      if id == UNASSIGNED {
        AssignRequestTells(t, m);
      } else if Lookup(t, id).Some? {
        SlotGives(t, id);
        AssignKnownTells(t, Lookup(t, id).value, m, conn);
      }
    case EntryUpdate(id, _, _) =>
      if Lookup(t, id).Some? { SlotGives(t, id); }
    case _ =>
  }

  lemma StepTells(t: Table, op: Op)
    requires Settled(t) && t.server
    ensures forall o :: o in Step(t, op).out ==> Tells(Step(t, op).table, o.msg)
  {
    hide Indexed, Exact, GetOrNew, SetValue, DeleteNames, ProcessIncoming, Tells;
    match op
    case Set(n, v) =>
      GetOrNewKeeps(t, n);
      if Step(t, op) == SetValue(GetOrNew(t, n), n, v, true) { SetValueTells(GetOrNew(t, n), n, v, true); }
    case ForceSet(n, v) =>
      GetOrNewKeeps(t, n);
      if n != [] { SetValueTells(GetOrNew(t, n), n, v, true); }
    case SetDefault(n, v) =>
      GetOrNewKeeps(t, n);
      if Step(t, op) == SetValue(GetOrNew(t, n), n, v, true) { SetValueTells(GetOrNew(t, n), n, v, true); }
    case ChangeFlags(n, f) => QuietTells(t, op);
    case Remove(n) => QuietTells(t, op);
    case RemoveAll => QuietTells(t, op);
    case Incoming(m, conn) => IncomingTells(t, m, conn);
  }

  lemma QuietTells(t: Table, op: Op)
    requires op.ChangeFlags? || op.Remove? || op.RemoveAll?
    ensures forall o :: o in Step(t, op).out ==> Tells(Step(t, op).table, o.msg)
  {
  }

  // ---------------------------------------------------------------- what an operation does to the entry

  predicate NoClear(op: Op) {
    !op.RemoveAll? && !(op.Incoming? && op.msg.ClearEntries?)
  }

  /** No write takes the sequence number of the value that it replaces: one writer at a time. */
  predicate NoTie(t: Table, t': Table, spot: Spot) {
    At(t, spot.name).seqNum == At(t', spot.name).seqNum ==> At(t, spot.name).value == At(t', spot.name).value
  }

  function Extended(log: Log, t: Table, spot: Spot): Log
    requires At(t, spot.name).value.Some?
  {
    log[At(t, spot.name).seqNum := At(t, spot.name).value.value]
  }

  /** The cell of the entry changes only by a write that is sent, and only forward. */
  lemma CellMovesForward(cells: Cells, cells': Cells, out: seq<Outgoing>, spot: Spot)
    requires Announced(cells, cells', out) && spot.id in cells && spot.id in cells'
    requires forall o :: o in out ==> !o.msg.ClearEntries?
    requires Place(spot, cells[spot.id].seqNum) < HALF && Place(spot, cells'[spot.id].seqNum) < HALF
    ensures Place(spot, cells[spot.id].seqNum) <= Place(spot, cells'[spot.id].seqNum)
    ensures cells[spot.id].(flags := 0) == cells'[spot.id].(flags := 0)
            || (out != [] && Writes(out[0].msg, spot.id) && out[0].msg.seqNum == cells'[spot.id].seqNum)
    ensures out != [] && out[0].msg.EntryDelete? ==> out[0].msg.id != spot.id
  {
    hide Offset;
    NewerInWindow(spot.base, cells[spot.id].seqNum, cells'[spot.id].seqNum);
    NewerInWindow(spot.base, cells'[spot.id].seqNum, cells[spot.id].seqNum);
  }

  lemma NoClearSent(t: Table, op: Op)
    requires NoClear(op)
    ensures forall o :: o in Step(t, op).out ==> !o.msg.ClearEntries?
  {
  }

  lemma AliveHasCell(t: Table, spot: Spot)
    requires Settled(t) && Alive(t, spot)
    ensures At(t, spot.name).value.Some?
    ensures spot.id in CellsOf(t) && CellsOf(t)[spot.id] == RecordCell(spot.name, At(t, spot.name))
    ensures Lookup(t, spot.id) == Some(spot.name)
    ensures forall i :: Lookup(t, i) == Some(spot.name) ==> i == spot.id
  {
    SettledIsLinked(t);
    CellOfLive(t, spot.name);
  }

  lemma SpotStep(t: Table, op: Op, spot: Spot, log: Log, conn: Conn)
    requires Settled(t) && t.server && Alive(t, spot) && Alive(Step(t, op).table, spot) && Tops(t, spot, log)
    requires Allowed(ServerOp(op), conn) && NoClear(op) && NoTie(t, Step(t, op).table, spot)
    ensures Settled(Step(t, op).table) && Step(t, op).table.server && At(Step(t, op).table, spot.name).value.Some?
    ensures var e, log' := Step(t, op), Extended(log, Step(t, op).table, spot);
            && Tops(e.table, spot, log')
            && (forall s :: s in log ==> s in log' && log'[s] == log[s])
            && (forall o :: o in e.out ==> Known(o.msg, spot, log') && o.except != Some(conn))
            && (At(e.table, spot.name).seqNum == At(t, spot.name).seqNum
                || (e.out != [] && Brings(e.out[0].msg, e.table, spot)))
  {
    hide Indexed, Exact, Step, CellsOf, Offset, Lookup, Announced;
    var e := Step(t, op);
    StepKeepsIndexed(t, op);
    StepAnnounced(t, op);
    StepTells(t, op);
    NoClearSent(t, op);
    AliveHasCell(t, spot);
    AliveHasCell(e.table, spot);
    CellMovesForward(CellsOf(t), CellsOf(e.table), e.out, spot);
    SameLog(t, e.table, spot, log);
    AtMostOne(CellsOf(t), CellsOf(e.table), e.out);
  }

  lemma AtMostOne(cells: Cells, cells': Cells, out: seq<Outgoing>)
    requires Announced(cells, cells', out)
    ensures |out| <= 1
  {
  }

  lemma SameLog(t: Table, t': Table, spot: Spot, log: Log)
    requires Tops(t, spot, log) && At(t', spot.name).value.Some? && NoTie(t, t', spot)
    requires Place(spot, At(t, spot.name).seqNum) <= Place(spot, At(t', spot.name).seqNum)
    ensures Tops(t', spot, Extended(log, t', spot))
    ensures var log' := Extended(log, t', spot); forall s :: s in log ==> s in log' && log'[s] == log[s]
  {
    var s := At(t', spot.name).seqNum;
    if s in log {
      SameOffset(spot.base, s, At(t, spot.name).seqNum);
    }
  }

  // ---------------------------------------------------------------- before the entry exists, and its birth

  /** A deletion that is sent is about an id that was in use. */
  lemma DeletionsAreKnown(t: Table, op: Op)
    requires Settled(t) && t.server
    ensures forall o :: o in Step(t, op).out && o.msg.EntryDelete? ==> Lookup(t, o.msg.id).Some?
  {
    hide GetOrNew, SetValue, SetFlags, DeleteNames, AssignKnown, AssignRequest;
    match op
    case Set(n, v) => NoDeletions(GetOrNew(t, n), n, v);
    case ForceSet(n, v) => NoDeletions(GetOrNew(t, n), n, v);
    case SetDefault(n, v) => NoDeletions(GetOrNew(t, n), n, v);
    case ChangeFlags(n, f) => if n in t.entries { FlagsDeleteNothing(t, n, f); }
    case Remove(n) => if n in t.entries { assert RecordOk(t, n); }
    case RemoveAll =>
    case Incoming(m, conn) => IncomingDeletions(t, m, conn);
  }

  lemma NoDeletions(t: Table, n: Text, v: Value)
    ensures n in t.entries ==> forall o, local :: o in SetValue(t, n, v, local).out ==> !o.msg.EntryDelete?
  {
  }

  lemma FlagsDeleteNothing(t: Table, n: Text, f: int)
    requires n in t.entries
    ensures forall o :: o in SetFlags(t, n, f, true).out ==> !o.msg.EntryDelete?
  {
  }

  lemma IncomingDeletions(t: Table, m: Message, conn: Conn)
    requires t.server
    ensures forall o :: o in ProcessIncoming(t, m, conn).out && o.msg.EntryDelete? ==> Lookup(t, o.msg.id).Some?
  {
    hide SetFlags, Delete, DeleteNames;
  }

  /** Before its birth no message is about the entry. */
  lemma UnbornStep(t: Table, op: Op, spot: Spot, conn: Conn)
    requires Settled(t) && t.server && Unborn(t, spot) && Unborn(Step(t, op).table, spot)
    requires Allowed(ServerOp(op), conn) && NoClear(op)
    ensures Settled(Step(t, op).table) && Step(t, op).table.server
    ensures forall o :: o in Step(t, op).out ==> Known(o.msg, spot, map[]) && o.except != Some(conn)
  {
    hide Indexed, Exact, Step, CellsOf, Announced;
    StepKeepsIndexed(t, op);
    StepTells(t, op);
    NoClearSent(t, op);
    DeletionsAreKnown(t, op);
  }

  /** The birth of the entry: the message that is sent assigns it, with the value that it now has. */
  lemma BirthStep(t: Table, op: Op, spot: Spot, conn: Conn)
    requires Settled(t) && t.server && Unborn(t, spot) && Alive(Step(t, op).table, spot)
    requires Allowed(ServerOp(op), conn) && NoClear(op)
    ensures Settled(Step(t, op).table) && Step(t, op).table.server && At(Step(t, op).table, spot.name).value.Some?
    ensures var e, log := Step(t, op), Extended(map[], Step(t, op).table, spot);
            && Tops(e.table, spot, log)
            && (forall o :: o in e.out ==> Known(o.msg, spot, log) && o.except != Some(conn))
            && e.out != [] && Brings(e.out[0].msg, e.table, spot)
  {
    hide Indexed, Exact, Step, Offset, Announced;
    var e := Step(t, op);
    StepKeepsIndexed(t, op);
    StepAnnounced(t, op);
    StepTells(t, op);
    NoClearSent(t, op);
    DeletionsAreKnown(t, op);
    AliveHasCell(e.table, spot);
    AtMostOne(CellsOf(t), CellsOf(e.table), e.out);
    NewCellIsAssigned(CellsOf(t), CellsOf(e.table), e.out, spot.id);
  }

  lemma NewCellIsAssigned(cells: Cells, cells': Cells, out: seq<Outgoing>, id: nat)
    requires Announced(cells, cells', out) && id !in cells && id in cells'
    ensures out != [] && out[0].msg.EntryAssign? && out[0].msg.id == id
  {
  }

  // ---------------------------------------------------------------- the joining client

  /** The client shows the entry under its id, and nothing else there. */
  ghost predicate Shows(c: Table, spot: Spot) {
    && !c.server && spot.name in c.entries && At(c, spot.name).value.Some? && spot.id != UNASSIGNED
    && Lookup(c, spot.id) == Some(spot.name) && At(c, spot.name).id == spot.id
    && (forall i :: Lookup(c, i) == Some(spot.name) ==> i == spot.id)
    && (forall k :: k in c.entries && c.entries[k].id == spot.id ==> k == spot.name)
  }

  /**
   The client takes a write to the entry exactly when it is further on; one that it has already seen changes nothing.
   */
  predicate Took(c: Table, m: Message, c': Table, spot: Spot) {
    var r, r' := At(c, spot.name), At(c', spot.name);
    if Writes(m, spot.id) && Place(spot, m.seqNum) > Place(spot, r.seqNum)
    then r'.seqNum == m.seqNum && r'.value == Some(m.value)
    else r'.seqNum == r.seqNum && r'.value == r.value
  }

  lemma ClientTakes(c: Table, m: Message, spot: Spot, log: Log, conn: Conn)
    requires Shows(c, spot) && Holds(c, spot, log) && Known(m, spot, log)
    requires forall s :: s in log ==> Place(spot, s) < HALF
    ensures var c' := ProcessIncoming(c, m, conn).table;
            Shows(c', spot) && Holds(c', spot, log) && Took(c, m, c', spot)
  {
    hide ProcessIncoming;
    if Writes(m, spot.id) {
      NewerInWindow(spot.base, At(c, spot.name).seqNum, m.seqNum);
      SameOffset(spot.base, At(c, spot.name).seqNum, m.seqNum);
      WriteArrives(c, m, spot, conn);
    } else {
      OtherMessage(c, m, spot, conn);
    }
  }

  /** Outside the record of one entry nothing changes. */
  predicate OnlyRecord(c: Table, c': Table, spot: Spot) {
    && c'.server == c.server && c'.idmap == c.idmap && c'.entries.Keys == c.entries.Keys
    && (forall k :: k in c.entries && k != spot.name ==> c'.entries[k] == c.entries[k])
    && At(c', spot.name).id == At(c, spot.name).id
  }

  lemma OnlyRecordShows(c: Table, c': Table, spot: Spot)
    requires Shows(c, spot) && OnlyRecord(c, c', spot) && At(c', spot.name).value.Some?
    ensures Shows(c', spot)
  {
    assert forall i :: Lookup(c', i) == Lookup(c, i);
  }

  lemma WriteArrives(c: Table, m: Message, spot: Spot, conn: Conn)
    requires Shows(c, spot) && Writes(m, spot.id) && (m.EntryAssign? ==> m.name == spot.name)
    ensures var c', r := ProcessIncoming(c, m, conn).table, At(c, spot.name);
            && Shows(c', spot)
            && At(c', spot.name).value
               == (if (if m.EntryAssign? then Newer(r.seqNum, m.seqNum) else NewerOrEqual(r.seqNum, m.seqNum))
                   then r.value else Some(m.value))
            && At(c', spot.name).seqNum
               == (if (if m.EntryAssign? then Newer(r.seqNum, m.seqNum) else NewerOrEqual(r.seqNum, m.seqNum))
                   then r.seqNum else m.seqNum)
  {
    var c' := ProcessIncoming(c, m, conn).table;
    assert c.(idmap := ExtendTo(c.idmap, spot.id)) == c;
    assert OnlyRecord(c, c', spot);
    hide ProcessIncoming;
    OnlyRecordShows(c, c', spot);
  }

  /** The entry and its slot stay as they are, and no other slot or entry takes its place. */
  ghost predicate Untouched(c: Table, c': Table, spot: Spot) {
    && c'.server == c.server
    && At(c', spot.name).(flags := 0) == At(c, spot.name).(flags := 0)
    && Lookup(c', spot.id) == Lookup(c, spot.id)
    && (forall i :: Lookup(c', i) == Some(spot.name) ==> Lookup(c, i) == Some(spot.name))
    && (forall k :: k in c'.entries && c'.entries[k].id == spot.id ==> k in c.entries && c.entries[k].id == spot.id)
  }

  /** The client has no value for the entry, and its id leads nowhere. */
  ghost predicate Absent(c: Table, spot: Spot) {
    && !c.server && At(c, spot.name).value.None? && spot.id != UNASSIGNED
    && Lookup(c, spot.id).None?
    && (forall i :: Lookup(c, i) != Some(spot.name))
    && (forall k :: k in c.entries ==> c.entries[k].id != spot.id)
  }

  lemma UntouchedKeeps(c: Table, c': Table, spot: Spot)
    requires Untouched(c, c', spot)
    ensures At(c', spot.name).seqNum == At(c, spot.name).seqNum && At(c', spot.name).value == At(c, spot.name).value
    ensures Shows(c, spot) ==> Shows(c', spot)
    ensures Absent(c, spot) ==> Absent(c', spot)
  {
  }

  lemma OtherAssign(c: Table, m: Message, spot: Spot, conn: Conn)
    requires !c.server && spot.id != UNASSIGNED && (forall i :: Lookup(c, i) == Some(spot.name) ==> i == spot.id)
    requires m.EntryAssign? && m.id != spot.id && m.name != spot.name
    ensures Untouched(c, IncomingAssign(c, m, conn).table, spot)
  {
    if m.id != UNASSIGNED {
      var t := c.(idmap := ExtendTo(c.idmap, m.id));
      assert Untouched(c, t, spot);
      if t.idmap[m.id].None? {
        OtherNew(t, m, spot, conn);
      }
    }
  }

  lemma OtherNew(t: Table, m: Message, spot: Spot, conn: Conn)
    requires m.EntryAssign? && m.id < |t.idmap|
    requires m.id != spot.id && m.name != spot.name && spot.id != UNASSIGNED
    ensures Untouched(t, AssignNew(t, m, conn).table, spot)
  {
    hide AssignKnown, OnlyRecord, Untouched;
    var t1 := GetOrNew(t, m.name);
    var t2 := Put(t1.(idmap := t1.idmap[m.id := Some(m.name)]), m.name, t1.entries[m.name].(id := m.id));
    var r := t1.entries[m.name].(id := m.id);
    OtherSlot(t, m, r, spot);
    OtherSlot(t, m, r.(value := Some(m.value), flags := m.flags, seqNum := m.seqNum), spot);
    UntouchedTwice(t, t2, AssignNew(t, m, conn).table, spot);
    if t2.entries[m.name].value.Some? {
      KnownChangesOne(t2, m.name, m, conn, true);
      ChangeElsewhere(t2, AssignKnown(t2, m.name, m, conn, true).table, m.name, spot);
    }
  }

  lemma OtherSlot(t: Table, m: Message, r: Record, spot: Spot)
    requires m.EntryAssign? && m.id < |t.idmap| && r.id == m.id
    requires m.id != spot.id && m.name != spot.name && spot.id != UNASSIGNED
    ensures var t1 := GetOrNew(t, m.name);
            Untouched(t, Put(t1.(idmap := t1.idmap[m.id := Some(m.name)]), m.name, r), spot)
  {
  }

  lemma UntouchedTwice(t: Table, t': Table, t'': Table, spot: Spot)
    requires Untouched(t, t', spot)
    ensures Untouched(t', t'', spot) ==> Untouched(t, t'', spot)
  {
  }

  lemma ChangeElsewhere(t: Table, t': Table, n: Text, spot: Spot)
    requires n != spot.name && OnlyRecord(t, t', Spot(n, 0, 0))
    ensures Untouched(t, t', spot)
  {
    assert forall k :: k in t'.entries ==> At(t', k).id == At(t, k).id;
  }

  lemma KnownChangesOne(t: Table, n: Text, m: Message, conn: Conn, mayNeedUpdate: bool)
    requires m.EntryAssign? && n in t.entries && (mayNeedUpdate ==> t.entries[n].value.Some?)
    ensures OnlyRecord(t, AssignKnown(t, n, m, conn, mayNeedUpdate).table, Spot(n, 0, 0))
  {
  }

  lemma OtherMessage(c: Table, m: Message, spot: Spot, conn: Conn)
    requires Shows(c, spot) && !Writes(m, spot.id) && !m.ClearEntries?
    requires m.EntryAssign? ==> m.name != spot.name
    requires m.EntryDelete? ==> m.id != spot.id
    ensures var c' := ProcessIncoming(c, m, conn).table;
            && Shows(c', spot)
            && At(c', spot.name).seqNum == At(c, spot.name).seqNum && At(c', spot.name).value == At(c, spot.name).value
  {
    if m.EntryAssign? {
      OtherAssign(c, m, spot, conn);
    }
    var c' := ProcessIncoming(c, m, conn).table;
    assert Untouched(c, c', spot);
    UntouchedKeeps(c, c', spot);
  }

  // ---------------------------------------------------------------- a client that does not have the entry yet

  /** Before the first assignment of the id everything about the entry is ignored. */
  lemma AbsentIgnores(c: Table, m: Message, spot: Spot, conn: Conn)
    requires Absent(c, spot) && Paired(m, spot) && !(m.EntryAssign? && m.id == spot.id)
    ensures Absent(ProcessIncoming(c, m, conn).table, spot)
  {
    if m.EntryAssign? {
      OtherAssign(c, m, spot, conn);
    }
    var c' := ProcessIncoming(c, m, conn).table;
    assert Untouched(c, c', spot);
    UntouchedKeeps(c, c', spot);
  }

  lemma AbsentLearns(c: Table, m: Message, spot: Spot, log: Log, conn: Conn)
    requires Absent(c, spot) && Known(m, spot, log) && m.EntryAssign? && m.id == spot.id
    ensures var c' := ProcessIncoming(c, m, conn).table;
            Shows(c', spot) && Holds(c', spot, log) && At(c', spot.name).seqNum == m.seqNum
  {
    var t := c.(idmap := ExtendTo(c.idmap, m.id));
    assert forall i :: Lookup(t, i) == Lookup(c, i);
    var c' := ProcessIncoming(c, m, conn).table;
    assert c' == AssignNew(t, m, conn).table;
    assert forall i :: Lookup(c', i) == if i == m.id then Some(m.name) else Lookup(c, i);
  }

  /** Whatever the order of the messages, the client ends with the furthest of what it has and what it reads. */
  lemma {:induction false} ClientDrains(c: Table, ms: seq<Message>, spot: Spot, log: Log, conn: Conn)
    requires Shows(c, spot) && Holds(c, spot, log) && forall m :: m in ms ==> Known(m, spot, log)
    requires forall s :: s in log ==> Place(spot, s) < HALF
    ensures var c' := Drain(c, ms, conn).table;
            && Shows(c', spot) && Holds(c', spot, log)
            && Place(spot, At(c, spot.name).seqNum) <= Place(spot, At(c', spot.name).seqNum)
            && (forall m :: m in ms && Writes(m, spot.id) ==>
                  Place(spot, m.seqNum) <= Place(spot, At(c', spot.name).seqNum))
            && (|| At(c', spot.name).seqNum == At(c, spot.name).seqNum
                || exists m :: m in ms && Writes(m, spot.id) && m.seqNum == At(c', spot.name).seqNum)
    decreases |ms|
  {
    hide ProcessIncoming, Shows, At, Known, Offset;
    if ms != [] {
      var k := |ms| - 1;
      ClientDrains(c, ms[..k], spot, log, conn);
      ClientTakes(Drain(c, ms[..k], conn).table, ms[k], spot, log, conn);
      assert ms == ms[..k] + [ms[k]];
    }
  }

  lemma KnownIsPaired(m: Message, spot: Spot, log: Log)
    requires Known(m, spot, log)
    ensures Paired(m, spot)
  {
  }

  // ---------------------------------------------------------------- the entry may be deleted

  /** The client shows the entry, or has nothing of it. */
  ghost predicate Sees(c: Table, spot: Spot, shown: bool) {
    if shown then Shows(c, spot) else Absent(c, spot)
  }

  lemma DeletionArrives(c: Table, m: Message, spot: Spot, conn: Conn)
    requires Shows(c, spot) && m.EntryDelete? && m.id == spot.id
    ensures Absent(ProcessIncoming(c, m, conn).table, spot)
  {
    var c' := ProcessIncoming(c, m, conn).table;
    assert c' == Delete(c, spot.name, false).table;
    forall i ensures Lookup(c', i) != Some(spot.name) {
      assert Lookup(c, i) == Some(spot.name) ==> i == spot.id;
    }
  }

  /** The first assignment of the id. */
  predicate FirstAssign(ms: seq<Message>, id: nat, f: nat) {
    && f < |ms| && ms[f].EntryAssign? && ms[f].id == id
    && forall j :: 0 <= j < f ==> !(ms[j].EntryAssign? && ms[j].id == id)
  }

  lemma {:induction false} StaysAbsent(c: Table, ms: seq<Message>, spot: Spot, log: Log, conn: Conn)
    requires Absent(c, spot) && forall m :: m in ms ==> Known(m, spot, log)
    requires forall m :: m in ms ==> !(m.EntryAssign? && m.id == spot.id)
    ensures Absent(Drain(c, ms, conn).table, spot)
    decreases |ms|
  {
    hide ProcessIncoming, Absent, Known;
    if ms != [] {
      var k := |ms| - 1;
      StaysAbsent(c, ms[..k], spot, log, conn);
      assert ms[k] in ms;
      KnownIsPaired(ms[k], spot, log);
      AbsentIgnores(Drain(c, ms[..k], conn).table, ms[k], spot, conn);
    }
  }

  /** A write with this number does not come before the first assignment of the id. */
  predicate ArrivesInTime(ms: seq<Message>, id: nat, s: U16) {
    exists f, k :: 0 <= f <= k < |ms| && FirstAssign(ms, id, f) && Writes(ms[k], id) && ms[k].seqNum == s
  }

  /**
   A client that does not have the entry ends with the value of the furthest number that is known, if and only if a
   write with that number is among what it reads and does not come before the first assignment of the id.
   */
  lemma AbsentEndsAtTopIff(c: Table, ms: seq<Message>, spot: Spot, log: Log, top: U16, conn: Conn)
    requires Absent(c, spot) && forall m :: m in ms ==> Known(m, spot, log)
    requires forall s :: s in log ==> Place(spot, s) < HALF
    requires top in log && forall s :: s in log ==> Place(spot, s) <= Place(spot, top)
    ensures var r := At(Drain(c, ms, conn).table, spot.name);
            r.value == Some(log[top]) && r.seqNum == top <==> ArrivesInTime(ms, spot.id, top)
  {
    hide Drain, Absent, Known, Shows, At, Offset, ProcessIncoming;
    if f: nat :| FirstAssign(ms, spot.id, f) {
      var before, m, after := ms[..f], ms[f], ms[f + 1..];
      assert ms == before + [m] + after;
      StaysAbsent(c, before, spot, log, conn);
      var c1 := Drain(c, before, conn).table;
      var c2 := ProcessIncoming(c1, m, conn).table;
      AbsentLearns(c1, m, spot, log, conn);
      DrainConcat(c, before + [m], after, conn);
      DrainNext(c, before, m, conn);
      ClientDrains(c2, after, spot, log, conn);
      EndsAtTop(c2, Drain(c2, after, conn).table, after, spot, log, top);
      InTimeAfterFirst(ms, spot.id, f, top);
    } else {
      NoFirstAssign(ms, spot.id);
      StaysAbsent(c, ms, spot, log, conn);
      NothingShown(Drain(c, ms, conn).table, spot);
    }
  }

  lemma NothingShown(c: Table, spot: Spot)
    requires Absent(c, spot)
    ensures At(c, spot.name).value.None?
  {
  }

  lemma NoFirstAssign(ms: seq<Message>, id: nat)
    requires forall f: nat :: !FirstAssign(ms, id, f)
    ensures forall m :: m in ms ==> !(m.EntryAssign? && m.id == id)
  {
    forall k: nat | k < |ms| ensures !(ms[k].EntryAssign? && ms[k].id == id) { NotAssigned(ms, id, k); }
  }

  lemma {:induction false} NotAssigned(ms: seq<Message>, id: nat, k: nat)
    requires k < |ms| && forall f: nat :: !FirstAssign(ms, id, f)
    ensures !(ms[k].EntryAssign? && ms[k].id == id)
  {
    forall j: nat | j < k ensures !(ms[j].EntryAssign? && ms[j].id == id) { NotAssigned(ms, id, j); }
    assert !FirstAssign(ms, id, k);
  }

  lemma InTimeAfterFirst(ms: seq<Message>, id: nat, f: nat, s: U16)
    requires FirstAssign(ms, id, f)
    ensures ArrivesInTime(ms, id, s) <==>
            ms[f].seqNum == s || exists m :: m in ms[f + 1..] && Writes(m, id) && m.seqNum == s
  {
    if ArrivesInTime(ms, id, s) {
      var f', k :| 0 <= f' <= k < |ms| && FirstAssign(ms, id, f') && Writes(ms[k], id) && ms[k].seqNum == s;
      assert f' == f;
      if k > f { assert ms[f + 1..][k - f - 1] == ms[k]; }
    }
    if ms[f].seqNum == s {
      assert Writes(ms[f], id);
    } else if exists m :: m in ms[f + 1..] && Writes(m, id) && m.seqNum == s {
      var m :| m in ms[f + 1..] && Writes(m, id) && m.seqNum == s;
      var k :| 0 <= k < |ms[f + 1..]| && ms[f + 1..][k] == m;
      assert Writes(ms[f + 1 + k], id);
    }
  }

  /** The furthest number is reached exactly if it is where the client started or among what it read. */
  lemma EndsAtTop(c: Table, c': Table, ms: seq<Message>, spot: Spot, log: Log, top: U16)
    requires Holds(c, spot, log) && Holds(c', spot, log)
    requires top in log && forall s :: s in log ==> Place(spot, s) <= Place(spot, top)
    requires Place(spot, At(c, spot.name).seqNum) <= Place(spot, At(c', spot.name).seqNum)
    requires forall m :: m in ms && Writes(m, spot.id) ==>
              Place(spot, m.seqNum) <= Place(spot, At(c', spot.name).seqNum)
    requires || At(c', spot.name).seqNum == At(c, spot.name).seqNum
             || exists m :: m in ms && Writes(m, spot.id) && m.seqNum == At(c', spot.name).seqNum
    ensures At(c', spot.name).value == Some(log[top]) && At(c', spot.name).seqNum == top
            <==> At(c, spot.name).seqNum == top || exists m :: m in ms && Writes(m, spot.id) && m.seqNum == top
  {
    SameOffset(spot.base, At(c', spot.name).seqNum, top);
  }

  /** A client that shows the entry ends with the furthest value if and only if it has it, or reads a write of it. */
  lemma ShownEndsAtTopIff(c: Table, ms: seq<Message>, spot: Spot, log: Log, top: U16, conn: Conn)
    requires Shows(c, spot) && Holds(c, spot, log) && forall m :: m in ms ==> Known(m, spot, log)
    requires forall s :: s in log ==> Place(spot, s) < HALF
    requires top in log && forall s :: s in log ==> Place(spot, s) <= Place(spot, top)
    ensures var r := At(Drain(c, ms, conn).table, spot.name);
            r.value == Some(log[top]) && r.seqNum == top
            <==> At(c, spot.name).seqNum == top || exists m :: m in ms && Writes(m, spot.id) && m.seqNum == top
  {
    hide Drain, Shows, Known, At, Offset;
    ClientDrains(c, ms, spot, log, conn);
    EndsAtTop(c, Drain(c, ms, conn).table, ms, spot, log, top);
  }
}
