/**
 What each operation of `Storage` does, as a function from a table to the new table and the messages
 it sends. The class `Storage.Storage` updates objects in place and is proved against these functions.
 */
module StorageSpec {
  import opened Wrappers
  import opened Serial
  import opened Protocol

  /** The networked fields of one `_Entry`. */
  datatype Record = Record(value: Option<Value>, flags: int, id: nat, seqNum: U16, localWrite: bool)

  const BLANK := Record(None, 0, UNASSIGNED, 0, false)

  /**
   One storage: the entries by name, the names by network id, and the names by local handle.
   `localmap` is also the order in which the source's dictionary of entries is iterated.
   */
  datatype Table = Table(
    server: bool,
    entries: map<Text, Record>,
    idmap: seq<Option<Text>>,
    localmap: seq<Text>,
    dirty: bool)

  datatype Conn = Conn(uid: nat, protoRev: nat)

  /** A message for every connection but `except`. */
  datatype Outgoing = Outgoing(msg: Message, except: Option<Conn>)

  datatype Effect = Effect(table: Table, out: seq<Outgoing>)

  function ToAll(m: Message): seq<Outgoing> {
    [Outgoing(m, None)]
  }

  function Empty(): Table {
    Table(true, map[], [], [], false)
  }

  function EmptyClient(): Table {
    Empty().(server := false)
  }

  /** The record of a name; a name without an entry has a blank one. */
  function At(t: Table, n: Text): Record {
    if n in t.entries then t.entries[n] else BLANK
  }

  function Put(t: Table, n: Text, r: Record): Table {
    t.(entries := t.entries[n := r])
  }

  /** Handles never change: old ones keep their names, entries and slots are never dropped. */
  predicate Extends(t: Table, t': Table) {
    && t'.server == t.server
    && t.localmap <= t'.localmap
    && t.entries.Keys <= t'.entries.Keys
    && |t.idmap| <= |t'.idmap|
  }

  function GetOrNew(t: Table, n: Text): (t': Table)
    ensures Extends(t, t') && n in t'.entries
  {
    if n in t.entries then t else Put(t.(localmap := t.localmap + [n]), n, BLANK)
  }

  /** The entry of a network id. */
  function Lookup(t: Table, id: nat): Option<Text> {
    if id < |t.idmap| then t.idmap[id] else None
  }

  // ---------------------------------------------------------------- single entries

  /** A server numbers an entry when it gets its first value. */
  predicate NeedsId(t: Table, was: Record) {
    t.server && was.id == UNASSIGNED
  }

  /** The record after a value is set: a server hands out the next id, a local change counts as a write. */
  function Written(t: Table, was: Record, v: Value, local: bool): Record {
    Record(Some(v), was.flags,
           if NeedsId(t, was) then |t.idmap| else was.id,
           if local && was.value != Some(v) then Increment(was.seqNum) else was.seqNum,
           was.localWrite || local)
  }

  /** The message that tells of the change: an assignment for a new entry or a new type, else an update. */
  function ChangeMessage(t: Table, n: Text, was: Record, r: Record, v: Value, local: bool): seq<Outgoing> {
    if (!local && !t.server) || was.value == Some(v) then []
    else if was.value.None? || was.value.value.Type() != v.Type() then
      ToAll(EntryAssign(n, r.id, r.seqNum, v, r.flags))
    else if r.id != UNASSIGNED then ToAll(EntryUpdate(r.id, r.seqNum, v))
    else []
  }

  function SetValue(t: Table, n: Text, v: Value, local: bool): (e: Effect)
    requires n in t.entries
    ensures Extends(t, e.table)
  {
    var was := t.entries[n];
    var r := Written(t, was, v, local);
    var t' := t.(idmap := if NeedsId(t, was) then t.idmap + [Some(n)] else t.idmap,
                 dirty := t.dirty || (Persistent(was.flags) && was.value != Some(v)));
    Effect(Put(t', n, r), ChangeMessage(t, n, was, r, v, local))
  }

  function SetFlags(t: Table, n: Text, flags: int, local: bool): (e: Effect)
    requires n in t.entries
    ensures Extends(t, e.table)
  {
    var r := t.entries[n];
    if r.value.None? || r.flags == flags then
      Effect(t, [])
    else
      var t' := t.(dirty := t.dirty || Persistent(r.flags) != Persistent(flags));
      Effect(Put(t', n, r.(flags := flags)),
             if local && r.id != UNASSIGNED then ToAll(FlagsUpdate(r.id, flags)) else [])
  }

  function Delete(t: Table, n: Text, local: bool): (e: Effect)
    requires n in t.entries
    ensures Extends(t, e.table)
  {
    var r := t.entries[n];
    var t' := t.(idmap := if r.id < |t.idmap| then t.idmap[r.id := None] else t.idmap,
                 dirty := t.dirty || Persistent(r.flags));
    Effect(Put(t', n, Record(None, 0, UNASSIGNED, r.seqNum, false)),
           if r.value.Some? && local && r.id != UNASSIGNED then ToAll(EntryDelete(r.id)) else [])
  }

  // ---------------------------------------------------------------- bulk deletion

  /** Bulk deletion keeps the flags and the sequence number of what it deletes. */
  function Emptied(r: Record): Record {
    r.(value := None, id := UNASSIGNED, localWrite := false)
  }

  function DeleteNames(t: Table, doomed: set<Text>): (t': Table)
    ensures Extends(t, t')
  {
    var ids := set n | n in doomed && n in t.entries :: t.entries[n].id;
    t.(entries := map n | n in t.entries :: if n in doomed then Emptied(t.entries[n]) else t.entries[n],
       idmap := seq(|t.idmap|, i requires 0 <= i < |t.idmap| => if i in ids then None else t.idmap[i]))
  }

  /** What `_deleteAllEntriesImpl` deletes by default. */
  function Unprotected(t: Table): set<Text> {
    set n | n in t.entries && t.entries[n].value.Some? && !Persistent(t.entries[n].flags)
  }

  // ---------------------------------------------------------------- local operations

  function SetEntryValue(t: Table, n: Text, v: Value): (e: Effect)
    ensures Extends(t, e.table)
  {
    if n == [] then Effect(t, [])
    else
      var t' := GetOrNew(t, n);
      if t'.entries[n].value.Some? && t'.entries[n].value.value.Type() != v.Type() then Effect(t', [])
      else SetValue(t', n, v, true)
  }

  function SetEntryTypeValue(t: Table, n: Text, v: Value): (e: Effect)
    ensures Extends(t, e.table)
  {
    if n == [] then Effect(t, []) else SetValue(GetOrNew(t, n), n, v, true)
  }

  function SetDefaultEntryValue(t: Table, n: Text, v: Value): (e: Effect)
    ensures Extends(t, e.table)
  {
    if n == [] then Effect(t, [])
    else
      var t' := GetOrNew(t, n);
      if t'.entries[n].value.Some? then Effect(t', []) else SetValue(t', n, v, true)
  }

  function SetEntryFlags(t: Table, n: Text, flags: int): (e: Effect)
    ensures Extends(t, e.table)
  {
    if n == [] || n !in t.entries then Effect(t, []) else SetFlags(t, n, flags, true)
  }

  function DeleteEntry(t: Table, n: Text): (e: Effect)
    ensures Extends(t, e.table)
  {
    if n == [] || n !in t.entries then Effect(t, []) else Delete(t, n, true)
  }

  function DeleteAllEntries(t: Table): (e: Effect)
    ensures Extends(t, e.table)
  {
    var doomed := Unprotected(t);
    Effect(DeleteNames(t, doomed), if doomed != {} then ToAll(ClearEntries) else [])
  }

  // ---------------------------------------------------------------- incoming messages

  /** The part of `_processIncomingEntryAssign` that server and client share. */
  function AssignKnown(t: Table, n: Text, m: Message, conn: Conn, mayNeedUpdate: bool): (e: Effect)
    requires m.EntryAssign? && n in t.entries
    requires mayNeedUpdate ==> t.entries[n].value.Some?
    ensures Extends(t, e.table)
  {
    var r := t.entries[n];
    if Newer(r.seqNum, m.seqNum) then
      Effect(t, if mayNeedUpdate then ToAll(EntryUpdate(r.id, r.seqNum, r.value.value)) else [])
    else if m.name != n then
      Effect(t, [])
    else
      var takeFlags := !mayNeedUpdate && conn.protoRev >= PROTO_3;
      var flags := if takeFlags then m.flags else r.flags;
      var dirty := t.dirty
                   || (takeFlags && Persistent(r.flags) != Persistent(m.flags))
                   || (Persistent(flags) && r.value != Some(m.value));
      Effect(Put(t.(dirty := dirty), n, r.(value := Some(m.value), flags := flags, seqNum := m.seqNum)),
             if t.server then [Outgoing(EntryAssign(n, m.id, m.seqNum, m.value, flags), Some(conn))] else [])
  }

  /** A request for an id, on the server. */
  function AssignRequest(t: Table, m: Message): (e: Effect)
    requires m.EntryAssign?
    ensures Extends(t, e.table)
  {
    var t' := GetOrNew(t, m.name);
    var r := t'.entries[m.name];
    if r.id != UNASSIGNED then Effect(t', [])
    else SetValue(Put(t', m.name, r.(flags := m.flags, seqNum := m.seqNum)), m.name, m.value, false)
  }

  function ExtendTo(idmap: seq<Option<Text>>, id: nat): seq<Option<Text>> {
    if id < |idmap| then idmap else idmap + seq(id - |idmap| + 1, _ => None)
  }

  /** An assignment to an empty slot, on a client. */
  function AssignNew(t: Table, m: Message, conn: Conn): (e: Effect)
    requires m.EntryAssign? && m.id < |t.idmap|
    ensures Extends(t, e.table)
  {
    var t1 := GetOrNew(t, m.name);
    var r := t1.entries[m.name].(id := m.id);
    var t2 := t1.(idmap := t1.idmap[m.id := Some(m.name)]);
    if r.value.None? then
      Effect(Put(t2, m.name, r.(value := Some(m.value), flags := m.flags, seqNum := m.seqNum)), [])
    else
      var rest := AssignKnown(Put(t2, m.name, r), m.name, m, conn, true);
      Effect(rest.table,
             (if m.flags != r.flags then ToAll(FlagsUpdate(m.id, r.flags)) else []) + rest.out)
  }

  function IncomingAssign(t: Table, m: Message, conn: Conn): (e: Effect)
    requires m.EntryAssign?
    ensures Extends(t, e.table)
  {
    if t.server then
      if m.id == UNASSIGNED then AssignRequest(t, m)
      else
        match Lookup(t, m.id)
        case None => Effect(t, [])
        case Some(n) => if n in t.entries then AssignKnown(t, n, m, conn, false) else Effect(t, [])
    else if m.id == UNASSIGNED then
      Effect(t, [])
    else
      var t' := t.(idmap := ExtendTo(t.idmap, m.id));
      match t'.idmap[m.id]
      case None => AssignNew(t', m, conn)
      case Some(n) => if n in t.entries then AssignKnown(t', n, m, conn, false) else Effect(t', [])
  }

  function Relay(t: Table, m: Message, conn: Conn): seq<Outgoing> {
    if t.server then [Outgoing(m, Some(conn))] else []
  }

  function IncomingUpdate(t: Table, n: Text, m: Message, conn: Conn): (e: Effect)
    requires m.EntryUpdate? && n in t.entries
    ensures Extends(t, e.table)
  {
    var r := t.entries[n];
    if NewerOrEqual(r.seqNum, m.seqNum) then Effect(t, [])
    else
      Effect(Put(t.(dirty := t.dirty || Persistent(r.flags)), n, r.(value := Some(m.value), seqNum := m.seqNum)),
             Relay(t, m, conn))
  }

  function ProcessIncoming(t: Table, m: Message, conn: Conn): (e: Effect)
    ensures Extends(t, e.table)
    ensures forall o :: o in e.out ==> o.except == None || o.except == Some(conn)
  {
    match m
    case EntryAssign(_, _, _, _, _) => IncomingAssign(t, m, conn)
    case EntryUpdate(id, _, _) =>
      var n := Lookup(t, id);
      if n.None? || n.value !in t.entries then Effect(t, []) else IncomingUpdate(t, n.value, m, conn)
    case FlagsUpdate(id, flags) =>
      var n := Lookup(t, id);
      if n.None? || n.value !in t.entries then Effect(t, [])
      else Effect(SetFlags(t, n.value, flags, false).table, Relay(t, m, conn))
    case EntryDelete(id) =>
      var n := Lookup(t, id);
      if n.None? || n.value !in t.entries then Effect(t, [])
      else Effect(Delete(t, n.value, false).table, Relay(t, m, conn))
    case ClearEntries => Effect(DeleteNames(t, Unprotected(t)), Relay(t, m, conn))
    case _ => Effect(t, [])
  }

  // ---------------------------------------------------------------- file loads

  /** One entry of `_loadEntries`. The sequence number advances even if no message is sent. */
  function LoadOne(t: Table, n: Text, v: Value, persistent: bool): (e: Effect)
    ensures Extends(t, e.table)
  {
    var t' := GetOrNew(t, n);
    var was := t'.entries[n];
    var marks := persistent && !Persistent(was.flags);
    var r := Record(Some(v), if marks then was.flags + 1 else was.flags,
                    if NeedsId(t', was) then |t'.idmap| else was.id, Increment(was.seqNum), was.localWrite);
    Effect(Put(t'.(idmap := if NeedsId(t', was) then t'.idmap + [Some(n)] else t'.idmap), n, r),
           if was.value.None? || was.value.value.Type() != v.Type()
               then ToAll(EntryAssign(n, r.id, r.seqNum, v, r.flags))
           else if r.id == UNASSIGNED then []
           else (if was.value.value != v then ToAll(EntryUpdate(r.id, r.seqNum, v)) else [])
                + (if marks then ToAll(FlagsUpdate(r.id, r.flags)) else []))
  }

  function LoadAll(t: Table, loaded: seq<(Text, Value)>, persistent: bool): (e: Effect)
    ensures Extends(t, e.table)
  {
    if loaded == [] then Effect(t, [])
    else
      var e := LoadAll(t, loaded[..|loaded| - 1], persistent);
      var last := loaded[|loaded| - 1];
      var e' := LoadOne(e.table, last.0, last.1, persistent);
      Effect(e'.table, e.out + e'.out)
  }

  // ---------------------------------------------------------------- operations as data

  datatype Op =
    | Set(name: Text, value: Value)
    | ForceSet(name: Text, value: Value)
    | SetDefault(name: Text, value: Value)
    | ChangeFlags(name: Text, flags: int)
    | Remove(name: Text)
    | RemoveAll
    | Incoming(msg: Message, conn: Conn)

  function Step(t: Table, op: Op): (e: Effect)
    ensures Extends(t, e.table)
    ensures forall o :: o in e.out ==> o.except == None || (op.Incoming? && o.except == Some(op.conn))
  {
    match op
    case Set(n, v) => SetEntryValue(t, n, v)
    case ForceSet(n, v) => SetEntryTypeValue(t, n, v)
    case SetDefault(n, v) => SetDefaultEntryValue(t, n, v)
    case ChangeFlags(n, f) => SetEntryFlags(t, n, f)
    case Remove(n) => DeleteEntry(t, n)
    case RemoveAll => DeleteAllEntries(t)
    case Incoming(m, conn) => ProcessIncoming(t, m, conn)
  }
}
