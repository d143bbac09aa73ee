/** The two halves of the handshake that a storage performs. */
module HandshakeSpec {
  import opened Wrappers
  import opened Serial
  import opened Protocol
  import opened StorageSpec

  function AssignOf(n: Text, r: Record): Message
    requires r.value.Some?
  {
    EntryAssign(n, r.id, r.seqNum, r.value.value, r.flags)
  }

  /** `getInitialAssignments`: the live entries, in the order of the entry dictionary. */
  function Snapshot(t: Table, names: seq<Text>): seq<Message> {
    if names == [] then []
    else
      var n := names[|names| - 1];
      Snapshot(t, names[..|names| - 1]) + (if At(t, n).value.Some? then [AssignOf(n, At(t, n))] else [])
  }

  /** A local write to an entry that is not persistent outlives the server's value. */
  predicate Keeps(r: Record) {
    r.value.Some? && r.localWrite && !Persistent(r.flags)
  }

  function ForgetIds(t: Table): Table {
    t.(entries := map n | n in t.entries :: t.entries[n].(id := UNASSIGNED), idmap := [])
  }

  /** What the record of a client becomes when the server's assignment of it arrives. */
  function Initialised(r: Record, m: Message, conn: Conn): Record
    requires m.EntryAssign?
  {
    if r.value.None? then
      r.(value := Some(m.value), flags := m.flags, id := m.id, seqNum := m.seqNum)
    else if Keeps(r) then
      r.(id := m.id, seqNum := Increment(m.seqNum))
    else
      r.(value := Some(m.value), flags := if conn.protoRev >= PROTO_3 then m.flags else r.flags,
         id := m.id, seqNum := m.seqNum)
  }

  function ApplyInitialOne(t: Table, m: Message, conn: Conn): Effect {
    if !m.EntryAssign? || m.id == UNASSIGNED then Effect(t, [])
    else
      var t' := GetOrNew(t, m.name);
      var was := t'.entries[m.name];
      var r := Initialised(was, m, conn);
      Effect(Put(t'.(idmap := ExtendTo(t'.idmap, m.id)[m.id := Some(m.name)]), m.name, r),
             if Keeps(was) then ToAll(EntryUpdate(r.id, r.seqNum, r.value.value)) else [])
  }

  function ApplyInitialAll(t: Table, ms: seq<Message>, conn: Conn): Effect {
    if ms == [] then Effect(t, [])
    else
      var e := ApplyInitialAll(t, ms[..|ms| - 1], conn);
      var e' := ApplyInitialOne(e.table, ms[|ms| - 1], conn);
      Effect(e'.table, e.out + e'.out)
  }

  predicate Unnumbered(r: Record) {
    r.value.Some? && r.id == UNASSIGNED
  }

  /** The entries that the server does not know but the client has written. */
  function Requests(t: Table, names: seq<Text>): seq<Message> {
    if names == [] then []
    else
      var r := At(t, names[|names| - 1]);
      Requests(t, names[..|names| - 1])
      + (if Unnumbered(r) && r.localWrite then [AssignOf(names[|names| - 1], r)] else [])
  }

  function Forgotten(t: Table): set<Text> {
    set n | n in t.entries && Unnumbered(t.entries[n]) && !t.entries[n].localWrite
  }

  /** `updates` go through the queue of the connection, `assigns` are sent at once. */
  datatype Initial = Initial(table: Table, updates: seq<Outgoing>, assigns: seq<Message>)

  function ApplyInitial(t: Table, ms: seq<Message>, conn: Conn): Initial {
    if t.server then Initial(t, [], [])
    else
      var e := ApplyInitialAll(ForgetIds(t), ms, conn);
      Initial(DeleteNames(e.table, Forgotten(e.table)), e.out, Requests(e.table, e.table.localmap))
  }

  // ---------------------------------------------------------------- loops over the entries, round by round

  /** The ids of some entries are forgotten. */
  function ForgetIdsOf(t: Table, names: set<Text>): Table {
    t.(entries := map n | n in t.entries :: if n in names then t.entries[n].(id := UNASSIGNED) else t.entries[n])
  }

  lemma ForgetNext(t: Table, names: set<Text>, n: Text)
    requires n in t.entries && n !in names
    ensures ForgetIdsOf(t, {}) == t
    ensures var t' := ForgetIdsOf(t, names);
            && n in t'.entries && t'.entries[n] == t.entries[n]
            && ForgetIdsOf(t, names + {n}) == Put(t', n, t.entries[n].(id := UNASSIGNED))
  {
  }

  lemma ForgetAll(t: Table, names: set<Text>)
    requires forall n :: n in t.entries ==> n in names
    ensures ForgetIdsOf(t, names).(idmap := []) == ForgetIds(t)
    ensures ForgetIdsOf(t, {}) == t
  {
  }

  lemma RequestsNext(t: Table, i: nat)
    requires i < |t.localmap|
    ensures var n := t.localmap[i];
            Requests(t, t.localmap[..i + 1])
            == Requests(t, t.localmap[..i])
               + (if Unnumbered(At(t, n)) && At(t, n).localWrite then [AssignOf(n, At(t, n))] else [])
  {
    assert t.localmap[..i + 1][..i] == t.localmap[..i];
  }

  lemma SnapshotNext(t: Table, i: nat)
    requires i < |t.localmap|
    ensures var n := t.localmap[i];
            Snapshot(t, t.localmap[..i + 1])
            == Snapshot(t, t.localmap[..i]) + (if At(t, n).value.Some? then [AssignOf(n, At(t, n))] else [])
  {
    assert t.localmap[..i + 1][..i] == t.localmap[..i];
  }

  // ---------------------------------------------------------------- nothing is said twice

  function NamesIn(ms: seq<Message>): seq<Text> {
    if ms == [] then []
    else NamesIn(ms[..|ms| - 1]) + (if ms[|ms| - 1].EntryAssign? then [ms[|ms| - 1].name] else [])
  }

  lemma NamesNext(ms: seq<Message>, m: Message)
    requires m.EntryAssign?
    ensures NamesIn(ms + [m]) == NamesIn(ms) + [m.name]
  {
    assert (ms + [m])[..|ms|] == ms;
  }

  /** The server lists every live entry with all its fields, in the order of the names, and none more than once. */
  lemma {:induction false} SnapshotLists(t: Table, names: seq<Text>, m: Message)
    ensures m in Snapshot(t, names) <==> exists n :: n in names && At(t, n).value.Some? && m == AssignOf(n, At(t, n))
    ensures Subsequence(NamesIn(Snapshot(t, names)), names)
    decreases |names|
  {
    hide Subsequence, NamesIn, At;
    if names == [] {
      NothingListed();
    } else {
      var k, n := |names| - 1, names[|names| - 1];
      assert names == names[..k] + [n];
      SnapshotLists(t, names[..k], m);
      SubsequenceMore(NamesIn(Snapshot(t, names[..k])), names);
      assert Snapshot(t, names[..k]) + [] == Snapshot(t, names[..k]);
      if At(t, n).value.Some? { NamesNext(Snapshot(t, names[..k]), AssignOf(n, At(t, n))); }
    }
  }

  lemma NothingListed()
    ensures NamesIn([]) == [] && Subsequence<Text>([], [])
  {
  }

  /** And a client asks in the order of the names, and for none more often than these. */
  lemma {:induction false} RequestsAsk(t: Table, names: seq<Text>)
    ensures Subsequence(NamesIn(Requests(t, names)), names)
    decreases |names|
  {
    hide Subsequence, NamesIn, At;
    if names == [] {
      NothingListed();
    } else {
      var k, n := |names| - 1, names[|names| - 1];
      RequestsAsk(t, names[..k]);
      SubsequenceMore(NamesIn(Requests(t, names[..k])), names);
      assert Requests(t, names[..k]) + [] == Requests(t, names[..k]);
      if At(t, n).value.Some? { NamesNext(Requests(t, names[..k]), AssignOf(n, At(t, n))); }
    }
  }
}
