/** After the handshake two storages hold the same values, namely a merge of what they held before. */
module Handshake {
  import opened Wrappers
  import opened Serial
  import opened Protocol
  import opened StorageSpec
  import opened Index
  import opened Replication
  import opened Network
  import opened HandshakeSpec

  /** Ids and slots belong together, in both directions. */
  ghost predicate Linked(t: Table) {
    && |t.idmap| <= UNASSIGNED
    && (forall i {:trigger Lookup(t, i)} :: Lookup(t, i).Some? ==> At(t, Lookup(t, i).value).id == i)
    && (forall n {:trigger At(t, n)} :: At(t, n).id != UNASSIGNED ==> Lookup(t, At(t, n).id) == Some(n))
  }

  lemma SettledIsLinked(t: Table)
    requires Settled(t)
    ensures Linked(t) && Handles(t)
    ensures forall n :: At(t, n).value.Some? <==> At(t, n).id != UNASSIGNED
    ensures forall n :: At(t, n).localWrite ==> At(t, n).value.Some?
  {
    forall i | Lookup(t, i).Some? ensures At(t, Lookup(t, i).value).id == i { SlotGives(t, i); }
    forall n ensures (At(t, n).value.Some? <==> At(t, n).id != UNASSIGNED)
                     && (At(t, n).localWrite ==> At(t, n).value.Some?)
                     && (At(t, n).id != UNASSIGNED ==> Lookup(t, At(t, n).id) == Some(n))
    {
      if n in t.entries { assert RecordOk(t, n) && RecordExact(t, n); }
    }
  }

  /** A free slot goes to an entry that has none. */
  lemma LinkOne(t: Table, n: Text, r: Record)
    requires Linked(t) && At(t, n).id == UNASSIGNED && r.id < UNASSIGNED && Lookup(t, r.id).None?
    ensures Linked(Put(GetOrNew(t, n).(idmap := ExtendTo(t.idmap, r.id)[r.id := Some(n)]), n, r))
  {
    var t' := Put(GetOrNew(t, n).(idmap := ExtendTo(t.idmap, r.id)[r.id := Some(n)]), n, r);
    forall i ensures Lookup(t', i) == if i == r.id then Some(n) else Lookup(t, i) {}
    forall k ensures At(t', k) == if k == n then r else At(t, k) {}
  }

  // ---------------------------------------------------------------- the client takes over the snapshot

  predicate Distinct(names: seq<Text>) {
    forall i, j :: 0 <= i < j < |names| ==> names[i] != names[j]
  }

  /** A client before the handshake; the ids it holds do not matter. */
  predicate ClientOk(c: Table) {
    && !c.server && Handles(c)
    && (forall n :: n in c.entries && c.entries[n].localWrite ==> c.entries[n].value.Some?)
  }

  function Reset(c: Table, n: Text): Record {
    At(c, n).(id := UNASSIGNED)
  }

  /** The client's record once the snapshot of these names has been applied. */
  function Expected(s: Table, c: Table, names: seq<Text>, n: Text, conn: Conn): Record {
    if n in names && At(s, n).value.Some? then Initialised(Reset(c, n), AssignOf(n, At(s, n)), conn) else Reset(c, n)
  }

  predicate Updating(s: Table, c: Table, n: Text) {
    At(s, n).value.Some? && Keeps(At(c, n))
  }

  /** The updates that the client sends back. */
  function Updates(s: Table, c: Table, names: seq<Text>): seq<Message> {
    if names == [] then []
    else
      var n := names[|names| - 1];
      Updates(s, c, names[..|names| - 1])
      + (if Updating(s, c, n) then [EntryUpdate(At(s, n).id, Increment(At(s, n).seqNum), At(c, n).value.value)] else [])
  }

  ghost predicate Applied(s: Table, c: Table, names: seq<Text>, e: Effect, conn: Conn) {
    && Handles(e.table) && !e.table.server && Linked(e.table)
    && (forall n {:trigger At(e.table, n)} :: At(e.table, n) == Expected(s, c, names, n, conn))
    && Messages(e.out) == Updates(s, c, names)
    && (forall o :: o in e.out ==> o.except == None)
  }

  lemma MessagesConcat(xs: seq<Outgoing>, ys: seq<Outgoing>)
    ensures Messages(xs + ys) == Messages(xs) + Messages(ys)
  {
  }

  lemma {:induction false} SnapshotApplied(s: Table, c: Table, names: seq<Text>, conn: Conn)
    requires Settled(s) && ClientOk(c) && Distinct(names)
    ensures Applied(s, c, names, ApplyInitialAll(ForgetIds(c), Snapshot(s, names), conn), conn)
    decreases |names|
  {
    if names == [] {
      var t := ForgetIds(c);
      forall n ensures At(t, n) == Expected(s, c, names, n, conn) {}
    } else {
      var k := |names| - 1;
      SnapshotApplied(s, c, names[..k], conn);
      var e := ApplyInitialAll(ForgetIds(c), Snapshot(s, names[..k]), conn);
      var n := names[k];
      assert n !in names[..k];
      hide ApplyInitialAll, Settled, ForgetIds, ClientOk, Linked, Handles;
      assert names[..k] + [n] == names;
      if At(s, n).value.Some? {
        NextApplied(s, c, names[..k], n, e, conn);
        hide Applied;
        assert Snapshot(s, names) == Snapshot(s, names[..k]) + [AssignOf(n, At(s, n))];
        ApplyNext(ForgetIds(c), Snapshot(s, names[..k]), AssignOf(n, At(s, n)), conn);
      } else {
        assert Snapshot(s, names) == Snapshot(s, names[..k]);
        SkipApplied(s, c, names[..k], n, e, conn);
      }
    }
  }

  lemma SkipApplied(s: Table, c: Table, names: seq<Text>, n: Text, e: Effect, conn: Conn)
    requires Applied(s, c, names, e, conn) && At(s, n).value.None?
    ensures Applied(s, c, names + [n], e, conn)
  {
    assert (names + [n])[..|names|] == names;
    assert Updates(s, c, names + [n]) == Updates(s, c, names);
    forall j ensures Expected(s, c, names + [n], j, conn) == Expected(s, c, names, j, conn) {
      assert j in names + [n] <==> j in names || j == n;
    }
  }

  lemma ApplyNext(t: Table, ms: seq<Message>, m: Message, conn: Conn)
    ensures var e := ApplyInitialAll(t, ms, conn);
            var e' := ApplyInitialOne(e.table, m, conn);
            ApplyInitialAll(t, ms + [m], conn) == Effect(e'.table, e.out + e'.out)
  {
    assert (ms + [m])[..|ms|] == ms;
  }

  /** An id of the server's belongs to one name. */
  lemma IdsDiffer(s: Table, n: Text, k: Text)
    requires Settled(s) && At(s, n).value.Some? && At(s, k).value.Some? && n != k
    ensures At(s, n).id != At(s, k).id && At(s, n).id < UNASSIGNED
  {
    assert RecordOk(s, n) && RecordExact(s, n) && RecordOk(s, k);
  }

  /** The slot of the next assignment has not been taken. */
  lemma SlotIsFree(s: Table, c: Table, names: seq<Text>, n: Text, e: Effect, conn: Conn)
    requires Settled(s) && n !in names && At(s, n).value.Some? && Applied(s, c, names, e, conn)
    ensures Lookup(e.table, At(s, n).id).None? && At(s, n).id < UNASSIGNED
  {
    assert RecordOk(s, n) && RecordExact(s, n);
    var slot := Lookup(e.table, At(s, n).id);
    if slot.Some? {
      assert At(e.table, slot.value) == Expected(s, c, names, slot.value, conn);
      assert At(s, slot.value).value.Some? && slot.value != n;
      IdsDiffer(s, n, slot.value);
    }
  }

  lemma ApplyOneFrame(t: Table, m: Message, conn: Conn)
    requires Handles(t) && m.EntryAssign? && m.id != UNASSIGNED
    ensures var t', n, was := ApplyInitialOne(t, m, conn).table, m.name, At(t, m.name);
            var r := Initialised(was, m, conn);
            && t' == Put(GetOrNew(t, n).(idmap := ExtendTo(t.idmap, m.id)[m.id := Some(n)]), n, r)
            && Handles(t')
            && (forall j :: At(t', j) == if j == n then r else At(t, j))
            && ApplyInitialOne(t, m, conn).out
               == if Keeps(was) then ToAll(EntryUpdate(m.id, Increment(m.seqNum), was.value.value)) else []
  {
  }

  lemma NextApplied(s: Table, c: Table, names: seq<Text>, n: Text, e: Effect, conn: Conn)
    requires Settled(s) && ClientOk(c) && n !in names && At(s, n).value.Some?
    requires Applied(s, c, names, e, conn)
    ensures var e' := ApplyInitialOne(e.table, AssignOf(n, At(s, n)), conn);
            Applied(s, c, names + [n], Effect(e'.table, e.out + e'.out), conn)
  {
    hide Settled, Handles, Linked, Lookup, ExtendTo, ApplyInitialOne, GetOrNew, At, ClientOk;
    SlotIsFree(s, c, names, n, e, conn);
    var m := AssignOf(n, At(s, n));
    var t := e.table;
    assert At(t, n) == Expected(s, c, names, n, conn) == Reset(c, n);
    ApplyOneFrame(t, m, conn);
    LinkOne(t, n, Initialised(At(t, n), m, conn));
    var e' := ApplyInitialOne(t, m, conn);
    MessagesConcat(e.out, e'.out);
    assert (names + [n])[..|names|] == names;
    ExpectedNext(s, c, names, n, t, e'.table, conn);
  }

  lemma ExpectedNext(s: Table, c: Table, names: seq<Text>, n: Text, t: Table, t': Table, conn: Conn)
    requires n !in names && At(s, n).value.Some?
    requires forall j {:trigger At(t, j)} :: At(t, j) == Expected(s, c, names, j, conn)
    requires forall j :: At(t', j) == if j == n then Initialised(At(t, n), AssignOf(n, At(s, n)), conn) else At(t, j)
    ensures forall j {:trigger At(t', j)} :: At(t', j) == Expected(s, c, names + [n], j, conn)
  {
    forall j ensures At(t', j) == Expected(s, c, names + [n], j, conn) {
      assert At(t, j) == Expected(s, c, names, j, conn);
      assert j in names + [n] <==> j in names || j == n;
    }
  }

  // ---------------------------------------------------------------- what the client knows alone

  /** The client asks the server to create this entry. */
  predicate Wanted(s: Table, c: Table, n: Text) {
    At(s, n).value.None? && At(c, n).localWrite
  }

  function Request(c: Table, n: Text): Message
    requires At(c, n).value.Some?
  {
    AssignOf(n, Reset(c, n))
  }

  /** The requests for the wanted ones among some names. */
  function RequestsOf(s: Table, c: Table, names: seq<Text>): seq<Message>
    requires ClientOk(c)
  {
    if names == [] then []
    else
      var n := names[|names| - 1];
      RequestsOf(s, c, names[..|names| - 1]) + (if Wanted(s, c, n) then [Request(c, n)] else [])
  }

  /** The client's record after its half of the handshake. */
  function AfterInitial(s: Table, c: Table, n: Text, conn: Conn): Record {
    if At(s, n).value.Some? then Initialised(Reset(c, n), AssignOf(n, At(s, n)), conn)
    else if At(c, n).localWrite then Reset(c, n)
    else Emptied(At(c, n))
  }

  lemma {:induction false} RequestsAreWanted(s: Table, c: Table, t: Table, names: seq<Text>, conn: Conn)
    requires Settled(s) && ClientOk(c)
    requires forall n {:trigger At(t, n)} :: At(t, n) == Expected(s, c, s.localmap, n, conn)
    ensures Requests(t, names) == RequestsOf(s, c, names)
    decreases |names|
  {
    if names != [] {
      var n := names[|names| - 1];
      RequestsAreWanted(s, c, t, names[..|names| - 1], conn);
      assert At(t, n) == Expected(s, c, s.localmap, n, conn);
      LiveHasId(s, n);
      hide Settled;
    }
  }

  lemma LiveHasId(s: Table, n: Text)
    requires Settled(s)
    ensures At(s, n).value.Some? ==> At(s, n).id < |s.idmap| && At(s, n).id != UNASSIGNED && n in s.localmap
    ensures At(s, n).value.None? ==> At(s, n).id == UNASSIGNED && !At(s, n).localWrite
  {
    if n in s.entries { assert RecordOk(s, n) && RecordExact(s, n); }
  }

  /** Deleting entries without ids leaves the slots alone. */
  lemma DeleteUnnumbered(t: Table)
    requires Handles(t) && Linked(t)
    ensures var t' := DeleteNames(t, Forgotten(t));
            && Handles(t') && Linked(t') && t'.idmap == t.idmap
            && (forall n {:trigger At(t', n)} ::
                  At(t', n) == if Unnumbered(At(t, n)) && !At(t, n).localWrite then Emptied(At(t, n)) else At(t, n))
  {
    var t' := DeleteNames(t, Forgotten(t));
    assert t'.idmap == t.idmap;
    forall n ensures At(t', n) == if Unnumbered(At(t, n)) && !At(t, n).localWrite then Emptied(At(t, n))
        else At(t, n) {}
    assert forall i :: Lookup(t', i) == Lookup(t, i);
  }

  lemma ClientInitialised(s: Table, c: Table, conn: Conn)
    requires Settled(s) && ClientOk(c)
    ensures var i := ApplyInitial(c, Snapshot(s, s.localmap), conn);
            && Handles(i.table) && !i.table.server && Linked(i.table)
            && (forall n {:trigger At(i.table, n)} :: At(i.table, n) == AfterInitial(s, c, n, conn))
            && Messages(i.updates) == Updates(s, c, s.localmap)
            && (forall o :: o in i.updates ==> o.except == None)
            && Distinct(i.table.localmap) && (forall n :: Wanted(s, c, n) ==> n in i.table.localmap)
            && i.assigns == RequestsOf(s, c, i.table.localmap)
  {
    SnapshotApplied(s, c, s.localmap, conn);
    var e := ApplyInitialAll(ForgetIds(c), Snapshot(s, s.localmap), conn);
    RequestsAreWanted(s, c, e.table, e.table.localmap, conn);
    DeleteUnnumbered(e.table);
    hide ApplyInitialAll, ForgetIds, DeleteNames, Linked, Snapshot, Updates, Requests, RequestsOf;
    var t' := DeleteNames(e.table, Forgotten(e.table));
    forall n ensures At(t', n) == AfterInitial(s, c, n, conn) {
      assert At(e.table, n) == Expected(s, c, s.localmap, n, conn);
      LiveHasId(s, n);
    }
    WantedAreListed(s, c, t', conn);
  }

  lemma WantedAreListed(s: Table, c: Table, t: Table, conn: Conn)
    requires ClientOk(c) && Handles(t)
    requires forall n {:trigger At(t, n)} :: At(t, n) == AfterInitial(s, c, n, conn)
    ensures forall n :: Wanted(s, c, n) ==> n in t.localmap
  {
    forall n | Wanted(s, c, n) ensures n in t.localmap {
      assert At(t, n) == AfterInitial(s, c, n, conn);
      NoWriteWithoutValue(c, n);
    }
  }

  // ---------------------------------------------------------------- the server takes over the requests

  /** The server's record once it has numbered a wanted entry. */
  predicate Numbered(s: Table, c: Table, t: Table, n: Text) {
    && At(t, n) == Record(At(c, n).value, At(c, n).flags, At(t, n).id, At(c, n).seqNum, false)
    && |s.idmap| <= At(t, n).id < UNASSIGNED
  }

  ghost predicate Served(s: Table, c: Table, names: seq<Text>, t: Table)
    requires ClientOk(c)
  {
    && Settled(t) && t.server
    && |t.idmap| == |s.idmap| + |RequestsOf(s, c, names)|
    && (forall n {:trigger At(t, n)} ::
          if n in names && Wanted(s, c, n) then Numbered(s, c, t, n) else At(t, n) == At(s, n))
  }

  /** The assignments that the server broadcasts for the wanted entries. */
  function Replies(s: Table, c: Table, t: Table, names: seq<Text>): seq<Outgoing> {
    if names == [] then []
    else
      var n := names[|names| - 1];
      Replies(s, c, t, names[..|names| - 1])
      + (if Wanted(s, c, n) && At(t, n).value.Some? then ToAll(AssignOf(n, At(t, n))) else [])
  }

  lemma {:induction false} SameReplies(s: Table, c: Table, t: Table, t': Table, names: seq<Text>)
    requires forall n :: n in names && Wanted(s, c, n) ==> At(t, n) == At(t', n)
    ensures Replies(s, c, t, names) == Replies(s, c, t', names)
    decreases |names|
  {
    if names != [] {
      SameReplies(s, c, t, t', names[..|names| - 1]);
    }
  }

  lemma RequestServed(t: Table, m: Message, conn: Conn)
    requires Settled(t) && t.server && m.EntryAssign? && m.id == UNASSIGNED
    requires At(t, m.name).value.None? && |t.idmap| < UNASSIGNED
    ensures var e, r := ProcessIncoming(t, m, conn), Record(Some(m.value), m.flags, |t.idmap|, m.seqNum, false);
            && Settled(e.table) && e.table.server && |e.table.idmap| == |t.idmap| + 1
            && (forall n {:trigger At(e.table, n)} :: At(e.table, n) == if n == m.name then r else At(t, n))
            && e.out == ToAll(AssignOf(m.name, r))
  {
    LiveHasId(t, m.name);
    AssignRequestFrame(t, m);
    hide Settled, AssignRequest;
    AssignRequestKeeps(t, m);
  }

  lemma AssignRequestFrame(t: Table, m: Message)
    requires t.server && m.EntryAssign? && At(t, m.name).value.None? && At(t, m.name).id == UNASSIGNED
    requires !At(t, m.name).localWrite
    ensures var e, r := AssignRequest(t, m), Record(Some(m.value), m.flags, |t.idmap|, m.seqNum, false);
            && |e.table.idmap| == |t.idmap| + 1
            && (forall n {:trigger At(e.table, n)} :: At(e.table, n) == if n == m.name then r else At(t, n))
            && e.out == ToAll(AssignOf(m.name, r))
  {
  }

  lemma NothingServed(s: Table, c: Table, conn: Conn)
    requires ClientOk(c) && Settled(s) && s.server
    ensures var e := Drain(s, RequestsOf(s, c, []), conn);
            Served(s, c, [], e.table) && e.out == Replies(s, c, e.table, [])
  {
  }

  lemma LastIsNew(names: seq<Text>)
    requires Distinct(names) && names != []
    ensures var k := |names| - 1;
            Distinct(names[..k]) && names[k] !in names[..k] && names == names[..k] + [names[k]]
  {
  }

  lemma RequestsOfNext(s: Table, c: Table, names: seq<Text>, conn: Conn)
    requires ClientOk(c) && names != []
    ensures var k := |names| - 1;
            var e := Drain(s, RequestsOf(s, c, names[..k]), conn);
            var e' := if Wanted(s, c, names[k]) then ProcessIncoming(e.table, Request(c, names[k]), conn)
                      else Effect(e.table, []);
            && |RequestsOf(s, c, names[..k])| <= |RequestsOf(s, c, names)|
            && Drain(s, RequestsOf(s, c, names), conn) == Effect(e'.table, e.out + e'.out)
  {
    hide ProcessIncoming, Wanted, ClientOk, Request;
    var k := |names| - 1;
    if Wanted(s, c, names[k]) {
      var ms := RequestsOf(s, c, names);
      assert ms[..|ms| - 1] == RequestsOf(s, c, names[..k]);
    } else {
      var e := Drain(s, RequestsOf(s, c, names[..k]), conn);
      assert e.out + [] == e.out;
      assert RequestsOf(s, c, names) == RequestsOf(s, c, names[..k]);
    }
  }

  lemma {:induction false} RequestsServed(s: Table, c: Table, names: seq<Text>, conn: Conn)
    requires Settled(s) && s.server && ClientOk(c) && Distinct(names)
    requires |s.idmap| + |RequestsOf(s, c, names)| <= UNASSIGNED
    ensures var e := Drain(s, RequestsOf(s, c, names), conn);
            Served(s, c, names, e.table) && e.out == Replies(s, c, e.table, names)
    decreases |names|
  {
    hide Settled, ProcessIncoming, Served, Wanted, ClientOk, Distinct, Replies, Request, RequestsOf, Drain;
    if names == [] {
      NothingServed(s, c, conn);
    } else {
      var k := |names| - 1;
      LastIsNew(names);
      RequestsOfNext(s, c, names, conn);
      RequestsServed(s, c, names[..k], conn);
      NextServed(s, c, names[..k], names[k], Drain(s, RequestsOf(s, c, names[..k]), conn), conn);
    }
  }

  lemma NextServed(s: Table, c: Table, names: seq<Text>, n: Text, e: Effect, conn: Conn)
    requires ClientOk(c) && n !in names && |s.idmap| + |RequestsOf(s, c, names + [n])| <= UNASSIGNED
    requires Served(s, c, names, e.table) && e.out == Replies(s, c, e.table, names)
    ensures var e' := if Wanted(s, c, n) then ProcessIncoming(e.table, Request(c, n), conn) else Effect(e.table, []);
            Served(s, c, names + [n], e'.table) && e.out + e'.out == Replies(s, c, e'.table, names + [n])
  {
    hide Settled, ProcessIncoming;
    var t := e.table;
    assert At(t, n) == At(s, n);
    assert (names + [n])[..|names|] == names;
    assert |RequestsOf(s, c, names + [n])| == |RequestsOf(s, c, names)| + if Wanted(s, c, n) then 1 else 0;
    if Wanted(s, c, n) {
      var m := Request(c, n);
      RequestServed(t, m, conn);
      var t' := ProcessIncoming(t, m, conn).table;
      ServedNext(s, c, names, n, t, t');
      SameReplies(s, c, t, t', names);
    } else {
      ServedNext(s, c, names, n, t, t);
      assert e.out + [] == e.out;
    }
  }

  lemma ServedNext(s: Table, c: Table, names: seq<Text>, n: Text, t: Table, t': Table)
    requires ClientOk(c) && Served(s, c, names, t) && n !in names && Settled(t') && t'.server
    requires |t'.idmap| == |s.idmap| + |RequestsOf(s, c, names + [n])| <= UNASSIGNED
    requires |RequestsOf(s, c, names + [n])| == |RequestsOf(s, c, names)| + if Wanted(s, c, n) then 1 else 0
    requires forall j {:trigger At(t', j)} :: j != n ==> At(t', j) == At(t, j)
    requires if Wanted(s, c, n) then
               At(t', n) == Record(At(c, n).value, At(c, n).flags, |t.idmap|, At(c, n).seqNum, false)
             else At(t', n) == At(t, n)
    ensures Served(s, c, names + [n], t')
  {
    hide Settled, RequestsOf;
    forall j ensures if j in names + [n] && Wanted(s, c, j) then Numbered(s, c, t', j) else At(t', j) == At(s, j) {
      assert j in names + [n] <==> j in names || j == n;
      assert At(t, j) == At(t, j);
      assert At(t', j) == At(t', j);
    }
  }

  // ---------------------------------------------------------------- the server takes over the updates

  /** The server's record once it has read the client's update. */
  function Updated(s: Table, c: Table, names: seq<Text>, r: Record, n: Text): Record {
    if n in names && Updating(s, c, n) then r.(value := At(c, n).value, seqNum := Increment(At(s, n).seqNum)) else r
  }

  lemma UpdateServed(t: Table, n: Text, seqNum: U16, v: Value, conn: Conn)
    requires Settled(t) && t.server && At(t, n).value.Some? && seqNum == Increment(At(t, n).seqNum)
    ensures var e := ProcessIncoming(t, EntryUpdate(At(t, n).id, seqNum, v), conn);
            && Settled(e.table) && e.table.server
            && (forall j {:trigger At(e.table, j)} ::
                  At(e.table, j) == if j == n then At(t, n).(value := Some(v), seqNum := seqNum) else At(t, j))
            && (forall o :: o in e.out ==> o.except == Some(conn))
  {
    var m := EntryUpdate(At(t, n).id, seqNum, v);
    assert RecordOk(t, n) && RecordExact(t, n);
    assert ProcessIncoming(t, m, conn) == IncomingUpdate(t, n, m, conn);
    hide Settled, ProcessIncoming;
    IncomingUpdateKeeps(t, n, m, conn);
    UpdateFrame(t, n, m, conn);
  }

  lemma UpdateFrame(t: Table, n: Text, m: Message, conn: Conn)
    requires m.EntryUpdate? && n in t.entries && m.seqNum == Increment(t.entries[n].seqNum)
    ensures var e := IncomingUpdate(t, n, m, conn);
            && (forall j {:trigger At(e.table, j)} ::
                  At(e.table, j) == if j == n then At(t, n).(value := Some(m.value), seqNum := m.seqNum) else At(t, j))
            && (forall o :: o in e.out ==> o.except == Some(conn))
  {
    NewerIsAhead(t.entries[n].seqNum, m.seqNum);
  }

  ghost predicate UpdatesTaken(s: Table, c: Table, t: Table, names: seq<Text>, e: Effect, conn: Conn) {
    && Settled(e.table) && e.table.server
    && (forall n {:trigger At(e.table, n)} :: At(e.table, n) == Updated(s, c, names, At(t, n), n))
    && (forall o :: o in e.out ==> o.except == Some(conn))
  }

  function UpdateFor(s: Table, c: Table, n: Text): Message
    requires Updating(s, c, n)
  {
    EntryUpdate(At(s, n).id, Increment(At(s, n).seqNum), At(c, n).value.value)
  }

  lemma NextUpdateTaken(s: Table, c: Table, t: Table, names: seq<Text>, n: Text, e: Effect, conn: Conn)
    requires UpdatesTaken(s, c, t, names, e, conn) && n !in names
    requires Updating(s, c, n) ==> At(t, n) == At(s, n)
    ensures var e' := if Updating(s, c, n) then ProcessIncoming(e.table, UpdateFor(s, c, n), conn)
              else Effect(e.table, []);
            UpdatesTaken(s, c, t, names + [n], Effect(e'.table, e.out + e'.out), conn)
  {
    hide Settled, ProcessIncoming, Increment;
    assert At(e.table, n) == Updated(s, c, names, At(t, n), n);
    if Updating(s, c, n) {
      UpdateServed(e.table, n, Increment(At(s, n).seqNum), At(c, n).value.value, conn);
    }
    var end := if Updating(s, c, n) then ProcessIncoming(e.table, UpdateFor(s, c, n), conn).table else e.table;
    forall j ensures At(end, j) == Updated(s, c, names + [n], At(t, j), j) {
      assert At(e.table, j) == Updated(s, c, names, At(t, j), j);
      assert j in names + [n] <==> j in names || j == n;
    }
  }

  lemma {:induction false} UpdatesServed(s: Table, c: Table, t: Table, names: seq<Text>, conn: Conn)
    requires Settled(t) && t.server && Distinct(names)
    requires forall n :: n in names && Updating(s, c, n) ==> At(t, n) == At(s, n)
    ensures UpdatesTaken(s, c, t, names, Drain(t, Updates(s, c, names), conn), conn)
    decreases |names|
  {
    if names != [] {
      var k := |names| - 1;
      var n := names[k];
      UpdatesServed(s, c, t, names[..k], conn);
      assert n !in names[..k];
      assert names == names[..k] + [n];
      var ms := Updates(s, c, names[..k]);
      NextUpdateTaken(s, c, t, names[..k], n, Drain(t, ms, conn), conn);
      hide Settled, ProcessIncoming, UpdatesTaken, At;
      if Updating(s, c, n) {
        assert Updates(s, c, names) == ms + [UpdateFor(s, c, n)];
        DrainNext(t, ms, UpdateFor(s, c, n), conn);
      } else {
        assert Updates(s, c, names) == ms;
        assert Drain(t, ms, conn).out + [] == Drain(t, ms, conn).out;
      }
    }
  }

  // ---------------------------------------------------------------- the client takes over the replies

  lemma ReplyTaken(t: Table, m: Message, conn: Conn)
    requires Handles(t) && !t.server && Linked(t) && m.EntryAssign? && m.id < UNASSIGNED && Lookup(t, m.id).None?
    requires var r := At(t, m.name);
             r.id == UNASSIGNED && r.value == Some(m.value) && r.seqNum == m.seqNum && r.flags == m.flags
    ensures var e := ProcessIncoming(t, m, conn);
            && Handles(e.table) && !e.table.server && Linked(e.table) && e.out == []
            && (forall n {:trigger At(e.table, n)} ::
                  At(e.table, n) == if n == m.name then At(t, n).(id := m.id) else At(t, n))
            && (forall i {:trigger Lookup(e.table, i)} ::
                  Lookup(e.table, i) == if i == m.id then Some(m.name) else Lookup(t, i))
  {
    var r := At(t, m.name).(id := m.id);
    LinkOne(t, m.name, r);
    ReplyFrame(t, m, conn);
    hide ProcessIncoming, ExtendTo;
    var t' := ProcessIncoming(t, m, conn).table;
    var t'' := Put(GetOrNew(t, m.name).(idmap := ExtendTo(t.idmap, m.id)[m.id := Some(m.name)]), m.name, r);
    LookupExtended(t, m.id, m.name);
    var t3 := t.(idmap := ExtendTo(t.idmap, m.id)[m.id := Some(m.name)]);
    forall i ensures Lookup(t', i) == Lookup(t'', i) == Lookup(t3, i) {}
    forall n ensures At(t', n) == At(t'', n) == if n == m.name then r else At(t, n) {}
  }

  lemma LookupExtended(t: Table, id: nat, n: Text)
    ensures forall i: nat ::
              Lookup(t.(idmap := ExtendTo(t.idmap, id)[id := Some(n)]), i) == if i == id then Some(n) else Lookup(t, i)
  {
    var was := ExtendTo(t.idmap, id);
    var now := was[id := Some(n)];
    forall i: nat ensures Lookup(t.(idmap := now), i) == if i == id then Some(n) else Lookup(t, i) {
      assert i < |was| && i != id ==> now[i] == was[i];
      assert |t.idmap| <= i < |was| ==> was[i] == None;
    }
  }

  lemma ReplyFrame(t: Table, m: Message, conn: Conn)
    requires Handles(t) && !t.server && m.EntryAssign? && m.id < UNASSIGNED && Lookup(t, m.id).None?
    requires var r := At(t, m.name);
             r.id == UNASSIGNED && r.value == Some(m.value) && r.seqNum == m.seqNum && r.flags == m.flags
    ensures var e := ProcessIncoming(t, m, conn);
            var t'' := Put(GetOrNew(t, m.name).(idmap := ExtendTo(t.idmap, m.id)[m.id := Some(m.name)]),
                           m.name, At(t, m.name).(id := m.id));
            && e.out == [] && !e.table.server
            && e.table.entries == t''.entries && e.table.idmap == t''.idmap && e.table.localmap == t''.localmap
            && Handles(e.table)
  {
  }

  ghost predicate RepliesTakenBy(s: Table, c: Table, s1: Table, c1: Table, names: seq<Text>, t: Table) {
    && Handles(t) && !t.server && Linked(t)
    && (forall n {:trigger At(t, n)} ::
          At(t, n) == if n in names && Wanted(s, c, n) then At(c1, n).(id := At(s1, n).id) else At(c1, n))
  }

  /** The slot of a reply is free: it is none of the snapshot's, and no other reply's. */
  lemma ReplySlotIsFree(s: Table, c: Table, s1: Table, c1: Table, all: seq<Text>, names: seq<Text>, n: Text,
      t: Table, conn: Conn)
    requires Settled(s) && ClientOk(c) && Served(s, c, all, s1) && RepliesTakenBy(s, c, s1, c1, names, t)
    requires forall k {:trigger At(c1, k)} :: At(c1, k) == AfterInitial(s, c, k, conn)
    requires n in all && n !in names && Wanted(s, c, n) && (forall k :: k in names ==> k in all)
    ensures Lookup(t, At(s1, n).id).None?
  {
    assert At(s1, n).value.Some?;
    AllIdsDiffer(s1, n);
    hide Settled;
    forall k ensures At(t, k).id != At(s1, n).id {
      assert At(c1, k) == AfterInitial(s, c, k, conn);
      assert At(s1, k) == At(s1, k);
      LiveHasId(s, k);
    }
  }

  lemma AllIdsDiffer(s: Table, n: Text)
    requires Settled(s) && At(s, n).value.Some?
    ensures forall k :: k != n && At(s, k).value.Some? ==> At(s, k).id != At(s, n).id
  {
    forall k | k != n && At(s, k).value.Some? ensures At(s, k).id != At(s, n).id {
      IdsDiffer(s, n, k);
    }
  }

  lemma RepliesNext(s: Table, c: Table, s1: Table, names: seq<Text>, n: Text)
    requires Wanted(s, c, n) ==> At(s1, n).value.Some?
    ensures Messages(Replies(s, c, s1, names + [n]))
            == Messages(Replies(s, c, s1, names)) + if Wanted(s, c, n) then [AssignOf(n, At(s1, n))] else []
  {
    assert (names + [n])[..|names|] == names;
  }

  lemma DrainNext(t: Table, ms: seq<Message>, m: Message, conn: Conn)
    ensures var e := Drain(t, ms, conn);
            var e' := ProcessIncoming(e.table, m, conn);
            Drain(t, ms + [m], conn) == Effect(e'.table, e.out + e'.out)
  {
    hide ProcessIncoming;
    assert (ms + [m])[..|ms|] == ms;
  }

  lemma {:induction false} RepliesTaken(
      s: Table, c: Table, s1: Table, c1: Table, all: seq<Text>, names: seq<Text>, conn: Conn)
    requires Settled(s) && ClientOk(c) && Served(s, c, all, s1)
    requires Handles(c1) && !c1.server && Linked(c1)
    requires forall k {:trigger At(c1, k)} :: At(c1, k) == AfterInitial(s, c, k, conn)
    requires Distinct(names) && (forall k :: k in names ==> k in all)
    ensures var e := Drain(c1, Messages(Replies(s, c, s1, names)), conn);
            RepliesTakenBy(s, c, s1, c1, names, e.table) && e.out == []
    decreases |names|
  {
    if names != [] {
      var k := |names| - 1;
      var n := names[k];
      RepliesTaken(s, c, s1, c1, all, names[..k], conn);
      var e := Drain(c1, Messages(Replies(s, c, s1, names[..k])), conn);
      assert n !in names[..k];
      assert names == names[..k] + [n];
      NextReplyTaken(s, c, s1, c1, all, names[..k], n, e.table, conn);
      hide Settled, Served, ProcessIncoming, RepliesTakenBy, Linked, Handles, Wanted, AfterInitial, Messages, Replies;
      RepliesNext(s, c, s1, names[..k], n);
      if Wanted(s, c, n) {
        DrainNext(c1, Messages(Replies(s, c, s1, names[..k])), AssignOf(n, At(s1, n)), conn);
      } else {
        assert Messages(Replies(s, c, s1, names[..k])) + [] == Messages(Replies(s, c, s1, names[..k]));
      }
    } else {
      assert Messages(Replies(s, c, s1, names)) == [];
    }
  }

  lemma NextReplyTaken(
      s: Table, c: Table, s1: Table, c1: Table, all: seq<Text>, names: seq<Text>, n: Text, t: Table, conn: Conn)
    requires Settled(s) && ClientOk(c) && Served(s, c, all, s1) && RepliesTakenBy(s, c, s1, c1, names, t)
    requires forall k {:trigger At(c1, k)} :: At(c1, k) == AfterInitial(s, c, k, conn)
    requires n in all && n !in names && (forall k :: k in names ==> k in all)
    ensures Wanted(s, c, n) ==> At(s1, n).value.Some?
    ensures var e := if Wanted(s, c, n) then ProcessIncoming(t, AssignOf(n, At(s1, n)), conn) else Effect(t, []);
            RepliesTakenBy(s, c, s1, c1, names + [n], e.table) && e.out == []
  {
    forall j ensures j in names + [n] <==> j in names || j == n {}
    if Wanted(s, c, n) {
      ServedRecord(s, c, all, s1, n);
      ReplySlotIsFree(s, c, s1, c1, all, names, n, t, conn);
      assert At(t, n) == At(c1, n);
      assert At(c1, n) == AfterInitial(s, c, n, conn);
      hide Settled, ProcessIncoming, RequestsOf, Linked, Served, Handles, AfterInitial, Lookup, At;
      ReplyTaken(t, AssignOf(n, At(s1, n)), conn);
      NextTaken(s, c, s1, c1, names, n, t, ProcessIncoming(t, AssignOf(n, At(s1, n)), conn).table);
    } else {
      NextTaken(s, c, s1, c1, names, n, t, t);
    }
  }

  lemma ServedRecord(s: Table, c: Table, all: seq<Text>, s1: Table, n: Text)
    requires ClientOk(c) && Served(s, c, all, s1) && n in all && Wanted(s, c, n)
    ensures Numbered(s, c, s1, n) && At(c, n).value.Some?
  {
    assert At(s1, n) == At(s1, n);
  }

  lemma NextTaken(s: Table, c: Table, s1: Table, c1: Table, names: seq<Text>, n: Text, t: Table, t': Table)
    requires RepliesTakenBy(s, c, s1, c1, names, t) && n !in names
    requires Handles(t') && !t'.server && Linked(t')
    requires forall j {:trigger At(t', j)} ::
               At(t', j) == if j == n && Wanted(s, c, n) then At(t, j).(id := At(s1, n).id) else At(t, j)
    ensures RepliesTakenBy(s, c, s1, c1, names + [n], t')
  {
    hide Linked, Handles;
    forall j ensures At(t', j) == if j in names + [n] && Wanted(s, c, j) then At(c1, j).(id := At(s1, j).id)
        else At(c1, j) {
      assert At(t, j) == if j in names && Wanted(s, c, j) then At(c1, j).(id := At(s1, j).id) else At(c1, j);
    }
  }

  // ---------------------------------------------------------------- the whole handshake

  /** Both storages when all messages of the handshake have been read, and what the client has sent since. */
  datatype Meeting = Meeting(server: Table, client: Table, answers: seq<Outgoing>)

  /**
   The server's snapshot, the client's requests, the updates that follow the handshake through the queue,
   and the server's answers, which it broadcasts.
   */
  function Exchange(s: Table, c: Table, conn: Conn): Meeting {
    var i := ApplyInitial(c, Snapshot(s, s.localmap), conn);
    var e1 := Drain(s, i.assigns, conn);
    var e2 := Drain(e1.table, Messages(i.updates), conn);
    var e3 := Drain(i.table, Routed(e1.out + e2.out, conn), conn);
    Meeting(e2.table, e3.table, e3.out)
  }

  /** Which value an entry ends up with. */
  function Merged(s: Table, c: Table, n: Text): Option<Value> {
    if At(s, n).value.Some? then
      if Keeps(At(c, n)) then At(c, n).value else At(s, n).value
    else
      if At(c, n).localWrite then At(c, n).value else None
  }

  lemma {:induction false} RoutedReplies(xs: seq<Outgoing>, ys: seq<Outgoing>, conn: Conn)
    requires forall o :: o in xs ==> o.except == None
    requires forall o :: o in ys ==> o.except == Some(conn)
    ensures Routed(xs + ys, conn) == Messages(xs)
    decreases |ys|, |xs|
  {
    if ys != [] {
      assert (xs + ys)[..|xs + ys| - 1] == xs + ys[..|ys| - 1];
      RoutedReplies(xs, ys[..|ys| - 1], conn);
    } else if xs != [] {
      assert xs + ys == xs;
      assert xs[..|xs| - 1] + [] == xs[..|xs| - 1];
      RoutedReplies(xs[..|xs| - 1], [], conn);
      assert Messages(xs) == Messages(xs[..|xs| - 1]) + [xs[|xs| - 1].msg];
    }
  }

  lemma {:induction false} RepliesAreForAll(s: Table, c: Table, t: Table, names: seq<Text>)
    ensures forall o :: o in Replies(s, c, t, names) ==> o.except == None
    decreases |names|
  {
    if names != [] {
      RepliesAreForAll(s, c, t, names[..|names| - 1]);
    }
  }

  /** The stages of the handshake, and the records that each leaves behind. */
  lemma ExchangeStages(s: Table, c: Table, conn: Conn)
    requires Settled(s) && s.server && ClientOk(c)
    requires |s.idmap| + |ApplyInitial(c, Snapshot(s, s.localmap), conn).assigns| <= UNASSIGNED
    ensures var i := ApplyInitial(c, Snapshot(s, s.localmap), conn);
            var s1 := Drain(s, i.assigns, conn).table;
            var m := Exchange(s, c, conn);
            && Served(s, c, i.table.localmap, s1)
            && Settled(m.server) && m.server.server
            && (forall n {:trigger At(m.server, n)} :: At(m.server, n) == Updated(s, c, s.localmap, At(s1, n), n))
            && RepliesTakenBy(s, c, s1, i.table, i.table.localmap, m.client)
            && (forall n {:trigger At(i.table, n)} :: At(i.table, n) == AfterInitial(s, c, n, conn))
            && (forall n :: Wanted(s, c, n) ==> n in i.table.localmap)
            && m.answers == []
  {
    ClientInitialised(s, c, conn);
    var i := ApplyInitial(c, Snapshot(s, s.localmap), conn);
    var names := i.table.localmap;
    RequestsServed(s, c, names, conn);
    var e1 := Drain(s, i.assigns, conn);
    hide ApplyInitial, Snapshot, Linked;
    forall n | n in s.localmap && Updating(s, c, n) ensures At(e1.table, n) == At(s, n) {}
    UpdatesServed(s, c, e1.table, s.localmap, conn);
    var e2 := Drain(e1.table, Messages(i.updates), conn);
    hide Settled;
    RepliesAreForAll(s, c, e1.table, names);
    RoutedReplies(e1.out, e2.out, conn);
    RepliesTaken(s, c, e1.table, i.table, names, names, conn);
  }

  lemma LinkedIsSettled(t: Table)
    requires Handles(t) && Linked(t)
    requires forall n {:trigger At(t, n)} :: At(t, n).value.Some? <==> At(t, n).id != UNASSIGNED
    requires forall n {:trigger At(t, n)} :: At(t, n).localWrite ==> At(t, n).value.Some?
    ensures Settled(t)
  {
    forall n | n in t.entries ensures RecordOk(t, n) && RecordExact(t, n) {
      assert At(t, n) == t.entries[n];
    }
    forall i | 0 <= i < |t.idmap| ensures SlotOk(t, i) && SlotExact(t, i) {
      assert Lookup(t, i) == t.idmap[i];
      if t.idmap[i].Some? { assert At(t, t.idmap[i].value).id == i; }
    }
  }

  /** Both sides of one entry after the handshake. */
  ghost predicate Agreed(s: Table, c: Table, m: Meeting, n: Text) {
    var a, b := At(m.server, n), At(m.client, n);
    && a.value == b.value == Merged(s, c, n)
    && (a.value.Some? ==> a.id == b.id && a.seqNum == b.seqNum)
    && (a.value.Some? ==> (a.flags == b.flags <==> !(Updating(s, c, n) && At(c, n).flags != At(s, n).flags)))
    && (b.localWrite ==> b.value.Some?)
    && (b.value.Some? <==> b.id != UNASSIGNED)
  }

  lemma ExchangeAgrees(s: Table, c: Table, conn: Conn, n: Text)
    requires Settled(s) && s.server && ClientOk(c) && conn.protoRev >= PROTO_3
    requires |s.idmap| + |ApplyInitial(c, Snapshot(s, s.localmap), conn).assigns| <= UNASSIGNED
    ensures Agreed(s, c, Exchange(s, c, conn), n)
  {
    ExchangeStages(s, c, conn);
    LiveHasId(s, n);
    NoWriteWithoutValue(c, n);
    var i := ApplyInitial(c, Snapshot(s, s.localmap), conn);
    var s1 := Drain(s, i.assigns, conn).table;
    var m := Exchange(s, c, conn);
    hide Settled, ClientOk, Handles, Linked, ApplyInitial, Snapshot, Drain, Exchange, RequestsOf;
    RecordsOf(s, c, s1, i.table, m, n, conn);
    hide Served, RepliesTakenBy, At;
    var id := At(s1, n).id;
    RecordsAgree(At(s, n), At(c, n), At(m.server, n), At(m.client, n), n, id, conn);
  }

  lemma RecordsOf(s: Table, c: Table, s1: Table, c1: Table, m: Meeting, n: Text, conn: Conn)
    requires ClientOk(c) && Served(s, c, c1.localmap, s1)
    requires forall k {:trigger At(m.server, k)} :: At(m.server, k) == Updated(s, c, s.localmap, At(s1, k), k)
    requires RepliesTakenBy(s, c, s1, c1, c1.localmap, m.client)
    requires forall k {:trigger At(c1, k)} :: At(c1, k) == AfterInitial(s, c, k, conn)
    requires Wanted(s, c, n) ==> n in c1.localmap
    requires At(s, n).value.Some? ==> n in s.localmap
    ensures At(m.server, n) ==
              if Wanted(s, c, n) then Record(At(c, n).value, At(c, n).flags, At(s1, n).id, At(c, n).seqNum, false)
              else if Updating(s, c, n) then At(s, n).(value := At(c, n).value, seqNum := Increment(At(s, n).seqNum))
              else At(s, n)
    ensures At(m.client, n) ==
              if Wanted(s, c, n) then At(c, n).(id := At(s1, n).id) else AfterInitial(s, c, n, conn)
    ensures Wanted(s, c, n) ==> At(s1, n).id < UNASSIGNED
  {
    hide Settled, Handles, Linked, RequestsOf;
    assert At(m.server, n) == Updated(s, c, s.localmap, At(s1, n), n);
    assert At(c1, n) == AfterInitial(s, c, n, conn);
    assert At(m.client, n) == if Wanted(s, c, n) then At(c1, n).(id := At(s1, n).id) else At(c1, n);
    assert if Wanted(s, c, n) then Numbered(s, c, s1, n) else At(s1, n) == At(s, n);
  }

  /** The outcome for one entry, as a matter of its records alone. */
  lemma RecordsAgree(rs: Record, rc: Record, a: Record, b: Record, n: Text, id: nat, conn: Conn)
    requires conn.protoRev >= PROTO_3
    requires rs.value.Some? <==> rs.id != UNASSIGNED
    requires rc.localWrite ==> rc.value.Some?
    requires rs.value.None? && rc.localWrite ==> id < UNASSIGNED
    requires a == if rs.value.None? && rc.localWrite then Record(rc.value, rc.flags, id, rc.seqNum, false)
                  else if rs.value.Some? && Keeps(rc) then rs.(value := rc.value, seqNum := Increment(rs.seqNum))
                  else rs
    requires b == if rs.value.Some? then Initialised(rc.(id := UNASSIGNED), AssignOf(n, rs), conn)
                  else if rc.localWrite then rc.(id := id)
                  else Emptied(rc)
    ensures a.value == b.value == if rs.value.Some? then if Keeps(rc) then rc.value else rs.value
                                  else if rc.localWrite then rc.value else None
    ensures a.value.Some? ==> a.id == b.id && a.seqNum == b.seqNum
    ensures a.value.Some? ==> (a.flags == b.flags <==> !(rs.value.Some? && Keeps(rc) && rc.flags != rs.flags))
    ensures b.localWrite ==> b.value.Some?
    ensures b.value.Some? <==> b.id != UNASSIGNED
  {
    hide Increment;
  }

  lemma NoWriteWithoutValue(c: Table, n: Text)
    requires ClientOk(c)
    ensures At(c, n).localWrite ==> At(c, n).value.Some?
  {
  }

  /**
   Convergence: after the handshake server and client hold the same value for every name, with the same
   id and sequence number, and it is the specified merge. Both storages are settled and nothing is in flight.
   */
  lemma HandshakeConverges(s: Table, c: Table, conn: Conn)
    requires Settled(s) && s.server && ClientOk(c) && conn.protoRev >= PROTO_3
    requires |s.idmap| + |ApplyInitial(c, Snapshot(s, s.localmap), conn).assigns| <= UNASSIGNED
    ensures var m := Exchange(s, c, conn);
            && Settled(m.server) && m.server.server && Settled(m.client) && !m.client.server
            && m.answers == []
            && forall n {:trigger Agreed(s, c, m, n)} :: Agreed(s, c, m, n)
  {
    ExchangeStages(s, c, conn);
    var m := Exchange(s, c, conn);
    forall n ensures Agreed(s, c, m, n) { ExchangeAgrees(s, c, conn, n); }
    hide Exchange, ApplyInitial, Merged, Updating, Settled, Drain;
    forall n ensures (At(m.client, n).value.Some? <==> At(m.client, n).id != UNASSIGNED)
                     && (At(m.client, n).localWrite ==> At(m.client, n).value.Some?) {
      assert Agreed(s, c, m, n);
    }
    LinkedIsSettled(m.client);
  }

  /** Idempotence: a second handshake changes no value on either side, whatever the local-write marks say. */
  lemma HandshakeIsIdempotent(s: Table, c: Table, conn: Conn, again: Conn)
    requires Settled(s) && s.server && ClientOk(c) && conn.protoRev >= PROTO_3 && again.protoRev >= PROTO_3
    requires |s.idmap| + |ApplyInitial(c, Snapshot(s, s.localmap), conn).assigns| <= UNASSIGNED
    ensures var m := Exchange(s, c, conn);
            var m' := Exchange(m.server, m.client, again);
            forall n :: At(m'.server, n).value == At(m'.client, n).value == At(m.server, n).value
                == At(m.client, n).value
  {
    hide Exchange, ApplyInitial, Snapshot, Settled, ClientOk, Agreed, Wanted;
    HandshakeConverges(s, c, conn);
    var m := Exchange(s, c, conn);
    SettledIsClient(m.client);
    NothingWantedAgain(s, c, m);
    NothingToRequest(m.server, m.client, again);
    HandshakeConverges(m.server, m.client, again);
    SameValuesAgain(s, c, m, Exchange(m.server, m.client, again));
  }

  lemma NewKeepsClientOk(c: Table, n: Text)
    requires ClientOk(c)
    ensures ClientOk(GetOrNew(c, n))
  {
  }

  lemma ChangeKeepsClientOk(c: Table, c': Table, n: Text)
    requires ClientOk(c) && !c'.server && c'.localmap == c.localmap && n in c.entries
    requires c'.entries.Keys == c.entries.Keys && forall k :: k in c.entries && k != n ==> c'.entries[k] == c.entries[k]
    requires c'.entries[n].localWrite ==> c'.entries[n].value.Some?
    ensures ClientOk(c')
  {
  }

  lemma OfflineKeepsClientOk(c: Table, n: Text, v: Value)
    requires ClientOk(c) && n != []
    ensures ClientOk(SetEntryTypeValue(c, n, v).table) && ClientOk(DeleteEntry(c, n).table)
  {
    hide ClientOk;
    NewKeepsClientOk(c, n);
    assert !c.server by { ClientIsNoServer(c); }
    ChangeKeepsClientOk(GetOrNew(c, n), SetEntryTypeValue(c, n, v).table, n);
    if n in c.entries { ChangeKeepsClientOk(c, DeleteEntry(c, n).table, n); }
  }

  lemma OfflineRecords(c: Table, n: Text, v: Value)
    requires n != []
    ensures var r := At(SetEntryTypeValue(c, n, v).table, n);
            r.value == Some(v) && r.localWrite && r.flags == At(c, n).flags
    ensures At(DeleteEntry(c, n).table, n).value == None && !At(DeleteEntry(c, n).table, n).localWrite
  {
  }

  lemma ClientIsNoServer(c: Table)
    requires ClientOk(c)
    ensures !c.server
  {
  }

  /**
   A value set while the client is offline is what both sides end with, unless the entry is persistent at the client.
   */
  lemma OfflineWriteSurvives(s: Table, c: Table, n: Text, v: Value, conn: Conn)
    requires Settled(s) && s.server && ClientOk(c) && n != [] && conn.protoRev >= PROTO_3
    requires var c' := SetEntryTypeValue(c, n, v).table;
             |s.idmap| + |ApplyInitial(c', Snapshot(s, s.localmap), conn).assigns| <= UNASSIGNED
    ensures var m := Exchange(s, SetEntryTypeValue(c, n, v).table, conn);
            At(m.server, n).value == At(m.client, n).value
            == if At(s, n).value.Some? && Persistent(At(c, n).flags) then At(s, n).value else Some(v)
  {
    hide Settled, ClientOk, Exchange, ApplyInitial, Snapshot, SetEntryTypeValue, DeleteEntry, At;
    var c' := SetEntryTypeValue(c, n, v).table;
    OfflineKeepsClientOk(c, n, v);
    OfflineRecords(c, n, v);
    HandshakeConverges(s, c', conn);
    assert Agreed(s, c', Exchange(s, c', conn), n);
  }

  /** An entry deleted while the client was offline comes back with the server's value, if the server has one. */
  lemma OfflineDeleteIsUndone(s: Table, c: Table, n: Text, conn: Conn)
    requires Settled(s) && s.server && ClientOk(c) && n != [] && conn.protoRev >= PROTO_3
    requires var c' := DeleteEntry(c, n).table;
             |s.idmap| + |ApplyInitial(c', Snapshot(s, s.localmap), conn).assigns| <= UNASSIGNED
    ensures var m := Exchange(s, DeleteEntry(c, n).table, conn);
            At(m.server, n).value == At(m.client, n).value == At(s, n).value
  {
    hide Settled, ClientOk, Exchange, ApplyInitial, Snapshot, SetEntryTypeValue, DeleteEntry, At;
    var c' := DeleteEntry(c, n).table;
    OfflineKeepsClientOk(c, n, Boolean(true));
    OfflineRecords(c, n, Boolean(true));
    HandshakeConverges(s, c', conn);
    assert Agreed(s, c', Exchange(s, c', conn), n);
  }

  lemma NothingWantedAgain(s: Table, c: Table, m: Meeting)
    requires forall n {:trigger Agreed(s, c, m, n)} :: Agreed(s, c, m, n)
    ensures forall n :: !Wanted(m.server, m.client, n)
  {
    hide At;
    forall n ensures !Wanted(m.server, m.client, n) { assert Agreed(s, c, m, n); }
  }

  lemma SameValuesAgain(s: Table, c: Table, m: Meeting, m': Meeting)
    requires forall n {:trigger Agreed(s, c, m, n)} :: Agreed(s, c, m, n)
    requires forall n {:trigger Agreed(m.server, m.client, m', n)} :: Agreed(m.server, m.client, m', n)
    ensures forall n ::
              At(m'.server, n).value == At(m'.client, n).value == At(m.server, n).value == At(m.client, n).value
  {
    hide At;
    forall n ensures At(m'.server, n).value == At(m'.client, n).value == At(m.server, n).value
        == At(m.client, n).value {
      assert Agreed(s, c, m, n);
      assert Agreed(m.server, m.client, m', n);
    }
  }

  lemma SettledIsClient(c: Table)
    requires Settled(c) && !c.server
    ensures ClientOk(c)
  {
    forall n | n in c.entries && c.entries[n].localWrite ensures c.entries[n].value.Some? { assert RecordOk(c, n); }
  }

  lemma {:induction false} NoRequests(s: Table, c: Table, names: seq<Text>)
    requires ClientOk(c) && forall n :: !Wanted(s, c, n)
    ensures RequestsOf(s, c, names) == []
    decreases |names|
  {
    if names != [] {
      NoRequests(s, c, names[..|names| - 1]);
    }
  }

  lemma NothingToRequest(s: Table, c: Table, conn: Conn)
    requires Settled(s) && ClientOk(c) && forall n :: !Wanted(s, c, n)
    ensures |s.idmap| + |ApplyInitial(c, Snapshot(s, s.localmap), conn).assigns| <= UNASSIGNED
  {
    ClientInitialised(s, c, conn);
    NoRequests(s, c, ApplyInitial(c, Snapshot(s, s.localmap), conn).table.localmap);
  }

  /**
   From the handshake on the client follows the server, provided that no entry on which it kept its own
   value had other flags than the server's.
   */
  lemma HandshakeStartsReplication(s: Table, c: Table, conn: Conn)
    requires Settled(s) && s.server && ClientOk(c) && conn.protoRev >= PROTO_3
    requires |s.idmap| + |ApplyInitial(c, Snapshot(s, s.localmap), conn).assigns| <= UNASSIGNED
    ensures var m := Exchange(s, c, conn);
            Synced(Net(m.server, [], m.client)) <==> forall n :: Updating(s, c, n) ==> At(c, n).flags == At(s, n).flags
  {
    HandshakeConverges(s, c, conn);
    var m := Exchange(s, c, conn);
    hide Exchange, ApplyInitial, Snapshot;
    forall n ensures At(m.server, n).value == At(m.client, n).value { assert Agreed(s, c, m, n); }
    CellsAgree(m.server, m.client);
    hide Settled, CellsOf, ClientOk, At;
    forall n ensures (At(m.server, n).value.Some? ==> SameCell(m.server, m.client, n))
                     <==> (Updating(s, c, n) ==> At(c, n).flags == At(s, n).flags)
    {
      assert Agreed(s, c, m, n);
    }
    NothingInFlight(m.server, m.client);
  }

  lemma NothingInFlight(s: Table, c: Table)
    requires s.server && Settled(s) && !c.server && Settled(c)
    ensures Synced(Net(s, [], c)) <==> CellsOf(s) == CellsOf(c)
  {
  }

  predicate SameCell(a: Table, b: Table, n: Text) {
    At(a, n).id == At(b, n).id && RecordCell(n, At(a, n)) == RecordCell(n, At(b, n))
  }

  lemma CellsAgree(a: Table, b: Table)
    requires Settled(a) && Settled(b) && forall n :: At(a, n).value == At(b, n).value
    ensures CellsOf(a) == CellsOf(b) <==> forall n :: At(a, n).value.Some? ==> SameCell(a, b, n)
  {
    if forall n :: At(a, n).value.Some? ==> SameCell(a, b, n) {
      CellsIncluded(a, b);
      forall n ensures At(b, n).value.Some? ==> SameCell(b, a, n) { assert At(a, n).value.Some? ==> SameCell(a, b, n); }
      CellsIncluded(b, a);
    }
    if CellsOf(a) == CellsOf(b) {
      forall n | At(a, n).value.Some? ensures SameCell(a, b, n) {
        CellOfLive(a, n);
        CellOfLive(b, n);
        assert SlotExact(b, At(a, n).id);
      }
    }
  }

  lemma CellOfLive(t: Table, n: Text)
    requires Settled(t) && At(t, n).value.Some?
    ensures At(t, n).id in CellsOf(t) && CellsOf(t)[At(t, n).id] == RecordCell(n, At(t, n))
    ensures forall i :: i in CellsOf(t) && CellsOf(t)[i].name == n ==> i == At(t, n).id
  {
    assert RecordOk(t, n) && RecordExact(t, n);
    forall i | i in CellsOf(t) && CellsOf(t)[i].name == n ensures i == At(t, n).id { assert SlotExact(t, i); }
  }

  lemma CellsIncluded(a: Table, b: Table)
    requires Settled(a) && Settled(b)
    requires forall n :: At(a, n).value.Some? ==> SameCell(a, b, n)
    ensures forall i :: i in CellsOf(a) ==> i in CellsOf(b) && CellsOf(b)[i] == CellsOf(a)[i]
  {
    forall i | i in CellsOf(a) ensures i in CellsOf(b) && CellsOf(b)[i] == CellsOf(a)[i] {
      var n := CellsOf(a)[i].name;
      SlotGives(a, i);
      assert SameCell(a, b, n);
      CellOfLive(b, n);
    }
  }
}
