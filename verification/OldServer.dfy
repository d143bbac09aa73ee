/**
 A client that connects to a server of protocol 2.0, which knows no flags: what becomes of each of its entries, for any
 batch of initial assignments, with names and ids in any order and with any repetitions.
 */
module OldServer {
  import opened Wrappers
  import opened Serial
  import opened Protocol
  import opened StorageSpec
  import opened HandshakeSpec

  /** An assignment of this name that the client does not pass over. */
  predicate Assigns(m: Message, n: Text) {
    m.EntryAssign? && m.name == n && m.id != UNASSIGNED
  }

  /** The first assignment of a name, and the last one. */
  function FirstOf(ms: seq<Message>, n: Text): (r: Option<Message>)
    ensures r.Some? ==> Assigns(r.value, n)
  {
    if ms == [] then None
    else if Assigns(ms[0], n) then Some(ms[0])
    else FirstOf(ms[1..], n)
  }

  function LastOf(ms: seq<Message>, n: Text): (r: Option<Message>)
    ensures r.Some? ==> Assigns(r.value, n)
  {
    if ms == [] then None
    else if Assigns(ms[|ms| - 1], n) then Some(ms[|ms| - 1])
    else LastOf(ms[..|ms| - 1], n)
  }

  lemma {:induction false} FirstOfMore(ms: seq<Message>, m: Message, n: Text)
    ensures FirstOf(ms + [m], n)
            == if FirstOf(ms, n).Some? then FirstOf(ms, n) else if Assigns(m, n) then Some(m) else None
    ensures FirstOf(ms, n).Some? <==> LastOf(ms, n).Some?
    decreases |ms|
  {
    if ms == [] {
      assert ([] + [m])[1..] == [];
    } else {
      assert (ms + [m])[1..] == ms[1..] + [m];
      FirstOfMore(ms[1..], m, n);
      assert ms[..|ms| - 1] + [ms[|ms| - 1]] == ms;
      FirstOfMore(ms[..|ms| - 1], ms[|ms| - 1], n);
    }
  }

  /** A client whose entries are marked as written only if they have a value. */
  predicate MarksHaveValues(c: Table) {
    forall n :: n in c.entries && c.entries[n].localWrite ==> c.entries[n].value.Some?
  }

  /** The values that the client keeps are those that it wrote itself and does not save to a file. */
  predicate Own(r: Record) {
    r.value.Some? && r.localWrite && r.flags % 2 == 0
  }

  /** What becomes of an entry: its last assignment decides; the flags are the client's own, or come with the first. */
  predicate Taken(was: Record, now: Record, ms: seq<Message>, n: Text) {
    match LastOf(ms, n)
    case None => now == was.(id := UNASSIGNED)
    case Some(last) =>
      && now.value == (if Own(was) then was.value else Some(last.value))
      && (was.value.Some? ==> now.flags == was.flags)
      && (was.value.None? && FirstOf(ms, n).Some? ==> now.flags == FirstOf(ms, n).value.flags)
      && now.id == last.id
      && now.seqNum == (if Own(was) then Increment(last.seqNum) else last.seqNum)
      && now.localWrite == was.localWrite
  }

  lemma ForgottenIds(c: Table, n: Text)
    ensures At(ForgetIds(c), n) == At(c, n).(id := UNASSIGNED)
  {
  }

  lemma OneElsewhere(t: Table, m: Message, conn: Conn, n: Text)
    requires !Assigns(m, n)
    ensures At(ApplyInitialOne(t, m, conn).table, n) == At(t, n)
  {
  }

  lemma OneHere(t: Table, m: Message, conn: Conn, n: Text)
    requires Assigns(m, n) && conn.protoRev < PROTO_3
    ensures var was, now := At(t, n), At(ApplyInitialOne(t, m, conn).table, n);
            && now.value == (if Own(was) then was.value else Some(m.value))
            && now.flags == (if was.value.Some? then was.flags else m.flags)
            && now.id == m.id && now.localWrite == was.localWrite
            && now.seqNum == (if Own(was) then Increment(m.seqNum) else m.seqNum)
  {
  }

  /** While the batch is read. */
  lemma {:induction false} BatchSoFar(c: Table, ms: seq<Message>, conn: Conn, n: Text)
    requires conn.protoRev < PROTO_3 && MarksHaveValues(c)
    ensures Taken(At(c, n), At(ApplyInitialAll(ForgetIds(c), ms, conn).table, n), ms, n)
    decreases |ms|
  {
    hide ApplyInitialOne, Increment, Assigns, FirstOf, ForgetIds;
    if ms == [] {
      ForgottenIds(c, n);
    } else {
      var before, m := ms[..|ms| - 1], ms[|ms| - 1];
      BatchSoFar(c, before, conn, n);
      assert before + [m] == ms;
      FirstOfMore(before, m, n);
      var t := ApplyInitialAll(ForgetIds(c), before, conn).table;
      if Assigns(m, n) { OneHere(t, m, conn, n); } else { OneElsewhere(t, m, conn, n); }
    }
  }

  /**
   What becomes of every entry: the client keeps its flags, and its value if it wrote it and does not save it; the rest
   is the server's. An entry that the server does not have goes away, unless it was written here.
   */
  lemma OldServerDecides(c: Table, ms: seq<Message>, conn: Conn, n: Text)
    requires conn.protoRev < PROTO_3 && !c.server && MarksHaveValues(c)
    ensures var was, now := At(c, n), At(ApplyInitial(c, ms, conn).table, n);
            if LastOf(ms, n).None? && was.value.Some? && !was.localWrite then now.value.None? && now.id == UNASSIGNED
            else Taken(was, now, ms, n)
  {
    BatchSoFar(c, ms, conn, n);
    hide ForgetIds, Increment, Assigns, FirstOf, ApplyInitialAll;
    AfterForgetting(ApplyInitialAll(ForgetIds(c), ms, conn).table, n);
  }

  lemma AfterForgetting(t: Table, n: Text)
    ensures At(DeleteNames(t, Forgotten(t)), n)
            == if Unnumbered(At(t, n)) && !At(t, n).localWrite then Emptied(At(t, n)) else At(t, n)
  {
  }

  // ---------------------------------------------------------------- what the client sends

  /** For each assignment of an entry that the client keeps, its value under the next number. */
  function KeptUpdates(c: Table, ms: seq<Message>): seq<Outgoing> {
    if ms == [] then []
    else
      var m := ms[|ms| - 1];
      KeptUpdates(c, ms[..|ms| - 1])
      + (if m.EntryAssign? && m.id != UNASSIGNED && Own(At(c, m.name)) then
           ToAll(EntryUpdate(m.id, Increment(m.seqNum), At(c, m.name).value.value))
         else [])
  }

  lemma OneUpdate(t: Table, m: Message, conn: Conn)
    ensures ApplyInitialOne(t, m, conn).out
            == if m.EntryAssign? && m.id != UNASSIGNED && Own(At(t, m.name)) then
                 ToAll(EntryUpdate(m.id, Increment(m.seqNum), At(t, m.name).value.value))
               else []
  {
  }

  lemma {:induction false} OldServerIsUpdated(c: Table, ms: seq<Message>, conn: Conn)
    requires conn.protoRev < PROTO_3 && MarksHaveValues(c)
    ensures ApplyInitialAll(ForgetIds(c), ms, conn).out == KeptUpdates(c, ms)
    decreases |ms|
  {
    hide ApplyInitialOne, ForgetIds, Increment, MarksHaveValues, Assigns, FirstOf;
    if ms != [] {
      var before, m := ms[..|ms| - 1], ms[|ms| - 1];
      OldServerIsUpdated(c, before, conn);
      var t := ApplyInitialAll(ForgetIds(c), before, conn).table;
      OneUpdate(t, m, conn);
      if m.EntryAssign? {
        BatchSoFar(c, before, conn, m.name);
        OwnStays(c, t, before, m.name);
      }
    }
  }

  lemma OwnStays(c: Table, t: Table, ms: seq<Message>, n: Text)
    requires MarksHaveValues(c) && Taken(At(c, n), At(t, n), ms, n)
    ensures Own(At(t, n)) <==> Own(At(c, n))
    ensures Own(At(c, n)) ==> At(t, n).value == At(c, n).value
  {
  }

  lemma {:induction false} RequestsAre(t: Table, names: seq<Text>, m: Message)
    ensures m in Requests(t, names)
            <==> exists n :: n in names && Unnumbered(At(t, n)) && At(t, n).localWrite && m == AssignOf(n, At(t, n))
    decreases |names|
  {
    if names != [] {
      var k := |names| - 1;
      RequestsAre(t, names[..k], m);
      assert names == names[..k] + [names[k]];
    }
  }

  lemma {:induction false} NamesStay(t: Table, ms: seq<Message>, conn: Conn)
    ensures t.localmap <= ApplyInitialAll(t, ms, conn).table.localmap
    decreases |ms|
  {
    if ms != [] {
      NamesStay(t, ms[..|ms| - 1], conn);
    }
  }

  /** An entry that the server does not have, and that was written here: the client asks for an id. */
  predicate Missing(c: Table, ms: seq<Message>, n: Text) {
    At(c, n).value.Some? && At(c, n).localWrite && LastOf(ms, n).None?
  }

  /** The updates and the requests that the client sends. */
  lemma OldServerHears(c: Table, ms: seq<Message>, conn: Conn, m: Message)
    requires conn.protoRev < PROTO_3 && !c.server && MarksHaveValues(c)
    requires forall n :: n in c.entries ==> n in c.localmap
    ensures ApplyInitial(c, ms, conn).updates == KeptUpdates(c, ms)
    ensures m in ApplyInitial(c, ms, conn).assigns
            <==> exists n :: Missing(c, ms, n) && m == AssignOf(n, At(c, n).(id := UNASSIGNED))
  {
    OldServerIsUpdated(c, ms, conn);
    NamesStay(ForgetIds(c), ms, conn);
    var t := ApplyInitialAll(ForgetIds(c), ms, conn).table;
    RequestsAre(t, t.localmap, m);
    hide ApplyInitialAll, Requests, MarksHaveValues, Assigns, FirstOf, LastOf, AssignOf;
    forall n ensures Missing(c, ms, n) <==> Unnumbered(At(t, n)) && At(t, n).localWrite {
      BatchSoFar(c, ms, conn, n);
      MissingIsUnnumbered(c, t, ms, n);
    }
    forall n ensures Missing(c, ms, n) ==> At(t, n) == At(c, n).(id := UNASSIGNED) && n in t.localmap {
      BatchSoFar(c, ms, conn, n);
    }
  }

  lemma MissingIsUnnumbered(c: Table, t: Table, ms: seq<Message>, n: Text)
    requires MarksHaveValues(c) && Taken(At(c, n), At(t, n), ms, n)
    ensures Missing(c, ms, n) <==> Unnumbered(At(t, n)) && At(t, n).localWrite
  {
  }
}
