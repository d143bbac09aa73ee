/** Clients of protocol 2.0, whose updates carry no type: they have to know it from their own entries. */
module OldPeers {
  import opened Wrappers
  import opened Protocol
  import opened StorageSpec
  import opened Index
  import opened Replication
  import opened WireSpec
  import opened WireRoundTrip

  /** What `getMessageEntryType` answers, as far as it knows a type. */
  function EntryTypes(t: Table): map<nat, ValueType> {
    map i | 0 <= i < |t.idmap| && t.idmap[i].Some? && At(t, t.idmap[i].value).value.Some? ::
      At(t, t.idmap[i].value).value.value.Type()
  }

  lemma SameCellsSameTypes(a: Table, b: Table)
    requires CellsOf(a) == CellsOf(b)
    ensures EntryTypes(a) == EntryTypes(b)
  {
    forall i | i in EntryTypes(a) ensures i in EntryTypes(b) && EntryTypes(b)[i] == EntryTypes(a)[i] {
      assert i in CellsOf(a) && CellsOf(a)[i] == CellsOf(b)[i];
    }
    forall i | i in EntryTypes(b)
        ensures i in EntryTypes(a) { assert i in CellsOf(b) && CellsOf(a)[i] == CellsOf(b)[i]; }
  }

  lemma TypeOfEntry(t: Table, n: Text)
    requires Settled(t) && n in t.entries
    ensures t.entries[n].value.Some? <==> t.entries[n].id != UNASSIGNED
    ensures t.entries[n].value.Some? ==>
              t.entries[n].id in EntryTypes(t) && EntryTypes(t)[t.entries[n].id] == t.entries[n].value.value.Type()
  {
    assert RecordOk(t, n) && RecordExact(t, n);
  }

  lemma SetKeepsType(t: Table, n: Text, v: Value)
    requires Settled(t) && t.server && n in t.entries
    ensures forall o :: o in SetValue(t, n, v, true).out && o.msg.EntryUpdate? ==>
              o.msg.id in EntryTypes(t) && EntryTypes(t)[o.msg.id] == o.msg.value.Type()
  {
    hide Settled, EntryTypes;
    TypeOfEntry(t, n);
  }

  lemma TypesOfGetOrNew(t: Table, n: Text)
    requires Settled(t)
    ensures EntryTypes(GetOrNew(t, n)) == EntryTypes(t)
  {
    CellsOfGetOrNew(t, n);
    SameCellsSameTypes(t, GetOrNew(t, n));
  }

  /** A server's own changes of type go out as assignments, so that its updates never change a type. */
  lemma OwnUpdatesKeepType(t: Table, op: Op)
    requires Settled(t) && t.server && !op.Incoming?
    ensures forall o :: o in Step(t, op).out && o.msg.EntryUpdate? ==>
              o.msg.id in EntryTypes(t) && EntryTypes(t)[o.msg.id] == o.msg.value.Type()
  {
    hide Indexed, Exact, GetOrNew, SetValue, EntryTypes, DeleteNames;
    match op
    case Set(n, v) => OwnSet(t, n, v);
    case ForceSet(n, v) => OwnSet(t, n, v);
    case SetDefault(n, v) => OwnSet(t, n, v);
    case _ =>
  }

  lemma OwnSet(t: Table, n: Text, v: Value)
    requires Settled(t) && t.server
    ensures forall o :: o in SetValue(GetOrNew(t, n), n, v, true).out && o.msg.EntryUpdate? ==>
              o.msg.id in EntryTypes(t) && EntryTypes(t)[o.msg.id] == o.msg.value.Type()
  {
    hide EntryTypes, SetValue;
    GetOrNewKeeps(t, n);
    TypesOfGetOrNew(t, n);
    SetKeepsType(GetOrNew(t, n), n, v);
  }

  /**
   The client knows at least the server's entries, with their types. Their flags and numbers do not matter, nor do
   entries that the server has deleted: protocol 2.0 tells a client of neither flags nor deletions.
   */
  predicate KnowsTypes(c: Table, s: Table) {
    forall i :: i in EntryTypes(s) ==> i in EntryTypes(c) && EntryTypes(c)[i] == EntryTypes(s)[i]
  }

  /**
   A client of protocol 2.0 that knows the types of the server's entries reads what the server sends about its own
   operations, with the rest of the stream in step; updates do not lose their type on the way.
   */
  lemma OldClientReadsServer(s: Table, c: Table, op: Op, o: Outgoing, rest: seq<Byte>)
    requires Settled(s) && s.server && KnowsTypes(c, s) && !op.Incoming?
    requires o in Step(s, op).out && WriteMessage(V2, o.msg).Ok? && !OnlyV3(o.msg)
    ensures ReadMessage(V2, EntryTypes(c), WriteMessage(V2, o.msg).value + rest)
              == Ok((ReceivedMessage(V2, o.msg), rest))
  {
    hide Step, Settled, CellsOf, EntryTypes, ReadMessage, WriteMessage, ReceivedMessage, OnlyV3;
    OwnUpdatesKeepType(s, op);
    MessageRoundTrip(V2, EntryTypes(c), o.msg, rest);
  }

  /** A relayed update has the type that its sender gave it, and is read so only if the entry has that type too. */
  lemma OldClientReadsRelayIff(s: Table, c: Table, m: Message, conn: Conn, rest: seq<Byte>)
    requires Settled(s) && s.server && KnowsTypes(c, s) && m.EntryUpdate?
    requires ProcessIncoming(s, m, conn).out != [] && WriteMessage(V2, m).Ok?
    ensures ProcessIncoming(s, m, conn).out == [Outgoing(m, Some(conn))]
    ensures Lookup(s, m.id).Some? && At(s, Lookup(s, m.id).value).value.Some?
    ensures ReadMessage(V2, EntryTypes(c), WriteMessage(V2, m).value + rest) == Ok((ReceivedMessage(V2, m), rest))
            <==> At(s, Lookup(s, m.id).value).value.value.Type() == m.value.Type()
  {
    SlotGives(s, m.id);
    TypeOfEntry(s, Lookup(s, m.id).value);
    hide CellsOf, Settled, EntryTypes, ReadMessage, WriteMessage, ReceivedMessage;
    UpdateReadIff(EntryTypes(c), m, rest);
  }
}
