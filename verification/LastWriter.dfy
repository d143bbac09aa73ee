/** Updates of one entry in any order, and any number of times: the last write wins. */
module LastWriter {
  import opened Wrappers
  import opened Serial
  import opened Protocol
  import opened StorageSpec
  import opened Network

  /** Updates of the entry with this id, at most 32767 increments ahead of a base; one writer numbers them. */
  predicate Recent(id: nat, base: U16, ms: seq<Message>) {
    && (forall m :: m in ms ==> m.EntryUpdate? && m.id == id && Offset(base, m.seqNum) < HALF)
    && (forall m, m' :: m in ms && m' in ms && m.seqNum == m'.seqNum ==> m == m')
  }

  /** The record is what the furthest write left, or what was there if none is ahead. */
  predicate Latest(was: Record, now: Record, ms: seq<Message>)
    requires forall m :: m in ms ==> m.EntryUpdate?
  {
    && (forall m :: m in ms ==> Offset(was.seqNum, m.seqNum) <= Offset(was.seqNum, now.seqNum))
    && (now == was || exists m ::
        m in ms && m.seqNum != was.seqNum && now == was.(value := Some(m.value), seqNum := m.seqNum))
  }

  lemma UpdateAtEntry(t: Table, n: Text, m: Message, conn: Conn)
    requires m.EntryUpdate? && Lookup(t, m.id) == Some(n) && n in t.entries
    ensures var t', r := ProcessIncoming(t, m, conn).table, t.entries[n];
            && Lookup(t', m.id) == Some(n) && n in t'.entries
            && t'.entries[n] == if NewerOrEqual(r.seqNum, m.seqNum) then r
                else r.(value := Some(m.value), seqNum := m.seqNum)
  {
  }

  lemma {:induction false} LastWriterWins(t: Table, n: Text, id: nat, ms: seq<Message>, conn: Conn)
    requires Lookup(t, id) == Some(n) && n in t.entries && Recent(id, t.entries[n].seqNum, ms)
    ensures var t' := Drain(t, ms, conn).table;
            && Lookup(t', id) == Some(n) && n in t'.entries
            && Offset(t.entries[n].seqNum, t'.entries[n].seqNum) < HALF
            && Latest(t.entries[n], t'.entries[n], ms)
    decreases |ms|
  {
    if ms != [] {
      var k := |ms| - 1;
      LastWriterWins(t, n, id, ms[..k], conn);
      var t1 := Drain(t, ms[..k], conn).table;
      UpdateAtEntry(t1, n, ms[k], conn);
      NewerInWindow(t.entries[n].seqNum, t1.entries[n].seqNum, ms[k].seqNum);
      hide ProcessIncoming;
      assert ms == ms[..k] + [ms[k]];
    }
  }

  /** Two deliveries of the same updates, in whatever order and with whatever repetitions, end alike. */
  lemma OrderDoesNotMatter(t: Table, n: Text, id: nat, ms: seq<Message>, ms': seq<Message>, conn: Conn)
    requires Lookup(t, id) == Some(n) && n in t.entries && Recent(id, t.entries[n].seqNum, ms)
    requires forall m :: m in ms <==> m in ms'
    ensures At(Drain(t, ms, conn).table, n) == At(Drain(t, ms', conn).table, n)
  {
    hide Drain;
    LastWriterWins(t, n, id, ms, conn);
    LastWriterWins(t, n, id, ms', conn);
    var base := t.entries[n].seqNum;
    var a, b := Drain(t, ms, conn).table.entries[n], Drain(t, ms', conn).table.entries[n];
    SameOffset(base, a.seqNum, b.seqNum);
    SameOffset(base, a.seqNum, base);
    SameOffset(base, b.seqNum, base);
  }
}
