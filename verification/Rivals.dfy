/** Two writers of one entry at once: a server and its client, in sync, each set it any number of times. */
module Rivals {
  import opened Wrappers
  import opened Serial
  import opened Protocol
  import opened StorageSpec
  import opened Index
  import opened Replication
  import opened Network
  import opened PendingId

  // ---------------------------------------------------------------- one side writes

  /** Each value is of the type of the one before it, and differs from it. */
  predicate Varied(v: Value, vs: seq<Value>) {
    vs == [] ||
    (var k := |vs| - 1;
     Varied(v, vs[..k]) && vs[k].Type() == v.Type() && vs[k] != Final(v, vs[..k]))
  }

  function Final(v: Value, vs: seq<Value>): Value {
    if vs == [] then v else vs[|vs| - 1]
  }

  function Setting(n: Text, vs: seq<Value>, turn: Op -> Turn): seq<Turn> {
    if vs == [] then [] else Setting(n, vs[..|vs| - 1], turn) + [turn(Set(n, vs[|vs| - 1]))]
  }

  function TakeTurns(d: Duo, turns: seq<Turn>, conn: Conn, link: Conn): Duo {
    if turns == [] then d else After(TakeTurns(d, turns[..|turns| - 1], conn, link), turns[|turns| - 1], conn, link)
  }

  /** What the writes send. */
  function UpdatesSent(id: nat, s: U16, vs: seq<Value>): seq<Message> {
    if vs == [] then []
    else UpdatesSent(id, s, vs[..|vs| - 1]) + [EntryUpdate(id, Advance(s, |vs|), vs[|vs| - 1])]
  }

  /** The entry after some writes; everything else that matters is as it was. */
  ghost predicate WroteAll(t: Table, t': Table, n: Text, vs: seq<Value>) {
    && n in t.entries && n in t'.entries && t.entries[n].value.Some?
    && t'.idmap == t.idmap && t'.server == t.server && t'.entries[n].id == t.entries[n].id
    && t'.entries[n].value == Some(Final(t.entries[n].value.value, vs))
    && t'.entries[n].seqNum == Advance(t.entries[n].seqNum, |vs|)
  }

  lemma SetSends(t: Table, n: Text, v: Value)
    requires n != [] && n in t.entries && t.entries[n].id != UNASSIGNED && t.entries[n].value.Some?
    requires t.entries[n].value.value != v && t.entries[n].value.value.Type() == v.Type()
    ensures var e, r := Step(t, Set(n, v)), t.entries[n];
            && e.out == ToAll(EntryUpdate(r.id, Increment(r.seqNum), v)) && e.table.idmap == t.idmap
            && At(e.table, n).value == Some(v) && At(e.table, n).seqNum == Increment(r.seqNum)
            && n in e.table.entries && e.table.entries[n].id == r.id && e.table.server == t.server
  {
  }

  lemma LastIsVaried(v: Value, vs: seq<Value>)
    requires vs != [] && Varied(v, vs)
    ensures var was := Final(v, vs[..|vs| - 1]);
            vs[|vs| - 1].Type() == was.Type() && vs[|vs| - 1] != was && Final(v, vs) == vs[|vs| - 1]
  {
  }

  lemma AdvanceNext(s: U16, n: nat)
    ensures Advance(s, n + 1) == Increment(Advance(s, n))
  {
  }

  lemma OneWrite(t: Table, t1: Table, n: Text, vs: seq<Value>)
    requires vs != [] && WroteAll(t, t1, n, vs[..|vs| - 1]) && Varied(t.entries[n].value.value, vs)
    requires n != [] && t.entries[n].id != UNASSIGNED
    ensures var e := Step(t1, Set(n, vs[|vs| - 1]));
            && WroteAll(t, e.table, n, vs)
            && e.out == ToAll(EntryUpdate(t.entries[n].id, Advance(t.entries[n].seqNum, |vs|), vs[|vs| - 1]))
  {
    hide Step, Varied, Final, Advance, Increment;
    LastIsVaried(t.entries[n].value.value, vs);
    AdvanceNext(t.entries[n].seqNum, |vs| - 1);
    SetSends(t1, n, vs[|vs| - 1]);
    KeysOfAt(Step(t1, Set(n, vs[|vs| - 1])).table, n);
  }

  lemma KeysOfAt(t: Table, n: Text)
    requires n in t.entries
    ensures At(t, n) == t.entries[n]
  {
  }

  lemma {:induction false} ServerWrites(d: Duo, n: Text, vs: seq<Value>, conn: Conn, link: Conn)
    requires n != [] && n in d.server.entries && d.server.entries[n].value.Some?
    requires d.server.entries[n].id != UNASSIGNED && Varied(d.server.entries[n].value.value, vs)
    ensures var d' := TakeTurns(d, Setting(n, vs, op => ServerDoes(op)), conn, link);
            var r := d.server.entries[n];
            && WroteAll(d.server, d'.server, n, vs) && d'.client == d.client && d'.up == d.up
            && d'.down == d.down + UpdatesSent(r.id, r.seqNum, vs)
    decreases |vs|
  {
    hide Step, Routed, WroteAll;
    var turn := op => ServerDoes(op);
    if vs == [] {
      NothingWritten(d.server, n);
    } else {
      var k := |vs| - 1;
      ServerWrites(d, n, vs[..k], conn, link);
      assert Setting(n, vs, turn)[..|Setting(n, vs, turn)| - 1] == Setting(n, vs[..k], turn);
      var d1 := TakeTurns(d, Setting(n, vs[..k], turn), conn, link);
      OneWrite(d.server, d1.server, n, vs);
      RoutedOne(Step(d1.server, Set(n, vs[k])).out[0], conn);
    }
  }

  lemma {:induction false} ClientWrites(d: Duo, n: Text, vs: seq<Value>, conn: Conn, link: Conn)
    requires n != [] && n in d.client.entries && d.client.entries[n].value.Some?
    requires d.client.entries[n].id != UNASSIGNED && Varied(d.client.entries[n].value.value, vs)
    ensures var d' := TakeTurns(d, Setting(n, vs, op => ClientDoes(op)), conn, link);
            var r := d.client.entries[n];
            && WroteAll(d.client, d'.client, n, vs) && d'.server == d.server && d'.down == d.down
            && d'.up == d.up + UpdatesSent(r.id, r.seqNum, vs)
    decreases |vs|
  {
    hide Step, WroteAll;
    var turn := op => ClientDoes(op);
    if vs == [] {
      NothingWritten(d.client, n);
    } else {
      var k := |vs| - 1;
      ClientWrites(d, n, vs[..k], conn, link);
      assert Setting(n, vs, turn)[..|Setting(n, vs, turn)| - 1] == Setting(n, vs[..k], turn);
      var d1 := TakeTurns(d, Setting(n, vs[..k], turn), conn, link);
      OneWrite(d.client, d1.client, n, vs);
    }
  }

  lemma NothingWritten(t: Table, n: Text)
    requires n in t.entries && t.entries[n].value.Some?
    ensures WroteAll(t, t, n, [])
  {
  }

  // ---------------------------------------------------------------- the other side reads

  /** Exactly the updates with numbers beyond the reader's own are taken. */
  ghost predicate ReadThrough(t: Table, t': Table, n: Text, k: nat, s: U16, vs: seq<Value>) {
    && t'.server == t.server && t'.idmap == t.idmap && n in t'.entries && n in t.entries
    && t'.entries[n].id == t.entries[n].id
    && if |vs| <= k then t'.entries[n].value == t.entries[n].value && t'.entries[n].seqNum == t.entries[n].seqNum
       else t'.entries[n].value == Some(vs[|vs| - 1]) && t'.entries[n].seqNum == Advance(s, |vs|)
  }

  lemma OneRead(t: Table, t1: Table, n: Text, k: nat, s: U16, vs: seq<Value>, conn: Conn)
    requires vs != [] && k < HALF && |vs| < HALF && n in t.entries && t.entries[n].seqNum == Advance(s, k)
    requires Lookup(t, t.entries[n].id) == Some(n) && ReadThrough(t, t1, n, k, s, vs[..|vs| - 1])
    ensures var m := EntryUpdate(t.entries[n].id, Advance(s, |vs|), vs[|vs| - 1]);
            ReadThrough(t, ProcessIncoming(t1, m, conn).table, n, k, s, vs)
  {
    hide Advance, NewerOrEqual;
    IncrementsAreNewer(s, |vs|);
    IncrementsAreNewer(s, |vs| - 1);
    IncrementsAreNewer(s, k);
    NewerInWindow(s, t1.entries[n].seqNum, Advance(s, |vs|));
  }

  lemma {:induction false} UpdatesRead(t: Table, n: Text, k: nat, s: U16, vs: seq<Value>, conn: Conn)
    requires k < HALF && |vs| < HALF && n in t.entries && t.entries[n].seqNum == Advance(s, k)
    requires Lookup(t, t.entries[n].id) == Some(n)
    ensures ReadThrough(t, Drain(t, UpdatesSent(t.entries[n].id, s, vs), conn).table, n, k, s, vs)
    decreases |vs|
  {
    hide ProcessIncoming, ReadThrough, Advance;
    var id := t.entries[n].id;
    if vs == [] {
      NothingRead(t, n, k, s);
    } else {
      UpdatesRead(t, n, k, s, vs[..|vs| - 1], conn);
      var ms := UpdatesSent(id, s, vs);
      assert ms[..|ms| - 1] == UpdatesSent(id, s, vs[..|vs| - 1]);
      OneRead(t, Drain(t, ms[..|ms| - 1], conn).table, n, k, s, vs, conn);
    }
  }

  lemma NothingRead(t: Table, n: Text, k: nat, s: U16)
    requires n in t.entries
    ensures ReadThrough(t, t, n, k, s, [])
  {
  }

  predicate AreUpdates(ms: seq<Message>, id: nat) {
    forall m :: m in ms ==> m.EntryUpdate? && m.id == id
  }

  lemma {:induction false} UpdatesAre(id: nat, s: U16, vs: seq<Value>)
    ensures AreUpdates(UpdatesSent(id, s, vs), id)
  {
    if vs != [] { UpdatesAre(id, s, vs[..|vs| - 1]); }
  }

  /** An update of a known entry is answered to nobody at the other end. */
  lemma UpdateIsQuiet(t: Table, m: Message, conn: Conn)
    requires m.EntryUpdate?
    ensures var e := ProcessIncoming(t, m, conn);
            && Routed(e.out, conn) == [] && (!t.server ==> e.out == [])
            && e.table.server == t.server && e.table.idmap == t.idmap
  {
    var out := ProcessIncoming(t, m, conn).out;
    if |out| == 1 { assert out == [out[0]]; RoutedOne(out[0], conn); }
  }

  lemma FirstThenRest(t: Table, ms: seq<Message>, conn: Conn)
    requires ms != []
    ensures Drain(ProcessIncoming(t, ms[0], conn).table, ms[1..], conn).table == Drain(t, ms, conn).table
  {
    hide ProcessIncoming;
    assert ms == [ms[0]] + ms[1..];
    assert [ms[0]][..0] == [];
    DrainConcat(t, [ms[0]], ms[1..], conn);
  }

  lemma {:induction false} QuietUp(d: Duo, id: nat, conn: Conn, link: Conn)
    requires d.server.server && !d.client.server && AreUpdates(d.up, id)
    ensures Drain(d.server, d.up, conn).table.server
    ensures Quiet(d, conn, link) == Quiet(Duo(Drain(d.server, d.up, conn).table, d.client, [], d.down), conn, link)
    decreases |d.up|
  {
    hide ProcessIncoming, Routed, Load;
    if d.up != [] {
      assert d.up[0] in d.up;
      UpdateIsQuiet(d.server, d.up[0], conn);
      FirstThenRest(d.server, d.up, conn);
      var d' := After(d, ServerReads, conn, link);
      assert d'.down == d.down;
      QuietUp(d', id, conn, link);
    }
  }

  lemma {:induction false} QuietDown(d: Duo, id: nat, conn: Conn, link: Conn)
    requires d.server.server && !d.client.server && d.up == [] && AreUpdates(d.down, id)
    ensures Quiet(d, conn, link) == Duo(d.server, Drain(d.client, d.down, link).table, [], [])
    decreases |d.down|
  {
    hide ProcessIncoming, Load;
    if d.down != [] {
      assert d.down[0] in d.down;
      UpdateIsQuiet(d.client, d.down[0], link);
      FirstThenRest(d.client, d.down, link);
      var d' := After(d, ClientReads, conn, link);
      assert d'.up == [];
      QuietDown(d', id, conn, link);
    }
  }

  // ---------------------------------------------------------------- the theorem

  lemma SyncedRecords(s: Table, c: Table, n: Text)
    requires Synced(Net(s, [], c)) && At(s, n).value.Some?
    ensures s.server && !c.server && n in s.entries && n in c.entries
    ensures At(s, n).id == At(c, n).id != UNASSIGNED && At(s, n).value == At(c, n).value
              && At(s, n).seqNum == At(c, n).seqNum
    ensures Lookup(s, At(s, n).id) == Some(n) && Lookup(c, At(s, n).id) == Some(n)
  {
    assert CellsOf(s) == CellsOf(c);
    hide Settled, CellsOf;
    SameRecords(s, c, n);
    ServerRecord(s, n);
    ServerRecord(c, n);
  }

  lemma BothWrite(s: Table, c: Table, n: Text, vs: seq<Value>, ws: seq<Value>, conn: Conn, link: Conn)
    requires Synced(Net(s, [], c)) && n != [] && At(s, n).value.Some?
    requires Varied(At(s, n).value.value, vs) && Varied(At(s, n).value.value, ws)
    ensures n in s.entries && n in c.entries
    ensures var d := TakeTurns(TakeTurns(Duo(s, c, [], []), Setting(n, vs, op => ServerDoes(op)), conn, link),
                          Setting(n, ws, op => ClientDoes(op)), conn, link);
            && WroteAll(s, d.server, n, vs) && WroteAll(c, d.client, n, ws)
            && d.down == UpdatesSent(At(s, n).id, At(s, n).seqNum, vs)
            && d.up == UpdatesSent(At(s, n).id, At(s, n).seqNum, ws)
  {
    hide Synced, After, WroteAll, TakeTurns;
    SyncedRecords(s, c, n);
    KeysOfAt(s, n);
    KeysOfAt(c, n);
    ServerWrites(Duo(s, c, [], []), n, vs, conn, link);
    ClientWrites(TakeTurns(Duo(s, c, [], []), Setting(n, vs, op => ServerDoes(op)), conn, link), n, ws, conn, link);
  }

  /** What a side ends with: the other's last value if the other wrote more often, else its own. */
  function Winner(v: Value, own: seq<Value>, other: seq<Value>): Value {
    if |other| > |own| then Final(v, other) else Final(v, own)
  }

  /**
   If server and client, in sync, each set an entry, fewer than 32768 times, then once everything has been read the
   one that wrote more often has won on both sides; but if they wrote equally often, all updates are ignored and each
   keeps its own. So they agree if and only if the numbers of writes differ or the last values are the same.
   */
  lemma RivalsAgreeIff(s: Table, c: Table, n: Text, vs: seq<Value>, ws: seq<Value>, conn: Conn, link: Conn)
    requires Synced(Net(s, [], c)) && n != [] && At(s, n).value.Some?
    requires Varied(At(s, n).value.value, vs) && Varied(At(s, n).value.value, ws) && |vs| < HALF && |ws| < HALF
    ensures var d := TakeTurns(TakeTurns(Duo(s, c, [], []), Setting(n, vs, op => ServerDoes(op)), conn, link),
                          Setting(n, ws, op => ClientDoes(op)), conn, link);
            var v := At(s, n).value.value;
            && d.server.server && !d.client.server
            && var q := Quiet(d, conn, link);
               && At(q.server, n).value == Some(Winner(v, vs, ws))
               && At(q.client, n).value == Some(Winner(v, ws, vs))
               && (At(q.server, n).value == At(q.client, n).value <==> |vs| != |ws| || Final(v, vs) == Final(v, ws))
  {
    hide Synced, After, TakeTurns, Quiet, UpdatesSent, Drain, Advance, Setting, Varied;
    BothWrite(s, c, n, vs, ws, conn, link);
    SyncedRecords(s, c, n);
    KeysOfAt(s, n);
    KeysOfAt(c, n);
    var d := TakeTurns(TakeTurns(Duo(s, c, [], []), Setting(n, vs, op => ServerDoes(op)), conn, link),
                  Setting(n, ws, op => ClientDoes(op)), conn, link);
    var id, num := At(s, n).id, At(s, n).seqNum;
    UpdatesAre(id, num, vs);
    UpdatesAre(id, num, ws);
    UpdatesRead(d.server, n, |vs|, num, ws, conn);
    UpdatesRead(d.client, n, |ws|, num, vs, link);
    QuietUp(d, id, conn, link);
    QuietDown(Duo(Drain(d.server, d.up, conn).table, d.client, [], d.down), id, conn, link);
    var q := Quiet(d, conn, link);
    KeysOfAt(q.server, n);
    KeysOfAt(q.client, n);
  }

  /** The smallest case: one write on each side leaves the two apart for good, unless they wrote the same. */
  lemma SimultaneousWritesStay(s: Table, c: Table, n: Text, v: Value, w: Value, conn: Conn, link: Conn)
    requires Synced(Net(s, [], c)) && n != [] && At(s, n).value.Some?
    requires v.Type() == w.Type() == At(s, n).value.value.Type()
    requires v != At(s, n).value.value && w != At(s, n).value.value
    ensures var d0 := Duo(s, c, [], []);
            var d := After(After(d0, ServerDoes(Set(n, v)), conn, link), ClientDoes(Set(n, w)), conn, link);
            && d.server.server && !d.client.server
            && var q := Quiet(d, conn, link);
               At(q.server, n).value == Some(v) && At(q.client, n).value == Some(w)
  {
    hide Synced, After, Quiet, At;
    assert [v][..0] == [] && [w][..0] == [];
    assert Varied(At(s, n).value.value, []);
    assert Varied(At(s, n).value.value, [v]) && Varied(At(s, n).value.value, [w]);
    RivalsAgreeIff(s, c, n, [v], [w], conn, link);
    PlayOne(Duo(s, c, [], []), n, v, op => ServerDoes(op), conn, link);
    PlayOne(After(Duo(s, c, [], []), ServerDoes(Set(n, v)), conn, link), n, w, op => ClientDoes(op), conn, link);
  }

  lemma PlayOne(d: Duo, n: Text, v: Value, turn: Op -> Turn, conn: Conn, link: Conn)
    ensures TakeTurns(d, Setting(n, [v], turn), conn, link) == After(d, turn(Set(n, v)), conn, link)
  {
    hide After;
    assert [v][..0] == [];
    assert Setting(n, [v], turn) == [turn(Set(n, v))];
    assert [turn(Set(n, v))][..0] == [];
    assert TakeTurns(d, [], conn, link) == d;
  }
}
