/**
 What a file load does, and what clients hear of it. A load advances the number of every entry that it lists, also of
 those for which it sends nothing, so that the numbers of server and clients drift apart.
 */
module Loading {
  import opened Wrappers
  import opened Serial
  import opened Protocol
  import opened StorageSpec
  import opened Index
  import opened Receiver
  import opened Replication
  import opened Network
  import opened Effects
  import opened Relaying

  type Items = seq<(Text, Value)>

  // ---------------------------------------------------------------- what becomes of the entries

  /** The last value that the list has for each name wins. */
  function ValuesLoaded(values: map<Text, Value>, loaded: Items): map<Text, Value> {
    if loaded == [] then values
    else ValuesLoaded(values, loaded[..|loaded| - 1])[loaded[|loaded| - 1].0 := loaded[|loaded| - 1].1]
  }

  function Count(loaded: Items, n: Text): nat {
    if loaded == [] then 0 else Count(loaded[..|loaded| - 1], n) + if loaded[|loaded| - 1].0 == n then 1 else 0
  }

  /** A persistent load sets bit 0 of the flags. */
  function Marked(flags: int, persistent: bool): int {
    if persistent && !Persistent(flags) then flags + 1 else flags
  }

  lemma LoadOneDoes(t: Table, n: Text, v: Value, persistent: bool, k: Text)
    ensures ValuesOf(LoadOne(t, n, v, persistent).table) == ValuesOf(t)[n := v]
    ensures var was, now := At(t, k), At(LoadOne(t, n, v, persistent).table, k);
            if k == n then
              now.flags == Marked(was.flags, persistent) && now.seqNum == Increment(was.seqNum)
              && now.localWrite == was.localWrite
            else now == was
  {
  }

  /** What a load does to every entry. */
  lemma {:induction false} LoadDoes(t: Table, loaded: Items, persistent: bool, n: Text)
    ensures var t' := LoadAll(t, loaded, persistent).table; var was, now := At(t, n), At(t', n);
            && ValuesOf(t') == ValuesLoaded(ValuesOf(t), loaded)
            && now.flags == (if Count(loaded, n) > 0 then Marked(was.flags, persistent) else was.flags)
            && now.seqNum == Advance(was.seqNum, Count(loaded, n))
            && now.localWrite == was.localWrite
    decreases |loaded|
  {
    hide LoadOne, ValuesOf, Increment, At;
    if loaded != [] {
      var k := |loaded| - 1;
      LoadDoes(t, loaded[..k], persistent, n);
      LoadOneDoes(LoadAll(t, loaded[..k], persistent).table, loaded[k].0, loaded[k].1, persistent, n);
    }
  }

  // ---------------------------------------------------------------- one entry of the list

  /** Cells without their numbers. */
  function Faces(cells: Cells): Cells {
    map i | i in cells :: cells[i].(seqNum := 0)
  }

  /** A write that is so much further on is taken; one with the same number only if it is an assignment. */
  predicate InReach(distance: nat, assigns: bool) {
    distance <= HALF && (distance != 0 || assigns)
  }

  /** What is sent of an entry that has a value already. */
  function Told(n: Text, was: Record, v: Value, persistent: bool): seq<Message>
    requires was.value.Some?
  {
    var flags := Marked(was.flags, persistent);
    if was.value.value.Type() != v.Type() then [EntryAssign(n, was.id, Increment(was.seqNum), v, flags)]
    else (if was.value.value != v then [EntryUpdate(was.id, Increment(was.seqNum), v)] else [])
         + (if flags != was.flags then [FlagsUpdate(was.id, flags)] else [])
  }

  lemma MessagesConcat(a: seq<Outgoing>, b: seq<Outgoing>)
    ensures Messages(a + b) == Messages(a) + Messages(b)
  {
  }

  lemma KnownRecord(t: Table, n: Text, v: Value, persistent: bool)
    requires n in t.entries && t.entries[n].value.Some? && t.entries[n].id != UNASSIGNED
    ensures var e, was := LoadOne(t, n, v, persistent), t.entries[n];
            && Messages(e.out) == Told(n, was, v, persistent)
            && e.table == Put(t.(dirty := t.dirty), n, Record(Some(v), Marked(was.flags, persistent), was.id,
                                                              Increment(was.seqNum), was.localWrite))
  {
    hide Increment;
  }

  /**
   What a client sends for an item: for an entry with an id what has changed of it, and for one without a request if it
   is new or gets another type. The rest goes with the answer to the request.
   */
  lemma ClientLoadTells(t: Table, n: Text, v: Value, persistent: bool)
    requires Indexed(t) && !t.server
    ensures var out, was := LoadOne(t, n, v, persistent).out, At(t, n);
            if was.id != UNASSIGNED then was.value.Some? && Messages(out) == Told(n, was, v, persistent)
            else if was.value.None? || was.value.value.Type() != v.Type() then
              Messages(out) == [EntryAssign(n, UNASSIGNED, Increment(was.seqNum), v, Marked(was.flags, persistent))]
            else Messages(out) == []
    ensures forall o :: o in LoadOne(t, n, v, persistent).out ==> o.except.None?
  {
    if At(t, n).id != UNASSIGNED {
      assert RecordOk(t, n);
      hide Indexed;
      KnownRecord(t, n, v, persistent);
    }
  }

  lemma LiveIsNumbered(t: Table, n: Text)
    requires Settled(t) && At(t, n).value.Some?
    ensures n in t.entries && At(t, n) == t.entries[n] && t.entries[n].id < UNASSIGNED
  {
    assert RecordOk(t, n) && RecordExact(t, n);
  }

  lemma KnownItem(t: Table, n: Text, v: Value, persistent: bool)
    requires Settled(t) && t.server && At(t, n).value.Some?
    ensures var e, was := LoadOne(t, n, v, persistent), At(t, n); var flags := Marked(was.flags, persistent);
            && Messages(e.out) == Told(n, was, v, persistent)
            && CellsOf(e.table) == CellsOf(t)[was.id := Cell(n, Some(v), flags, Increment(was.seqNum))]
            && was.id < UNASSIGNED && was.id in CellsOf(t) && CellsOf(t)[was.id] == RecordCell(n, was)
  {
    hide Indexed, Exact, CellsOf, LoadOne, Told, Messages, Marked, Increment, At;
    LiveIsNumbered(t, n);
    KnownRecord(t, n, v, persistent);
    var was := At(t, n);
    var r := Record(Some(v), Marked(was.flags, persistent), was.id, Increment(was.seqNum), was.localWrite);
    CellsOfPut(t, n, r, t.dirty);
  }

  lemma NewItem(t: Table, n: Text, v: Value, persistent: bool)
    requires Settled(t) && t.server && At(t, n).value.None? && |LoadOne(t, n, v, persistent).table.idmap| <= UNASSIGNED
    ensures var e, was := LoadOne(t, n, v, persistent), At(t, n);
            var m := EntryAssign(n, |t.idmap|, Increment(was.seqNum), v, Marked(was.flags, persistent));
            && Messages(e.out) == [m] && |t.idmap| < UNASSIGNED && |t.idmap| !in CellsOf(t)
            && CellsOf(e.table) == CellsOf(t)[|t.idmap| := Cell(n, Some(v), m.flags, m.seqNum)]
            && forall i :: i in CellsOf(t) ==> CellsOf(t)[i].name != n
  {
    LiveNameHasCell(t, n);
    NamesDiffer(t, n);
    GetOrNewKeeps(t, n);
    CellsOfGetOrNew(t, n);
    var e, was, t1 := LoadOne(t, n, v, persistent), At(t, n), GetOrNew(t, n);
    var r := Record(Some(v), Marked(was.flags, persistent), |t.idmap|, Increment(was.seqNum), was.localWrite);
    assert e.table == Put(t1.(idmap := t1.idmap + [Some(n)], dirty := t1.dirty), n, r);
    hide Settled, CellsOf;
    CellsOfAppend(t1, n, r);
    NextIdIsFree(t, n);
  }

  lemma FitsTwo(cells: Cells, a: Message, b: Message)
    ensures FitsAll(cells, [a, b]) <==> Fits(cells, a) && Fits(ApplyCell(Follower, cells, a), b)
    ensures ApplyCells(Follower, cells, [a, b]) == ApplyCell(Follower, ApplyCell(Follower, cells, a), b)
  {
    hide Fits, ApplyCell;
    FitsOne(cells, a);
    assert [a, b][..1] == [a];
  }

  lemma FitsOne(cells: Cells, a: Message)
    ensures FitsAll(cells, [a]) <==> Fits(cells, a)
    ensures ApplyCells(Follower, cells, [a]) == ApplyCell(Follower, cells, a)
  {
    hide Fits, ApplyCell;
    assert [a][..0] == [];
  }

  /** What a follower makes of it, whose cell has the same face but perhaps another number. */
  lemma ToldIsTaken(cells: Cells, n: Text, was: Record, v: Value, persistent: bool)
    requires was.value.Some? && was.id < UNASSIGNED && was.id in cells
    requires cells[was.id] == RecordCell(n, was).(seqNum := cells[was.id].seqNum)
    ensures var ms, flags, c := Told(n, was, v, persistent), Marked(was.flags, persistent), cells[was.id];
            var changes, assigns := was.value != Some(v), was.value.value.Type() != v.Type();
            && FitsAll(cells, ms)
            && ApplyCells(Follower, cells, ms) == cells[was.id :=
                 if !changes then c.(flags := flags)
                 else if InReach(Offset(c.seqNum, Increment(was.seqNum)), assigns)
                   then Cell(n, Some(v), flags, Increment(was.seqNum))
                 else if assigns then c else c.(flags := flags)]
  {
    hide Newer, NewerOrEqual, Offset, FitsAll, ApplyCells, Increment, Marked, InReach;
    var c, s, flags := cells[was.id], Increment(was.seqNum), Marked(was.flags, persistent);
    var u, f := EntryUpdate(was.id, s, v), FlagsUpdate(was.id, flags);
    ReachIsAccepted(c.seqNum, s);
    NoMessages(cells);
    FitsOne(cells, EntryAssign(n, was.id, s, v, flags));
    FitsOne(cells, u);
    FitsOne(cells, f);
    FitsTwo(cells, u, f);
    var none: seq<Message> := [];
    assert [u] + [f] == [u, f] && [u] + none == [u] && none + [f] == [f] && none + none == none;
    var ms := Told(n, was, v, persistent);
    if was.value.value.Type() != v.Type() {
      assert ms == [EntryAssign(n, was.id, s, v, flags)];
    } else if was.value.value != v {
      assert ms == if flags != was.flags then [u, f] else [u];
    } else {
      assert ms == if flags != was.flags then [f] else [];
    }
  }

  lemma NoMessages(cells: Cells)
    ensures FitsAll(cells, []) && ApplyCells(Follower, cells, []) == cells
  {
  }

  lemma ReachIsAccepted(a: U16, b: U16)
    ensures InReach(Offset(a, b), true) <==> !Newer(a, b)
    ensures InReach(Offset(a, b), false) <==> !NewerOrEqual(a, b)
  {
  }

  // ---------------------------------------------------------------- whole lists

  /** How many items about a name have changed nothing since the last one that did, or since the start. */
  function Lag(values: map<Text, Value>, loaded: Items, n: Text): nat {
    if loaded == [] then 0
    else
      var before, last := loaded[..|loaded| - 1], loaded[|loaded| - 1];
      if last.0 != n then Lag(values, before, n)
      else if n in ValuesLoaded(values, before) && ValuesLoaded(values, before)[n] == last.1 then
        Lag(values, before, n) + 1
      else 0
  }

  /** The item changes nothing, or not so late that the clients take its number for an old one. */
  predicate Reaches(values: map<Text, Value>, loaded: Items, k: nat)
    requires k < |loaded|
  {
    var n, v, before := loaded[k].0, loaded[k].1, ValuesLoaded(values, loaded[..k]);
    n in before && before[n] != v ==>
      InReach((Lag(values, loaded[..k], n) + 1) % MODULUS, before[n].Type() != v.Type())
  }

  predicate AllReach(values: map<Text, Value>, loaded: Items) {
    forall k :: 0 <= k < |loaded| ==> Reaches(values, loaded, k)
  }

  /** What a client that was in step has, once it has read what the load sends. */
  function Heard(t: Table, loaded: Items, persistent: bool): Cells {
    ApplyCells(Follower, CellsOf(t), Messages(LoadAll(t, loaded, persistent).out))
  }

  function Served(t: Table, loaded: Items, persistent: bool): Cells {
    CellsOf(LoadAll(t, loaded, persistent).table)
  }

  predicate Agrees(t: Table, loaded: Items, persistent: bool) {
    Faces(Heard(t, loaded, persistent)) == Faces(Served(t, loaded, persistent))
  }

  /** The same names, values and flags, and numbers that are behind by the lag. */
  predicate Drifts(heard: Cells, served: Cells, values: map<Text, Value>, loaded: Items) {
    && heard.Keys == served.Keys
    && forall i :: i in served ==>
         && heard[i] == served[i].(seqNum := heard[i].seqNum)
         && Offset(heard[i].seqNum, served[i].seqNum) == Lag(values, loaded, served[i].name) % MODULUS
  }

  lemma DriftsHaveSameFaces(heard: Cells, served: Cells, values: map<Text, Value>, loaded: Items)
    requires Drifts(heard, served, values, loaded)
    ensures Faces(heard) == Faces(served)
  {
  }

  lemma DistanceGrows(a: U16, b: U16, lag: nat)
    requires Offset(a, b) == lag % MODULUS
    ensures Offset(a, Increment(b)) == (lag + 1) % MODULUS && Offset(b, b) == 0
  {
  }

  lemma LastReaches(values: map<Text, Value>, loaded: Items)
    requires loaded != []
    ensures AllReach(values, loaded)
            <==> AllReach(values, loaded[..|loaded| - 1]) && Reaches(values, loaded, |loaded| - 1)
  {
    var before := loaded[..|loaded| - 1];
    forall k | 0 <= k < |before| ensures Reaches(values, before, k) <==> Reaches(values, loaded, k) {
      assert before[..k] == loaded[..k];
    }
  }

  /** What ToldIsTaken says of the cell. */
  function TakenCell(c: Cell, was: Cell, v: Value, flags: int): Cell {
    var assigns := was.value.Some? && was.value.value.Type() != v.Type();
    if was.value == Some(v) then c.(flags := flags)
    else if InReach(Offset(c.seqNum, Increment(was.seqNum)), assigns) then
      Cell(was.name, Some(v), flags, Increment(was.seqNum))
    else if assigns then c
    else c.(flags := flags)
  }

  predicate OneNameEach(cells: Cells, id: nat) {
    id in cells && forall j :: j in cells && cells[j].name == cells[id].name ==> j == id
  }

  lemma LagOfNext(values: map<Text, Value>, before: Items, n: Text, v: Value)
    ensures var loaded := before + [(n, v)];
            && (forall k :: k != n ==> Lag(values, loaded, k) == Lag(values, before, k))
            && Lag(values, loaded, n) == (if n in ValuesLoaded(values, before) && ValuesLoaded(values, before)[n] == v
                                          then Lag(values, before, n) + 1 else 0)
    ensures var loaded, now := before + [(n, v)], ValuesLoaded(values, before);
            Reaches(values, loaded, |before|)
            <==> (n in now && now[n] != v ==>
                    InReach((Lag(values, before, n) + 1) % MODULUS, now[n].Type() != v.Type()))
  {
    assert (before + [(n, v)])[..|before|] == before;
  }

  lemma CellDrifts(heard: Cells, served: Cells, values: map<Text, Value>, before: Items, id: nat, v: Value, flags: int)
    requires Drifts(heard, served, values, before) && OneNameEach(served, id) && served[id].value.Some?
    requires var n, now := served[id].name, ValuesLoaded(values, before); n in now && served[id].value == Some(now[n])
    ensures var was := served[id]; var loaded := before + [(was.name, v)];
            var heard', served' := heard[id := TakenCell(heard[id], was, v, flags)],
                                   served[id := Cell(was.name, Some(v), flags, Increment(was.seqNum))];
            && (Reaches(values, loaded, |before|) ==> Drifts(heard', served', values, loaded))
            && (!Reaches(values, loaded, |before|) ==> Faces(heard') != Faces(served'))
  {
    hide Lag, Reaches, Offset, Increment, InReach, ValuesLoaded;
    var was, c := served[id], heard[id];
    LagOfNext(values, before, was.name, v);
    DistanceGrows(c.seqNum, was.seqNum, Lag(values, before, was.name));
    NoDistance(Increment(was.seqNum));
    var loaded := before + [(was.name, v)];
    if !Reaches(values, loaded, |before|) {
      var heard', served' := heard[id := TakenCell(c, was, v, flags)],
                             served[id := Cell(was.name, Some(v), flags, Increment(was.seqNum))];
      assert heard'[id].value != served'[id].value;
      assert Faces(heard')[id] != Faces(served')[id];
    }
  }

  lemma NoDistance(s: U16)
    ensures Offset(s, s) == 0
  {
  }

  lemma LiveIsNamedOnce(t: Table, n: Text)
    requires Settled(t) && At(t, n).value.Some?
    ensures var i := At(t, n).id; OneNameEach(CellsOf(t), i) && CellsOf(t)[i] == RecordCell(n, At(t, n))
    ensures n in ValuesOf(t) && At(t, n).value == Some(ValuesOf(t)[n])
  {
    assert RecordOk(t, n) && RecordExact(t, n);
    forall j | j in CellsOf(t) && CellsOf(t)[j].name == n ensures j == At(t, n).id { assert SlotExact(t, j); }
  }

  /** One more item about an entry that is there. */
  lemma KnownItemDrifts(heard: Cells, t: Table, values: map<Text, Value>, before: Items, n: Text, v: Value,
                        persistent: bool)
    requires Settled(t) && t.server && At(t, n).value.Some? && ValuesOf(t) == ValuesLoaded(values, before)
    requires Drifts(heard, CellsOf(t), values, before)
    ensures var e, loaded := LoadOne(t, n, v, persistent), before + [(n, v)];
            && FitsAll(heard, Messages(e.out))
            && (Reaches(values, loaded, |before|) ==>
                  Drifts(ApplyCells(Follower, heard, Messages(e.out)), CellsOf(e.table), values, loaded))
            && (!Reaches(values, loaded, |before|) ==>
                  Faces(ApplyCells(Follower, heard, Messages(e.out))) != Faces(CellsOf(e.table)))
  {
    hide Settled, CellsOf, LoadOne, ApplyCells, FitsAll, Told, Marked, Offset, Increment, InReach, Faces, Reaches, At,
         ValuesOf, ValuesLoaded, Messages;
    KnownItem(t, n, v, persistent);
    var was := At(t, n);
    LiveIsNamedOnce(t, n);
    ToldIsTaken(heard, n, was, v, persistent);
    CellDrifts(heard, CellsOf(t), values, before, was.id, v, Marked(was.flags, persistent));
  }

  lemma NewCellDrifts(heard: Cells, served: Cells, values: map<Text, Value>, before: Items, id: nat, n: Text, v: Value,
                      flags: int, s: U16)
    requires Drifts(heard, served, values, before) && id !in served && n !in ValuesLoaded(values, before)
    requires forall i :: i in served ==> served[i].name != n
    ensures var loaded := before + [(n, v)];
            && Reaches(values, loaded, |before|)
            && Drifts(heard[id := Cell(n, Some(v), flags, s)], served[id := Cell(n, Some(v), flags, s)], values, loaded)
  {
    hide Lag, Reaches, Offset, InReach, ValuesLoaded;
    LagOfNext(values, before, n, v);
    NoDistance(s);
  }

  /** One more item about an entry that is not there. */
  lemma NewItemDrifts(heard: Cells, t: Table, values: map<Text, Value>, before: Items, n: Text, v: Value,
                      persistent: bool)
    requires Settled(t) && t.server && At(t, n).value.None? && ValuesOf(t) == ValuesLoaded(values, before)
    requires Drifts(heard, CellsOf(t), values, before) && |LoadOne(t, n, v, persistent).table.idmap| <= UNASSIGNED
    ensures var e, loaded := LoadOne(t, n, v, persistent), before + [(n, v)];
            && FitsAll(heard, Messages(e.out)) && Reaches(values, loaded, |before|)
            && Drifts(ApplyCells(Follower, heard, Messages(e.out)), CellsOf(e.table), values, loaded)
  {
    hide Settled, CellsOf, LoadOne, ApplyCells, FitsAll, Marked, Offset, Increment, InReach, Reaches, ValuesLoaded,
         Messages, Lag;
    NewItem(t, n, v, persistent);
    var s, flags := Increment(At(t, n).seqNum), Marked(At(t, n).flags, persistent);
    FitsOne(heard, EntryAssign(n, |t.idmap|, s, v, flags));
    NewCellDrifts(heard, CellsOf(t), values, before, |t.idmap|, n, v, flags, s);
  }

  lemma InStepAtFirst(t: Table)
    ensures Drifts(CellsOf(t), CellsOf(t), ValuesOf(t), [])
  {
    hide CellsOf, ValuesOf, Offset;
    forall i | i in CellsOf(t) ensures Offset(CellsOf(t)[i].seqNum, CellsOf(t)[i].seqNum) == 0 {
      NoDistance(CellsOf(t)[i].seqNum);
    }
  }

  lemma LoadNext(t: Table, before: Items, n: Text, v: Value, persistent: bool)
    ensures var e := LoadAll(t, before, persistent); var e' := LoadOne(e.table, n, v, persistent);
            LoadAll(t, before + [(n, v)], persistent) == Effect(e'.table, e.out + e'.out)
    ensures |LoadAll(t, before, persistent).table.idmap| <= |LoadAll(t, before + [(n, v)], persistent).table.idmap|
  {
    hide LoadOne;
    assert (before + [(n, v)])[..|before|] == before;
  }

  /** The step from one list to a longer one. */
  lemma NextItem(t: Table, before: Items, n: Text, v: Value, persistent: bool)
    requires Settled(t) && t.server && |LoadAll(t, before + [(n, v)], persistent).table.idmap| <= UNASSIGNED
    requires Drifts(Heard(t, before, persistent), Served(t, before, persistent), ValuesOf(t), before)
    requires FitsAll(CellsOf(t), Messages(LoadAll(t, before, persistent).out))
    ensures var loaded := before + [(n, v)];
            && FitsAll(CellsOf(t), Messages(LoadAll(t, loaded, persistent).out))
            && (Reaches(ValuesOf(t), loaded, |before|) ==>
                  Drifts(Heard(t, loaded, persistent), Served(t, loaded, persistent), ValuesOf(t), loaded))
            && (!Reaches(ValuesOf(t), loaded, |before|) ==> !Agrees(t, loaded, persistent))
  {
    hide Indexed, Exact, CellsOf, LoadOne, LoadAll, ApplyCells, FitsAll, Faces, Reaches, Drifts, ValuesOf, ValuesLoaded,
         Messages;
    var e := LoadAll(t, before, persistent);
    var e' := LoadOne(e.table, n, v, persistent);
    LoadNext(t, before, n, v, persistent);
    LoadKeepsIndexed(t, before, persistent);
    LoadDoes(t, before, persistent, n);
    MessagesConcat(e.out, e'.out);
    ApplyCellsConcat(Follower, CellsOf(t), Messages(e.out), Messages(e'.out));
    FitsAllConcat(CellsOf(t), Messages(e.out), Messages(e'.out));
    if At(e.table, n).value.Some? {
      KnownItemDrifts(Heard(t, before, persistent), e.table, ValuesOf(t), before, n, v, persistent);
    } else {
      NewItemDrifts(Heard(t, before, persistent), e.table, ValuesOf(t), before, n, v, persistent);
    }
  }

  lemma {:induction false} LoadDrifts(t: Table, loaded: Items, persistent: bool)
    requires Settled(t) && t.server && |LoadAll(t, loaded, persistent).table.idmap| <= UNASSIGNED
    requires AllReach(ValuesOf(t), loaded)
    ensures FitsAll(CellsOf(t), Messages(LoadAll(t, loaded, persistent).out))
    ensures Drifts(Heard(t, loaded, persistent), Served(t, loaded, persistent), ValuesOf(t), loaded)
    decreases |loaded|
  {
    hide Settled, CellsOf, LoadOne, ApplyCells, FitsAll, Reaches, Drifts, ValuesOf, Messages, AllReach;
    if loaded == [] {
      InStepAtFirst(t);
      NothingLoaded(t, persistent);
    } else {
      var k := |loaded| - 1;
      LastReaches(ValuesOf(t), loaded);
      assert loaded == loaded[..k] + [(loaded[k].0, loaded[k].1)];
      LoadNext(t, loaded[..k], loaded[k].0, loaded[k].1, persistent);
      LoadDrifts(t, loaded[..k], persistent);
      NextItem(t, loaded[..k], loaded[k].0, loaded[k].1, persistent);
    }
  }

  lemma NothingLoaded(t: Table, persistent: bool)
    ensures Messages(LoadAll(t, [], persistent).out) == []
    ensures Heard(t, [], persistent) == CellsOf(t) == Served(t, [], persistent)
    ensures FitsAll(CellsOf(t), Messages(LoadAll(t, [], persistent).out))
  {
    assert Messages([]) == [];
  }

  /**
   What a load sends makes the clients follow, item by item: after every part of the list they have the server's names,
   values and flags, if and only if every item that changes a value comes soon enough after the last one that did.
   */
  lemma {:induction false} LoadIsHeardIff(t: Table, loaded: Items, persistent: bool)
    requires Settled(t) && t.server && |LoadAll(t, loaded, persistent).table.idmap| <= UNASSIGNED
    ensures (forall k :: 0 <= k <= |loaded| ==> Agrees(t, loaded[..k], persistent)) <==> AllReach(ValuesOf(t), loaded)
    decreases |loaded|
  {
    hide Settled, CellsOf, LoadOne, LoadAll, Reaches, Drifts, ValuesOf, Messages, AllReach, Agrees, FitsAll, Heard,
         Served;
    if loaded == [] {
      NothingLoaded(t, persistent);
      NothingReaches(t, persistent);
      assert loaded[..0] == [];
    } else {
      var k := |loaded| - 1;
      var before := loaded[..k];
      LastReaches(ValuesOf(t), loaded);
      assert loaded == before + [(loaded[k].0, loaded[k].1)] && loaded[..|loaded|] == loaded;
      LoadNext(t, before, loaded[k].0, loaded[k].1, persistent);
      LoadIsHeardIff(t, before, persistent);
      assert forall j :: 0 <= j <= k ==> before[..j] == loaded[..j];
      if AllReach(ValuesOf(t), before) {
        LoadDrifts(t, before, persistent);
        NextItem(t, before, loaded[k].0, loaded[k].1, persistent);
        if Reaches(ValuesOf(t), loaded, k) { DriftingAgrees(t, loaded, persistent); }
      }
    }
  }

  lemma NothingReaches(t: Table, persistent: bool)
    ensures AllReach(ValuesOf(t), []) && Agrees(t, [], persistent)
  {
    NothingLoaded(t, persistent);
  }

  lemma DriftingAgrees(t: Table, loaded: Items, persistent: bool)
    requires Drifts(Heard(t, loaded, persistent), Served(t, loaded, persistent), ValuesOf(t), loaded)
    ensures Agrees(t, loaded, persistent)
  {
    hide Heard, Served, ValuesOf, Drifts;
    DriftsHaveSameFaces(Heard(t, loaded, persistent), Served(t, loaded, persistent), ValuesOf(t), loaded);
  }

  // ---------------------------------------------------------------- what is enough, and what is not

  lemma {:induction false} LagBelowCount(values: map<Text, Value>, loaded: Items, n: Text)
    ensures Lag(values, loaded, n) <= Count(loaded, n)
  {
    if loaded != [] {
      LagBelowCount(values, loaded[..|loaded| - 1], n);
    }
  }

  lemma {:induction false} CountGrows(loaded: Items, k: nat, n: Text)
    requires k <= |loaded|
    ensures Count(loaded[..k], n) <= Count(loaded, n)
    decreases |loaded|
  {
    if k == |loaded| {
      assert loaded[..k] == loaded;
    } else {
      assert loaded[..|loaded| - 1][..k] == loaded[..k];
      CountGrows(loaded[..|loaded| - 1], k, n);
    }
  }

  /** A list that has no name more than 32768 times is heard, for every server. */
  lemma ShortListsReach(values: map<Text, Value>, loaded: Items)
    requires forall k :: 0 <= k < |loaded| ==> Count(loaded, loaded[k].0) <= HALF
    ensures AllReach(values, loaded)
  {
    hide ValuesLoaded, Lag, Count;
    forall k | 0 <= k < |loaded| ensures Reaches(values, loaded, k) {
      var n := loaded[k].0;
      LagBelowCount(values, loaded[..k], n);
      CountGrows(loaded, k + 1, n);
      CountNext(loaded, k);
    }
  }

  lemma CountNext(loaded: Items, k: nat)
    requires k < |loaded|
    ensures Count(loaded[..k + 1], loaded[k].0) == Count(loaded[..k], loaded[k].0) + 1
  {
    assert loaded[..k + 1][..k] == loaded[..k];
  }

  /** Files of distinct names among them: clients that were in step have the server's names, values and flags. */
  lemma LoadIsHeard(t: Table, loaded: Items, persistent: bool)
    requires Settled(t) && t.server && |LoadAll(t, loaded, persistent).table.idmap| <= UNASSIGNED
    requires forall k :: 0 <= k < |loaded| ==> Count(loaded, loaded[k].0) <= HALF
    ensures FitsAll(CellsOf(t), Messages(LoadAll(t, loaded, persistent).out)) && Agrees(t, loaded, persistent)
  {
    hide Settled, CellsOf, LoadAll, FitsAll, Drifts, AllReach, Agrees, ValuesOf, Count;
    ShortListsReach(ValuesOf(t), loaded);
    LoadDrifts(t, loaded, persistent);
    DriftingAgrees(t, loaded, persistent);
  }

  function Copies(n: Text, v: Value, k: nat): Items {
    if k == 0 then [] else Copies(n, v, k - 1) + [(n, v)]
  }

  lemma {:induction false} CopiesChangeNothing(values: map<Text, Value>, n: Text, v: Value, k: nat)
    requires n in values && values[n] == v
    ensures |Copies(n, v, k)| == k && ValuesLoaded(values, Copies(n, v, k)) == values
    ensures Lag(values, Copies(n, v, k), n) == k && AllReach(values, Copies(n, v, k))
  {
    if k != 0 {
      CopiesChangeNothing(values, n, v, k - 1);
      assert Copies(n, v, k)[..k - 1] == Copies(n, v, k - 1);
      LastReaches(values, Copies(n, v, k));
    }
  }

  /** 32768 times the value that is there already, and then another one, which no client takes. */
  lemma LongLoadIsLost(t: Table, n: Text, v: Value, w: Value)
    requires Settled(t) && t.server && At(t, n).value == Some(v) && v != w && v.Type() == w.Type()
    requires |LoadAll(t, Copies(n, v, HALF) + [(n, w)], false).table.idmap| <= UNASSIGNED
    ensures !Agrees(t, Copies(n, v, HALF) + [(n, w)], false)
  {
    hide Settled, CellsOf, LoadAll, FitsAll, Drifts, AllReach, Agrees, Copies, Lag, ValuesLoaded;
    CopiesChangeNothing(ValuesOf(t), n, v, HALF);
    LagOfNext(ValuesOf(t), Copies(n, v, HALF), n, w);
    LoadNext(t, Copies(n, v, HALF), n, w, false);
    LoadDrifts(t, Copies(n, v, HALF), false);
    NextItem(t, Copies(n, v, HALF), n, w, false);
  }

  // ---------------------------------------------------------------- what the drift does to clients

  lemma {:induction false} SameIdLoaded(t: Table, loaded: Items, persistent: bool, n: Text)
    requires At(t, n).value.Some? && At(t, n).id != UNASSIGNED
    ensures var r := At(LoadAll(t, loaded, persistent).table, n); r.id == At(t, n).id && r.value.Some?
    decreases |loaded|
  {
    hide LoadOne;
    if loaded != [] {
      var k := |loaded| - 1;
      SameIdLoaded(t, loaded[..k], persistent, n);
      OneKeepsId(LoadAll(t, loaded[..k], persistent).table, loaded[k].0, loaded[k].1, persistent, n);
    }
  }

  lemma OneKeepsId(t: Table, k: Text, v: Value, persistent: bool, n: Text)
    requires At(t, n).value.Some? && At(t, n).id != UNASSIGNED
    ensures var r := At(LoadOne(t, k, v, persistent).table, n); r.id == At(t, n).id && r.value.Some?
  {
  }

  /**
   A load that lists an entry k times has the server ignore the next k writes of a client that was in step with it, even
   if the load changed nothing and the client was not told of it; the j-th write is taken if and only if j exceeds k.
   */
  lemma LoadHidesWritesIff(t: Table, loaded: Items, persistent: bool, n: Text, j: nat, w: Value, conn: Conn)
    requires Settled(t) && t.server && At(t, n).value.Some?
    requires |LoadAll(t, loaded, persistent).table.idmap| <= UNASSIGNED
    requires Count(loaded, n) < HALF && j < HALF
    ensures var t' := LoadAll(t, loaded, persistent).table;
            var e := Step(t', Incoming(EntryUpdate(At(t, n).id, Advance(At(t, n).seqNum, j), w), conn));
            && (j > Count(loaded, n) <==> e.out != [])
            && (j <= Count(loaded, n) ==> CellsOf(e.table) == CellsOf(t'))
            && (j > Count(loaded, n) ==>
                  At(t, n).id in CellsOf(e.table) && CellsOf(e.table)[At(t, n).id].value == Some(w))
  {
    hide Indexed, Exact, CellsOf, Step, LoadAll, Offset, Advance;
    var was, k := At(t, n), Count(loaded, n);
    var t' := LoadAll(t, loaded, persistent).table;
    var m := EntryUpdate(was.id, Advance(was.seqNum, j), w);
    assert was.id != UNASSIGNED by { LiveIsNamedOnce(t, n); KnownItem(t, n, w, false); }
    LoadKeepsIndexed(t, loaded, persistent);
    LoadDoes(t, loaded, persistent, n);
    SameIdLoaded(t, loaded, persistent, n);
    LiveIsNamedOnce(t', n);
    MessageServed(t', m, conn);
    DistanceIs(was.seqNum, j, k);
  }

  lemma OffsetOfSums(s: U16, j: nat, k: nat)
    requires j < HALF && k < HALF
    ensures Offset((s + j) % MODULUS, (s + k) % MODULUS) == if j <= k then k - j else MODULUS + k - j
  {
  }

  lemma DistanceIs(s: U16, j: nat, k: nat)
    requires j < HALF && k < HALF
    ensures Offset(Advance(s, j), Advance(s, k)) < HALF <==> j <= k
    ensures NewerOrEqual(Advance(s, k), Advance(s, j)) <==> j <= k
  {
    hide Offset, Advance, NewerOrEqual;
    AdvanceIsSum(s, j);
    AdvanceIsSum(s, k);
    OffsetOfSums(s, j, k);
    NewerIsAhead(Advance(s, k), Advance(s, j));
  }
}
