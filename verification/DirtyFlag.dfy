/** The persistent dirty flag: while it is false, the file holds the persistent entries. */
module DirtyFlag {
  import opened Wrappers
  import opened Protocol
  import opened StorageSpec
  import opened Index

  /** What a save writes. */
  function PersistentEntries(t: Table): map<Text, Value> {
    map n | n in t.entries && t.entries[n].value.Some? && Persistent(t.entries[n].flags) :: t.entries[n].value.value
  }

  /** The same as a list, in the order of the entry dictionary. */
  function PersistentList(t: Table, names: seq<Text>): seq<(Text, Value)> {
    if names == [] then []
    else
      var n := names[|names| - 1];
      PersistentList(t, names[..|names| - 1])
      + (if At(t, n).value.Some? && Persistent(At(t, n).flags) then [(n, At(t, n).value.value)] else [])
  }

  lemma {:induction false} PersistentListed(t: Table, names: seq<Text>, n: Text, v: Value)
    ensures (n, v) in PersistentList(t, names) <==>
              n in names && At(t, n).value == Some(v) && Persistent(At(t, n).flags)
    decreases |names|
  {
    if names != [] {
      PersistentListed(t, names[..|names| - 1], n, v);
      assert names == names[..|names| - 1] + [names[|names| - 1]];
    }
  }

  function NamesListed(list: seq<(Text, Value)>): seq<Text> {
    if list == [] then [] else NamesListed(list[..|list| - 1]) + [list[|list| - 1].0]
  }

  lemma NamesListedNext(list: seq<(Text, Value)>, n: Text, v: Value)
    ensures NamesListed(list + [(n, v)]) == NamesListed(list) + [n]
  {
    assert (list + [(n, v)])[..|list|] == list;
  }

  /** The list has the names in the order of the handles, and none more than once. */
  lemma {:induction false} ListedInOrder(t: Table, names: seq<Text>)
    ensures Subsequence(NamesListed(PersistentList(t, names)), names)
    decreases |names|
  {
    hide At, Subsequence, NamesListed;
    if names == [] {
      NothingInList();
    } else {
      var n, before := names[|names| - 1], PersistentList(t, names[..|names| - 1]);
      ListedInOrder(t, names[..|names| - 1]);
      SubsequenceMore(NamesListed(before), names);
      assert before + [] == before;
      if At(t, n).value.Some? { NamesListedNext(before, n, At(t, n).value.value); }
    }
  }

  lemma NothingInList()
    ensures NamesListed([]) == [] && Subsequence<Text>([], [])
  {
  }

  /** What a save reads off the handles are the persistent entries. */
  lemma ListIsSnapshot(t: Table, n: Text, v: Value)
    requires Handles(t)
    ensures (n, v) in PersistentList(t, t.localmap) <==> n in PersistentEntries(t) && PersistentEntries(t)[n] == v
  {
    PersistentListed(t, t.localmap, n, v);
  }

  /** The flag is not lost, and it is raised when the persistent entries change. */
  predicate DirtyOrSame(t: Table, t': Table) {
    && (t.dirty ==> t'.dirty)
    && (!t'.dirty ==> PersistentEntries(t') == PersistentEntries(t))
  }

  lemma PutDirty(t: Table, n: Text, r: Record, idmap: seq<Option<Text>>, dirty: bool)
    requires n in t.entries && (t.dirty ==> dirty)
    requires !dirty ==> var was := t.entries[n];
                        var p, p' := was.value.Some? && Persistent(was.flags), r.value.Some? && Persistent(r.flags);
                        p == p' && (p ==> was.value == r.value)
    ensures DirtyOrSame(t, Put(t.(idmap := idmap, dirty := dirty), n, r))
  {
  }

  lemma GetOrNewDirty(t: Table, n: Text)
    ensures GetOrNew(t, n).dirty == t.dirty && PersistentEntries(GetOrNew(t, n)) == PersistentEntries(t)
  {
  }

  lemma SetValueDirty(t: Table, n: Text, v: Value, local: bool)
    requires n in t.entries
    ensures DirtyOrSame(t, SetValue(t, n, v, local).table)
  {
    var t' := SetValue(t, n, v, local).table;
    hide PersistentEntries, DirtyOrSame;
    PutDirty(t, n, Written(t, t.entries[n], v, local), t'.idmap, t'.dirty);
  }

  lemma SetFlagsDirty(t: Table, n: Text, f: int, local: bool)
    requires n in t.entries
    ensures DirtyOrSame(t, SetFlags(t, n, f, local).table)
  {
    var t' := SetFlags(t, n, f, local).table;
    if t' != t {
      PutDirty(t, n, t.entries[n].(flags := f), t.idmap, t'.dirty);
    }
  }

  lemma DeleteDirty(t: Table, n: Text, local: bool)
    requires n in t.entries
    ensures DirtyOrSame(t, Delete(t, n, local).table)
  {
    var t' := Delete(t, n, local).table;
    PutDirty(t, n, t'.entries[n], t'.idmap, t'.dirty);
  }

  lemma DeleteNamesDirty(t: Table)
    ensures DirtyOrSame(t, DeleteNames(t, Unprotected(t)))
  {
  }

  lemma AssignDirty(t: Table, m: Message, conn: Conn)
    requires Settled(t) && t.server && m.EntryAssign?
    ensures DirtyOrSame(t, IncomingAssign(t, m, conn).table)
  {
    if m.id == UNASSIGNED {
      GetOrNewKeeps(t, m.name);
      GetOrNewDirty(t, m.name);
      var t' := GetOrNew(t, m.name);
      var r := t'.entries[m.name];
      if r.id == UNASSIGNED {
        assert RecordExact(t', m.name);
        hide Settled;
        var r' := r.(flags := m.flags, seqNum := m.seqNum);
        PutDirty(t', m.name, r', t'.idmap, t'.dirty);
        SetValueDirty(Put(t', m.name, r'), m.name, m.value, false);
        assert t'.(idmap := t'.idmap, dirty := t'.dirty) == t';
      }
    } else if Lookup(t, m.id).Some? {
      SlotGives(t, m.id);
      hide Settled;
      var n := Lookup(t, m.id).value;
      var t' := AssignKnown(t, n, m, conn, false).table;
      PutDirty(t, n, t'.entries[n], t.idmap, t'.dirty);
    }
  }

  lemma IncomingDirty(t: Table, m: Message, conn: Conn)
    requires Settled(t) && t.server
    ensures DirtyOrSame(t, ProcessIncoming(t, m, conn).table)
  {
    hide IncomingAssign, IncomingUpdate, SetFlags, Delete, DeleteNames, PersistentEntries, Settled;
    match m
    case EntryAssign(_, _, _, _, _) => AssignDirty(t, m, conn);
    case EntryUpdate(id, _, _) =>
      if Lookup(t, id).Some? && Lookup(t, id).value in t.entries { UpdateDirty(t, Lookup(t, id).value, m, conn); }
    case FlagsUpdate(id, f) =>
      if Lookup(t, id).Some? && Lookup(t, id).value in t.entries { SetFlagsDirty(t, Lookup(t, id).value, f, false); }
    case EntryDelete(id) =>
      if Lookup(t, id).Some? && Lookup(t, id).value in t.entries { DeleteDirty(t, Lookup(t, id).value, false); }
    case ClearEntries => DeleteNamesDirty(t);
    case _ =>
  }

  lemma UpdateDirty(t: Table, n: Text, m: Message, conn: Conn)
    requires n in t.entries && m.EntryUpdate?
    ensures DirtyOrSame(t, IncomingUpdate(t, n, m, conn).table)
  {
    var t' := IncomingUpdate(t, n, m, conn).table;
    PutDirty(t, n, t'.entries[n], t.idmap, t'.dirty);
  }

  /** Whatever a server does, a change of its persistent entries leaves the flag raised. */
  lemma StepDirty(t: Table, op: Op)
    requires Settled(t) && t.server
    ensures DirtyOrSame(t, Step(t, op).table)
  {
    hide Settled, GetOrNew, SetValue, SetFlags, Delete, DeleteNames, ProcessIncoming, PersistentEntries;
    match op
    case Set(n, v) =>
      GetOrNewDirty(t, n);
      SetValueDirty(GetOrNew(t, n), n, v, true);
    case ForceSet(n, v) =>
      GetOrNewDirty(t, n);
      SetValueDirty(GetOrNew(t, n), n, v, true);
    case SetDefault(n, v) =>
      GetOrNewDirty(t, n);
      SetValueDirty(GetOrNew(t, n), n, v, true);
    case ChangeFlags(n, f) =>
      if n in t.entries { SetFlagsDirty(t, n, f, true); }
    case Remove(n) =>
      if n in t.entries { DeleteDirty(t, n, true); }
    case RemoveAll => DeleteNamesDirty(t);
    case Incoming(m, conn) => IncomingDirty(t, m, conn);
  }

  // ---------------------------------------------------------------- file loads

  /** What a load leaves as the persistent entries. */
  function AfterLoad(t: Table, loaded: seq<(Text, Value)>, persistent: bool): map<Text, Value> {
    if loaded == [] then PersistentEntries(t)
    else
      var (n, v) := loaded[|loaded| - 1];
      var before := AfterLoad(t, loaded[..|loaded| - 1], persistent);
      if persistent || Persistent(At(t, n).flags) then before[n := v] else before
  }

  /** A load sets values and perhaps the mark of its entries, and leaves the dirty flag alone. */
  lemma OneLoaded(t: Table, n: Text, v: Value, persistent: bool)
    ensures var t' := LoadOne(t, n, v, persistent).table;
            && t'.dirty == t.dirty
            && PersistentEntries(t') == (if persistent || Persistent(At(t, n).flags) then PersistentEntries(t)[n := v]
                                         else PersistentEntries(t))
            && forall k :: !persistent || k != n ==> At(t', k).flags == At(t, k).flags
  {
    GetOrNewDirty(t, n);
    LoadOneTable(t, n, v, persistent);
    LoadOneFlags(t, n, v, persistent);
    hide LoadOne, GetOrNew, PersistentEntries, At;
    var t1, t' := GetOrNew(t, n), LoadOne(t, n, v, persistent).table;
    PersistentOfPut(t1, n, At(t', n), t'.idmap);
  }

  lemma LoadOneFlags(t: Table, n: Text, v: Value, persistent: bool)
    ensures var t', r := LoadOne(t, n, v, persistent).table, At(LoadOne(t, n, v, persistent).table, n);
            && r.value == Some(v) && (Persistent(r.flags) <==> persistent || Persistent(At(t, n).flags))
            && (!persistent ==> r.flags == At(t, n).flags) && At(GetOrNew(t, n), n).flags == At(t, n).flags
            && forall k :: k != n ==> At(t', k) == At(t, k)
  {
  }

  lemma PersistentOfPut(t: Table, n: Text, r: Record, idmap: seq<Option<Text>>)
    requires r.value.Some?
    ensures PersistentEntries(Put(t.(idmap := idmap), n, r))
            == if Persistent(r.flags) then PersistentEntries(t)[n := r.value.value] else PersistentEntries(t) - {n}
    ensures !Persistent(At(t, n).flags) ==> PersistentEntries(t) - {n} == PersistentEntries(t)
  {
  }

  lemma {:induction false} AllLoaded(t: Table, loaded: seq<(Text, Value)>, persistent: bool)
    ensures var t' := LoadAll(t, loaded, persistent).table;
            && t'.dirty == t.dirty && PersistentEntries(t') == AfterLoad(t, loaded, persistent)
            && (!persistent ==> forall k :: At(t', k).flags == At(t, k).flags)
    decreases |loaded|
  {
    hide LoadOne, PersistentEntries, At;
    if loaded != [] {
      var k := |loaded| - 1;
      AllLoaded(t, loaded[..k], persistent);
      OneLoaded(LoadAll(t, loaded[..k], persistent).table, loaded[k].0, loaded[k].1, persistent);
    }
  }

  // ---------------------------------------------------------------- saving

  /** A periodic save goes to the server's own file; a save on demand goes to whatever file its caller names. */
  datatype Kind = Periodic | OnDemand(own: bool)

  predicate IsOwn(kind: Kind) {
    kind.Periodic? || kind.own
  }

  datatype Save = Save(snapshot: map<Text, Value>, kind: Kind)

  /** A server, what its own file holds, and the saves that are under way, by the thread that makes them. */
  datatype Store = Store(table: Table, written: map<Text, Value>, saves: map<nat, Save>)

  datatype StoreEvent =
    | Does(op: Op)
    | Loads(loaded: seq<(Text, Value)>, persistent: bool)
    | SaveStarts(w: nat, kind: Kind)
    | SaveEnds(w: nat, ok: bool)

  /** Starting a save takes the snapshot and lowers the flag, whatever the file; ending it replaces the file. */
  function React(s: Store, e: StoreEvent): (s': Store)
    ensures Extends(s.table, s'.table)
  {
    match e
    case Does(op) => s.(table := Step(s.table, op).table)
    case Loads(loaded, persistent) => s.(table := LoadAll(s.table, loaded, persistent).table)
    case SaveStarts(w, kind) =>
      if w in s.saves || (kind.Periodic? && !s.table.dirty) then s
      else s.(table := s.table.(dirty := false), saves := s.saves[w := Save(PersistentEntries(s.table), kind)])
    case SaveEnds(w, ok) =>
      if w !in s.saves then s
      else
        var save := s.saves[w];
        Store(s.table.(dirty := s.table.dirty || (!ok && save.kind.Periodic?)),
              if ok && IsOwn(save.kind) then save.snapshot else s.written,
              s.saves - {w})
  }

  function Life(s: Store, events: seq<StoreEvent>): Store {
    if events == [] then s else React(Life(s, events[..|events| - 1]), events[|events| - 1])
  }

  /** The own file holds these entries, or a save under way is about to write them there. */
  predicate InFile(written: map<Text, Value>, saves: map<nat, Save>, entries: map<Text, Value>) {
    written == entries || exists w :: w in saves && IsOwn(saves[w].kind) && saves[w].snapshot == entries
  }

  /** The flag tells the truth: while it is down the persistent entries are in the file or on their way there. */
  predicate Clean(s: Store) {
    s.table.dirty || InFile(s.written, s.saves, PersistentEntries(s.table))
  }

  /**
   What makes the flag lie: a save on demand to another file lowers it; a save that was overtaken by a later one
   writes its older entries last; a save on demand fails and does not raise it again; a load changes persistent
   entries without raising it.
   */
  predicate Spoils(s: Store, e: StoreEvent) {
    var entries := PersistentEntries(s.table);
    match e
    case Does(_) => false
    case Loads(loaded, persistent) =>
      !s.table.dirty && !InFile(s.written, s.saves, AfterLoad(s.table, loaded, persistent))
    case SaveStarts(w, kind) =>
      w !in s.saves && kind == OnDemand(false) && !InFile(s.written, s.saves, entries)
    case SaveEnds(w, ok) =>
      && w in s.saves && !s.table.dirty && IsOwn(s.saves[w].kind) && (ok || s.saves[w].kind.OnDemand?)
      && !InFile(if ok then s.saves[w].snapshot else s.written, s.saves - {w}, entries)
  }

  /** What makes it tell the truth again. */
  predicate Restores(s: Store, e: StoreEvent) {
    match e
    case Does(op) => Step(s.table, op).table.dirty
    case Loads(loaded, persistent) => InFile(s.written, s.saves, AfterLoad(s.table, loaded, persistent))
    case SaveStarts(w, kind) => w !in s.saves && kind == OnDemand(true)
    case SaveEnds(w, ok) => w in s.saves && !ok && s.saves[w].kind.Periodic?
  }

  lemma SameEntriesWhateverDirty(t: Table, dirty: bool)
    ensures PersistentEntries(t.(dirty := dirty)) == PersistentEntries(t)
  {
  }

  lemma SettledWhateverDirty(t: Table, dirty: bool)
    requires Settled(t)
    ensures Settled(t.(dirty := dirty))
  {
    var t' := t.(dirty := dirty);
    forall n | n in t'.entries ensures RecordOk(t', n) && RecordExact(t', n) {
      assert RecordOk(t, n) && RecordExact(t, n);
    }
    forall i | 0 <= i < |t'.idmap| ensures SlotOk(t', i) && SlotExact(t', i) { assert SlotOk(t, i) && SlotExact(t, i); }
  }

  predicate EventOk(e: StoreEvent) {
    e.Does? ==> OpInRange(e.op)
  }

  lemma ReactKeepsSettled(s: Store, e: StoreEvent)
    requires Settled(s.table) && s.table.server && EventOk(e) && |React(s, e).table.idmap| <= UNASSIGNED
    ensures Settled(React(s, e).table) && React(s, e).table.server
  {
    hide Indexed, Exact, Step, LoadAll, PersistentEntries;
    match e
    case Does(op) => StepKeepsIndexed(s.table, op);
    case Loads(loaded, persistent) => LoadKeepsIndexed(s.table, loaded, persistent);
    case _ => SettledWhateverDirty(s.table, React(s, e).table.dirty);
  }

  lemma StartedIsInFile(s: Store, w: nat, kind: Kind)
    requires w !in s.saves
    ensures var entries := PersistentEntries(s.table);
            InFile(s.written, s.saves[w := Save(entries, kind)], entries)
            <==> IsOwn(kind) || InFile(s.written, s.saves, entries)
  {
    hide PersistentEntries;
    var entries := PersistentEntries(s.table);
    var saves := s.saves[w := Save(entries, kind)];
    assert saves[w].snapshot == entries;
    if v :| v in s.saves && IsOwn(s.saves[v].kind) && s.saves[v].snapshot == entries {
      assert v in saves && saves[v] == s.saves[v];
    }
    if v :| v in saves && IsOwn(saves[v].kind) && saves[v].snapshot == entries {
      assert v != w ==> v in s.saves && s.saves[v] == saves[v];
    }
  }

  /** The end of a save, where the flag stays down: it is in the file by this save, or as before without it. */
  lemma EndedIsInFile(s: Store, w: nat, entries: map<Text, Value>)
    requires w in s.saves && InFile(s.written, s.saves, entries)
    ensures !IsOwn(s.saves[w].kind) ==> InFile(s.written, s.saves - {w}, entries)
    ensures IsOwn(s.saves[w].kind) && s.saves[w].snapshot == entries ==>
              InFile(s.saves[w].snapshot, s.saves - {w}, entries)
  {
    if v :| v in s.saves && IsOwn(s.saves[v].kind) && s.saves[v].snapshot == entries {
      if v != w { assert v in s.saves - {w} && (s.saves - {w})[v] == s.saves[v]; }
    }
  }

  lemma NotInFileWithout(s: Store, w: nat, entries: map<Text, Value>)
    requires w in s.saves && !InFile(s.written, s.saves, entries)
    ensures !InFile(s.written, s.saves - {w}, entries)
    ensures IsOwn(s.saves[w].kind) ==> !InFile(s.saves[w].snapshot, s.saves - {w}, entries)
  {
    assert forall v :: v in s.saves - {w} ==> v in s.saves && (s.saves - {w})[v] == s.saves[v];
  }

  /** From a state in which the flag tells the truth, exactly these events make it lie. */
  lemma SpoilsIff(s: Store, e: StoreEvent)
    requires Settled(s.table) && s.table.server && Clean(s)
    ensures Clean(React(s, e)) <==> !Spoils(s, e)
  {
    hide Settled, Step, LoadAll, PersistentEntries, InFile, AfterLoad;
    match e
    case Does(op) => StepDirty(s.table, op);
    case Loads(loaded, persistent) => AllLoaded(s.table, loaded, persistent);
    case SaveStarts(w, kind) =>
      SameEntriesWhateverDirty(s.table, false);
      if w !in s.saves { StartedIsInFile(s, w, kind); }
    case SaveEnds(w, ok) =>
      SameEntriesWhateverDirty(s.table, React(s, e).table.dirty);
      if w in s.saves && !s.table.dirty { EndedIsInFile(s, w, PersistentEntries(s.table)); }
  }

  /** From a state in which it lies, exactly these make it tell the truth. */
  lemma RestoresIff(s: Store, e: StoreEvent)
    requires Settled(s.table) && s.table.server && !Clean(s)
    ensures Clean(React(s, e)) <==> Restores(s, e)
  {
    hide Settled, Step, LoadAll, PersistentEntries, InFile, AfterLoad;
    match e
    case Does(op) => StepDirty(s.table, op);
    case Loads(loaded, persistent) => AllLoaded(s.table, loaded, persistent);
    case SaveStarts(w, kind) =>
      SameEntriesWhateverDirty(s.table, false);
      if w !in s.saves { StartedIsInFile(s, w, kind); }
    case SaveEnds(w, ok) =>
      SameEntriesWhateverDirty(s.table, React(s, e).table.dirty);
      if w in s.saves { NotInFileWithout(s, w, PersistentEntries(s.table)); }
  }

  // ---------------------------------------------------------------- whole lives

  /** Whether the flag tells the truth after some events, by what happened since it last changed sides. */
  predicate Truthful(s: Store, events: seq<StoreEvent>) {
    if events == [] then Clean(s)
    else
      var k := |events| - 1;
      if Truthful(s, events[..k]) then !Spoils(Life(s, events[..k]), events[k])
      else Restores(Life(s, events[..k]), events[k])
  }

  /**
   In every life of a server, with any number of saves at once, successful or not, to its own file and to others: the
   flag tells the truth exactly as long as no event spoils that, and from the next event on that restores it.
   */
  lemma {:induction false} FlagIsTruthfulIff(s: Store, events: seq<StoreEvent>)
    requires Settled(s.table) && s.table.server && forall e :: e in events ==> EventOk(e)
    requires |Life(s, events).table.idmap| <= UNASSIGNED
    ensures Settled(Life(s, events).table) && Life(s, events).table.server
    ensures Clean(Life(s, events)) <==> Truthful(s, events)
    decreases |events|
  {
    hide Settled, React, Spoils, Restores, Clean, EventOk;
    if events != [] {
      var k := |events| - 1;
      var was := Life(s, events[..k]);
      assert events[k] in events;
      FlagIsTruthfulIff(s, events[..k]);
      ReactKeepsSettled(was, events[k]);
      if Clean(was) { SpoilsIff(was, events[k]); } else { RestoresIff(was, events[k]); }
    }
  }

  /** As long as nothing spoils it: with the flag down and no save under way the file is up to date. */
  lemma {:induction false} FlagIsSound(s: Store, events: seq<StoreEvent>)
    requires Settled(s.table) && s.table.server && Clean(s) && forall e :: e in events ==> EventOk(e)
    requires forall k :: 0 <= k < |events| ==> !Spoils(Life(s, events[..k]), events[k])
    requires |Life(s, events).table.idmap| <= UNASSIGNED
    ensures var end := Life(s, events);
            !end.table.dirty && end.saves == map[] ==> end.written == PersistentEntries(end.table)
    ensures Truthful(s, events)
    decreases |events|
  {
    hide Settled, React, Spoils, PersistentEntries, EventOk;
    FlagIsTruthfulIff(s, events);
    StaysTruthful(s, events);
  }

  lemma {:induction false} StaysTruthful(s: Store, events: seq<StoreEvent>)
    requires Clean(s) && forall k :: 0 <= k < |events| ==> !Spoils(Life(s, events[..k]), events[k])
    ensures Truthful(s, events)
    decreases |events|
  {
    hide React, Spoils, Clean;
    if events != [] {
      var k := |events| - 1;
      forall j | 0 <= j < k ensures !Spoils(Life(s, events[..k][..j]), events[..k][j]) {
        assert events[..k][..j] == events[..j];
      }
      StaysTruthful(s, events[..k]);
    }
  }

  predicate RestoredBy(s: Store, events: seq<StoreEvent>) {
    events != [] &&
    (var k := |events| - 1; RestoredBy(s, events[..k]) || Restores(Life(s, events[..k]), events[k]))
  }

  /**
   Once the flag lies, and until something spoils it again, it tells the truth if and only if an operation has raised it
   since, a save on demand to the own file has started, a periodic save has failed, or a load has brought the entries
   back to what the file has. Saves to other files, and periodic saves that succeed, do nothing.
   */
  lemma {:induction false} RestoredIff(s: Store, events: seq<StoreEvent>)
    requires Settled(s.table) && s.table.server && !Clean(s) && forall e :: e in events ==> EventOk(e)
    requires forall k :: 0 <= k < |events| && RestoredBy(s, events[..k]) ==> !Spoils(Life(s, events[..k]), events[k])
    requires |Life(s, events).table.idmap| <= UNASSIGNED
    ensures Clean(Life(s, events)) <==> RestoredBy(s, events)
  {
    hide Settled, React, Spoils, Restores, Clean, EventOk;
    FlagIsTruthfulIff(s, events);
    RestoredIsTruthful(s, events);
  }

  lemma {:induction false} RestoredIsTruthful(s: Store, events: seq<StoreEvent>)
    requires !Clean(s)
    requires forall k :: 0 <= k < |events| && RestoredBy(s, events[..k]) ==> !Spoils(Life(s, events[..k]), events[k])
    ensures Truthful(s, events) <==> RestoredBy(s, events)
    decreases |events|
  {
    hide React, Spoils, Restores, Clean;
    if events != [] {
      var k := |events| - 1;
      forall j | 0 <= j < k && RestoredBy(s, events[..k][..j])
        ensures !Spoils(Life(s, events[..k][..j]), events[..k][j])
      {
        assert events[..k][..j] == events[..j];
      }
      RestoredIsTruthful(s, events[..k]);
    }
  }

  // ---------------------------------------------------------------- careful use

  /** One save at a time, always to the own file; no save on demand fails; nothing is loaded. */
  predicate Careful(s: Store, e: StoreEvent) {
    match e
    case Does(_) => true
    case Loads(_, _) => false
    case SaveStarts(_, kind) => IsOwn(kind) && s.saves == map[]
    case SaveEnds(w, ok) => w in s.saves && (ok || s.saves[w].kind.Periodic?)
  }

  /** At most one save is under way, and it has what is to be saved, unless the flag is up. */
  predicate Single(s: Store) {
    && (forall v, w :: v in s.saves && w in s.saves ==> v == w)
    && (forall w :: w in s.saves ==>
          IsOwn(s.saves[w].kind) && (s.table.dirty || s.saves[w].snapshot == PersistentEntries(s.table)))
  }

  lemma CarefulKeepsSingle(s: Store, e: StoreEvent)
    requires Settled(s.table) && s.table.server && Single(s) && Careful(s, e)
    ensures Single(React(s, e)) && !Spoils(s, e)
  {
    hide Settled, Step, PersistentEntries;
    match e
    case Does(op) => StepDirty(s.table, op);
    case _ => SameEntriesWhateverDirty(s.table, React(s, e).table.dirty);
  }

  lemma {:induction false} CarefulRunIsSingle(s: Store, events: seq<StoreEvent>)
    requires Settled(s.table) && s.table.server && s.saves == map[] && forall e :: e in events ==> EventOk(e)
    requires forall k :: 0 <= k < |events| ==> Careful(Life(s, events[..k]), events[k])
    requires |Life(s, events).table.idmap| <= UNASSIGNED
    ensures Settled(Life(s, events).table) && Life(s, events).table.server && Single(Life(s, events))
    decreases |events|
  {
    hide Settled, React, Careful, EventOk, Single;
    if events == [] {
      NoSaveIsSingle(s);
    } else {
      var k := |events| - 1;
      CarefulPrefix(s, events, k);
      CarefulRunIsSingle(s, events[..k]);
      assert events[k] in events;
      ReactKeepsSettled(Life(s, events[..k]), events[k]);
      CarefulKeepsSingle(Life(s, events[..k]), events[k]);
    }
  }

  lemma NoSaveIsSingle(s: Store)
    requires s.saves == map[]
    ensures Single(s)
  {
  }

  lemma CarefulPrefix(s: Store, events: seq<StoreEvent>, k: nat)
    requires k <= |events| && forall j :: 0 <= j < |events| ==> Careful(Life(s, events[..j]), events[j])
    ensures forall j :: 0 <= j < k ==> Careful(Life(s, events[..k][..j]), events[..k][j])
  {
    hide Careful, Life;
    forall j | 0 <= j < k ensures Careful(Life(s, events[..k][..j]), events[..k][j]) {
      assert events[..k][..j] == events[..j];
    }
  }

  lemma {:induction false} LifeExtends(s: Store, events: seq<StoreEvent>, k: nat)
    requires k <= |events|
    ensures |Life(s, events[..k]).table.idmap| <= |Life(s, events).table.idmap|
    decreases |events|
  {
    hide React;
    if k < |events| {
      LifeExtends(s, events[..|events| - 1], k);
      assert events[..|events| - 1][..k] == events[..k];
    } else {
      assert events[..k] == events;
    }
  }

  lemma CarefulSpoilsNothing(s: Store, events: seq<StoreEvent>, k: nat)
    requires Settled(s.table) && s.table.server && s.saves == map[] && forall e :: e in events ==> EventOk(e)
    requires forall j :: 0 <= j < |events| ==> Careful(Life(s, events[..j]), events[j])
    requires |Life(s, events).table.idmap| <= UNASSIGNED && k < |events|
    ensures !Spoils(Life(s, events[..k]), events[k])
  {
    hide Settled, Life, Careful, EventOk, Single, Spoils;
    CarefulPrefix(s, events, k);
    LifeExtends(s, events, k);
    CarefulRunIsSingle(s, events[..k]);
    CarefulKeepsSingle(Life(s, events[..k]), events[k]);
  }

  /** What is enough, in every life: the flag is down and no save is under way only if the file is up to date. */
  lemma CarefulUseIsSound(s: Store, events: seq<StoreEvent>)
    requires Settled(s.table) && s.table.server && Clean(s) && s.saves == map[]
    requires forall e :: e in events ==> EventOk(e)
    requires forall k :: 0 <= k < |events| ==> Careful(Life(s, events[..k]), events[k])
    requires |Life(s, events).table.idmap| <= UNASSIGNED
    ensures var end := Life(s, events);
            !end.table.dirty && end.saves == map[] ==> end.written == PersistentEntries(end.table)
  {
    hide Settled, Life, Spoils, Careful, EventOk, PersistentEntries, Clean;
    forall k | 0 <= k < |events| ensures !Spoils(Life(s, events[..k]), events[k]) {
      CarefulSpoilsNothing(s, events, k);
    }
    FlagIsSound(s, events);
  }

  // ---------------------------------------------------------------- where a server starts

  /** What a file holds, if it lists a name twice: the last value. */
  function FileOf(items: seq<(Text, Value)>): map<Text, Value> {
    if items == [] then map[] else FileOf(items[..|items| - 1])[items[|items| - 1].0 := items[|items| - 1].1]
  }

  lemma {:induction false} EmptyLoads(items: seq<(Text, Value)>)
    ensures AfterLoad(Empty(), items, true) == FileOf(items)
    decreases |items|
  {
    if items == [] {
      assert PersistentEntries(Empty()) == map[];
    } else {
      EmptyLoads(items[..|items| - 1]);
    }
  }

  /** A server that starts from its own file, which may be empty, starts with a truthful flag. */
  lemma StartIsClean(items: seq<(Text, Value)>)
    ensures Clean(React(Store(Empty(), FileOf(items), map[]), Loads(items, true))) && Settled(Empty())
  {
    AllLoaded(Empty(), items, true);
    EmptyLoads(items);
    hide LoadAll, PersistentEntries, AfterLoad, FileOf;
  }

  // ---------------------------------------------------------------- four ways to lose an entry

  lemma LifeNext(s: Store, events: seq<StoreEvent>, e: StoreEvent)
    ensures Life(s, events + [e]) == React(Life(s, events), e)
  {
    hide React;
    assert (events + [e])[..|events|] == events;
  }

  function Fresh(): Store {
    Store(Empty(), map[], map[])
  }

  /** A new server whose only entry has just been made persistent. */
  function FirstEntry(n: Text, v: Value): seq<StoreEvent> {
    [Does(ForceSet(n, v))] + [Does(ChangeFlags(n, 1))]
  }

  lemma FirstTables(n: Text, v: Value, w: Value)
    requires n != []
    ensures var t1 := Step(Empty(), ForceSet(n, v)).table; var t2 := Step(t1, ChangeFlags(n, 1)).table;
            && PersistentEntries(t2) == map[n := v] && t2.dirty && |t2.idmap| == 1
            && PersistentEntries(Step(t2.(dirty := false), ForceSet(n, w)).table) == map[n := w]
            && (v != w ==> Step(t2.(dirty := false), ForceSet(n, w)).table.dirty)
  {
    var t1 := Step(Empty(), ForceSet(n, v)).table;
    assert t1.entries == map[n := Record(Some(v), 0, 0, 1, true)];
    var t2 := Step(t1, ChangeFlags(n, 1)).table;
    assert t2.entries == map[n := Record(Some(v), 1, 0, 1, true)];
    var t3 := Step(t2.(dirty := false), ForceSet(n, w)).table;
    assert t3.entries == map[n := t3.entries[n]] && t3.entries[n].value == Some(w) && t3.entries[n].flags == 1;
  }

  lemma FirstLife(n: Text, v: Value)
    requires n != []
    ensures var s := Life(Fresh(), FirstEntry(n, v));
            && s == Store(Step(Step(Empty(), ForceSet(n, v)).table, ChangeFlags(n, 1)).table, map[], map[])
            && PersistentEntries(s.table) == map[n := v] && s.table.dirty
  {
    hide Step, PersistentEntries;
    FirstTables(n, v, v);
    var e1, e2 := Does(ForceSet(n, v)), Does(ChangeFlags(n, 1));
    LifeNext(Fresh(), [], e1);
    assert [] + [e1] == [e1];
    LifeNext(Fresh(), [e1], e2);
  }

  /** No save is under way, the flag is down, and the own file is out of date. */
  predicate Lost(s: Store) {
    s.saves == map[] && !s.table.dirty && s.written != PersistentEntries(s.table)
  }

  /** A save on demand that fails, or that goes to another file whether it fails or not. */
  lemma OnDemandLoses(n: Text, v: Value, own: bool, ok: bool)
    requires n != [] && !(own && ok)
    ensures var s := Life(Fresh(), FirstEntry(n, v) + [SaveStarts(0, OnDemand(own))] + [SaveEnds(0, ok)]);
            Lost(s) && PersistentEntries(s.table) == map[n := v]
  {
    hide Step, PersistentEntries, FirstEntry;
    assert n in map[n := v];
    FirstLife(n, v);
    var s2 := Life(Fresh(), FirstEntry(n, v));
    LifeNext(Fresh(), FirstEntry(n, v), SaveStarts(0, OnDemand(own)));
    LifeNext(Fresh(), FirstEntry(n, v) + [SaveStarts(0, OnDemand(own))], SaveEnds(0, ok));
    SameEntriesWhateverDirty(s2.table, false);
    var s3 := React(s2, SaveStarts(0, OnDemand(own)));
    assert s3.saves == map[0 := Save(map[n := v], OnDemand(own))];
    assert React(s3, SaveEnds(0, ok)).saves == map[];
  }

  /** Two saves to the own file, both successful: the one that started first ends last and brings back the old value. */
  lemma OverlappingSavesLose(n: Text, v: Value, w: Value, kind: Kind, kind': Kind)
    requires n != [] && v != w && IsOwn(kind) && IsOwn(kind')
    ensures var s := Life(Fresh(), FirstEntry(n, v) + [SaveStarts(0, kind)] + [Does(ForceSet(n, w))]
                                   + [SaveStarts(1, kind')] + [SaveEnds(1, true)] + [SaveEnds(0, true)]);
            Lost(s) && s.written == map[n := v] && PersistentEntries(s.table) == map[n := w]
  {
    hide Step, PersistentEntries, FirstEntry;
    assert map[n := v][n] == v && map[n := w][n] == w;
    FirstLife(n, v);
    FirstTables(n, v, w);
    var a := FirstEntry(n, v);
    var s2 := Life(Fresh(), a);
    LifeNext(Fresh(), a, SaveStarts(0, kind));
    LifeNext(Fresh(), a + [SaveStarts(0, kind)], Does(ForceSet(n, w)));
    LifeNext(Fresh(), a + [SaveStarts(0, kind)] + [Does(ForceSet(n, w))], SaveStarts(1, kind'));
    LifeNext(Fresh(), a + [SaveStarts(0, kind)] + [Does(ForceSet(n, w))] + [SaveStarts(1, kind')], SaveEnds(1, true));
    LifeNext(Fresh(), a + [SaveStarts(0, kind)] + [Does(ForceSet(n, w))] + [SaveStarts(1, kind')] + [SaveEnds(1, true)],
             SaveEnds(0, true));
    var s4 := React(React(s2, SaveStarts(0, kind)), Does(ForceSet(n, w)));
    assert s4.saves == map[0 := Save(map[n := v], kind)] && PersistentEntries(s4.table) == map[n := w];
    SameEntriesWhateverDirty(s4.table, false);
    var s5 := React(s4, SaveStarts(1, kind'));
    assert s5.saves == map[0 := Save(map[n := v], kind), 1 := Save(map[n := w], kind')];
    var s6 := React(s5, SaveEnds(1, true));
    assert s6.saves == map[0 := Save(map[n := v], kind)];
    assert React(s6, SaveEnds(0, true)).saves == map[];
  }

  /** A persistent load is not saved. */
  lemma LoadIsNotSaved(n: Text, v: Value)
    ensures var s := Life(Fresh(), [Loads([(n, v)], true)]); Lost(s) && PersistentEntries(s.table) == map[n := v]
  {
    AllLoaded(Empty(), [(n, v)], true);
    EmptyLoads([(n, v)]);
    LifeNext(Fresh(), [], Loads([(n, v)], true));
    assert FileOf([(n, v)]) == map[n := v] by { assert [(n, v)][..0] == []; }
    assert [] + [Loads([(n, v)], true)] == [Loads([(n, v)], true)];
    assert n in map[n := v];
    hide LoadAll, PersistentEntries, AfterLoad, FileOf;
  }
}
