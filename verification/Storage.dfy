/**
 The storage object: entries that are updated in place and reachable through three indexes, and the value
 that a user's handle of an entry shows. Each method is proved against its function in `StorageSpec`.
 */
module Storage {
  import opened Wrappers
  import opened Serial
  import opened Protocol
  import opened StorageSpec
  import opened HandshakeSpec
  import opened DirtyFlag
  import opened OldPeers

  /** What user code holds: it reads the value without taking the storage's lock. */
  class UserEntry {
    var value: Option<Value>

    constructor ()
      ensures value == None
    {
      value := None;
    }
  }

  class Entry {
    const name: Text
    const localId: nat
    const userEntry: UserEntry
    var value: Option<Value>
    var flags: int
    var isPersistent: bool
    var id: nat
    var seqNum: U16
    var localWrite: bool

    constructor (name: Text, localId: nat, userEntry: UserEntry)
      ensures this.name == name && this.localId == localId && this.userEntry == userEntry
      ensures Rec() == BLANK && !isPersistent
    {
      this.name, this.localId, this.userEntry := name, localId, userEntry;
      value, flags, isPersistent, id := None, 0, false, UNASSIGNED;
      seqNum, localWrite := 0, false;
    }

    ghost function Rec(): Record
      reads this
    {
      Record(value, flags, id, seqNum, localWrite)
    }

    /** The user sees the value, and the cached bit is bit 0 of the flags. */
    ghost predicate CachesOk()
      reads this, userEntry
    {
      userEntry.value == value && isPersistent == Persistent(flags)
    }

    predicate IsSeqNewerThan(other: U16)
      reads this
    {
      Newer(seqNum, other)
    }

    predicate IsSeqNewerOrEqual(other: U16)
      reads this
    {
      NewerOrEqual(seqNum, other)
    }
  }

  ghost function NameOf(e: Entry?): Option<Text> {
    if e == null then None else Some(e.name)
  }

  ghost function Ids(m: seq<Entry?>): seq<Option<Text>> {
    seq(|m|, i requires 0 <= i < |m| => NameOf(m[i]))
  }

  ghost function Names(m: seq<Entry>): seq<Text> {
    seq(|m|, i requires 0 <= i < |m| => m[i].name)
  }

  lemma IdsAppend(m: seq<Entry?>, e: Entry)
    ensures Ids(m + [e]) == Ids(m) + [Some(e.name)]
  {
  }

  lemma IdsUpdate(m: seq<Entry?>, i: nat, e: Entry?)
    requires i < |m|
    ensures Ids(m[i := e]) == Ids(m)[i := NameOf(e)]
  {
  }

  lemma IdsExtend(m: seq<Entry?>, id: nat)
    requires id >= |m|
    ensures Ids(m + seq(id - |m| + 1, _ => null)) == ExtendTo(Ids(m), id)
  {
  }

  lemma NamesAppend(m: seq<Entry>, e: Entry)
    ensures Names(m + [e]) == Names(m) + [e.name]
  {
  }

  // What the single-entry operations of the specification come to, apart from the heap.

  lemma Deleted(t: Table, n: Text, local: bool, idmap: seq<Option<Text>>, dirty: bool, out: seq<Outgoing>)
    requires n in t.entries
    requires var r := t.entries[n];
             && idmap == (if r.id < |t.idmap| then t.idmap[r.id := None] else t.idmap)
             && dirty == (t.dirty || Persistent(r.flags))
             && out == if r.value.Some? && local && r.id != UNASSIGNED then ToAll(EntryDelete(r.id)) else []
    ensures var r := Record(None, 0, UNASSIGNED, t.entries[n].seqNum, false);
            Effect(Put(t.(idmap := idmap, dirty := dirty), n, r), out)
            == Delete(t, n, local)
  {
  }

  lemma ValueSet(t: Table, n: Text, v: Value, local: bool, r: Record, idmap: seq<Option<Text>>, dirty: bool,
      out: seq<Outgoing>)
    requires n in t.entries
    requires var was := t.entries[n];
             && r == Written(t, was, v, local)
             && idmap == (if NeedsId(t, was) then t.idmap + [Some(n)] else t.idmap)
             && dirty == (t.dirty || (Persistent(was.flags) && was.value != Some(v)))
             && out == ChangeMessage(t, n, was, r, v, local)
    ensures Effect(Put(t.(idmap := idmap, dirty := dirty), n, r), out) == SetValue(t, n, v, local)
  {
  }

  /** The branches that write the sequence number and choose the message come to the specification's record. */
  lemma Rewritten(t: Table, n: Text, was: Record, v: Value, local: bool, r: Record, out: seq<Outgoing>)
    requires r.value == Some(v) && r.flags == was.flags && r.id == (if NeedsId(t, was) then |t.idmap| else was.id)
    requires r.localWrite == (was.localWrite || local)
    requires r.seqNum == if local && was.value != Some(v) then Increment(was.seqNum) else was.seqNum
    requires out == if (!local && !t.server) || was.value == Some(v) then []
                    else if was.value.None? || was.value.value.Type() != v.Type() then
                      ToAll(EntryAssign(n, r.id, r.seqNum, v, r.flags))
                    else if r.id != UNASSIGNED then ToAll(EntryUpdate(r.id, r.seqNum, v))
                    else []
    ensures r == Written(t, was, v, local) && out == ChangeMessage(t, n, was, r, v, local)
  {
  }

  lemma Loaded(t: Table, n: Text, v: Value, persistent: bool, r: Record, idmap: seq<Option<Text>>, out: seq<Outgoing>)
    requires var t' := StorageSpec.GetOrNew(t, n);
             var was := t'.entries[n];
             var marks := persistent && !Persistent(was.flags);
             && r == Record(Some(v), if marks then was.flags + 1 else was.flags,
                            if NeedsId(t', was) then |t'.idmap| else was.id, Increment(was.seqNum), was.localWrite)
             && idmap == (if NeedsId(t', was) then t'.idmap + [Some(n)] else t'.idmap)
             && out == (if was.value.None? || was.value.value.Type() != v.Type()
                 then ToAll(EntryAssign(n, r.id, r.seqNum, v, r.flags))
                        else if r.id == UNASSIGNED then []
                        else (if was.value.value != v then ToAll(EntryUpdate(r.id, r.seqNum, v)) else [])
                             + (if marks then ToAll(FlagsUpdate(r.id, r.flags)) else []))
    ensures LoadOne(t, n, v, persistent) == Effect(Put(StorageSpec.GetOrNew(t, n).(idmap := idmap), n, r), out)
  {
  }

  lemma DeleteNothing(t: Table)
    ensures DeleteNames(t, {}) == t
  {
  }

  /** One name more: its slot is emptied and its record loses value, id and mark. */
  lemma DeleteNamesNext(t: Table, doomed: set<Text>, n: Text)
    requires n in t.entries && n !in doomed
    ensures var t', r := DeleteNames(t, doomed), t.entries[n];
            && n in t'.entries && t'.entries[n] == r && |t'.idmap| == |t.idmap|
            && DeleteNames(t, doomed + {n})
               == Put(t'.(idmap := if r.id < |t'.idmap| then t'.idmap[r.id := None] else t'.idmap), n, Emptied(r))
  {
    var t', r, t'' := DeleteNames(t, doomed), t.entries[n], DeleteNames(t, doomed + {n});
    assert t''.entries == t'.entries[n := Emptied(r)];
    assert forall i :: 0 <= i < |t.idmap| ==>
        t''.idmap[i] == if i == r.id then None else t'.idmap[i];
    assert t''.idmap == if r.id < |t'.idmap| then t'.idmap[r.id := None] else t'.idmap;
  }

  lemma NextDoomed(t: Table, i: nat)
    requires i < |t.localmap|
    ensures var n := t.localmap[i];
            (set k | k in t.localmap[..i + 1] && k in Unprotected(t))
            == (set k | k in t.localmap[..i] && k in Unprotected(t)) + (if n in Unprotected(t) then {n} else {})
  {
    assert t.localmap[..i + 1] == t.localmap[..i] + [t.localmap[i]];
  }

  ghost function SetOf(names: seq<Text>): set<Text> {
    set n | n in names
  }

  lemma SetOfNext(names: seq<Text>, i: nat)
    requires i < |names|
    ensures SetOf(names[..i + 1]) == SetOf(names[..i]) + {names[i]}
  {
    assert names[..i + 1] == names[..i] + [names[i]];
  }

  lemma NothingToSend(t: Table)
    ensures Snapshot(t, t.localmap[..0]) == [] && Requests(t, t.localmap[..0]) == []
  {
  }

  lemma NextForgotten(t: Table, i: nat)
    requires i < |t.localmap|
    ensures var n := t.localmap[i];
            (set k | k in t.localmap[..i + 1] && k in Forgotten(t))
            == (set k | k in t.localmap[..i] && k in Forgotten(t)) + (if n in Forgotten(t) then {n} else {})
  {
    assert t.localmap[..i + 1] == t.localmap[..i] + [t.localmap[i]];
  }

  lemma ForgottenIsHandled(t: Table)
    requires forall n :: n in t.entries ==> n in t.localmap
    ensures (set n | n in t.localmap && n in Forgotten(t)) == Forgotten(t)
  {
  }

  lemma UnprotectedIsHandled(t: Table)
    requires forall n :: n in t.entries ==> n in t.localmap
    ensures (set n | n in t.localmap && n in Unprotected(t)) == Unprotected(t)
  {
  }

  class Storage {
    var server: bool
    var entries: map<Text, Entry>
    var idmap: seq<Entry?>
    var localmap: seq<Entry>
    var persistentDirty: bool

    /** The objects that make up the storage. */
    ghost var Repr: set<object>

    /** Handles and names lead to the same entries, which share no user entry. */
    ghost predicate IndexesOk()
      reads this
    {
      && this in Repr && (forall e :: e in localmap ==> e in Repr && e.userEntry in Repr)
      && (forall i :: 0 <= i < |localmap| ==>
            localmap[i].localId == i && localmap[i].name in entries && entries[localmap[i].name] == localmap[i])
      && (forall i, j :: 0 <= i < j < |localmap| ==> localmap[i].userEntry != localmap[j].userEntry)
      && (forall n :: n in entries ==> entries[n].name == n && entries[n] in localmap)
      && (forall i :: 0 <= i < |idmap| && idmap[i] != null ==> idmap[i] in localmap)
    }

    ghost predicate Valid()
      reads this, Repr
    {
      && IndexesOk()
      && (forall e :: e in localmap ==> e.CachesOk())
    }

    ghost function View(): Table
      reads this, Repr
      requires Valid()
    {
      Table(server, Recs(), Ids(idmap), Names(localmap), persistentDirty)
    }

    ghost function Recs(): map<Text, Record>
      reads this, set n | n in entries :: entries[n]
    {
      map n | n in entries :: entries[n].Rec()
    }

    constructor ()
      ensures Valid() && fresh(Repr) && View() == Empty()
    {
      server, entries, idmap, localmap, persistentDirty := true, map[], [], [], false;
      Repr := {this};
    }

    // ------------------------------------------------------------ proof of a change in place

    /** The fields of one entry, its slot and the dirty flag change; names and handles stay. */
    twostate lemma Touched(e: Entry)
      requires old(Valid()) && e in old(localmap)
      requires localmap == old(localmap) && entries == old(entries) && server == old(server) && Repr == old(Repr)
      requires forall i :: 0 <= i < |idmap| && idmap[i] != null ==> idmap[i] in localmap
      requires forall x :: x in localmap && x != e ==> unchanged(x) && unchanged(x.userEntry)
      requires e.CachesOk()
      ensures Valid() && e.name in old(View()).entries
      ensures View() == Put(old(View()).(idmap := Ids(idmap), dirty := persistentDirty), e.name, e.Rec())
    {
      var i :| 0 <= i < |localmap| && localmap[i] == e;
      forall x | x in localmap ensures x.CachesOk() && (x != e ==> x.Rec() == old(x.Rec())) {
        assert old(x.CachesOk());
      }
      assert Recs() == old(Recs())[e.name := e.Rec()];
    }

    /** The slots have not changed. */
    twostate lemma SameSlots(e: Entry)
      requires old(Valid()) && idmap == old(idmap)
      ensures old(View()).idmap == Ids(idmap) && old(View()).dirty == old(persistentDirty)
    {
    }

    /** What the fields of a valid storage say about its view. */
    lemma Inspect(e: Entry)
      requires Valid() && e in localmap
      ensures e.name in View().entries && View().entries[e.name] == e.Rec() && entries[e.name] == e
      ensures View().idmap == Ids(idmap) && |Ids(idmap)| == |idmap| && View().dirty == persistentDirty
                && View().server == server
      ensures forall i :: 0 <= i < |idmap| && idmap[i] != null ==> idmap[i] in localmap
      ensures e.isPersistent == Persistent(e.flags)
      ensures this in Repr && e in Repr && e.userEntry in Repr
      ensures e.CachesOk()
      ensures forall x :: x in localmap && x != e ==> x.userEntry != e.userEntry
    {
    }

    method GetOrNew(name: Text) returns (entry: Entry)
      requires Valid()
      modifies this`entries, this`localmap, this`Repr
      ensures Valid() && fresh(Repr - old(Repr)) && old(Repr) <= Repr
      ensures View() == StorageSpec.GetOrNew(old(View()), name)
      ensures entry in localmap && entry.name == name
      ensures old(localmap) <= localmap
    {
      if name in entries {
        entry := entries[name];
      } else {
        var localId := |localmap|;
        var userEntry := new UserEntry();
        entry := new Entry(name, localId, userEntry);
        entries := entries[name := entry];
        localmap := localmap + [entry];
        Repr := Repr + {entry, userEntry};
        Added(entry);
      }
    }

    /** A new entry joins. */
    twostate lemma Added(new e: Entry)
      requires old(Valid()) && e.name !in old(entries) && fresh(e) && fresh(e.userEntry)
      requires entries == old(entries)[e.name := e] && localmap == old(localmap) + [e]
      requires e.localId == |old(localmap)| && e.Rec() == BLANK && e.CachesOk()
      requires Repr == old(Repr) + {e, e.userEntry}
      requires server == old(server) && idmap == old(idmap) && persistentDirty == old(persistentDirty)
      requires forall x :: x in old(localmap) ==> unchanged(x) && unchanged(x.userEntry)
      ensures Valid()
      ensures View() == StorageSpec.GetOrNew(old(View()), e.name)
    {
      AddedIndexes(e);
      AddedCaches(e);
      AddedRecs(e);
      hide IndexesOk, Recs, Entry.CachesOk, Entry.Rec;
      NamesAppend(old(localmap), e);
    }

    twostate lemma AddedRecs(new e: Entry)
      requires old(IndexesOk()) && e.name !in old(entries) && e.Rec() == BLANK
      requires entries == old(entries)[e.name := e]
      requires forall x :: x in old(localmap) ==> unchanged(x)
      ensures Recs() == old(Recs())[e.name := BLANK]
    {
      forall n | n in old(entries) ensures entries[n].Rec() == old(entries[n].Rec()) {
        assert old(entries)[n] in old(localmap);
      }
    }

    twostate lemma AddedIndexes(new e: Entry)
      requires old(IndexesOk()) && e.name !in old(entries) && fresh(e) && fresh(e.userEntry)
      requires entries == old(entries)[e.name := e] && localmap == old(localmap) + [e] && idmap == old(idmap)
      requires e.localId == |old(localmap)| && Repr == old(Repr) + {e, e.userEntry}
      ensures IndexesOk()
    {
      forall i | 0 <= i < |localmap|
          ensures localmap[i].localId == i && localmap[i].name in entries && entries[localmap[i].name] == localmap[i]
      {
        assert i < |old(localmap)| ==> localmap[i] == old(localmap)[i];
      }
    }

    twostate lemma AddedCaches(new e: Entry)
      requires old(Valid()) && localmap == old(localmap) + [e] && e.CachesOk()
      requires forall x :: x in old(localmap) ==> unchanged(x) && unchanged(x.userEntry)
      ensures forall x :: x in localmap ==> x.CachesOk()
    {
      forall x | x in localmap ensures x.CachesOk() { assert x == e || old(x.CachesOk()); }
    }

    // ------------------------------------------------------------ single entries

    method SetEntryValueImpl(entry: Entry, value: Value, local: bool) returns (out: seq<Outgoing>)
      requires Valid() && entry in localmap
      modifies this`idmap, this`persistentDirty, entry, entry.userEntry
      ensures Valid() && entry.name in old(View()).entries
      ensures Effect(View(), out) == SetValue(old(View()), entry.name, value, local)
    {
      hide Valid, View, IndexesOk, Recs, SetValue, Ids, Written, ChangeMessage, Entry.CachesOk;
      Inspect(entry);
      IdsAppend(idmap, entry);
      ghost var t, was := View(), entry.Rec();
      var oldValue := entry.value;
      StoreValue(entry, value, local);
      out := GenerateMessage(entry, oldValue, value, local);
      Touched(entry);
      Rewritten(t, entry.name, was, value, local, entry.Rec(), out);
      ValueSet(t, entry.name, value, local, entry.Rec(), Ids(idmap), persistentDirty, out);
    }

    /** The value, the id, the dirty flag and the mark of a local write. */
    method StoreValue(entry: Entry, value: Value, local: bool)
      requires entry.CachesOk()
      modifies this`idmap, this`persistentDirty, entry, entry.userEntry
      ensures entry.CachesOk()
      ensures var was := old(entry.Rec());
              && entry.Rec()
                  == Record(Some(value), was.flags, if server && was.id == UNASSIGNED then |old(idmap)| else was.id,
                                       was.seqNum, was.localWrite || local)
              && idmap == (if server && was.id == UNASSIGNED then old(idmap) + [entry] else old(idmap))
              && persistentDirty == (old(persistentDirty) || (Persistent(was.flags) && was.value != Some(value)))
    {
      var oldValue := entry.value;
      entry.value := Some(value);
      entry.userEntry.value := Some(value);
      if server && entry.id == UNASSIGNED {
        entry.id := |idmap|;
        idmap := idmap + [entry];
      }
      if entry.isPersistent && (oldValue.None? || oldValue != Some(value)) {
        persistentDirty := true;
      }
      if local {
        entry.localWrite := true;
      }
    }

    /** The end of the same method: the sequence number advances with a local change, and the message is chosen. */
    method GenerateMessage(entry: Entry, oldValue: Option<Value>, value: Value, local: bool)
      returns (out: seq<Outgoing>)
      modifies entry`seqNum
      ensures old(entry.CachesOk()) ==> entry.CachesOk()
      ensures entry.seqNum == if local && oldValue != Some(value) then Increment(old(entry.seqNum))
                else old(entry.seqNum)
      ensures out == if (!local && !server) || oldValue == Some(value) then []
                     else if oldValue.None? || oldValue.value.Type() != value.Type() then
                       ToAll(EntryAssign(entry.name, entry.id, entry.seqNum, value, entry.flags))
                     else if entry.id != UNASSIGNED then ToAll(EntryUpdate(entry.id, entry.seqNum, value))
                     else []
    {
      out := [];
      if local || server {
        if oldValue.None? || oldValue.value.Type() != value.Type() {
          if local {
            entry.seqNum := Increment(entry.seqNum);
          }
          out := ToAll(EntryAssign(entry.name, entry.id, entry.seqNum, value, entry.flags));
        } else if oldValue.value != value {
          if local {
            entry.seqNum := Increment(entry.seqNum);
          }
          if entry.id != UNASSIGNED {
            out := ToAll(EntryUpdate(entry.id, entry.seqNum, value));
          }
        }
      }
    }

    method SetEntryFlagsImpl(entry: Entry, flags: int, local: bool) returns (out: seq<Outgoing>)
      requires Valid() && entry in localmap
      modifies this`persistentDirty, entry
      ensures Valid() && entry.name in old(View()).entries
      ensures Effect(View(), out) == SetFlags(old(View()), entry.name, flags, local)
    {
      hide Valid, View, IndexesOk, Recs, Ids;
      Inspect(entry);
      out := [];
      if entry.value.None? || entry.flags == flags {
        return;
      }
      if Persistent(entry.flags) != Persistent(flags) {
        persistentDirty := true;
      }
      entry.flags := flags;
      entry.isPersistent := Persistent(flags);
      if local && entry.id != UNASSIGNED {
        out := ToAll(FlagsUpdate(entry.id, flags));
      }
      Touched(entry);
      SameSlots(entry);
    }

    /** The value, the id, the mark, and last the flags, which the dirty flag depends on. */
    method ClearFields(entry: Entry)
      requires entry.CachesOk()
      modifies this`persistentDirty, entry, entry.userEntry
      ensures entry.CachesOk() && entry.Rec() == Record(None, 0, UNASSIGNED, old(entry.seqNum), false)
      ensures persistentDirty == (old(persistentDirty) || Persistent(old(entry.flags)))
    {
      entry.value := None;
      entry.userEntry.value := None;
      entry.id := UNASSIGNED;
      entry.localWrite := false;
      if entry.isPersistent {
        persistentDirty := true;
      }
      entry.flags := 0;
      entry.isPersistent := false;
    }

    method DeleteEntryImpl(entry: Entry, local: bool) returns (out: seq<Outgoing>)
      requires Valid() && entry in localmap
      modifies this`idmap, this`persistentDirty, entry, entry.userEntry
      ensures Valid() && entry.name in old(View()).entries
      ensures Effect(View(), out) == Delete(old(View()), entry.name, local)
    {
      hide Valid, View, IndexesOk, Recs, Delete, Entry.CachesOk;
      Inspect(entry);
      ghost var t := View();
      var entryId := entry.id;
      if entryId < |idmap| {
        IdsUpdate(idmap, entryId, null);
        idmap := idmap[entryId := null];
      }
      var oldValue := entry.value;
      ClearFields(entry);
      out := [];
      if oldValue.Some? && local && entryId != UNASSIGNED {
        out := ToAll(EntryDelete(entryId));
      }
      Touched(entry);
      Deleted(t, entry.name, local, Ids(idmap), persistentDirty, out);
    }

    // ------------------------------------------------------------ bulk deletion

    /** Empties one entry and its slot, as bulk deletion does: the flags stay. */
    method EmptyEntry(entry: Entry)
      requires Valid() && entry in localmap
      modifies this`idmap, this`persistentDirty, entry, entry.userEntry
      ensures Valid() && entry.name in old(View()).entries
      ensures var t, r := old(View()), old(entry.Rec());
              && t.entries[entry.name] == r
              && View() == Put(t.(idmap := if r.id < |t.idmap| then t.idmap[r.id := None] else t.idmap),
                               entry.name, Emptied(r))
    {
      hide Valid, View, IndexesOk, Recs, Ids;
      Inspect(entry);
      ghost var t := View();
      if entry.id < |idmap| {
        IdsUpdate(idmap, entry.id, null);
        idmap := idmap[entry.id := null];
      }
      entry.id := UNASSIGNED;
      entry.localWrite := false;
      entry.value := None;
      entry.userEntry.value := None;
      Touched(entry);
      assert t.(idmap := Ids(idmap), dirty := persistentDirty) == t.(idmap := Ids(idmap));
    }

    /** What `View` says about the handles. */
    lemma InspectHandles(i: nat)
      requires Valid() && i < |localmap|
      ensures |View().localmap| == |localmap| && View().localmap[i] == localmap[i].name
    {
    }

    /** No two handles have the same name. */
    lemma HandlesDiffer(i: nat)
      requires Valid() && i < |localmap|
      ensures |View().localmap| == |localmap| && View().localmap[i] !in View().localmap[..i]
    {
      forall j | 0 <= j < i ensures localmap[j].name != localmap[i].name {
        assert localmap[j].localId != localmap[i].localId;
      }
    }

    lemma AllHandled()
      requires Valid()
      ensures forall n :: n in View().entries <==> n in View().localmap
      ensures |View().localmap| == |localmap|
    {
      forall n | n in View().entries ensures n in View().localmap {
        assert entries[n] in localmap;
        var i :| 0 <= i < |localmap| && localmap[i] == entries[n];
        assert View().localmap[i] == n;
      }
    }

    /** One round of the loop that deletes everything unprotected. */
    method Sweep(entry: Entry, ghost t: Table, ghost doomed: set<Text>) returns (hit: bool)
      requires Valid() && entry in localmap
      requires View() == DeleteNames(t, doomed) && entry.name in t.entries && entry.name !in doomed
      modifies this`idmap, this`persistentDirty, entry, entry.userEntry
      ensures Valid() && View() == DeleteNames(t, if hit then doomed + {entry.name} else doomed)
      ensures hit <==> entry.name in Unprotected(t)
    {
      hide Valid, View, IndexesOk, Recs, DeleteNames;
      Inspect(entry);
      DeleteNamesNext(t, doomed, entry.name);
      hit := entry.value.Some? && !entry.isPersistent;
      if hit {
        EmptyEntry(entry);
      }
    }

    method DeleteAllEntriesImpl() returns (deleted: bool)
      requires Valid()
      modifies this`idmap, this`persistentDirty, localmap, set e | e in localmap :: e.userEntry
      ensures Valid()
      ensures View() == DeleteNames(old(View()), Unprotected(old(View())))
      ensures deleted <==> Unprotected(old(View())) != {}
    {
      hide Valid, View, IndexesOk, Recs, DeleteNames, Unprotected;
      ghost var t := View();
      ghost var doomed: set<Text> := {};
      DeleteNothing(t);
      AllHandled();
      deleted := false;
      var i := 0;
      while i < |localmap|
        invariant 0 <= i <= |localmap| == |t.localmap|
        invariant Valid() && View() == DeleteNames(t, doomed)
        invariant doomed == set n | n in t.localmap[..i] && n in Unprotected(t)
        invariant deleted <==> doomed != {}
      {
        HandlesDiffer(i);
        InspectHandles(i);
        assert View().localmap == t.localmap;
        var entry := localmap[i];
        var hit := Sweep(entry, t, doomed);
        NextDoomed(t, i);
        if hit {
          doomed := doomed + {entry.name};
          deleted := true;
        }
        i := i + 1;
      }
      UnprotectedIsHandled(t);
      assert t.localmap[..|t.localmap|] == t.localmap;
    }

    // ------------------------------------------------------------ incoming messages

    /** The entry in a slot, as the object and as the view have it. */
    lemma InspectSlot(id: nat)
      requires Valid()
      ensures Lookup(View(), id) == if id < |idmap| then NameOf(idmap[id]) else None
      ensures |View().idmap| == |idmap| && View().server == server
      ensures id < |idmap| && idmap[id] != null ==> idmap[id] in localmap
    {
    }

    method AssignKnownImpl(entry: Entry, msg: Message, conn: Conn, mayNeedUpdate: bool) returns (out: seq<Outgoing>)
      requires Valid() && entry in localmap && msg.EntryAssign? && (mayNeedUpdate ==> entry.value.Some?)
      modifies this`persistentDirty, entry, entry.userEntry
      ensures Valid() && entry.name in old(View()).entries
      ensures mayNeedUpdate ==> old(View()).entries[entry.name].value.Some?
      ensures Effect(View(), out) == AssignKnown(old(View()), entry.name, msg, conn, mayNeedUpdate)
    {
      hide Valid, View, IndexesOk, Recs, Ids, Entry.CachesOk;
      Inspect(entry);
      out := [];
      if entry.IsSeqNewerThan(msg.seqNum) {
        if mayNeedUpdate {
          out := ToAll(EntryUpdate(entry.id, entry.seqNum, entry.value.value));
        }
        return;
      }
      if msg.name != entry.name {
        return;
      }
      TakeAssignment(entry, msg, !mayNeedUpdate && conn.protoRev >= PROTO_3);
      if server {
        out := [Outgoing(EntryAssign(entry.name, msg.id, msg.seqNum, msg.value, entry.flags), Some(conn))];
      }
      Touched(entry);
      SameSlots(entry);
    }

    /** The flags, the dirty flag, the value and the sequence number of an accepted assignment. */
    method TakeAssignment(entry: Entry, msg: Message, takeFlags: bool)
      requires msg.EntryAssign? && entry.CachesOk()
      modifies this`persistentDirty, entry, entry.userEntry
      ensures entry.CachesOk()
      ensures var was := old(entry.Rec());
              var flags := if takeFlags then msg.flags else was.flags;
              && entry.Rec() == was.(value := Some(msg.value), flags := flags, seqNum := msg.seqNum)
              && persistentDirty == (old(persistentDirty)
                                     || (takeFlags && Persistent(was.flags) != Persistent(msg.flags))
                                     || (Persistent(flags) && was.value != Some(msg.value)))
    {
      if takeFlags {
        if entry.flags != msg.flags {
          if Persistent(entry.flags) != Persistent(msg.flags) {
            persistentDirty := true;
          }
        }
        entry.flags := msg.flags;
        entry.isPersistent := Persistent(msg.flags);
      }
      if entry.isPersistent && entry.value != Some(msg.value) {
        persistentDirty := true;
      }
      entry.value := Some(msg.value);
      entry.userEntry.value := Some(msg.value);
      entry.seqNum := msg.seqNum;
    }

    /** The flags and the sequence number of the request. */
    method Request(entry: Entry, msg: Message)
      requires Valid() && entry in localmap && msg.EntryAssign?
      modifies entry
      ensures Valid() && entry.name in old(View()).entries
      ensures View() == Put(old(View()), entry.name, old(entry.Rec()).(flags := msg.flags, seqNum := msg.seqNum))
      ensures old(View()).entries[entry.name] == old(entry.Rec())
    {
      hide Valid, View, IndexesOk, Recs, Ids;
      Inspect(entry);
      ghost var t := View();
      entry.flags := msg.flags;
      entry.isPersistent := Persistent(msg.flags);
      entry.seqNum := msg.seqNum;
      Touched(entry);
      assert t.(idmap := Ids(idmap), dirty := persistentDirty) == t;
    }

    method AssignRequestImpl(msg: Message) returns (out: seq<Outgoing>)
      requires Valid() && msg.EntryAssign?
      modifies Repr
      ensures Valid() && fresh(Repr - old(Repr))
      ensures Effect(View(), out) == AssignRequest(old(View()), msg)
    {
      hide Valid, View, IndexesOk, Recs, Ids, SetValue, StorageSpec.GetOrNew;
      InspectSelf();
      var entry := GetOrNew(msg.name);
      Inspect(entry);
      if entry.id != UNASSIGNED {
        return [];
      }
      Request(entry, msg);
      out := SetEntryValueImpl(entry, msg.value, false);
    }

    lemma InspectSelf()
      requires Valid()
      ensures this in Repr
    {
    }

    /** `ensure_id_exists`. */
    method EnsureIdExists(id: nat)
      requires Valid()
      modifies this`idmap
      ensures Valid() && View() == old(View()).(idmap := ExtendTo(old(View()).idmap, id)) && id < |idmap|
    {
      InspectSlot(id);
      if id >= |idmap| {
        IdsExtend(idmap, id);
        idmap := idmap + seq(id - |idmap| + 1, _ => null);
        SlotsChanged();
      } else {
        assert View().(idmap := View().idmap) == View();
      }
    }

    /** Only the slots change. */
    twostate lemma SlotsChanged()
      requires old(Valid()) && server == old(server) && entries == old(entries) && localmap == old(localmap)
      requires Repr == old(Repr) && persistentDirty == old(persistentDirty)
      requires forall x :: x in localmap ==> unchanged(x) && unchanged(x.userEntry)
      requires forall i :: 0 <= i < |idmap| && idmap[i] != null ==> i < |old(idmap)| && idmap[i] == old(idmap)[i]
      ensures Valid() && View() == old(View()).(idmap := Ids(idmap))
      ensures old(View()).idmap == Ids(old(idmap))
    {
      forall x | x in localmap ensures x.CachesOk() && x.Rec() == old(x.Rec()) { assert old(x.CachesOk()); }
      assert Recs() == old(Recs());
    }

    method AssignNewImpl(msg: Message, conn: Conn) returns (out: seq<Outgoing>)
      requires Valid() && msg.EntryAssign? && msg.id < |idmap|
      modifies Repr
      ensures Valid() && fresh(Repr - old(Repr))
      ensures msg.id < |old(View()).idmap|
      ensures Effect(View(), out) == AssignNew(old(View()), msg, conn)
    {
      hide Valid, View, IndexesOk, Recs, Ids, AssignKnown, StorageSpec.GetOrNew;
      InspectSelf();
      InspectSlot(msg.id);
      var entry := GetOrNew(msg.name);
      Inspect(entry);
      GiveSlot(entry, msg.id);
      Inspect(entry);
      out := [];
      if entry.value.None? {
        FirstValue(entry, msg);
        return;
      }
      if msg.flags != entry.flags {
        out := ToAll(FlagsUpdate(msg.id, entry.flags));
      }
      var rest := AssignKnownImpl(entry, msg, conn, true);
      out := out + rest;
    }

    /** The entry takes a slot, and the slot's id. */
    method GiveSlot(entry: Entry, id: nat)
      requires Valid() && entry in localmap && id < |idmap|
      modifies this`idmap, entry
      ensures Valid() && entry.name in old(View()).entries && id < |old(View()).idmap|
      ensures old(View()).entries[entry.name] == old(entry.Rec())
      ensures View() == Put(old(View()).(idmap := old(View()).idmap[id := Some(entry.name)]), entry.name,
                            old(entry.Rec()).(id := id))
    {
      hide Valid, View, IndexesOk, Recs, Ids;
      Inspect(entry);
      InspectSlot(id);
      IdsUpdate(idmap, id, entry);
      ghost var t := View();
      entry.id := id;
      idmap := idmap[id := entry];
      Touched(entry);
      assert t.(idmap := Ids(idmap), dirty := persistentDirty) == t.(idmap := Ids(idmap));
    }

    /** The value, the flags and the sequence number of an entry that had no value. */
    method FirstValue(entry: Entry, msg: Message)
      requires Valid() && entry in localmap && msg.EntryAssign?
      modifies entry, entry.userEntry
      ensures Valid() && entry.name in old(View()).entries
      ensures View() == Put(old(View()), entry.name,
                            old(entry.Rec()).(value := Some(msg.value), flags := msg.flags, seqNum := msg.seqNum))
    {
      hide Valid, View, IndexesOk, Recs, Ids;
      Inspect(entry);
      ghost var t := View();
      entry.value := Some(msg.value);
      entry.userEntry.value := Some(msg.value);
      entry.flags := msg.flags;
      entry.isPersistent := Persistent(msg.flags);
      entry.seqNum := msg.seqNum;
      Touched(entry);
      assert t.(idmap := Ids(idmap), dirty := persistentDirty) == t;
    }

    method ProcessIncomingEntryAssign(msg: Message, conn: Conn) returns (out: seq<Outgoing>)
      requires Valid() && msg.EntryAssign?
      modifies Repr
      ensures Valid() && fresh(Repr - old(Repr))
      ensures Effect(View(), out) == IncomingAssign(old(View()), msg, conn)
    {
      hide Valid, View, IndexesOk, Recs, Ids, AssignKnown, AssignRequest, AssignNew, ExtendTo;
      InspectSelf();
      InspectSlot(msg.id);
      if server {
        if msg.id == UNASSIGNED {
          out := AssignRequestImpl(msg);
          return;
        }
        if msg.id >= |idmap| || idmap[msg.id] == null {
          return [];
        }
        Inspect(idmap[msg.id]);
        out := AssignKnownImpl(idmap[msg.id], msg, conn, false);
      } else {
        if msg.id == UNASSIGNED {
          return [];
        }
        EnsureIdExists(msg.id);
        InspectSlot(msg.id);
        if idmap[msg.id] == null {
          out := AssignNewImpl(msg, conn);
        } else {
          Inspect(idmap[msg.id]);
          out := AssignKnownImpl(idmap[msg.id], msg, conn, false);
        }
      }
    }

    method ProcessIncomingEntryUpdate(msg: Message, conn: Conn) returns (out: seq<Outgoing>)
      requires Valid() && msg.EntryUpdate?
      modifies Repr
      ensures Valid() && fresh(Repr - old(Repr))
      ensures Effect(View(), out) == ProcessIncoming(old(View()), msg, conn)
    {
      hide Valid, View, IndexesOk, Recs, Ids;
      InspectSelf();
      InspectSlot(msg.id);
      if msg.id >= |idmap| || idmap[msg.id] == null {
        return [];
      }
      var entry := idmap[msg.id];
      Inspect(entry);
      if entry.IsSeqNewerOrEqual(msg.seqNum) {
        return [];
      }
      entry.value := Some(msg.value);
      entry.userEntry.value := Some(msg.value);
      entry.seqNum := msg.seqNum;
      if entry.isPersistent {
        persistentDirty := true;
      }
      out := if server then [Outgoing(msg, Some(conn))] else [];
      Touched(entry);
      SameSlots(entry);
    }

    method ProcessIncomingFlagsUpdate(msg: Message, conn: Conn) returns (out: seq<Outgoing>)
      requires Valid() && msg.FlagsUpdate?
      modifies Repr
      ensures Valid() && fresh(Repr - old(Repr))
      ensures Effect(View(), out) == ProcessIncoming(old(View()), msg, conn)
    {
      hide Valid, View, IndexesOk, Recs, Ids, SetFlags;
      InspectSelf();
      InspectSlot(msg.id);
      if msg.id >= |idmap| || idmap[msg.id] == null {
        return [];
      }
      Inspect(idmap[msg.id]);
      var none := SetEntryFlagsImpl(idmap[msg.id], msg.flags, false);
      out := if server then [Outgoing(msg, Some(conn))] else [];
    }

    method ProcessIncomingEntryDelete(msg: Message, conn: Conn) returns (out: seq<Outgoing>)
      requires Valid() && msg.EntryDelete?
      modifies Repr
      ensures Valid() && fresh(Repr - old(Repr))
      ensures Effect(View(), out) == ProcessIncoming(old(View()), msg, conn)
    {
      hide Valid, View, IndexesOk, Recs, Ids, Delete;
      InspectSelf();
      InspectSlot(msg.id);
      if msg.id >= |idmap| || idmap[msg.id] == null {
        return [];
      }
      Inspect(idmap[msg.id]);
      var none := DeleteEntryImpl(idmap[msg.id], false);
      out := if server then [Outgoing(msg, Some(conn))] else [];
    }

    lemma InspectAll()
      requires Valid()
      ensures this in Repr && forall e :: e in localmap ==> e in Repr && e.userEntry in Repr
      ensures View().server == server
    {
    }

    /** `processIncoming`: what each kind of message does. */
    method ProcessMessage(msg: Message, conn: Conn) returns (out: seq<Outgoing>)
      requires Valid()
      modifies Repr
      ensures Valid() && fresh(Repr - old(Repr))
      ensures Effect(View(), out) == ProcessIncoming(old(View()), msg, conn)
    {
      hide Valid, View, IndexesOk, Recs, Ids, IncomingAssign, IncomingUpdate, SetFlags, Delete, DeleteNames,
           Unprotected;
      InspectAll();
      match msg
      case EntryAssign(_, _, _, _, _) => out := ProcessIncomingEntryAssign(msg, conn);
      case EntryUpdate(_, _, _) => out := ProcessIncomingEntryUpdate(msg, conn);
      case FlagsUpdate(_, _) => out := ProcessIncomingFlagsUpdate(msg, conn);
      case EntryDelete(_) => out := ProcessIncomingEntryDelete(msg, conn);
      case ClearEntries =>
        var deleted := DeleteAllEntriesImpl();
        out := if server then [Outgoing(msg, Some(conn))] else [];
      case _ => out := [];
    }

    // ------------------------------------------------------------ local operations

    method SetValueByName(name: Text, value: Value) returns (ok: bool, out: seq<Outgoing>)
      requires Valid()
      modifies Repr
      ensures Valid() && fresh(Repr - old(Repr))
      ensures Effect(View(), out) == SetEntryValue(old(View()), name, value)
      ensures ok <==> (|| name == [] || At(old(View()), name).value.None?
                       || At(old(View()), name).value.value.Type() == value.Type())
    {
      hide Valid, View, IndexesOk, Recs, Ids, SetValue;
      InspectSelf();
      if name == [] {
        return true, [];
      }
      var entry := GetOrNew(name);
      Inspect(entry);
      if entry.value.Some? && entry.value.value.Type() != value.Type() {
        return false, [];
      }
      out := SetEntryValueImpl(entry, value, true);
      ok := true;
    }

    method SetTypeValueByName(name: Text, value: Value) returns (out: seq<Outgoing>)
      requires Valid()
      modifies Repr
      ensures Valid() && fresh(Repr - old(Repr))
      ensures Effect(View(), out) == SetEntryTypeValue(old(View()), name, value)
    {
      hide Valid, View, IndexesOk, Recs, Ids, SetValue;
      InspectSelf();
      if name == [] {
        return [];
      }
      var entry := GetOrNew(name);
      Inspect(entry);
      out := SetEntryValueImpl(entry, value, true);
    }

    method SetDefaultByName(name: Text, value: Value) returns (ok: bool, out: seq<Outgoing>)
      requires Valid()
      modifies Repr
      ensures Valid() && fresh(Repr - old(Repr))
      ensures Effect(View(), out) == SetDefaultEntryValue(old(View()), name, value)
      ensures ok <==> (&& name != []
                       && (|| At(old(View()), name).value.None?
                           || At(old(View()), name).value.value.Type() == value.Type()))
    {
      hide Valid, View, IndexesOk, Recs, Ids, SetValue;
      InspectSelf();
      if name == [] {
        return false, [];
      }
      var entry := GetOrNew(name);
      Inspect(entry);
      if entry.value.Some? {
        return entry.value.value.Type() == value.Type(), [];
      }
      out := SetEntryValueImpl(entry, value, true);
      ok := true;
    }

    /** The variant by handle, which user entries call. */
    method SetValueByHandle(localId: nat, value: Value) returns (ok: bool, out: seq<Outgoing>)
      requires Valid()
      modifies Repr
      ensures Valid() && fresh(Repr - old(Repr))
      ensures localId >= |old(localmap)| ==> ok && out == [] && View() == old(View())
      ensures localId < |old(localmap)| ==>
                var t := old(View());
                var n := old(localmap)[localId].name;
                && n in t.entries
                && (ok <==> t.entries[n].value.None? || t.entries[n].value.value.Type() == value.Type())
                && Effect(View(), out) == if ok then SetValue(t, n, value, true) else Effect(t, [])
    {
      hide Valid, View, IndexesOk, Recs, Ids, SetValue;
      InspectSelf();
      if localId >= |localmap| {
        return true, [];
      }
      var entry := localmap[localId];
      Inspect(entry);
      if entry.value.Some? && entry.value.value.Type() != value.Type() {
        return false, [];
      }
      out := SetEntryValueImpl(entry, value, true);
      ok := true;
    }

    lemma InspectName(n: Text)
      requires Valid()
      ensures n in entries <==> n in View().entries
      ensures n in entries ==> entries[n] in localmap && entries[n].name == n
      ensures this in Repr
    {
    }

    method SetFlagsByName(name: Text, flags: int) returns (out: seq<Outgoing>)
      requires Valid()
      modifies Repr
      ensures Valid() && fresh(Repr - old(Repr))
      ensures Effect(View(), out) == SetEntryFlags(old(View()), name, flags)
    {
      hide Valid, View, IndexesOk, Recs, Ids, SetFlags;
      InspectName(name);
      if name == [] || name !in entries {
        return [];
      }
      Inspect(entries[name]);
      out := SetEntryFlagsImpl(entries[name], flags, true);
    }

    method DeleteByName(name: Text) returns (out: seq<Outgoing>)
      requires Valid()
      modifies Repr
      ensures Valid() && fresh(Repr - old(Repr))
      ensures Effect(View(), out) == DeleteEntry(old(View()), name)
    {
      hide Valid, View, IndexesOk, Recs, Ids, Delete;
      InspectName(name);
      if name == [] || name !in entries {
        return [];
      }
      Inspect(entries[name]);
      out := DeleteEntryImpl(entries[name], true);
    }

    method DeleteEverything() returns (out: seq<Outgoing>)
      requires Valid()
      modifies Repr
      ensures Valid() && fresh(Repr - old(Repr))
      ensures Effect(View(), out) == DeleteAllEntries(old(View()))
    {
      hide Valid, View, IndexesOk, Recs, Ids, DeleteNames, Unprotected;
      InspectAll();
      var deleted := DeleteAllEntriesImpl();
      out := if deleted then ToAll(ClearEntries) else [];
    }

    /** Any operation of the specification. */
    method Perform(op: Op) returns (out: seq<Outgoing>)
      requires Valid()
      modifies Repr
      ensures Valid() && fresh(Repr - old(Repr))
      ensures Effect(View(), out) == Step(old(View()), op)
    {
      hide Valid, View, IndexesOk, Recs, Ids, SetEntryValue, SetEntryTypeValue, SetDefaultEntryValue, SetEntryFlags,
           DeleteEntry, DeleteAllEntries, ProcessIncoming;
      var ok;
      match op
      case Set(n, v) => ok, out := SetValueByName(n, v);
      case ForceSet(n, v) => out := SetTypeValueByName(n, v);
      case SetDefault(n, v) => ok, out := SetDefaultByName(n, v);
      case ChangeFlags(n, f) => out := SetFlagsByName(n, f);
      case Remove(n) => out := DeleteByName(n);
      case RemoveAll => out := DeleteEverything();
      case Incoming(m, conn) => out := ProcessMessage(m, conn);
    }

    // ------------------------------------------------------------ the handshake

    /** One handle, as the object and as the view have it. */
    lemma InspectHandle(i: nat)
      requires Valid() && i < |localmap|
      ensures |View().localmap| == |localmap| && View().localmap[i] == localmap[i].name
      ensures View().localmap[i] !in View().localmap[..i]
      ensures At(View(), localmap[i].name) == localmap[i].Rec() && localmap[i].name in View().entries
    {
      Inspect(localmap[i]);
      HandlesDiffer(i);
    }

    method GetInitialAssignments() returns (msgs: seq<Message>)
      requires Valid()
      ensures msgs == Snapshot(View(), View().localmap)
    {
      hide Snapshot;
      msgs := [];
      var i := 0;
      NothingToSend(View());
      AllHandled();
      while i < |localmap|
        invariant 0 <= i <= |localmap| == |View().localmap|
        invariant msgs == Snapshot(View(), View().localmap[..i])
      {
        var entry := localmap[i];
        InspectHandle(i);
        SnapshotNext(View(), i);
        if entry.value.Some? {
          msgs := msgs + [EntryAssign(entry.name, entry.id, entry.seqNum, entry.value.value, entry.flags)];
        }
        i := i + 1;
      }
      assert View().localmap[..i] == View().localmap;
    }

    method ClearIds()
      requires Valid()
      modifies this`idmap, this`persistentDirty, localmap, set e | e in localmap :: e.userEntry
      ensures Valid() && View() == ForgetIds(old(View()))
    {
      hide Valid, View, IndexesOk, Recs, ForgetIdsOf, ForgetIds;
      ghost var t := View();
      AllHandled();
      ForgetAll(t, t.entries.Keys);
      assert SetOf(t.localmap[..0]) == {};
      var i := 0;
      while i < |localmap|
        invariant 0 <= i <= |localmap| == |t.localmap|
        invariant Valid() && View() == ForgetIdsOf(t, SetOf(t.localmap[..i]))
        invariant View().localmap == t.localmap && idmap == old(idmap) && persistentDirty == old(persistentDirty)
      {
        var entry := localmap[i];
        InspectHandle(i);
        Inspect(entry);
        ForgetNext(t, SetOf(t.localmap[..i]), entry.name);
        SetOfNext(t.localmap, i);
        ForgetIdOf(entry);
        i := i + 1;
      }
      assert t.localmap[..i] == t.localmap;
      ForgetAll(t, SetOf(t.localmap));
      ClearSlots();
    }

    method ForgetIdOf(entry: Entry)
      requires Valid() && entry in localmap
      modifies this`idmap, this`persistentDirty, entry, entry.userEntry
      ensures Valid() && entry.name in old(View()).entries
      ensures View() == Put(old(View()), entry.name, old(entry.Rec()).(id := UNASSIGNED))
      ensures idmap == old(idmap) && persistentDirty == old(persistentDirty)
    {
      hide Valid, View, IndexesOk, Recs, Ids;
      Inspect(entry);
      ghost var t := View();
      entry.id := UNASSIGNED;
      Touched(entry);
      assert t.(idmap := Ids(idmap), dirty := persistentDirty) == t;
    }

    method ClearSlots()
      requires Valid()
      modifies this`idmap
      ensures Valid() && View() == old(View()).(idmap := [])
    {
      idmap := [];
      SlotsChanged();
    }

    /**
     What an assignment of the server makes of an entry: an own value that is not persistent stays and is sent back.
     */
    method Initialise(entry: Entry, msg: Message, conn: Conn) returns (out: seq<Outgoing>)
      requires msg.EntryAssign? && entry.CachesOk()
      modifies entry, entry.userEntry
      ensures entry.CachesOk() && entry.Rec() == Initialised(old(entry.Rec()), msg, conn)
      ensures out == if Keeps(old(entry.Rec())) then ToAll(EntryUpdate(entry.id, entry.seqNum, old(entry.value).value))
                else []
      ensures Keeps(old(entry.Rec())) ==> entry.value == old(entry.value)
    {
      out := [];
      entry.seqNum := msg.seqNum;
      entry.id := msg.id;
      if entry.value.None? {
        entry.value := Some(msg.value);
        entry.userEntry.value := Some(msg.value);
        entry.flags := msg.flags;
        entry.isPersistent := Persistent(msg.flags);
      } else if entry.localWrite && !entry.isPersistent {
        entry.seqNum := Increment(entry.seqNum);
        out := ToAll(EntryUpdate(entry.id, entry.seqNum, entry.value.value));
      } else {
        entry.value := Some(msg.value);
        entry.userEntry.value := Some(msg.value);
        if conn.protoRev >= PROTO_3 {
          entry.flags := msg.flags;
          entry.isPersistent := Persistent(msg.flags);
        }
      }
    }

    method InitialiseEntry(entry: Entry, msg: Message, conn: Conn) returns (out: seq<Outgoing>)
      requires Valid() && entry in localmap && msg.EntryAssign?
      modifies entry, entry.userEntry
      ensures Valid() && entry.name in old(View()).entries
      ensures old(View()).entries[entry.name] == old(entry.Rec())
      ensures View() == Put(old(View()), entry.name, Initialised(old(entry.Rec()), msg, conn))
      ensures out == if Keeps(old(entry.Rec())) then ToAll(EntryUpdate(entry.id, entry.seqNum, old(entry.value).value))
                else []
      ensures entry.Rec() == Initialised(old(entry.Rec()), msg, conn)
    {
      hide Valid, View, IndexesOk, Recs, Ids, Entry.CachesOk, Initialised, Keeps;
      Inspect(entry);
      ghost var t := View();
      out := Initialise(entry, msg, conn);
      Touched(entry);
      assert t.(idmap := Ids(idmap), dirty := persistentDirty) == t;
    }

    /** The slot of an id leads to an entry from now on. */
    method SaveSlot(entry: Entry, id: nat)
      requires Valid() && entry in localmap && id < |idmap|
      modifies this`idmap
      ensures Valid() && id < |old(View()).idmap|
      ensures View() == old(View()).(idmap := old(View()).idmap[id := Some(entry.name)])
    {
      hide Valid, View, IndexesOk, Recs, Ids;
      Inspect(entry);
      InspectSlot(id);
      IdsUpdate(idmap, id, entry);
      ghost var t := View();
      idmap := idmap[id := entry];
      Touched(entry);
      assert Put(t.(idmap := Ids(idmap), dirty := persistentDirty), entry.name, entry.Rec()) == t.(idmap := Ids(idmap));
    }

    method ApplyInitialOneImpl(msg: Message, conn: Conn) returns (out: seq<Outgoing>)
      requires Valid()
      modifies Repr
      ensures Valid() && fresh(Repr - old(Repr))
      ensures Effect(View(), out) == ApplyInitialOne(old(View()), msg, conn)
    {
      hide Valid, View, IndexesOk, Recs, Ids, ExtendTo, StorageSpec.GetOrNew, Entry.CachesOk;
      InspectSelf();
      if !msg.EntryAssign? || msg.id == UNASSIGNED {
        return [];
      }
      var entry := GetOrNew(msg.name);
      Inspect(entry);
      out := InitialiseEntry(entry, msg, conn);
      EnsureIdExists(msg.id);
      SaveSlot(entry, msg.id);
    }

    /** One round of the loop that deletes what the server does not know and the client has not written. */
    method SweepUnwritten(entry: Entry, ghost t: Table, ghost doomed: set<Text>)
      returns (assigns: seq<Message>, hit: bool)
      requires Valid() && entry in localmap
      requires View() == DeleteNames(t, doomed) && entry.name in t.entries && entry.name !in doomed
      modifies this`idmap, this`persistentDirty, entry, entry.userEntry
      ensures Valid() && View() == DeleteNames(t, if hit then doomed + {entry.name} else doomed)
      ensures hit <==> entry.name in Forgotten(t)
      ensures var r := t.entries[entry.name];
              assigns == if Unnumbered(r) && r.localWrite then [AssignOf(entry.name, r)] else []
    {
      hide Valid, View, IndexesOk, Recs, DeleteNames;
      Inspect(entry);
      DeleteNamesNext(t, doomed, entry.name);
      assigns, hit := [], false;
      if entry.value.Some? && entry.id == UNASSIGNED {
        if entry.localWrite {
          assigns := [EntryAssign(entry.name, entry.id, entry.seqNum, entry.value.value, entry.flags)];
        } else {
          hit := true;
          EmptyEntry(entry);
        }
      }
    }

    method ForgetUnwritten() returns (assigns: seq<Message>)
      requires Valid()
      modifies this`idmap, this`persistentDirty, localmap, set e | e in localmap :: e.userEntry
      ensures Valid() && View() == DeleteNames(old(View()), Forgotten(old(View())))
      ensures assigns == Requests(old(View()), old(View()).localmap)
    {
      hide Valid, View, IndexesOk, Recs, DeleteNames, Forgotten, Requests;
      ghost var t := View();
      ghost var doomed: set<Text> := {};
      DeleteNothing(t);
      NothingToSend(t);
      AllHandled();
      assigns := [];
      var i := 0;
      while i < |localmap|
        invariant 0 <= i <= |localmap| == |t.localmap|
        invariant Valid() && View() == DeleteNames(t, doomed)
        invariant doomed == set n | n in t.localmap[..i] && n in Forgotten(t)
        invariant assigns == Requests(t, t.localmap[..i])
      {
        HandlesDiffer(i);
        InspectHandles(i);
        assert View().localmap == t.localmap;
        var entry := localmap[i];
        var more, hit := SweepUnwritten(entry, t, doomed);
        NextForgotten(t, i);
        RequestsNext(t, i);
        assigns := assigns + more;
        if hit {
          doomed := doomed + {entry.name};
        }
        i := i + 1;
      }
      ForgottenIsHandled(t);
      assert t.localmap[..i] == t.localmap;
    }

    method ApplyInitialAssignments(msgs: seq<Message>, conn: Conn)
      returns (updates: seq<Outgoing>, assigns: seq<Message>)
      requires Valid()
      modifies Repr
      ensures Valid() && fresh(Repr - old(Repr))
      ensures Initial(View(), updates, assigns) == ApplyInitial(old(View()), msgs, conn)
    {
      hide Valid, View, IndexesOk, Recs, Ids, ForgetIds, ApplyInitialOne, DeleteNames, Forgotten, Requests;
      InspectAll();
      updates, assigns := [], [];
      if server {
        return;
      }
      ClearIds();
      ghost var t := View();
      var i := 0;
      while i < |msgs|
        invariant 0 <= i <= |msgs|
        invariant Valid() && fresh(Repr - old(Repr))
        invariant Effect(View(), updates) == ApplyInitialAll(t, msgs[..i], conn)
      {
        var more := ApplyInitialOneImpl(msgs[i], conn);
        assert msgs[..i + 1][..i] == msgs[..i];
        updates := updates + more;
        i := i + 1;
      }
      assert msgs[..i] == msgs;
      InspectAll();
      assigns := ForgetUnwritten();
    }

    // ------------------------------------------------------------ persistence

    /** The value, the persistent bit, the id and the sequence number of an entry that a file holds. */
    method StoreLoaded(entry: Entry, value: Value, persistent: bool)
      requires entry.CachesOk()
      modifies this`idmap, entry, entry.userEntry
      ensures entry.CachesOk()
      ensures var was := old(entry.Rec());
              && entry.Rec()
                  == Record(Some(value), if persistent && !Persistent(was.flags) then was.flags + 1 else was.flags,
                                       if server && was.id == UNASSIGNED then |old(idmap)| else was.id,
                                       Increment(was.seqNum), was.localWrite)
              && idmap == if server && was.id == UNASSIGNED then old(idmap) + [entry] else old(idmap)
    {
      entry.value := Some(value);
      entry.userEntry.value := Some(value);
      if !entry.isPersistent && persistent {
        entry.flags := entry.flags + 1;
        entry.isPersistent := true;
      }
      if server && entry.id == UNASSIGNED {
        entry.id := |idmap|;
        idmap := idmap + [entry];
      }
      entry.seqNum := Increment(entry.seqNum);
    }

    method LoadOneImpl(name: Text, value: Value, persistent: bool) returns (out: seq<Outgoing>)
      requires Valid()
      modifies Repr
      ensures Valid() && fresh(Repr - old(Repr))
      ensures Effect(View(), out) == LoadOne(old(View()), name, value, persistent)
    {
      hide Valid, View, IndexesOk, Recs, Ids, StorageSpec.GetOrNew, LoadOne, Entry.CachesOk;
      InspectSelf();
      var entry := GetOrNew(name);
      Inspect(entry);
      IdsAppend(idmap, entry);
      ghost var t := View();
      var oldValue, wasPersist := entry.value, entry.isPersistent;
      label found:
      StoreLoaded(entry, value, persistent);
      out := [];
      if oldValue.None? || oldValue.value.Type() != value.Type() {
        out := ToAll(EntryAssign(name, entry.id, entry.seqNum, value, entry.flags));
      } else if entry.id != UNASSIGNED {
        if oldValue.value != value {
          out := ToAll(EntryUpdate(entry.id, entry.seqNum, value));
        }
        if !wasPersist && persistent {
          out := out + ToAll(FlagsUpdate(entry.id, entry.flags));
        }
      }
      Touched@found(entry);
      assert t.(idmap := Ids(idmap), dirty := persistentDirty) == t.(idmap := Ids(idmap));
      Loaded(old(View()), name, value, persistent, entry.Rec(), Ids(idmap), out);
    }

    method LoadEntries(loaded: seq<(Text, Value)>, persistent: bool) returns (out: seq<Outgoing>)
      requires Valid()
      modifies Repr
      ensures Valid() && fresh(Repr - old(Repr))
      ensures Effect(View(), out) == LoadAll(old(View()), loaded, persistent)
    {
      hide Valid, View, IndexesOk, Recs, Ids, LoadOne;
      out := [];
      var i := 0;
      while i < |loaded|
        invariant 0 <= i <= |loaded|
        invariant Valid() && fresh(Repr - old(Repr))
        invariant Effect(View(), out) == LoadAll(old(View()), loaded[..i], persistent)
      {
        var more := LoadOneImpl(loaded[i].0, loaded[i].1, persistent);
        assert loaded[..i + 1][..i] == loaded[..i];
        out := out + more;
        i := i + 1;
      }
      assert loaded[..i] == loaded;
    }

    lemma NothingListed(t: Table)
      ensures PersistentList(t, t.localmap[..0]) == []
    {
    }

    lemma ListedNext(t: Table, i: nat)
      requires i < |t.localmap|
      ensures var n := t.localmap[i];
              PersistentList(t, t.localmap[..i + 1])
              == PersistentList(t, t.localmap[..i])
                 + (if At(t, n).value.Some? && Persistent(At(t, n).flags) then [(n, At(t, n).value.value)] else [])
    {
      assert t.localmap[..i + 1][..i] == t.localmap[..i];
    }

    method LowerFlag()
      requires Valid()
      modifies this`persistentDirty
      ensures Valid() && View() == old(View()).(dirty := false)
    {
      persistentDirty := false;
      assert View().entries == old(View()).entries;
    }

    /** `_getPersistentEntries`: what a save is about to write, if there is anything to save; the flag goes down. */
    method TakePersistent(periodic: bool) returns (taken: Option<seq<(Text, Value)>>)
      requires Valid()
      modifies this`persistentDirty
      ensures Valid()
      ensures periodic && !old(View()).dirty ==> taken == None && View() == old(View())
      ensures !periodic || old(View()).dirty ==>
                && View() == old(View()).(dirty := false)
                && taken == Some(PersistentList(View(), View().localmap))
    {
      InspectFlag();
      if periodic && !persistentDirty {
        return None;
      }
      LowerFlag();
      var list := Persistents();
      taken := Some(list);
    }

    /** The end of `savePersistent`: only a failed periodic save raises the flag again. */
    method SaveEnded(failed: bool, periodic: bool)
      requires Valid()
      modifies this`persistentDirty
      ensures Valid() && View() == old(View()).(dirty := old(View()).dirty || (failed && periodic))
    {
      if failed && periodic {
        persistentDirty := true;
      }
      assert View().entries == old(View()).entries;
    }

    /** `getMessageEntryType`. */
    method GetMessageEntryType(id: nat) returns (t: Option<ValueType>)
      requires Valid()
      ensures t == if id in EntryTypes(View()) then Some(EntryTypes(View())[id]) else None
    {
      InspectSlot(id);
      if id >= |idmap| || idmap[id] == null {
        return None;
      }
      Inspect(idmap[id]);
      var value := idmap[id].value;
      t := if value.Some? then Some(value.value.Type()) else None;
    }

    lemma InspectFlag()
      requires Valid()
      ensures View().dirty == persistentDirty
    {
    }

    method Persistents() returns (list: seq<(Text, Value)>)
      requires Valid()
      ensures list == PersistentList(View(), View().localmap)
    {
      hide PersistentList;
      list := [];
      var i := 0;
      NothingListed(View());
      AllHandled();
      while i < |localmap|
        invariant 0 <= i <= |localmap| == |View().localmap|
        invariant list == PersistentList(View(), View().localmap[..i])
      {
        var entry := localmap[i];
        InspectHandle(i);
        Inspect(entry);
        ListedNext(View(), i);
        if entry.value.Some? && entry.isPersistent {
          list := list + [(entry.name, entry.value.value)];
        }
        i := i + 1;
      }
      assert View().localmap[..i] == View().localmap;
    }
  }
}
