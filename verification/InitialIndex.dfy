/** The indexes of a client after the server's initial assignments. */
module InitialIndex {
  import opened Wrappers
  import opened Protocol
  import opened StorageSpec
  import opened Index
  import opened HandshakeSpec

  predicate Real(m: Message) {
    m.EntryAssign? && m.id != UNASSIGNED
  }

  // ---------------------------------------------------------------- what a batch leaves behind

  /** The id that the batch gives to a name at last. */
  function LastId(ms: seq<Message>, n: Text): nat {
    if ms == [] then UNASSIGNED
    else
      var m := ms[|ms| - 1];
      if Real(m) && m.name == n then m.id else LastId(ms[..|ms| - 1], n)
  }

  /** The name that the batch leaves in a slot. */
  function LastName(ms: seq<Message>, id: nat): Option<Text> {
    if ms == [] then None
    else
      var m := ms[|ms| - 1];
      if Real(m) && m.id == id then Some(m.name) else LastName(ms[..|ms| - 1], id)
  }

  /** Everything about the indexes but the way from an id to its entry. */
  ghost predicate Sound(t: Table) {
    && Handles(t) && |t.idmap| <= UNASSIGNED
    && (forall n {:trigger At(t, n)} ::
          (At(t, n).id != UNASSIGNED ==> At(t, n).id < |t.idmap| && At(t, n).value.Some?)
          && (At(t, n).localWrite ==> At(t, n).value.Some?))
    && (forall i {:trigger SlotOk(t, i)} :: 0 <= i < |t.idmap| ==> SlotOk(t, i))
  }

  ghost predicate Reflects(t: Table, ms: seq<Message>) {
    && (forall n {:trigger At(t, n)} :: At(t, n).id == LastId(ms, n))
    && (forall i {:trigger Lookup(t, i)} :: Lookup(t, i) == LastName(ms, i))
  }

  predicate InRange(ms: seq<Message>) {
    forall m :: m in ms ==> IdInRange(m)
  }

  lemma NewKeepsHandles(t: Table, n: Text)
    requires Handles(t)
    ensures Handles(GetOrNew(t, n)) && n in GetOrNew(t, n).entries
    ensures GetOrNew(t, n).idmap == t.idmap && forall k :: At(GetOrNew(t, n), k) == At(t, k)
  {
  }

  lemma PutKeepsHandles(t: Table, n: Text, r: Record)
    requires Handles(t) && n in t.entries
    ensures Handles(Put(t, n, r)) && Put(t, n, r).idmap == t.idmap
    ensures forall k :: At(Put(t, n, r), k) == if k == n then r else At(t, k)
    ensures forall k :: k in Put(t, n, r).entries <==> k in t.entries
  {
  }

  lemma SlotKeepsSound(t: Table, t': Table, n: Text, id: nat)
    requires Sound(t) && Handles(t') && id < UNASSIGNED && n in t'.entries && t.entries.Keys <= t'.entries.Keys
    requires t'.idmap == ExtendTo(t.idmap, id)[id := Some(n)]
    requires At(t', n).id == id && At(t', n).value.Some?
    requires forall k :: k != n ==> At(t', k) == At(t, k)
    ensures Sound(t')
  {
    hide Handles;
    forall i | 0 <= i < |t'.idmap| ensures SlotOk(t', i) {
      if i < |t.idmap| { assert SlotOk(t, i); }
    }
    forall k {:trigger At(t', k)}
        ensures (At(t', k).id != UNASSIGNED ==> At(t', k).id < |t'.idmap| && At(t', k).value.Some?)
                     && (At(t', k).localWrite ==> At(t', k).value.Some?)
    {
      if k != n { assert At(t', k) == At(t, k); }
    }
  }

  lemma OneIsSound(t: Table, m: Message, conn: Conn)
    requires Sound(t) && IdInRange(m)
    ensures Sound(ApplyInitialOne(t, m, conn).table)
  {
    hide Handles, GetOrNew, Put, At, SlotOk, Keeps, Sound;
    if Real(m) {
      SoundHasHandles(t);
      NewKeepsHandles(t, m.name);
      var t1, t' := GetOrNew(t, m.name), ApplyInitialOne(t, m, conn).table;
      var r := Initialised(t1.entries[m.name], m, conn);
      var t2 := t1.(idmap := ExtendTo(t1.idmap, m.id)[m.id := Some(m.name)]);
      SameEntries(t1, t2);
      PutKeepsHandles(t2, m.name, r);
      SlotKeepsSound(t, t', m.name, m.id);
    }
  }

  lemma SoundHasHandles(t: Table)
    requires Sound(t)
    ensures Handles(t)
  {
  }

  lemma SameEntries(t: Table, t': Table)
    requires t'.entries == t.entries && t'.localmap == t.localmap && Handles(t)
    ensures Handles(t') && forall k :: At(t', k) == At(t, k)
  {
  }

  lemma OneIsReflected(t: Table, ms: seq<Message>, m: Message, conn: Conn)
    requires Reflects(t, ms)
    ensures Reflects(ApplyInitialOne(t, m, conn).table, ms + [m])
  {
    var t' := ApplyInitialOne(t, m, conn).table;
    assert (ms + [m])[..|ms|] == ms;
    forall n ensures At(t', n).id == LastId(ms + [m], n) {
      assert At(t, n).id == LastId(ms, n);
    }
    forall i ensures Lookup(t', i) == LastName(ms + [m], i) {
      assert Lookup(t, i) == LastName(ms, i);
    }
  }

  lemma {:induction false} BatchIsReflected(t: Table, ms: seq<Message>, conn: Conn)
    requires Sound(t) && Reflects(t, []) && InRange(ms)
    ensures Sound(ApplyInitialAll(t, ms, conn).table) && Reflects(ApplyInitialAll(t, ms, conn).table, ms)
    decreases |ms|
  {
    hide ApplyInitialOne, Sound, Reflects, IdInRange;
    if ms != [] {
      var k := |ms| - 1;
      BatchIsReflected(t, ms[..k], conn);
      assert ms[..k] + [ms[k]] == ms;
      OneIsSound(ApplyInitialAll(t, ms[..k], conn).table, ms[k], conn);
      OneIsReflected(ApplyInitialAll(t, ms[..k], conn).table, ms[..k], ms[k], conn);
    }
  }

  lemma ForgottenIsSound(c: Table)
    requires Handles(c) && forall n :: n in c.entries && c.entries[n].localWrite ==> c.entries[n].value.Some?
    ensures Sound(ForgetIds(c)) && Reflects(ForgetIds(c), [])
  {
  }

  /** The entries that are forgotten have no ids, so that ids and slots stay. */
  lemma ForgettingIsSound(t: Table)
    requires Sound(t)
    ensures var t' := DeleteNames(t, Forgotten(t));
            && Sound(t') && t'.idmap == t.idmap
            && forall n {:trigger At(t', n)} :: At(t', n).id == At(t, n).id
  {
    var t' := DeleteNames(t, Forgotten(t));
    assert t'.idmap == t.idmap;
    forall n ensures At(t', n).id == At(t, n).id && At(t', n) == At(t', n) {
      assert At(t, n) == At(t, n);
    }
    forall n ensures (At(t', n).id != UNASSIGNED ==> At(t', n).id < |t'.idmap| && At(t', n).value.Some?)
                     && (At(t', n).localWrite ==> At(t', n).value.Some?) {
      assert At(t', n).id == At(t, n).id;
    }
    forall i | 0 <= i < |t'.idmap| ensures SlotOk(t', i) { assert SlotOk(t, i); }
  }

  predicate WayBack(t: Table, n: Text) {
    At(t, n).id != UNASSIGNED ==> Lookup(t, At(t, n).id) == Some(n)
  }

  predicate WayBackIn(ms: seq<Message>, n: Text) {
    LastId(ms, n) != UNASSIGNED ==> LastName(ms, LastId(ms, n)) == Some(n)
  }

  lemma SoundIsIndexedIff(t: Table)
    requires Sound(t)
    ensures Indexed(t) <==> forall n :: WayBack(t, n)
  {
    forall n | n in t.entries
      ensures RecordOk(t, n) <==> WayBack(t, n)
    {
      assert At(t, n) == t.entries[n];
    }
  }

  // ---------------------------------------------------------------- positions in the batch

  predicate LastOfName(ms: seq<Message>, i: nat) {
    && i < |ms| && Real(ms[i])
    && forall k :: i < k < |ms| && Real(ms[k]) ==> ms[k].name != ms[i].name
  }

  /** The last assignment of some name is followed by one that gives its id to another name. */
  predicate TakesIdAway(ms: seq<Message>, i: nat, j: nat) {
    && i < j < |ms| && LastOfName(ms, i)
    && Real(ms[j]) && ms[j].id == ms[i].id && ms[j].name != ms[i].name
  }

  predicate IdIsTakenAway(ms: seq<Message>) {
    exists i, j :: 0 <= i < j < |ms| && TakesIdAway(ms, i, j)
  }

  lemma {:induction false} PositionOfName(ms: seq<Message>, n: Text) returns (i: nat)
    requires LastId(ms, n) != UNASSIGNED
    ensures LastOfName(ms, i) && ms[i].name == n && ms[i].id == LastId(ms, n)
    decreases |ms|
  {
    var k := |ms| - 1;
    if Real(ms[k]) && ms[k].name == n {
      i := k;
    } else {
      i := PositionOfName(ms[..k], n);
      assert ms[..k][i] == ms[i];
      assert forall l :: i < l < k ==> ms[..k][l] == ms[l];
    }
  }

  lemma {:induction false} LastOfNameGives(ms: seq<Message>, i: nat)
    requires LastOfName(ms, i)
    ensures LastId(ms, ms[i].name) == ms[i].id
    decreases |ms|
  {
    var k := |ms| - 1;
    if i < k {
      assert forall l :: i <= l < k ==> ms[..k][l] == ms[l];
      LastOfNameGives(ms[..k], i);
    }
  }

  /** The name left in a slot comes from the last assignment of the id, at or after any given one. */
  lemma {:induction false} PositionOfId(ms: seq<Message>, i: nat) returns (j: nat)
    requires i < |ms| && Real(ms[i])
    ensures i <= j < |ms| && Real(ms[j]) && ms[j].id == ms[i].id && LastName(ms, ms[i].id) == Some(ms[j].name)
    decreases |ms|
  {
    var k := |ms| - 1;
    if Real(ms[k]) && ms[k].id == ms[i].id {
      j := k;
    } else {
      j := PositionOfId(ms[..k], i);
    }
  }

  lemma LeadsBackIff(ms: seq<Message>)
    ensures (forall n :: WayBackIn(ms, n)) <==> !IdIsTakenAway(ms)
  {
    if i, j :| 0 <= i < j < |ms| && TakesIdAway(ms, i, j) {
      LastOfNameGives(ms, i);
      var k := PositionOfId(ms, j);
      assert ms[k].name != ms[i].name;
      assert !WayBackIn(ms, ms[i].name);
    }
    if !IdIsTakenAway(ms) {
      forall n ensures WayBackIn(ms, n) {
        if LastId(ms, n) != UNASSIGNED {
          var i := PositionOfName(ms, n);
          var j := PositionOfId(ms, i);
          assert !TakesIdAway(ms, i, j);
        }
      }
    }
  }

  // ---------------------------------------------------------------- the theorem

  /**
   Whatever a client held before, and whatever the batch: afterwards the indexes agree - names, handles, ids and
   slots - if and only if no assignment that is the last of its name is followed by one that gives its id to another
   name.
   */
  lemma InitialIsIndexedIff(c: Table, ms: seq<Message>, conn: Conn)
    requires !c.server && Handles(c) && InRange(ms)
    requires forall n :: n in c.entries && c.entries[n].localWrite ==> c.entries[n].value.Some?
    ensures Indexed(ApplyInitial(c, ms, conn).table) <==> !IdIsTakenAway(ms)
  {
    hide ApplyInitialAll, ForgetIds, Indexed, Sound, Reflects, Forgotten, DeleteNames, IdIsTakenAway, WayBack,
         WayBackIn;
    ForgottenIsSound(c);
    BatchIsReflected(ForgetIds(c), ms, conn);
    var t := ApplyInitialAll(ForgetIds(c), ms, conn).table;
    ForgettingIsSound(t);
    var t' := DeleteNames(t, Forgotten(t));
    SoundIsIndexedIff(t');
    LeadsBackIff(ms);
    forall n ensures WayBack(t', n) <==> WayBackIn(ms, n) {
      assert At(t', n).id == At(t, n).id;
      SameWay(t, t', ms, n);
    }
  }

  lemma SameWay(t: Table, t': Table, ms: seq<Message>, n: Text)
    requires Reflects(t, ms) && t'.idmap == t.idmap && At(t', n).id == At(t, n).id
    ensures WayBack(t', n) <==> WayBackIn(ms, n)
  {
    hide LastId, LastName;
    assert At(t, n).id == LastId(ms, n);
    assert Lookup(t, LastId(ms, n)) == LastName(ms, LastId(ms, n));
  }

  /** No two assignments of the batch have the same id, as in what a server sends. */
  predicate DistinctIds(ms: seq<Message>) {
    forall i, j :: 0 <= i < j < |ms| && Real(ms[i]) && Real(ms[j]) ==> ms[i].id != ms[j].id
  }

  lemma InitialKeepsIndexed(c: Table, ms: seq<Message>, conn: Conn)
    requires !c.server && Handles(c) && InRange(ms) && DistinctIds(ms)
    requires forall n :: n in c.entries && c.entries[n].localWrite ==> c.entries[n].value.Some?
    ensures Indexed(ApplyInitial(c, ms, conn).table)
  {
    InitialIsIndexedIff(c, ms, conn);
  }

  /** Two names with one id break the index of any client: only the later one can be found by it. */
  lemma SameIdBreaksIndex(c: Table, conn: Conn, m: Message, m': Message)
    requires !c.server && Handles(c) && InRange([m, m'])
    requires forall n :: n in c.entries && c.entries[n].localWrite ==> c.entries[n].value.Some?
    requires Real(m) && Real(m') && m.id == m'.id && m.name != m'.name
    ensures !Indexed(ApplyInitial(c, [m, m'], conn).table)
  {
    InitialIsIndexedIff(c, [m, m'], conn);
    assert TakesIdAway([m, m'], 0, 1);
  }
}
