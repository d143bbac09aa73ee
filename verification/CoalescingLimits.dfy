/** Where rewriting the pending messages does change what they mean: exactly when. */
module CoalescingLimits {
  import opened Wrappers
  import opened Serial
  import opened Protocol
  import opened Receiver
  import opened Coalescer
  import opened Coalescing

  // ---------------------------------------------------------------- requests at a clear

  function PersistentRequests(ms: seq<Message>): seq<Message> {
    if ms == [] then []
    else
      var m := ms[|ms| - 1];
      PersistentRequests(ms[..|ms| - 1]) + (if IsRequest(m) && Persistent(m.flags) then [m] else [])
  }

  lemma {:induction false} KeptTwice(rs: seq<Message>)
    ensures KeptRequests(KeptRequests(rs)) == KeptRequests(rs)
    decreases |rs|
  {
    if rs != [] {
      var k := |rs| - 1;
      KeptTwice(rs[..k]);
      if rs[k].EntryAssign? && Persistent(rs[k].flags) {
        assert KeptRequests(rs)[..|KeptRequests(rs)| - 1] == KeptRequests(rs[..k]);
      } else {
        assert KeptRequests(rs) == KeptRequests(rs[..k]);
      }
    }
  }

  lemma OneRequest(mode: Mode, r: Peer, m: Message)
    ensures KeptRequests(Apply(mode, r, m).requests)
            == KeptRequests(r.requests) + (if IsRequest(m) && Persistent(m.flags) then [m] else [])
  {
    if IsRequest(m) {
      assert (r.requests + [m])[..|r.requests|] == r.requests;
    } else if m.ClearEntries? {
      KeptTwice(r.requests);
    }
  }

  lemma {:induction false} RequestsAreAdded(mode: Mode, r: Peer, ms: seq<Message>)
    ensures KeptRequests(ApplyAll(mode, r, ms).requests) == KeptRequests(r.requests) + PersistentRequests(ms)
    decreases |ms|
  {
    hide Apply, KeptRequests, IsRequest, Persistent;
    if ms != [] {
      var k := |ms| - 1;
      RequestsAreAdded(mode, r, ms[..k]);
      OneRequest(mode, ApplyAll(mode, r, ms[..k]), ms[k]);
    }
  }

  lemma {:induction false} NoneIsPersistent(ms: seq<Message>)
    ensures PersistentRequests(ms) == [] <==> forall m :: m in ms && IsRequest(m) ==> !Persistent(m.flags)
  {
    if ms != [] {
      NoneIsPersistent(ms[..|ms| - 1]);
      assert ms == ms[..|ms| - 1] + [ms[|ms| - 1]];
    }
  }

  // ---------------------------------------------------------------- entries at a clear

  predicate Moves(m: Message, id: nat) {
    (IsWrite(m) || m.EntryDelete?) && m.id == id
  }

  /** The last write or deletion of an entry among some messages. */
  function LastMove(ms: seq<Message>, id: nat): Option<Message> {
    if ms == [] then None
    else if Moves(ms[|ms| - 1], id) then Some(ms[|ms| - 1])
    else LastMove(ms[..|ms| - 1], id)
  }

  predicate PersistentAt(cells: Cells, id: nat) {
    id in cells && Persistent(cells[id].flags)
  }

  /** What an entry that the peer had from the start holds is what the last write brought, if there was one. */
  predicate HoldsLast(c: Cell, now: Cell, last: Option<Message>) {
    && now.name == c.name
    && if last.None? then now.value == c.value && now.seqNum == c.seqNum
       else IsWrite(last.value) && now.value == Some(last.value.value) && now.seqNum == last.value.seqNum
  }

  lemma {:induction false} LastIsAmong(ms: seq<Message>, id: nat)
    requires LastMove(ms, id).Some?
    ensures LastMove(ms, id).value in ms && Moves(LastMove(ms, id).value, id)
  {
    if !Moves(ms[|ms| - 1], id) { LastIsAmong(ms[..|ms| - 1], id); }
  }

  /** The next write is ahead of what the peer holds of an entry that it had from the start. */
  lemma AheadOfHeld(r: Peer, ms: seq<Message>, now: Cell, id: nat)
    requires ms != [] && Window(r, ms) && id in r.cells && id != UNASSIGNED
    requires IsWrite(ms[|ms| - 1]) && ms[|ms| - 1].id == id
    requires HoldsLast(r.cells[id], now, LastMove(ms[..|ms| - 1], id))
    ensures Ahead(now.seqNum, ms[|ms| - 1]) && (ms[|ms| - 1].EntryAssign? ==> ms[|ms| - 1].name == r.cells[id].name)
  {
    hide Ahead;
    var k := |ms| - 1;
    var last := LastMove(ms[..k], id);
    assert AfterCell(r.cells, ms[k]);
    if last.Some? {
      LastIsAmong(ms[..k], id);
      var i :| 0 <= i < k && ms[i] == last.value;
      assert AfterMessage(Some(ms[i]), ms[k]);
    }
  }

  lemma {:induction false} HeldIsLast(mode: Mode, r: Peer, ms: seq<Message>, id: nat)
    requires Window(r, ms) && id in r.cells && id != UNASSIGNED
    ensures var now := ApplyAll(mode, r, ms).cells;
            id in now ==> HoldsLast(r.cells[id], now[id], LastMove(ms, id))
    decreases |ms|
  {
    if ms != [] {
      hide Window, Ahead;
      var k := |ms| - 1;
      WindowPrefix(r, ms, k);
      HeldIsLast(mode, r, ms[..k], id);
      var was := ApplyAll(mode, r, ms[..k]);
      if IsWrite(ms[k]) && ms[k].id == id {
        if id in was.cells {
          AheadOfHeld(r, ms, was.cells[id], id);
          AheadIsAccepted(was.cells[id].seqNum, ms[k]);
        } else {
          assert ms[k].EntryAssign? ==> ms[k].name == r.cells[id].name by { NameOfCell(r, ms, id); }
        }
      }
      OneMoreHeld(mode, was, ms[k], r.cells[id], LastMove(ms[..k], id), id);
    }
  }

  lemma NameOfCell(r: Peer, ms: seq<Message>, id: nat)
    requires ms != [] && Window(r, ms) && id in r.cells && id != UNASSIGNED
    requires IsWrite(ms[|ms| - 1]) && ms[|ms| - 1].id == id
    ensures ms[|ms| - 1].EntryAssign? ==> ms[|ms| - 1].name == r.cells[id].name
  {
    assert AfterCell(r.cells, ms[|ms| - 1]);
  }

  lemma OneMoreHeld(mode: Mode, was: Peer, m: Message, c: Cell, last: Option<Message>, id: nat)
    requires id in was.cells ==> HoldsLast(c, was.cells[id], last)
    requires IsWrite(m) && m.id == id && id in was.cells ==>
               !Newer(was.cells[id].seqNum, m.seqNum)
                   && (m.EntryUpdate? ==> !NewerOrEqual(was.cells[id].seqNum, m.seqNum))
    requires m.EntryAssign? && m.id == id ==> m.name == c.name
    requires id != UNASSIGNED
    ensures var now := Apply(mode, was, m).cells;
            id in now ==> HoldsLast(c, now[id], if Moves(m, id) then Some(m) else last)
  {
  }

  /** The entry is left with the value and the number that it had: nothing moved it, or an assignment moved it back. */
  predicate Restored(c: Cell, last: Option<Message>) {
    last.Some? ==> last.value.EntryAssign? && Some(last.value.value) == c.value && last.value.seqNum == c.seqNum
  }

  function FlagsIn(cells: Cells): map<nat, int> {
    map i | i in cells :: cells[i].flags
  }

  predicate PersistentIn(flags: map<nat, int>, id: nat) {
    id in flags && Persistent(flags[id])
  }

  ghost predicate CellsUnchanged(was: Cells, now: map<nat, int>, ms: seq<Message>) {
    forall id {:trigger PersistentIn(now, id)} {:trigger PersistentAt(was, id)} ::
        PersistentAt(was, id) || PersistentIn(now, id) ==>
      id in was && id in now && now[id] == was[id].flags && Restored(was[id], LastMove(ms, id))
  }

  /**
   What a sender can check, from what is pending, from its flags now, and from its entries as they were when the
   queue was empty: no persistent entry is asked for, and each entry that was or is persistent is there before and
   now, with the same flags, and if it was written or deleted in between, an assignment restored it at last.
   */
  ghost predicate NothingPersistentChanged(was: Cells, now: map<nat, int>, ms: seq<Message>) {
    && (forall m :: m in ms && IsRequest(m) ==> !Persistent(m.flags))
    && CellsUnchanged(was, now, ms)
  }

  /** With the window an update that was accepted has moved the number, so that only an assignment can restore it. */
  lemma RestoredIff(mode: Mode, r: Peer, ms: seq<Message>, id: nat)
    requires Window(r, ms) && id in r.cells && id != UNASSIGNED && id in ApplyAll(mode, r, ms).cells
    ensures var now := ApplyAll(mode, r, ms).cells[id];
            now == r.cells[id] <==> now.flags == r.cells[id].flags && Restored(r.cells[id], LastMove(ms, id))
  {
    HeldIsLast(mode, r, ms, id);
    var last := LastMove(ms, id);
    if last.Some? {
      LastIsAmong(ms, id);
      var i :| 0 <= i < |ms| && ms[i] == last.value;
      assert AfterCell(r.cells, ms[i]);
    }
  }

  lemma KeptIff(now: Cells, was: Cells)
    ensures Kept(now) == Kept(was) <==>
            forall id {:trigger PersistentAt(now, id)} {:trigger PersistentAt(was, id)} ::
                PersistentAt(was, id) || PersistentAt(now, id) ==>
              id in was && id in now && now[id] == was[id]
  {
    assert forall id :: id in Kept(now) <==> PersistentAt(now, id);
    assert forall id :: id in Kept(was) <==> PersistentAt(was, id);
    if Kept(now) == Kept(was) {
      forall id | PersistentAt(was, id) || PersistentAt(now, id) ensures id in was && id in now && now[id] == was[id] {
        assert id in Kept(now) && id in Kept(was);
        assert Kept(now)[id] == Kept(was)[id];
      }
    }
  }

  lemma KeptUnchangedIff(mode: Mode, r: Peer, ms: seq<Message>)
    requires UNASSIGNED !in r.cells && Window(r, ms)
    ensures var now := ApplyAll(mode, r, ms).cells;
            Kept(now) == Kept(r.cells) <==> CellsUnchanged(r.cells, FlagsIn(now), ms)
  {
    hide Window, Restored, LastMove, Kept, Persistent;
    var now := ApplyAll(mode, r, ms).cells;
    KeptIff(now, r.cells);
    forall id | id in r.cells && id in now
      ensures now[id] == r.cells[id] <==> now[id].flags == r.cells[id].flags && Restored(r.cells[id], LastMove(ms, id))
    {
      RestoredIff(mode, r, ms, id);
    }
    assert forall id :: PersistentIn(FlagsIn(now), id) <==> PersistentAt(now, id);
    if CellsUnchanged(r.cells, FlagsIn(now), ms) {
      forall id | PersistentAt(r.cells, id) || PersistentAt(now, id)
        ensures id in r.cells && id in now && now[id] == r.cells[id]
      {
        assert PersistentIn(FlagsIn(now), id) <==> PersistentAt(now, id);
      }
    }
    if Kept(now) == Kept(r.cells) {
      forall id | PersistentAt(r.cells, id) || PersistentIn(FlagsIn(now), id)
        ensures && id in r.cells && id in now && FlagsIn(now)[id] == r.cells[id].flags
                && Restored(r.cells[id], LastMove(ms, id))
      {
        assert PersistentAt(now, id) <==> PersistentIn(FlagsIn(now), id);
      }
    }
  }

  lemma ClearExactIff(mode: Mode, r: Peer, ms: seq<Message>)
    requires UNASSIGNED !in r.cells && Window(r, ms)
    ensures ClearExact(mode, r, ms) <==> NothingPersistentChanged(r.cells, FlagsIn(ApplyAll(mode, r, ms).cells), ms)
  {
    hide Window, Restored, LastMove, Kept, KeptRequests, PersistentRequests, ApplyAll, FlagsIn, PersistentIn,
         PersistentAt;
    RequestsAreAdded(mode, r, ms);
    NoneIsPersistent(ms);
    KeptUnchangedIff(mode, r, ms);
  }

  /**
   At a clear the queue is faithful if and only if the pending messages leave the persistent entries, and the
   persistent entries asked for, as they were.
   */
  lemma FaithfulAtClearIff(mode: Mode, r: Peer, ms: seq<Message>)
    requires UNASSIGNED !in r.cells && Window(r, ms) && ClearsExact(mode, r, ms)
    ensures ApplyAll(mode, r, Compact(EnqueueAll(ms + [ClearEntries]).list)) == ApplyAll(mode, r, ms + [ClearEntries])
            <==> NothingPersistentChanged(r.cells, FlagsIn(ApplyAll(mode, r, ms).cells), ms)
  {
    hide Window, ClearsExact, Apply, Compact, Coalescer.Valid, NothingPersistentChanged;
    CoalescingPreservesMeaning(mode, r, ms);
    assert (ms + [ClearEntries])[..|ms|] == ms;
    CompactMeaning(mode, r, EnqueueAll(ms + [ClearEntries]).list);
    ClearMeaning(mode, r, EnqueueAll(ms).list);
    ClearExactIff(mode, r, ms);
  }

  /** The usual case: no pending write repeats the number that the peer has for its entry. */
  predicate NumbersMove(cells: Cells, ms: seq<Message>) {
    forall m :: m in ms && IsWrite(m) && m.id in cells ==> m.seqNum != cells[m.id].seqNum
  }

  ghost predicate NothingPersistentPending(was: Cells, now: map<nat, int>, ms: seq<Message>) {
    && (forall m :: m in ms && IsRequest(m) ==> !Persistent(m.flags))
    && (forall id {:trigger PersistentIn(now, id)} {:trigger PersistentAt(was, id)} ::
        PersistentAt(was, id) || PersistentIn(now, id) ==>
          id in was && id in now && now[id] == was[id].flags && forall m :: m in ms ==> !Moves(m, id))
  }

  lemma {:induction false} NoMove(ms: seq<Message>, id: nat)
    ensures LastMove(ms, id).None? <==> forall m :: m in ms ==> !Moves(m, id)
  {
    if ms != [] {
      NoMove(ms[..|ms| - 1], id);
      assert ms == ms[..|ms| - 1] + [ms[|ms| - 1]];
    }
  }

  lemma MovedIsNotRestored(cells: Cells, ms: seq<Message>, id: nat)
    requires NumbersMove(cells, ms) && id in cells
    ensures Restored(cells[id], LastMove(ms, id)) <==> forall m :: m in ms ==> !Moves(m, id)
  {
    NoMove(ms, id);
    if LastMove(ms, id).Some? { LastIsAmong(ms, id); }
  }

  lemma PendingIff(was: Cells, now: map<nat, int>, ms: seq<Message>)
    requires NumbersMove(was, ms)
    ensures NothingPersistentChanged(was, now, ms) <==> NothingPersistentPending(was, now, ms)
  {
    hide Persistent, NumbersMove, Moves, Restored, LastMove, PersistentAt, PersistentIn, IsRequest;
    if CellsUnchanged(was, now, ms) {
      forall id | PersistentAt(was, id) || PersistentIn(now, id) ensures forall m :: m in ms ==> !Moves(m, id) {
        MovedIsNotRestored(was, ms, id);
      }
    }
    if NothingPersistentPending(was, now, ms) {
      forall id | PersistentAt(was, id) || PersistentIn(now, id)
        ensures id in was && id in now && now[id] == was[id].flags && Restored(was[id], LastMove(ms, id))
      {
        MovedIsNotRestored(was, ms, id);
      }
    }
  }

  /** Then it is faithful if and only if no entry that was or is persistent is written, deleted or reflagged. */
  lemma FaithfulIffUntouched(mode: Mode, r: Peer, ms: seq<Message>)
    requires UNASSIGNED !in r.cells && Window(r, ms) && ClearsExact(mode, r, ms) && NumbersMove(r.cells, ms)
    ensures ApplyAll(mode, r, Compact(EnqueueAll(ms + [ClearEntries]).list)) == ApplyAll(mode, r, ms + [ClearEntries])
            <==> NothingPersistentPending(r.cells, FlagsIn(ApplyAll(mode, r, ms).cells), ms)
  {
    hide Window, ClearsExact, ApplyAll, Compact, EnqueueAll, NumbersMove, NothingPersistentChanged,
         NothingPersistentPending;
    FaithfulAtClearIff(mode, r, ms);
    PendingIff(r.cells, FlagsIn(ApplyAll(mode, r, ms).cells), ms);
  }

  lemma ClearOnly(id: nat, c: Cell)
    requires Persistent(c.flags)
    ensures Apply(Follower, Peer(map[id := c], [], []), ClearEntries) == Peer(map[id := c], [], [])
  {
    assert Kept(map[id := c]) == map[id := c];
  }

  /** A pending write to a persistent entry does not survive a clear, though the entry does. */
  lemma ClearLosesPersistentWrite(v: Value, w: Value)
    ensures var r := Peer(map[5 := Cell([97], Some(v), 1, 0)], [], []);
            var ms := [EntryUpdate(5, 1, w), ClearEntries];
            && ApplyAll(Follower, r, ms) == Peer(map[5 := Cell([97], Some(w), 1, 1)], [], [])
            && ApplyAll(Follower, r, Compact(EnqueueAll(ms).list)) == r
  {
    hide Apply;
    var c := Cell([97], Some(v), 1, 0);
    var m := EntryUpdate(5, 1, w);
    hide EnqueueAll;
    QueueThenClear(m);
    CompactOfTwo(None, Some(ClearEntries));
    hide Compact;
    ApplyTwo(Follower, Peer(map[5 := c], [], []), m, ClearEntries);
    hide ApplyAll;
    UpdateOnly(c, 5, 1, w);
    ClearOnly(5, c);
    ClearOnly(5, c.(value := Some(w), seqNum := 1));
  }

  // ---------------------------------------------------------------- merged writes

  lemma UpdateOnly(c: Cell, id: nat, seqNum: U16, v: Value)
    ensures Apply(Follower, Peer(map[id := c], [], []), EntryUpdate(id, seqNum, v))
            == Peer(map[id := if NewerOrEqual(c.seqNum, seqNum) then c
                else c.(value := Some(v), seqNum := seqNum)], [], [])
  {
  }

  /**
   Merging two pending writes of an entry, each ahead of what comes before it, is faithful if and only if together
   they go no further than half of the number space. This holds of updates and assignments alike.
   */
  lemma WritesMergeIff(mode: Mode, c: Cell, was: Message, m: Message)
    requires IsWrite(was) && IsWrite(m) && was.id == m.id
    requires (was.EntryAssign? ==> was.name == c.name) && (m.EntryAssign? ==> m.name == c.name)
    requires Ahead(c.seqNum, was) && Ahead(was.seqNum, m)
    ensures ApplyOne(mode, ApplyOne(mode, Some(c), was), m) == ApplyOne(mode, Some(c), Merge(was, m))
            <==> Offset(c.seqNum, was.seqNum) + Offset(was.seqNum, m.seqNum) <= HALF
  {
    hide Offset;
    AheadIsAccepted(c.seqNum, was);
    AheadIsAccepted(was.seqNum, m);
    OffsetsAdd(c.seqNum, was.seqNum, m.seqNum);
    AcceptedIff(c.seqNum, m.seqNum);
    AcceptedIff(c.seqNum, was.seqNum);
    AcceptedIff(was.seqNum, m.seqNum);
  }

  lemma AcceptedIff(s: U16, s': U16)
    ensures !NewerOrEqual(s, s') <==> 1 <= Offset(s, s') <= HALF
    ensures !Newer(s, s') <==> Offset(s, s') <= HALF
    ensures Offset(s, s') == 0 <==> s == s'
  {
  }

  /** A peer that has this number takes the write. */
  predicate Takes(s: U16, m: Message)
    requires IsWrite(m)
  {
    if m.EntryAssign? then !Newer(s, m.seqNum) else !NewerOrEqual(s, m.seqNum)
  }

  /** Writes of one entry, each of which is taken after the ones before it. */
  predicate Chain(c: Cell, ms: seq<Message>, id: nat) {
    ms == [] ||
    (var k := |ms| - 1;
     && Chain(c, ms[..k], id) && IsWrite(ms[k]) && ms[k].id == id
     && (ms[k].EntryAssign? ==> ms[k].name == c.name) && Takes(CellAfter(c, ms[..k]).seqNum, ms[k]))
  }

  /** The cell after all of them: value and number of the last write, flags of the last assignment. */
  function CellAfter(c: Cell, ms: seq<Message>): Cell {
    if ms == [] then c
    else
      var m := ms[|ms| - 1];
      var before := CellAfter(c, ms[..|ms| - 1]);
      if m.EntryAssign? then Cell(before.name, Some(m.value), m.flags, m.seqNum)
      else if m.EntryUpdate? then before.(value := Some(m.value), seqNum := m.seqNum)
      else before
  }

  predicate HasAssign(ms: seq<Message>) {
    exists m :: m in ms && m.EntryAssign?
  }

  /** What the queue makes of them. */
  function Merged(ms: seq<Message>): (m: Message)
    requires ms != [] && forall x :: x in ms ==> IsWrite(x)
    ensures IsWrite(m)
  {
    if |ms| == 1 then ms[0] else Merge(Merged(ms[..|ms| - 1]), ms[|ms| - 1])
  }

  lemma {:induction false} ChainIsWrites(c: Cell, ms: seq<Message>, id: nat)
    requires Chain(c, ms, id)
    ensures forall m :: m in ms ==> IsWrite(m) && m.id == id
  {
    if ms != [] {
      ChainIsWrites(c, ms[..|ms| - 1], id);
      assert ms == ms[..|ms| - 1] + [ms[|ms| - 1]];
    }
  }

  lemma {:induction false} ChainArrives(mode: Mode, r: Peer, ms: seq<Message>, id: nat)
    requires id in r.cells && id != UNASSIGNED && Chain(r.cells[id], ms, id)
    ensures ApplyAll(mode, r, ms).cells == r.cells[id := CellAfter(r.cells[id], ms)]
    ensures ApplyAll(mode, r, ms) == r.(cells := r.cells[id := CellAfter(r.cells[id], ms)])
    ensures CellAfter(r.cells[id], ms).name == r.cells[id].name
    decreases |ms|
  {
    if ms == [] {
      assert r.cells[id := r.cells[id]] == r.cells;
    } else {
      var k := |ms| - 1;
      ChainArrives(mode, r, ms[..k], id);
      OneTaken(mode, ApplyAll(mode, r, ms[..k]), ms[k], id);
    }
  }

  lemma OneTaken(mode: Mode, r: Peer, m: Message, id: nat)
    requires id in r.cells && id != UNASSIGNED && IsWrite(m) && m.id == id && Takes(r.cells[id].seqNum, m)
    requires m.EntryAssign? ==> m.name == r.cells[id].name
    ensures Apply(mode, r, m) == r.(cells := r.cells[id := CellAfter(r.cells[id], [m])])
  {
    assert [m][..0] == [];
  }

  lemma {:induction false} ChainQueues(c: Cell, ms: seq<Message>, id: nat)
    requires id != UNASSIGNED && ms != [] && Chain(c, ms, id)
    ensures (forall m :: m in ms ==> IsWrite(m)) && Merged(ms).id == id
    ensures EnqueueAll(ms) == Pending([Some(Merged(ms))], map[id := Pair(1, 0)])
    decreases |ms|
  {
    hide Takes, Coalescer.Valid;
    ChainIsWrites(c, ms, id);
    var k := |ms| - 1;
    if k == 0 {
      assert EnqueueAll(ms[..k]) == EMPTY;
    } else {
      ChainQueues(c, ms[..k], id);
    }
  }

  /** The merged write says what all writes together say. */
  lemma {:induction false} MergedSays(c: Cell, ms: seq<Message>, id: nat)
    requires ms != [] && Chain(c, ms, id) && forall m :: m in ms ==> IsWrite(m)
    ensures var m := Merged(ms);
            && m.id == id && CellAfter(c, [m]) == CellAfter(c, ms) && m.seqNum == ms[|ms| - 1].seqNum
            && (m.EntryAssign? <==> HasAssign(ms)) && (m.EntryAssign? ==> m.name == c.name)
            && CellAfter(c, ms).seqNum == ms[|ms| - 1].seqNum
    decreases |ms|
  {
    hide Takes;
    var k := |ms| - 1;
    assert ms == ms[..k] + [ms[k]];
    assert [Merged(ms)][..0] == [];
    if k == 0 {
      assert ms == [ms[0]] && ms[..0] == [];
    } else {
      MergedSays(c, ms[..k], id);
      assert [Merged(ms[..k])][..0] == [];
    }
  }

  lemma OneSurvives(mode: Mode, r: Peer, ms: seq<Message>, id: nat)
    requires id in r.cells && id != UNASSIGNED && ms != [] && Chain(r.cells[id], ms, id)
    ensures (forall m :: m in ms ==> IsWrite(m))
            && ApplyAll(mode, r, Compact(EnqueueAll(ms).list)) == Apply(mode, r, Merged(ms))
  {
    hide Chain, EnqueueAll, Compact, ApplyAll, Apply, Merged;
    ChainQueues(r.cells[id], ms, id);
    CompactOfTwo(None, Some(Merged(ms)));
    ApplyTwo(mode, r, Merged(ms), Merged(ms));
  }

  /** One write does to a peer what it says if and only if it is taken, or says what the peer has. */
  lemma OneWrite(mode: Mode, r: Peer, m: Message, id: nat)
    requires IsWrite(m) && m.id == id && id in r.cells && id != UNASSIGNED
    requires m.EntryAssign? ==> m.name == r.cells[id].name
    ensures Apply(mode, r, m) == r.(cells := r.cells[id := CellAfter(r.cells[id], [m])])
            <==> Takes(r.cells[id].seqNum, m) || CellAfter(r.cells[id], [m]) == r.cells[id]
  {
    assert [m][..0] == [];
    hide Newer, NewerOrEqual;
    var c, w := r.cells[id], CellAfter(r.cells[id], [m]);
    assert r.cells[id := w][id] == w;
    if w == c { assert r.cells[id := w] == r.cells; }
    if !Takes(c.seqNum, m) { assert Apply(mode, r, m) == r; }
  }

  /**
   Any number of pending writes of an entry become one. That is faithful if and only if the last number is at most
   half of the number space ahead of the one that the peer has - and not the same, unless there is an assignment among
   them - or the entry is back where it was.
   */
  lemma ChainIsFaithfulIff(mode: Mode, r: Peer, ms: seq<Message>, id: nat)
    requires id in r.cells && id != UNASSIGNED && ms != [] && Chain(r.cells[id], ms, id)
    ensures IsWrite(ms[|ms| - 1])
    ensures var c := r.cells[id];
            var distance := Offset(c.seqNum, ms[|ms| - 1].seqNum);
            ApplyAll(mode, r, Compact(EnqueueAll(ms).list)) == ApplyAll(mode, r, ms)
            <==> (distance <= HALF && (distance != 0 || HasAssign(ms))) || CellAfter(c, ms) == c
  {
    hide Chain, EnqueueAll, Compact, ApplyAll, Apply, Offset, Merged, CellAfter, HasAssign, NewerOrEqual, Newer;
    var c := r.cells[id];
    ChainArrives(mode, r, ms, id);
    OneSurvives(mode, r, ms, id);
    MergedSays(c, ms, id);
    OneWrite(mode, r, Merged(ms), id);
    assert ms[|ms| - 1] in ms;
    AcceptedIff(c.seqNum, ms[|ms| - 1].seqNum);
  }

  /** So two accepted updates can become one that is rejected. */
  lemma LongJumpIsLost(mode: Mode, c: Cell, v: Value, w: Value)
    requires c.seqNum == 0
    ensures var r, ms := Peer(map[5 := c], [], []), [EntryUpdate(5, 20000, v), EntryUpdate(5, 40000, w)];
            && ApplyAll(mode, r, ms) == Peer(map[5 := c.(value := Some(w), seqNum := 40000)], [], [])
            && ApplyAll(mode, r, Compact(EnqueueAll(ms).list)) != ApplyAll(mode, r, ms)
  {
    hide ApplyAll, EnqueueAll, Compact;
    var r, ms := Peer(map[5 := c], [], []), [EntryUpdate(5, 20000, v), EntryUpdate(5, 40000, w)];
    assert ms[..1] == [ms[0]] && ms[..1][..0] == [];
    assert CellAfter(c, ms[..1]) == c.(value := Some(v), seqNum := 20000);
    assert Chain(c, ms[..1], 5);
    assert Chain(c, ms, 5);
    assert CellAfter(c, ms) == c.(value := Some(w), seqNum := 40000);
    ChainArrives(mode, r, ms, 5);
    ChainIsFaithfulIff(mode, r, ms, 5);
  }

  lemma QueueOfTwo(m: Message, m': Message)
    requires m.EntryUpdate? && m.id != UNASSIGNED
    ensures Valid(Pending([Some(m)], map[m.id := Pair(1, 0)]))
    ensures EnqueueAll([m, m']) == Enqueue(Pending([Some(m)], map[m.id := Pair(1, 0)]), m')
  {
    assert [m, m'][..1] == [m] && [m][..0] == [];
    assert EnqueueAll([m]) == Enqueue(EMPTY, m);
    assert Enqueue(EMPTY, m) == Pending([Some(m)], map[m.id := Pair(1, 0)]);
  }

  lemma QueueThenClear(m: Message)
    requires m.EntryUpdate? && m.id != UNASSIGNED
    ensures EnqueueAll([m, ClearEntries]).list == [None, Some(ClearEntries)]
  {
    hide EnqueueAll;
    QueueOfTwo(m, ClearEntries);
    assert KnockOutAll([Some(m)]) == [None];
  }

  lemma CompactOfTwo(a: Option<Message>, b: Option<Message>)
    ensures Compact([b]) == if b.Some? then [b.value] else []
    ensures Compact([a, b]) == (if a.Some? then [a.value] else []) + (if b.Some? then [b.value] else [])
  {
    assert [a, b][..1] == [a] && [a][..0] == [] && [b][..0] == [];
    assert Compact([a]) == if a.Some? then [a.value] else [];
  }

  lemma ApplyTwo(mode: Mode, r: Peer, m: Message, m': Message)
    ensures ApplyAll(mode, r, [m']) == Apply(mode, r, m')
    ensures ApplyAll(mode, r, [m, m']) == Apply(mode, Apply(mode, r, m), m')
  {
    hide Apply;
    assert [m, m'][..1] == [m] && [m][..0] == [] && [m'][..0] == [];
    assert ApplyAll(mode, r, [m]) == Apply(mode, r, m);
  }
}
