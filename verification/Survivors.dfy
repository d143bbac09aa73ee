/** Which writes to an entry survive in the outgoing queue: the last of each stretch between flags updates. */
module Survivors {
  import opened Wrappers
  import opened Serial
  import opened Protocol
  import opened Coalescer

  predicate WriteOf(m: Message, id: nat) {
    IsWrite(m) && m.id == id
  }

  predicate FlagsOf(m: Message, id: nat) {
    m.FlagsUpdate? && m.id == id
  }

  /** Nothing takes the entry away. */
  predicate Stays(m: Message, id: nat) {
    !m.ClearEntries? && (m.EntryDelete? ==> m.id != id)
  }

  /** The next message about the entry after position k, if there is one, is a flags update. */
  predicate Survives(ms: seq<Message>, k: nat, id: nat) {
    && k < |ms| && WriteOf(ms[k], id)
    && forall j :: k < j < |ms| && WriteOf(ms[j], id) ==> exists f :: k < f < j && FlagsOf(ms[f], id)
  }

  predicate SurvivesWith(ms: seq<Message>, id: nat, s: U16) {
    exists k :: 0 <= k < |ms| && Survives(ms, k, id) && ms[k].seqNum == s
  }

  // ---------------------------------------------------------------- message by message

  /** The numbers of the surviving writes; `open` is the one that the next write overwrites. */
  datatype Stretch = Stretch(closed: set<U16>, open: Option<U16>)

  function Numbers(s: Stretch): set<U16> {
    s.closed + (if s.open.Some? then {s.open.value} else {})
  }

  function Add(s: Stretch, m: Message, id: nat): Stretch {
    if WriteOf(m, id) then s.(open := Some(m.seqNum))
    else if FlagsOf(m, id) then Stretch(Numbers(s), None)
    else s
  }

  function StretchOf(ms: seq<Message>, id: nat): Stretch {
    if ms == [] then Stretch({}, None) else Add(StretchOf(ms[..|ms| - 1], id), ms[|ms| - 1], id)
  }

  /** A flags update has closed the stretch of the write. */
  predicate ClosedAt(ms: seq<Message>, k: nat, id: nat) {
    Survives(ms, k, id) && exists f :: k < f < |ms| && FlagsOf(ms[f], id)
  }

  predicate OpenAt(ms: seq<Message>, k: nat, id: nat) {
    Survives(ms, k, id) && forall f :: k < f < |ms| ==> !FlagsOf(ms[f], id)
  }

  lemma ClosedStays(ms: seq<Message>, m: Message, k: nat, id: nat)
    requires k < |ms|
    ensures ClosedAt(ms + [m], k, id) <==> Survives(ms, k, id) && (ClosedAt(ms, k, id) || FlagsOf(m, id))
    ensures OpenAt(ms + [m], k, id) <==> OpenAt(ms, k, id) && !WriteOf(m, id) && !FlagsOf(m, id)
  {
    var ms' := ms + [m];
    assert ms'[|ms|] == m;
    if Survives(ms', k, id) {
      forall j | k < j < |ms| && WriteOf(ms[j], id) ensures exists f :: k < f < j && FlagsOf(ms[f], id) {
        assert WriteOf(ms'[j], id);
        var f :| k < f < j && FlagsOf(ms'[f], id);
        assert FlagsOf(ms[f], id);
      }
    }
    if Survives(ms, k, id) && (exists f :: k < f < |ms| && FlagsOf(ms[f], id)) {
      var f :| k < f < |ms| && FlagsOf(ms[f], id);
      assert FlagsOf(ms'[f], id);
    }
    if Survives(ms, k, id) && (ClosedAt(ms, k, id) || FlagsOf(m, id)) {
      forall j | k < j < |ms'| && WriteOf(ms'[j], id) ensures exists f :: k < f < j && FlagsOf(ms'[f], id) {
        if j < |ms| {
          assert WriteOf(ms[j], id);
          var f :| k < f < j && FlagsOf(ms[f], id);
          assert FlagsOf(ms'[f], id);
        }
      }
    }
    if ClosedAt(ms', k, id) && !FlagsOf(m, id) {
      var f :| k < f < |ms'| && FlagsOf(ms'[f], id);
      assert FlagsOf(ms[f], id);
    }
    OpenStays(ms, m, k, id);
  }

  lemma OpenStays(ms: seq<Message>, m: Message, k: nat, id: nat)
    requires k < |ms|
    ensures OpenAt(ms + [m], k, id) <==> OpenAt(ms, k, id) && !WriteOf(m, id) && !FlagsOf(m, id)
  {
    var ms' := ms + [m];
    assert ms'[|ms|] == m;
    assert forall j :: 0 <= j < |ms| ==> ms'[j] == ms[j];
    if OpenAt(ms', k, id) {
      assert !FlagsOf(ms'[|ms|], id);
      assert forall j :: k < j < |ms'| ==> !FlagsOf(ms'[j], id);
      assert !WriteOf(ms'[|ms|], id);
      assert forall j :: k < j < |ms| ==> !WriteOf(ms'[j], id);
      assert forall j :: k < j < |ms| ==> !WriteOf(ms[j], id) && !FlagsOf(ms[j], id);
    }
    if OpenAt(ms, k, id) && !WriteOf(m, id) && !FlagsOf(m, id) {
      assert forall j :: k < j < |ms| ==> !WriteOf(ms[j], id);
      assert forall j :: k < j < |ms'| ==> !WriteOf(ms'[j], id) && !FlagsOf(ms'[j], id);
    }
  }

  /** The new message itself. */
  lemma NewcomerAt(ms: seq<Message>, m: Message, id: nat)
    ensures OpenAt(ms + [m], |ms|, id) <==> WriteOf(m, id)
    ensures !ClosedAt(ms + [m], |ms|, id)
  {
    assert (ms + [m])[|ms|] == m;
  }

  ghost predicate Describes(s: Stretch, ms: seq<Message>, id: nat) {
    && (forall x :: x in s.closed <==> exists k :: 0 <= k < |ms| && ClosedAt(ms, k, id) && ms[k].seqNum == x)
    && (forall x :: s.open == Some(x) <==> exists k :: 0 <= k < |ms| && OpenAt(ms, k, id) && ms[k].seqNum == x)
  }

  lemma AddClosed(s: Stretch, ms: seq<Message>, m: Message, id: nat, x: U16)
    requires Describes(s, ms, id)
    ensures var ms' := ms + [m];
            x in Add(s, m, id).closed <==> exists k :: 0 <= k < |ms'| && ClosedAt(ms', k, id) && ms'[k].seqNum == x
  {
    var ms' := ms + [m];
    NewcomerAt(ms, m, id);
    forall k: nat | k < |ms|
        ensures ClosedAt(ms', k, id) <==> Survives(ms, k, id) && (ClosedAt(ms, k, id) || FlagsOf(m, id))
    {
      ClosedStays(ms, m, k, id);
    }
    assert forall k: nat :: k < |ms| ==>
              ms'[k] == ms[k] && (Survives(ms, k, id) <==> ClosedAt(ms, k, id) || OpenAt(ms, k, id));
    hide Survives, ClosedAt, OpenAt;
    if x in Add(s, m, id).closed {
      if x in s.closed {
        var k :| 0 <= k < |ms| && ClosedAt(ms, k, id) && ms[k].seqNum == x;
        assert ClosedAt(ms', k, id);
      } else {
        assert s.open == Some(x);
        var k :| 0 <= k < |ms| && OpenAt(ms, k, id) && ms[k].seqNum == x;
        assert ClosedAt(ms', k, id);
      }
    }
    if exists k :: 0 <= k < |ms'| && ClosedAt(ms', k, id) && ms'[k].seqNum == x {
      var k :| 0 <= k < |ms'| && ClosedAt(ms', k, id) && ms'[k].seqNum == x;
      assert k < |ms| && ms[k].seqNum == x;
      assert ClosedAt(ms, k, id) ==> x in s.closed;
      assert OpenAt(ms, k, id) ==> s.open == Some(x);
    }
  }

  lemma AddOpen(s: Stretch, ms: seq<Message>, m: Message, id: nat, x: U16)
    requires Describes(s, ms, id)
    ensures var ms' := ms + [m];
            Add(s, m, id).open == Some(x) <==> exists k :: 0 <= k < |ms'| && OpenAt(ms', k, id) && ms'[k].seqNum == x
  {
    var ms' := ms + [m];
    NewcomerAt(ms, m, id);
    forall k: nat | k < |ms| ensures OpenAt(ms', k, id) <==> OpenAt(ms, k, id) && !WriteOf(m, id) && !FlagsOf(m, id) {
      OpenStays(ms, m, k, id);
    }
    hide Survives, ClosedAt, OpenAt;
    assert forall k: nat :: k < |ms| ==> ms'[k] == ms[k];
    if WriteOf(m, id) {
      assert ms'[|ms|] == m;
    } else if exists k :: 0 <= k < |ms| && OpenAt(ms, k, id) && ms[k].seqNum == x {
      var k :| 0 <= k < |ms| && OpenAt(ms, k, id) && ms[k].seqNum == x;
      assert OpenAt(ms', k, id) <==> !FlagsOf(m, id);
    }
  }

  lemma {:induction false} StretchDescribes(ms: seq<Message>, id: nat)
    ensures Describes(StretchOf(ms, id), ms, id)
  {
    if ms != [] {
      hide ClosedAt, OpenAt, Add;
      var was, m := ms[..|ms| - 1], ms[|ms| - 1];
      assert ms == was + [m];
      StretchDescribes(was, id);
      forall x: U16 ensures (x in StretchOf(ms, id).closed
                             <==> exists k :: 0 <= k < |ms| && ClosedAt(ms, k, id) && ms[k].seqNum == x) {
        AddClosed(StretchOf(was, id), was, m, id, x);
      }
      forall x: U16 ensures (StretchOf(ms, id).open == Some(x)
                             <==> exists k :: 0 <= k < |ms| && OpenAt(ms, k, id) && ms[k].seqNum == x) {
        AddOpen(StretchOf(was, id), was, m, id, x);
      }
    }
  }

  lemma SurvivorsByPosition(ms: seq<Message>, id: nat, x: U16)
    ensures x in Numbers(StretchOf(ms, id)) <==> SurvivesWith(ms, id, x)
  {
    StretchDescribes(ms, id);
    assert forall k: nat :: k < |ms| ==> (Survives(ms, k, id) <==> ClosedAt(ms, k, id) || OpenAt(ms, k, id));
    hide Survives, ClosedAt, OpenAt;
    var s := StretchOf(ms, id);
    if SurvivesWith(ms, id, x) {
      var k :| 0 <= k < |ms| && Survives(ms, k, id) && ms[k].seqNum == x;
      assert ClosedAt(ms, k, id) ==> x in s.closed;
      assert OpenAt(ms, k, id) ==> s.open == Some(x);
    }
    if x in s.closed {
      var k :| 0 <= k < |ms| && ClosedAt(ms, k, id) && ms[k].seqNum == x;
      assert Survives(ms, k, id);
    } else if s.open == Some(x) {
      var k :| 0 <= k < |ms| && OpenAt(ms, k, id) && ms[k].seqNum == x;
      assert Survives(ms, k, id);
    }
  }

  // ---------------------------------------------------------------- the queue keeps exactly these

  predicate SlotOpen(p: Pending, id: nat) {
    id in p.slots && p.slots[id].first != 0
  }

  /** The pending writes of the entry: the open one is in the slot, the others are elsewhere in the list. */
  ghost predicate Carries(p: Pending, s: Stretch, id: nat) {
    && (SlotOpen(p, id) <==> s.open.Some?)
    && (SlotOpen(p, id) ==> p.slots[id].first <= |p.list| && Write(p.list[p.slots[id].first - 1], id)
                            && p.list[p.slots[id].first - 1].value.seqNum == s.open.value)
    && (forall x :: x in s.closed <==>
          exists j :: 0 <= j < |p.list| && Write(p.list[j], id) && p.list[j].value.seqNum == x
                      && !(SlotOpen(p, id) && j == p.slots[id].first - 1))
  }

  /** A change of the list away from the entry, and perhaps a message at its end that is not about the entry. */
  lemma CarriesElsewhere(p: Pending, p': Pending, s: Stretch, id: nat)
    requires Carries(p, s, id) && |p.list| <= |p'.list|
    requires forall j :: 0 <= j < |p.list| && p'.list[j] != p.list[j] ==>
              !Write(p.list[j], id) && !Write(p'.list[j], id)
    requires forall j :: |p.list| <= j < |p'.list| ==> !Write(p'.list[j], id)
    requires SlotOpen(p', id) <==> SlotOpen(p, id)
    requires SlotOpen(p, id) ==> p'.slots[id].first == p.slots[id].first
    ensures Carries(p', s, id)
  {
    forall x ensures x in s.closed <==>
        exists j :: 0 <= j < |p'.list| && Write(p'.list[j], id) && p'.list[j].value.seqNum == x
                    && !(SlotOpen(p', id) && j == p'.slots[id].first - 1)
    {
      if x in s.closed {
        var j :| 0 <= j < |p.list| && Write(p.list[j], id) && p.list[j].value.seqNum == x
                 && !(SlotOpen(p, id) && j == p.slots[id].first - 1);
        assert Write(p'.list[j], id);
      }
      if exists j :: 0 <= j < |p'.list| && Write(p'.list[j], id) && p'.list[j].value.seqNum == x
                     && !(SlotOpen(p', id) && j == p'.slots[id].first - 1) {
        var j :| 0 <= j < |p'.list| && Write(p'.list[j], id) && p'.list[j].value.seqNum == x
                 && !(SlotOpen(p', id) && j == p'.slots[id].first - 1);
        assert Write(p.list[j], id);
      }
    }
  }

  lemma WriteCarries(p: Pending, s: Stretch, m: Message, id: nat)
    requires Coalescer.Valid(p) && Carries(p, s, id) && WriteOf(m, id) && id != UNASSIGNED
    ensures Carries(EnqueueWrite(p, m), s.(open := Some(m.seqNum)), id)
  {
    var p', s' := EnqueueWrite(p, m), s.(open := Some(m.seqNum));
    assert id in p.slots ==> PairOk(p, id);
    forall x ensures x in s'.closed <==>
        exists j :: 0 <= j < |p'.list| && Write(p'.list[j], id) && p'.list[j].value.seqNum == x
                    && !(SlotOpen(p', id) && j == p'.slots[id].first - 1)
    {
      if x in s.closed {
        var j :| 0 <= j < |p.list| && Write(p.list[j], id) && p.list[j].value.seqNum == x
                 && !(SlotOpen(p, id) && j == p.slots[id].first - 1);
        assert p'.list[j] == p.list[j];
      }
      if exists j :: 0 <= j < |p'.list| && Write(p'.list[j], id) && p'.list[j].value.seqNum == x
                     && !(SlotOpen(p', id) && j == p'.slots[id].first - 1) {
        var j :| 0 <= j < |p'.list| && Write(p'.list[j], id) && p'.list[j].value.seqNum == x
                 && !(SlotOpen(p', id) && j == p'.slots[id].first - 1);
        assert p'.list[j] == p.list[j];
      }
    }
  }

  lemma FlagsCarry(p: Pending, s: Stretch, m: Message, id: nat)
    requires Coalescer.Valid(p) && Carries(p, s, id) && FlagsOf(m, id)
    ensures Carries(EnqueueFlags(p, m), Stretch(Numbers(s), None), id)
  {
    var p', s' := EnqueueFlags(p, m), Stretch(Numbers(s), None);
    assert id in p.slots ==> PairOk(p, id);
    assert forall j :: 0 <= j < |p.list| ==> (Write(p'.list[j], id) <==> Write(p.list[j], id));
    assert forall j :: 0 <= j < |p.list| && Write(p.list[j], id) ==> p'.list[j] == p.list[j];
    forall x ensures x in s'.closed <==>
        exists j :: 0 <= j < |p'.list| && Write(p'.list[j], id) && p'.list[j].value.seqNum == x
    {
      if x in s.closed {
        var j :| 0 <= j < |p.list| && Write(p.list[j], id) && p.list[j].value.seqNum == x
                 && !(SlotOpen(p, id) && j == p.slots[id].first - 1);
        assert Write(p'.list[j], id);
      } else if s.open == Some(x) {
        assert Write(p'.list[p.slots[id].first - 1], id);
      }
      if exists j :: 0 <= j < |p'.list| && Write(p'.list[j], id) && p'.list[j].value.seqNum == x {
        var j :| 0 <= j < |p'.list| && Write(p'.list[j], id) && p'.list[j].value.seqNum == x;
        assert Write(p.list[j], id);
      }
    }
  }

  /** A message about something else. */
  lemma OtherCarries(p: Pending, s: Stretch, m: Message, id: nat)
    requires Coalescer.Valid(p) && Carries(p, s, id) && Stays(m, id) && !WriteOf(m, id) && !FlagsOf(m, id)
    ensures Carries(Enqueue(p, m), s, id)
  {
    if (IsWrite(m) || m.FlagsUpdate? || m.EntryDelete?) && m.id in p.slots { assert PairOk(p, m.id); }
    hide Coalescer.Valid, Carries, Untouched;
    CarriesElsewhere(p, Enqueue(p, m), s, id);
  }

  lemma {:induction false} QueueCarries(ms: seq<Message>, id: nat)
    requires id != UNASSIGNED && forall m :: m in ms ==> Stays(m, id)
    ensures Carries(EnqueueAll(ms), StretchOf(ms, id), id)
  {
    if ms != [] {
      var was, m := ms[..|ms| - 1], ms[|ms| - 1];
      QueueCarries(was, id);
      hide Carries, EnqueueWrite, EnqueueFlags, EnqueueDelete, Coalescer.Valid;
      if WriteOf(m, id) { WriteCarries(EnqueueAll(was), StretchOf(was, id), m, id); }
      else if FlagsOf(m, id) { FlagsCarry(EnqueueAll(was), StretchOf(was, id), m, id); }
      else { OtherCarries(EnqueueAll(was), StretchOf(was, id), m, id); }
    }
  }

  lemma {:induction false} InCompact(list: seq<Option<Message>>, x: Message)
    ensures x in Compact(list) <==> Some(x) in list
  {
    if list != [] {
      InCompact(list[..|list| - 1], x);
      assert list == list[..|list| - 1] + [list[|list| - 1]];
    }
  }

  /**
   Exactly the writes that are the last of their stretch survive: among what the queue holds of an entry is a write
   with a given number if and only if the next thing queued about the entry after some write with that number, if
   there is one, was a flags update. Neither the order nor the size of the numbers matters.
   */
  lemma SurvivingWrites(ms: seq<Message>, id: nat, x: U16)
    requires id != UNASSIGNED && forall m :: m in ms ==> Stays(m, id)
    ensures (exists m :: m in Compact(EnqueueAll(ms).list) && WriteOf(m, id) && m.seqNum == x)
              <==> SurvivesWith(ms, id, x)
  {
    QueueCarries(ms, id);
    SurvivorsByPosition(ms, id, x);
    hide EnqueueAll, StretchOf, SurvivesWith, Compact;
    var p, s := EnqueueAll(ms), StretchOf(ms, id);
    if exists m :: m in Compact(p.list) && WriteOf(m, id) && m.seqNum == x {
      var m :| m in Compact(p.list) && WriteOf(m, id) && m.seqNum == x;
      InCompact(p.list, m);
      var j :| 0 <= j < |p.list| && p.list[j] == Some(m);
      assert Write(p.list[j], id);
    }
    if x in Numbers(s) {
      var j := ListedNumber(p, s, id, x);
      InCompact(p.list, p.list[j].value);
    }
  }

  lemma ListedNumber(p: Pending, s: Stretch, id: nat, x: U16) returns (j: nat)
    requires Carries(p, s, id) && x in Numbers(s)
    ensures j < |p.list| && Write(p.list[j], id) && p.list[j].value.seqNum == x
  {
    if x in s.closed {
      j :| 0 <= j < |p.list| && Write(p.list[j], id) && p.list[j].value.seqNum == x
           && !(SlotOpen(p, id) && j == p.slots[id].first - 1);
    } else {
      j := p.slots[id].first - 1;
    }
  }
}
