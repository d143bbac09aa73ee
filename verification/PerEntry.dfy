/** The outgoing queue treats every entry by itself: what is left of one entry depends on its own messages only. */
module PerEntry {
  import opened Wrappers
  import opened Protocol
  import opened Coalescer

  predicate Concerns(m: Message, id: nat) {
    (IsWrite(m) || m.FlagsUpdate? || m.EntryDelete?) && m.id == id
  }

  /** The messages about one entry, in their order. */
  function OfEntry(ms: seq<Message>, id: nat): seq<Message> {
    if ms == [] then []
    else OfEntry(ms[..|ms| - 1], id) + (if Concerns(ms[|ms| - 1], id) then [ms[|ms| - 1]] else [])
  }

  lemma {:induction false} OfEntryConcat(xs: seq<Message>, ys: seq<Message>, id: nat)
    ensures OfEntry(xs + ys, id) == OfEntry(xs, id) + OfEntry(ys, id)
    decreases |ys|
  {
    hide Concerns;
    if ys == [] {
      assert xs + ys == xs;
    } else {
      assert (xs + ys)[..|xs + ys| - 1] == xs + ys[..|ys| - 1];
      OfEntryConcat(xs, ys[..|ys| - 1], id);
    }
  }

  lemma {:induction false} OfEntryIs(ms: seq<Message>, id: nat)
    ensures forall m :: m in OfEntry(ms, id) <==> m in ms && Concerns(m, id)
  {
    if ms != [] {
      OfEntryIs(ms[..|ms| - 1], id);
      assert ms == ms[..|ms| - 1] + [ms[|ms| - 1]];
    }
  }

  lemma {:induction false} AllOfEntry(ms: seq<Message>, id: nat)
    requires forall m :: m in ms ==> Concerns(m, id)
    ensures OfEntry(ms, id) == ms
  {
    if ms != [] {
      AllOfEntry(ms[..|ms| - 1], id);
      assert ms == ms[..|ms| - 1] + [ms[|ms| - 1]];
    }
  }

  // ---------------------------------------------------------------- the queue of one entry

  /** What the next message of the entry may replace: the last one, if that is what is said here. */
  datatype Top = Nothing | LastWrite | LastFlags

  datatype Pile = Pile(list: seq<Message>, top: Top)

  predicate PileOk(p: Pile) {
    match p.top
    case Nothing => true
    case LastWrite => p.list != [] && IsWrite(p.list[|p.list| - 1])
    case LastFlags => p.list != [] && p.list[|p.list| - 1].FlagsUpdate?
  }

  function PileOn(p: Pile, m: Message): (p': Pile)
    requires PileOk(p) && (IsWrite(m) || m.FlagsUpdate? || m.EntryDelete?)
    ensures PileOk(p')
  {
    if IsWrite(m) then
      if p.top.LastWrite? then
        var k := |p.list| - 1;
        Pile(p.list[..k] + [Merge(p.list[k], m)], LastWrite)
      else Pile(p.list + [m], LastWrite)
    else if m.FlagsUpdate? then
      Pile((if p.top.LastFlags? then p.list[..|p.list| - 1] else p.list) + [m], LastFlags)
    else
      Pile((if p.top.Nothing? then p.list else p.list[..|p.list| - 1]) + [m], Nothing)
  }

  /** The queue after messages that are all about one entry. */
  function PileOf(ms: seq<Message>, id: nat): (p: Pile)
    requires forall m :: m in ms ==> Concerns(m, id)
    ensures PileOk(p)
  {
    if ms == [] then Pile([], Nothing)
    else
      assert Concerns(ms[|ms| - 1], id);
      PileOn(PileOf(ms[..|ms| - 1], id), ms[|ms| - 1])
  }

  // ---------------------------------------------------------------- the whole queue, seen from one entry

  predicate ConcernsAt(o: Option<Message>, id: nat) {
    o.Some? && Concerns(o.value, id)
  }

  function Left(list: seq<Option<Message>>, id: nat): seq<Message> {
    if list == [] then []
    else
      var o := list[|list| - 1];
      Left(list[..|list| - 1], id) + (if ConcernsAt(o, id) then [o.value] else [])
  }

  lemma {:induction false} LeftOfCompact(list: seq<Option<Message>>, id: nat)
    ensures OfEntry(Compact(list), id) == Left(list, id)
  {
    hide Concerns;
    if list != [] {
      var k := |list| - 1;
      LeftOfCompact(list[..k], id);
      if list[k].Some? {
        assert Compact(list)[..|Compact(list)| - 1] == Compact(list[..k]);
      } else {
        assert Compact(list) == Compact(list[..k]);
      }
    }
  }

  lemma {:induction false} SameLeft(list: seq<Option<Message>>, list': seq<Option<Message>>, id: nat)
    requires |list'| == |list|
    requires forall j :: 0 <= j < |list| ==>
               list'[j] == list[j] || (!ConcernsAt(list[j], id) && !ConcernsAt(list'[j], id))
    ensures Left(list', id) == Left(list, id)
  {
    hide Concerns;
    if list != [] {
      SameLeft(list[..|list| - 1], list'[..|list| - 1], id);
    }
  }

  lemma {:induction false} NoneLeft(list: seq<Option<Message>>, k: nat, id: nat)
    requires k <= |list| && forall j :: k <= j < |list| ==> !ConcernsAt(list[j], id)
    ensures Left(list, id) == Left(list[..k], id)
    decreases |list|
  {
    hide Concerns;
    if k < |list| {
      NoneLeft(list[..|list| - 1], k, id);
      assert list[..|list| - 1][..k] == list[..k];
    } else {
      assert list[..k] == list;
    }
  }

  /** A list in which position k is the last that concerns the entry. */
  lemma LastLeft(list: seq<Option<Message>>, k: nat, o: Option<Message>, id: nat)
    requires k < |list| && forall j :: k < j < |list| ==> !ConcernsAt(list[j], id)
    ensures Left(list[k := o], id) == Left(list[..k], id) + (if ConcernsAt(o, id) then [o.value] else [])
  {
    hide Concerns;
    var list' := list[k := o];
    NoneLeft(list', k + 1, id);
    assert list'[..k + 1][..k] == list[..k];
  }

  lemma LeftAppend(list: seq<Option<Message>>, m: Message, id: nat)
    ensures Left(list + [Some(m)], id) == Left(list, id) + (if Concerns(m, id) then [m] else [])
  {
    hide Concerns;
    assert (list + [Some(m)])[..|list|] == list;
  }

  function TopOf(p: Pending, id: nat): Top {
    if id !in p.slots then Nothing
    else if p.slots[id].first != 0 then LastWrite
    else if p.slots[id].second != 0 then LastFlags
    else Nothing
  }

  ghost predicate Piled(p: Pending, pile: Pile, id: nat) {
    Left(p.list, id) == pile.list && TopOf(p, id) == pile.top
  }

  /** The slot of the entry points to the last message that concerns it. */
  lemma SlotIsLast(p: Pending, id: nat) returns (k: nat)
    requires Coalescer.Valid(p) && id != UNASSIGNED && TopOf(p, id) != Nothing
    ensures k < |p.list| && ConcernsAt(p.list[k], id) && (forall j :: k < j < |p.list| ==> !ConcernsAt(p.list[j], id))
    ensures k == (if TopOf(p, id).LastWrite? then p.slots[id].first else p.slots[id].second) - 1
    ensures Left(p.list, id) == Left(p.list[..k], id) + [p.list[k].value]
  {
    assert PairOk(p, id);
    k := p.slots[id].first + p.slots[id].second - 1;
    assert forall j :: k < j < |p.list| ==> !Touches(p.list[j], id);
    assert p.list[k := p.list[k]] == p.list;
    LastLeft(p.list, k, p.list[k], id);
  }

  lemma WritePiles(p: Pending, pile: Pile, m: Message, id: nat)
    requires Coalescer.Valid(p) && PileOk(pile) && Piled(p, pile, id) && IsWrite(m) && m.id == id != UNASSIGNED
    ensures Piled(EnqueueWrite(p, m), PileOn(pile, m), id)
  {
    if pile.top.LastWrite? {
      var k := SlotIsLast(p, id);
      assert PairOk(p, id);
      LastLeft(p.list, k, Some(Merge(p.list[k].value, m)), id);
    } else {
      LeftAppend(p.list, m, id);
    }
  }

  lemma FlagsPile(p: Pending, pile: Pile, m: Message, id: nat)
    requires Coalescer.Valid(p) && PileOk(pile) && Piled(p, pile, id) && m.FlagsUpdate? && m.id == id != UNASSIGNED
    ensures Piled(EnqueueFlags(p, m), PileOn(pile, m), id)
  {
    if id in p.slots { assert PairOk(p, id); }
    if pile.top.LastFlags? {
      var k := SlotIsLast(p, id);
      LastLeft(p.list, k, Some(m), id);
    } else {
      LeftAppend(p.list, m, id);
    }
  }

  /** What a deletion does to the list: it knocks out the message that the slot points to, if there is one. */
  lemma DeleteGives(p: Pending, m: Message)
    requires Coalescer.Valid(p) && m.EntryDelete? && m.id != UNASSIGNED
    ensures TopOf(EnqueueDelete(p, m), m.id).Nothing?
    ensures TopOf(p, m.id).Nothing? ==> EnqueueDelete(p, m).list == p.list + [Some(m)]
    ensures TopOf(p, m.id).LastWrite? ==>
              p.slots[m.id].first <= |p.list|
              && EnqueueDelete(p, m).list == p.list[p.slots[m.id].first - 1 := None] + [Some(m)]
    ensures TopOf(p, m.id).LastFlags? ==>
              p.slots[m.id].second <= |p.list|
              && EnqueueDelete(p, m).list == p.list[p.slots[m.id].second - 1 := None] + [Some(m)]
  {
    if m.id in p.slots { assert PairOk(p, m.id); }
  }

  lemma DeletePiles(p: Pending, pile: Pile, m: Message, id: nat)
    requires Coalescer.Valid(p) && PileOk(pile) && Piled(p, pile, id) && m.EntryDelete? && m.id == id != UNASSIGNED
    ensures Piled(EnqueueDelete(p, m), PileOn(pile, m), id)
  {
    hide Coalescer.Valid, EnqueueDelete, TopOf, Left;
    DeleteGives(p, m);
    if pile.top.Nothing? {
      LeftAppend(p.list, m, id);
    } else {
      var k := SlotIsLast(p, id);
      LastLeft(p.list, k, None, id);
      LeftAppend(p.list[k := None], m, id);
    }
  }

  /** A pending message about the entry m is about, which is not a request. */
  predicate Replaceable(o: Option<Message>, m: Message)
    requires IsWrite(m) || m.FlagsUpdate? || m.EntryDelete?
  {
    o.None? || (Concerns(o.value, m.id) && (m.id == UNASSIGNED ==> o.value.FlagsUpdate?))
  }

  /** What a message does to the list: it may replace one about the same entry, and may come to the end. */
  ghost predicate Shaped(p: Pending, p': Pending, m: Message)
    requires IsWrite(m) || m.FlagsUpdate? || m.EntryDelete?
  {
    && |p.list| <= |p'.list|
    && (forall j :: 0 <= j < |p.list| ==>
          p'.list[j] == p.list[j] || (Replaceable(p.list[j], m) && Replaceable(p'.list[j], m)))
    && (p'.list == p'.list[..|p.list|] || p'.list == p'.list[..|p.list|] + [Some(m)])
    && (IsUnkeyed(m) ==> p'.list == p.list + [Some(m)])
    && forall id {:trigger TopOf(p', id)} :: id != m.id ==> TopOf(p', id) == TopOf(p, id)
  }

  predicate IsUnkeyed(m: Message) {
    IsWrite(m) && m.id == UNASSIGNED
  }

  lemma WriteShape(p: Pending, m: Message)
    requires Coalescer.Valid(p) && IsWrite(m)
    ensures Shaped(p, EnqueueWrite(p, m), m)
  {
    if m.id in p.slots { assert PairOk(p, m.id); }
  }

  lemma FlagsShape(p: Pending, m: Message)
    requires Coalescer.Valid(p) && m.FlagsUpdate?
    ensures Shaped(p, EnqueueFlags(p, m), m)
  {
    if m.id in p.slots { assert PairOk(p, m.id); }
  }

  lemma DeleteShape(p: Pending, m: Message)
    requires Coalescer.Valid(p) && m.EntryDelete?
    ensures Shaped(p, EnqueueDelete(p, m), m)
  {
    if m.id in p.slots { assert PairOk(p, m.id); }
  }

  lemma EnqueueShape(p: Pending, m: Message)
    requires Coalescer.Valid(p) && (IsWrite(m) || m.FlagsUpdate? || m.EntryDelete?)
    ensures Shaped(p, Enqueue(p, m), m)
  {
    hide Shaped, EnqueueWrite, EnqueueFlags, EnqueueDelete, Coalescer.Valid;
    if IsWrite(m) { WriteShape(p, m); }
    else if m.FlagsUpdate? { FlagsShape(p, m); }
    else { DeleteShape(p, m); }
  }

  lemma OtherPiles(p: Pending, pile: Pile, m: Message, id: nat)
    requires Coalescer.Valid(p) && Piled(p, pile, id) && !Concerns(m, id) && !m.ClearEntries? && id != UNASSIGNED
    ensures Piled(Enqueue(p, m), pile, id)
  {
    hide Coalescer.Valid, EnqueueWrite, EnqueueFlags, EnqueueDelete, Left;
    var p' := Enqueue(p, m);
    if IsWrite(m) || m.FlagsUpdate? || m.EntryDelete? {
      EnqueueShape(p, m);
      var list := p'.list[..|p.list|];
      SameLeft(p.list, list, id);
      LeftAppend(list, m, id);
    } else {
      LeftAppend(p.list, m, id);
    }
  }

  /**
   What the queue holds of an entry, whatever else is queued in between, is what it would hold if nothing else had
   been queued.
   */
  lemma {:induction false} QueueByEntry(ms: seq<Message>, id: nat)
    requires id != UNASSIGNED && forall m :: m in ms ==> !m.ClearEntries?
    ensures forall m :: m in OfEntry(ms, id) ==> Concerns(m, id)
    ensures Piled(EnqueueAll(ms), PileOf(OfEntry(ms, id), id), id)
    ensures OfEntry(Compact(EnqueueAll(ms).list), id) == PileOf(OfEntry(ms, id), id).list
    decreases |ms|
  {
    hide Concerns, Piled, Enqueue, Coalescer.Valid, PileOn, PileOk;
    OfEntryIs(ms, id);
    LeftOfCompact(EnqueueAll(ms).list, id);
    if ms == [] {
      NothingPiled(id);
    } else {
      var was, m := ms[..|ms| - 1], ms[|ms| - 1];
      QueueByEntry(was, id);
      assert m in ms;
      if Concerns(m, id) {
        assert OfEntry(ms, id)[..|OfEntry(ms, id)| - 1] == OfEntry(was, id);
        ConcernedPiles(EnqueueAll(was), PileOf(OfEntry(was, id), id), m, id);
      } else {
        OtherPiles(EnqueueAll(was), PileOf(OfEntry(was, id), id), m, id);
        assert OfEntry(ms, id) == OfEntry(was, id);
      }
    }
    PiledList(EnqueueAll(ms), PileOf(OfEntry(ms, id), id), id);
  }

  lemma NothingPiled(id: nat)
    ensures Piled(EnqueueAll([]), PileOf([], id), id) && OfEntry([], id) == []
  {
  }

  lemma PiledList(p: Pending, pile: Pile, id: nat)
    requires Piled(p, pile, id)
    ensures Left(p.list, id) == pile.list
  {
  }

  lemma ConcernedPiles(p: Pending, pile: Pile, m: Message, id: nat)
    requires Coalescer.Valid(p) && PileOk(pile) && Piled(p, pile, id) && Concerns(m, id) && id != UNASSIGNED
    ensures Piled(Enqueue(p, m), PileOn(pile, m), id)
  {
    hide Piled, EnqueueWrite, EnqueueFlags, EnqueueDelete, Coalescer.Valid, PileOn, PileOk;
    if IsWrite(m) { WritePiles(p, pile, m, id); }
    else if m.FlagsUpdate? { FlagsPile(p, pile, m, id); }
    else { DeletePiles(p, pile, m, id); }
  }

  // ---------------------------------------------------------------- requests

  predicate IsRequestFor(m: Message, n: Text) {
    m.EntryAssign? && m.id == UNASSIGNED && m.name == n
  }

  function RequestsFor(ms: seq<Message>, n: Text): seq<Message> {
    if ms == [] then []
    else RequestsFor(ms[..|ms| - 1], n) + (if IsRequestFor(ms[|ms| - 1], n) then [ms[|ms| - 1]] else [])
  }

  function RequestsLeft(list: seq<Option<Message>>, n: Text): seq<Message> {
    if list == [] then []
    else
      var o := list[|list| - 1];
      RequestsLeft(list[..|list| - 1], n) + (if o.Some? && IsRequestFor(o.value, n) then [o.value] else [])
  }

  lemma {:induction false} RequestsOfCompact(list: seq<Option<Message>>, n: Text)
    ensures RequestsFor(Compact(list), n) == RequestsLeft(list, n)
  {
    hide IsRequestFor;
    if list != [] {
      var k := |list| - 1;
      RequestsOfCompact(list[..k], n);
      if list[k].Some? {
        assert Compact(list)[..|Compact(list)| - 1] == Compact(list[..k]);
      } else {
        assert Compact(list) == Compact(list[..k]);
      }
    }
  }

  predicate IsRequestAt(o: Option<Message>, n: Text) {
    o.Some? && IsRequestFor(o.value, n)
  }

  lemma {:induction false} SameRequests(list: seq<Option<Message>>, list': seq<Option<Message>>, n: Text)
    requires |list'| == |list|
    requires forall j :: 0 <= j < |list| ==>
               list'[j] == list[j] || (!IsRequestAt(list[j], n) && !IsRequestAt(list'[j], n))
    ensures RequestsLeft(list', n) == RequestsLeft(list, n)
  {
    hide IsRequestFor;
    if list != [] {
      assert list'[|list| - 1] == list[|list| - 1] || !IsRequestAt(list[|list| - 1], n);
      SameRequests(list[..|list| - 1], list'[..|list| - 1], n);
    }
  }

  lemma RequestsAppend(list: seq<Option<Message>>, m: Message, n: Text)
    ensures RequestsLeft(list + [Some(m)], n) == RequestsLeft(list, n) + (if IsRequestFor(m, n) then [m] else [])
  {
    assert (list + [Some(m)])[..|list|] == list;
  }

  lemma OneMoreRequest(p: Pending, m: Message, n: Text)
    requires Coalescer.Valid(p) && !m.ClearEntries?
    ensures RequestsLeft(Enqueue(p, m).list, n)
            == RequestsLeft(p.list, n) + (if IsRequestFor(m, n) then [m] else [])
  {
    hide Coalescer.Valid, EnqueueWrite, EnqueueFlags, EnqueueDelete, RequestsLeft;
    var p' := Enqueue(p, m);
    RequestsAppend(p.list, m, n);
    if IsWrite(m) || m.FlagsUpdate? || m.EntryDelete? {
      EnqueueShape(p, m);
      var list := p'.list[..|p.list|];
      if !IsUnkeyed(m) {
        SameRequests(p.list, list, n);
        RequestsAppend(list, m, n);
      }
    }
  }

  /** The queue leaves the requests for an id alone, and in their order. */
  lemma {:induction false} QueueKeepsRequests(ms: seq<Message>, n: Text)
    requires forall m :: m in ms ==> !m.ClearEntries?
    ensures RequestsFor(Compact(EnqueueAll(ms).list), n) == RequestsFor(ms, n)
    ensures RequestsLeft(EnqueueAll(ms).list, n) == RequestsFor(ms, n)
    decreases |ms|
  {
    hide IsRequestFor, Enqueue, Coalescer.Valid;
    RequestsOfCompact(EnqueueAll(ms).list, n);
    if ms != [] {
      assert ms[|ms| - 1] in ms;
      QueueKeepsRequests(ms[..|ms| - 1], n);
      OneMoreRequest(EnqueueAll(ms[..|ms| - 1]), ms[|ms| - 1], n);
    }
  }
}
