/**
 What the queue of a connection makes of the order of messages about one entry: which writes arrive no earlier than its
 assignment, and whether an assignment or a deletion comes last. Both can be told from what was queued.
 */
module Arrivals {
  import opened Wrappers
  import opened Serial
  import opened Protocol
  import opened Coalescer
  import opened Survivors
  import opened PerEntry

  predicate Assigns(m: Message, id: nat) {
    m.EntryAssign? && m.id == id
  }

  predicate HasAssign(ms: seq<Message>, id: nat) {
    exists k :: 0 <= k < |ms| && Assigns(ms[k], id)
  }

  lemma HasAssignConcat(xs: seq<Message>, ys: seq<Message>, id: nat)
    ensures HasAssign(xs + ys, id) <==> HasAssign(xs, id) || HasAssign(ys, id)
  {
    if k :| 0 <= k < |xs + ys| && Assigns((xs + ys)[k], id) {
      assert if k < |xs| then Assigns(xs[k], id) else Assigns(ys[k - |xs|], id);
    }
    if k :| 0 <= k < |xs| && Assigns(xs[k], id) { assert Assigns((xs + ys)[k], id); }
    if k :| 0 <= k < |ys| && Assigns(ys[k], id) { assert Assigns((xs + ys)[|xs| + k], id); }
  }

  // ---------------------------------------------------------------- no earlier than the assignment

  /** The numbers of the writes that do not come before the first assignment, which may have come already. */
  function Timely(ms: seq<Message>, id: nat, known: bool): set<U16> {
    if ms == [] then {}
    else
      var k := |ms| - 1;
      Timely(ms[..k], id, known)
      + (if WriteOf(ms[k], id) && (known || HasAssign(ms, id)) then {ms[k].seqNum} else {})
  }

  lemma {:induction false} TimelyConcat(xs: seq<Message>, ys: seq<Message>, id: nat, known: bool)
    ensures Timely(xs + ys, id, known) == Timely(xs, id, known) + Timely(ys, id, known || HasAssign(xs, id))
    decreases |ys|
  {
    hide HasAssign, WriteOf;
    if ys == [] {
      assert xs + ys == xs;
    } else {
      assert (xs + ys)[..|xs + ys| - 1] == xs + ys[..|ys| - 1];
      TimelyConcat(xs, ys[..|ys| - 1], id, known);
      HasAssignConcat(xs, ys, id);
    }
  }

  lemma TimelyOne(m: Message, id: nat, known: bool)
    ensures Timely([m], id, known) == if WriteOf(m, id) && (known || Assigns(m, id)) then {m.seqNum} else {}
    ensures HasAssign([m], id) <==> Assigns(m, id)
  {
    assert [m][..0] == [] && [m][0] == m;
    assert Timely([], id, known) == {};
  }

  lemma {:induction false} TimelyOfEntry(ms: seq<Message>, id: nat, known: bool)
    ensures Timely(OfEntry(ms, id), id, known) == Timely(ms, id, known)
    ensures HasAssign(OfEntry(ms, id), id) <==> HasAssign(ms, id)
    decreases |ms|
  {
    hide HasAssign, Timely, OfEntry, WriteOf;
    if ms == [] {
      assert OfEntry(ms, id) == [] by { EmptyEntry(id); }
    } else {
      var was, m := ms[..|ms| - 1], ms[|ms| - 1];
      TimelyOfEntry(was, id, known);
      LastOfEntry(was, m, id);
      assert ms == was + [m];
      TimelyConcat(was, [m], id, known);
      TimelyConcat(OfEntry(was, id), [m], id, known);
      HasAssignConcat(was, [m], id);
      HasAssignConcat(OfEntry(was, id), [m], id);
      TimelyOne(m, id, known || HasAssign(was, id));
      WriteConcerns(m, id);
      assert OfEntry(was, id) + [] == OfEntry(was, id);
    }
  }

  lemma EmptyEntry(id: nat)
    ensures OfEntry([], id) == []
  {
  }

  lemma LastOfEntry(ms: seq<Message>, m: Message, id: nat)
    ensures OfEntry(ms + [m], id) == OfEntry(ms, id) + (if Concerns(m, id) then [m] else [])
  {
    assert (ms + [m])[..|ms|] == ms;
  }

  lemma WriteConcerns(m: Message, id: nat)
    ensures WriteOf(m, id) || Assigns(m, id) ==> Concerns(m, id) && WriteOf(m, id)
  {
  }

  // ---------------------------------------------------------------- in the order of queueing

  /** An assignment of the id was queued at or before position k. */
  predicate AssignedBy(ms: seq<Message>, k: nat, id: nat) {
    exists j :: 0 <= j <= k && j < |ms| && Assigns(ms[j], id)
  }

  /** The timely numbers of closed stretches, the number of the open one, and whether there was an assignment. */
  datatype Track = Track(closed: set<U16>, open: Option<U16>, seen: bool)

  function AllTimely(t: Track): set<U16> {
    t.closed + (if t.open.Some? && t.seen then {t.open.value} else {})
  }

  function TrackOn(t: Track, m: Message, id: nat): Track {
    if WriteOf(m, id) then t.(open := Some(m.seqNum), seen := t.seen || Assigns(m, id))
    else if FlagsOf(m, id) then Track(AllTimely(t), None, t.seen)
    else t
  }

  function TrackOf(ms: seq<Message>, id: nat, known: bool): Track {
    if ms == [] then Track({}, None, known) else TrackOn(TrackOf(ms[..|ms| - 1], id, known), ms[|ms| - 1], id)
  }

  /** A write with this number, of a closed stretch, that is timely. */
  predicate ClosedWith(ms: seq<Message>, id: nat, known: bool, x: U16) {
    exists k :: 0 <= k < |ms| && ClosedAt(ms, k, id) && (known || AssignedBy(ms, k, id)) && ms[k].seqNum == x
  }

  predicate OpenWith(ms: seq<Message>, id: nat, x: U16) {
    exists k :: 0 <= k < |ms| && OpenAt(ms, k, id) && ms[k].seqNum == x
  }

  ghost predicate TrackIsRight(t: Track, ms: seq<Message>, id: nat, known: bool) {
    && (forall x: U16 :: x in t.closed <==> ClosedWith(ms, id, known, x))
    && (forall x: U16 :: t.open == Some(x) <==> OpenWith(ms, id, x))
    && (t.seen <==> known || HasAssign(ms, id))
  }

  lemma AssignedStays(ms: seq<Message>, m: Message, k: nat, id: nat)
    requires k < |ms|
    ensures AssignedBy(ms + [m], k, id) <==> AssignedBy(ms, k, id)
  {
    if j :| 0 <= j <= k && j < |ms + [m]| && Assigns((ms + [m])[j], id) { assert Assigns(ms[j], id); }
    if j :| 0 <= j <= k && j < |ms| && Assigns(ms[j], id) { assert Assigns((ms + [m])[j], id); }
  }

  /** Nothing was written after the open write. */
  lemma OpenIsLast(ms: seq<Message>, k: nat, id: nat)
    requires k < |ms| && OpenAt(ms, k, id)
    ensures AssignedBy(ms, k, id) <==> HasAssign(ms, id)
  {
    if j :| 0 <= j < |ms| && Assigns(ms[j], id) { assert j > k ==> WriteOf(ms[j], id); }
  }

  lemma TrackClosed(t: Track, ms: seq<Message>, m: Message, id: nat, known: bool, x: U16)
    requires TrackIsRight(t, ms, id, known)
    ensures var ms' := ms + [m];
            x in TrackOn(t, m, id).closed <==> ClosedWith(ms', id, known, x)
  {
    var ms' := ms + [m];
    NewcomerAt(ms, m, id);
    forall k: nat | k < |ms|
      ensures ClosedAt(ms', k, id) <==> Survives(ms, k, id) && (ClosedAt(ms, k, id) || FlagsOf(m, id))
      ensures AssignedBy(ms', k, id) <==> AssignedBy(ms, k, id)
    {
      ClosedStays(ms, m, k, id);
      AssignedStays(ms, m, k, id);
    }
    forall k: nat | k < |ms| && OpenAt(ms, k, id) ensures AssignedBy(ms, k, id) <==> HasAssign(ms, id) {
      OpenIsLast(ms, k, id);
    }
    assert forall k: nat :: k < |ms| ==>
             ms'[k] == ms[k] && (Survives(ms, k, id) <==> ClosedAt(ms, k, id) || OpenAt(ms, k, id));
    ClosedGoesOn(t, ms, m, id, known, x);
  }

  lemma ClosedGoesOn(t: Track, ms: seq<Message>, m: Message, id: nat, known: bool, x: U16)
    requires TrackIsRight(t, ms, id, known)
    requires var ms' := ms + [m];
             && !ClosedAt(ms', |ms|, id)
             && (forall k: nat :: k < |ms| && (ClosedAt(ms, k, id) || OpenAt(ms, k, id)) ==> IsWrite(ms[k]))
             && (forall k: nat :: k < |ms| ==>
                   && ms'[k] == ms[k] && (AssignedBy(ms', k, id) <==> AssignedBy(ms, k, id))
                   && (ClosedAt(ms', k, id) <==> ClosedAt(ms, k, id) || (OpenAt(ms, k, id) && FlagsOf(m, id))))
             && (forall k: nat :: k < |ms| && OpenAt(ms, k, id) ==> (AssignedBy(ms, k, id) <==> HasAssign(ms, id)))
    ensures var ms' := ms + [m];
            x in TrackOn(t, m, id).closed <==> ClosedWith(ms', id, known, x)
  {
    hide Survives, ClosedAt, OpenAt, AssignedBy, HasAssign;
    var ms' := ms + [m];
    if x in TrackOn(t, m, id).closed {
      if x in t.closed {
        var k :| 0 <= k < |ms| && ClosedAt(ms, k, id) && (known || AssignedBy(ms, k, id)) && ms[k].seqNum == x;
        assert ClosedAt(ms', k, id);
      } else {
        var k :| 0 <= k < |ms| && OpenAt(ms, k, id) && ms[k].seqNum == x;
        assert ClosedAt(ms', k, id);
      }
    }
    if k :| 0 <= k < |ms'| && ClosedAt(ms', k, id) && (known || AssignedBy(ms', k, id)) && ms'[k].seqNum == x {
      assert k < |ms| && ms[k].seqNum == x;
      assert ClosedAt(ms, k, id) ==> x in t.closed;
      assert OpenAt(ms, k, id) ==> t.open == Some(x);
    }
  }

  lemma TrackOpen(t: Track, ms: seq<Message>, m: Message, id: nat, known: bool, x: U16)
    requires TrackIsRight(t, ms, id, known)
    ensures var ms' := ms + [m];
            TrackOn(t, m, id).open == Some(x) <==> OpenWith(ms', id, x)
  {
    var ms' := ms + [m];
    NewcomerAt(ms, m, id);
    forall k: nat | k < |ms| ensures OpenAt(ms', k, id) <==> OpenAt(ms, k, id) && !WriteOf(m, id) && !FlagsOf(m, id) {
      OpenStays(ms, m, k, id);
    }
    hide Survives, ClosedAt, OpenAt, AssignedBy, HasAssign;
    assert forall k: nat :: k < |ms| ==> ms'[k] == ms[k];
    if WriteOf(m, id) {
      assert ms'[|ms|] == m;
    } else if k :| 0 <= k < |ms| && OpenAt(ms, k, id) && ms[k].seqNum == x {
      assert OpenAt(ms', k, id) <==> !FlagsOf(m, id);
    }
  }

  lemma TrackNext(t: Track, ms: seq<Message>, m: Message, id: nat, known: bool)
    requires TrackIsRight(t, ms, id, known)
    ensures TrackIsRight(TrackOn(t, m, id), ms + [m], id, known)
  {
    hide ClosedWith, OpenWith, TrackOn, HasAssign;
    forall x: U16 ensures x in TrackOn(t, m, id).closed <==> ClosedWith(ms + [m], id, known, x) {
      TrackClosed(t, ms, m, id, known, x);
    }
    forall x: U16 ensures TrackOn(t, m, id).open == Some(x) <==> OpenWith(ms + [m], id, x) {
      TrackOpen(t, ms, m, id, known, x);
    }
    HasAssignConcat(ms, [m], id);
    TimelyOne(m, id, known);
    SeenNext(t, m, id);
  }

  lemma NothingTracked(id: nat, known: bool)
    ensures TrackIsRight(TrackOf([], id, known), [], id, known)
  {
    assert !HasAssign([], id);
  }

  lemma {:induction false} TrackTells(ms: seq<Message>, id: nat, known: bool)
    ensures TrackIsRight(TrackOf(ms, id, known), ms, id, known)
    decreases |ms|
  {
    hide TrackIsRight, TrackOn;
    if ms == [] {
      NothingTracked(id, known);
    } else {
      var was, m := ms[..|ms| - 1], ms[|ms| - 1];
      assert ms == was + [m];
      TrackTells(was, id, known);
      TrackNext(TrackOf(was, id, known), was, m, id, known);
    }
  }

  lemma SeenNext(t: Track, m: Message, id: nat)
    ensures TrackOn(t, m, id).seen <==> t.seen || Assigns(m, id)
  {
  }

  /** A surviving write, with an assignment queued at or before it, or in an earlier interval. */
  predicate SurvivesInTime(ms: seq<Message>, id: nat, x: U16, known: bool) {
    exists k :: 0 <= k < |ms| && Survives(ms, k, id) && (known || AssignedBy(ms, k, id)) && ms[k].seqNum == x
  }

  lemma TimelyByPosition(ms: seq<Message>, id: nat, known: bool, x: U16)
    ensures x in AllTimely(TrackOf(ms, id, known)) <==> SurvivesInTime(ms, id, x, known)
  {
    TrackTells(ms, id, known);
    forall k: nat | k < |ms|
      ensures Survives(ms, k, id) <==> ClosedAt(ms, k, id) || OpenAt(ms, k, id)
      ensures OpenAt(ms, k, id) ==> (AssignedBy(ms, k, id) <==> HasAssign(ms, id))
    {
      if OpenAt(ms, k, id) { OpenIsLast(ms, k, id); }
    }
    hide Survives, ClosedAt, OpenAt, AssignedBy, HasAssign;
    var t := TrackOf(ms, id, known);
    if k :| 0 <= k < |ms| && Survives(ms, k, id) && (known || AssignedBy(ms, k, id)) && ms[k].seqNum == x {
      assert ClosedAt(ms, k, id) ==> x in t.closed;
      assert OpenAt(ms, k, id) ==> t.open == Some(x);
    }
    if x in t.closed {
      var k :| 0 <= k < |ms| && ClosedAt(ms, k, id) && (known || AssignedBy(ms, k, id)) && ms[k].seqNum == x;
      assert Survives(ms, k, id);
    } else if t.open == Some(x) && t.seen {
      var k :| 0 <= k < |ms| && OpenAt(ms, k, id) && ms[k].seqNum == x;
      assert Survives(ms, k, id);
    }
  }

  // ---------------------------------------------------------------- what the queue leaves

  /** The pile of the entry has the timely writes, the open one at its end. */
  ghost predicate PileTracks(p: Pile, t: Track, id: nat, known: bool) {
    && PileOk(p)
    && (t.seen <==> known || HasAssign(p.list, id))
    && (p.top.LastWrite? <==> t.open.Some?)
    && if p.top.LastWrite? then
         var k := |p.list| - 1;
         WriteOf(p.list[k], id) && t.open == Some(p.list[k].seqNum) && Timely(p.list[..k], id, known) == t.closed
       else Timely(p.list, id, known) == t.closed
  }

  lemma KeepsAll(p: Pile, t: Track, id: nat, known: bool)
    requires PileTracks(p, t, id, known)
    ensures Timely(p.list, id, known) == AllTimely(t)
  {
  }

  lemma SplitLast(list: seq<Message>, m: Message, id: nat, known: bool)
    ensures Timely(list + [m], id, known)
            == Timely(list, id, known)
               + (if WriteOf(m, id) && (known || HasAssign(list, id) || Assigns(m, id)) then {m.seqNum} else {})
    ensures HasAssign(list + [m], id) <==> HasAssign(list, id) || Assigns(m, id)
  {
    hide HasAssign, Timely, Assigns;
    TimelyConcat(list, [m], id, known);
    TimelyOne(m, id, known || HasAssign(list, id));
    HasAssignConcat(list, [m], id);
  }

  /** A write that takes the place of the open one. */
  lemma MergeTracks(p: Pile, t: Track, m: Message, id: nat, known: bool)
    requires PileTracks(p, t, id, known) && WriteOf(m, id) && p.top.LastWrite?
    ensures PileTracks(PileOn(p, m), TrackOn(t, m, id), id, known)
  {
    hide HasAssign, Timely;
    var k := |p.list| - 1;
    var x := Merge(p.list[k], m);
    assert p.list == p.list[..k] + [p.list[k]];
    SplitLast(p.list[..k], p.list[k], id, known);
    SplitLast(p.list[..k], x, id, known);
    assert (p.list[..k] + [x])[..k] == p.list[..k];
  }

  lemma AppendTracks(p: Pile, t: Track, m: Message, id: nat, known: bool)
    requires PileTracks(p, t, id, known) && WriteOf(m, id) && !p.top.LastWrite?
    ensures PileTracks(PileOn(p, m), TrackOn(t, m, id), id, known)
  {
    hide HasAssign, Timely;
    SplitLast(p.list, m, id, known);
    assert (p.list + [m])[..|p.list|] == p.list;
  }

  lemma FlagsTrack(p: Pile, t: Track, m: Message, id: nat, known: bool)
    requires PileTracks(p, t, id, known) && FlagsOf(m, id)
    ensures PileTracks(PileOn(p, m), TrackOn(t, m, id), id, known)
  {
    KeepsAll(p, t, id, known);
    hide HasAssign, Timely;
    SplitLast(p.list, m, id, known);
    if p.top.LastFlags? {
      var k := |p.list| - 1;
      assert p.list == p.list[..k] + [p.list[k]];
      SplitLast(p.list[..k], p.list[k], id, known);
      SplitLast(p.list[..k], m, id, known);
    }
  }

  lemma PileKeeps(p: Pile, t: Track, m: Message, id: nat, known: bool)
    requires PileTracks(p, t, id, known) && Concerns(m, id) && !m.EntryDelete?
    ensures PileOk(p) && PileTracks(PileOn(p, m), TrackOn(t, m, id), id, known)
  {
    if IsWrite(m) {
      if p.top.LastWrite? { MergeTracks(p, t, m, id, known); } else { AppendTracks(p, t, m, id, known); }
    } else {
      FlagsTrack(p, t, m, id, known);
    }
  }

  lemma {:induction false} PileKeepsAll(ms: seq<Message>, id: nat, known: bool)
    requires forall m :: m in ms ==> Concerns(m, id) && !m.EntryDelete?
    ensures PileTracks(PileOf(ms, id), TrackOf(ms, id, known), id, known)
  {
    hide PileTracks, PileOn, TrackOn, Concerns;
    if ms == [] {
      EmptyKeeps(id, known);
    } else {
      assert ms[|ms| - 1] in ms;
      PileKeepsAll(ms[..|ms| - 1], id, known);
      PileKeeps(PileOf(ms[..|ms| - 1], id), TrackOf(ms[..|ms| - 1], id, known), ms[|ms| - 1], id, known);
    }
  }

  lemma EmptyKeeps(id: nat, known: bool)
    ensures PileTracks(PileOf([], id), TrackOf([], id, known), id, known)
  {
    assert !HasAssign([], id);
  }

  lemma {:induction false} TrackOfEntry(ms: seq<Message>, id: nat, known: bool)
    requires forall m :: m in ms ==> Stays(m, id)
    ensures TrackOf(OfEntry(ms, id), id, known) == TrackOf(ms, id, known)
  {
    if ms != [] {
      var was, m := ms[..|ms| - 1], ms[|ms| - 1];
      TrackOfEntry(was, id, known);
      if Concerns(m, id) {
        assert OfEntry(ms, id)[..|OfEntry(ms, id)| - 1] == OfEntry(was, id);
      } else {
        assert OfEntry(ms, id) == OfEntry(was, id);
      }
    }
  }

  /**
   Of what was queued between two posts, the writes that the client reads no earlier than the first assignment of the
   id are those that survive with an assignment queued at or before them.
   */
  lemma TimelyAfterQueue(ms: seq<Message>, id: nat, known: bool, x: U16)
    requires id != UNASSIGNED && forall m :: m in ms ==> Stays(m, id)
    ensures x in Timely(Compact(EnqueueAll(ms).list), id, known) <==> SurvivesInTime(ms, id, x, known)
    ensures HasAssign(Compact(EnqueueAll(ms).list), id) <==> HasAssign(ms, id)
  {
    hide EnqueueAll, Compact, Timely, HasAssign, SurvivesInTime, TrackOf, PileOf, OfEntry;
    var left := Compact(EnqueueAll(ms).list);
    var own := OfEntry(ms, id);
    OfEntryIs(ms, id);
    QueueByEntry(ms, id);
    TimelyOfEntry(left, id, known);
    TimelyOfEntry(ms, id, known);
    PileKeepsAll(own, id, known);
    PileKeepsAll(own, id, false);
    KeepsAll(PileOf(own, id), TrackOf(own, id, known), id, known);
    TrackOfEntry(ms, id, known);
    TimelyByPosition(ms, id, known, x);
    TrackSeen(own, id, false);
  }

  lemma {:induction false} TrackSeen(ms: seq<Message>, id: nat, known: bool)
    ensures TrackOf(ms, id, known).seen <==> known || HasAssign(ms, id)
  {
    TrackTells(ms, id, known);
  }

  // ---------------------------------------------------------------- several intervals

  /** A write with this number survives in some interval, and an assignment of the id was queued no later. */
  predicate QueuedInTime(bs: seq<seq<Message>>, id: nat, x: U16) {
    exists a :: 0 <= a < |bs| && SurvivesInTime(bs[a], id, x, AssignedBefore(bs, a, id))
  }

  predicate AssignedBefore(bs: seq<seq<Message>>, a: nat, id: nat) {
    exists b :: 0 <= b < a && b < |bs| && HasAssign(bs[b], id)
  }

  // ---------------------------------------------------------------- assigned or deleted last

  predicate Decides(m: Message, id: nat) {
    Assigns(m, id) || (m.EntryDelete? && m.id == id)
  }

  /** Whether the last assignment or deletion is an assignment; `was` if there is none. */
  predicate Fate(ms: seq<Message>, id: nat, was: bool) {
    if ms == [] then was
    else if Decides(ms[|ms| - 1], id) then Assigns(ms[|ms| - 1], id)
    else Fate(ms[..|ms| - 1], id, was)
  }

  lemma {:induction false} FateConcat(xs: seq<Message>, ys: seq<Message>, id: nat, was: bool)
    ensures Fate(xs + ys, id, was) == Fate(ys, id, Fate(xs, id, was))
    decreases |ys|
  {
    hide Decides, Assigns;
    if ys == [] {
      assert xs + ys == xs;
    } else {
      assert (xs + ys)[..|xs + ys| - 1] == xs + ys[..|ys| - 1];
      FateConcat(xs, ys[..|ys| - 1], id, was);
    }
  }

  lemma {:induction false} FateOfEntry(ms: seq<Message>, id: nat, was: bool)
    ensures Fate(OfEntry(ms, id), id, was) == Fate(ms, id, was)
    decreases |ms|
  {
    if ms != [] {
      var k := |ms| - 1;
      FateOfEntry(ms[..k], id, was);
      if Concerns(ms[k], id) {
        assert OfEntry(ms, id)[..|OfEntry(ms, id)| - 1] == OfEntry(ms[..k], id);
      } else {
        assert OfEntry(ms, id) == OfEntry(ms[..k], id);
      }
    }
  }

  lemma FateNext(list: seq<Message>, m: Message, id: nat, was: bool)
    ensures Fate(list + [m], id, was) == if Decides(m, id) then Assigns(m, id) else Fate(list, id, was)
  {
    assert (list + [m])[..|list|] == list;
  }

  lemma PileFate(p: Pile, m: Message, id: nat, was: bool)
    requires PileOk(p) && Concerns(m, id) && forall x :: x in p.list ==> Concerns(x, id)
    ensures Fate(PileOn(p, m).list, id, was) == if Decides(m, id) then Assigns(m, id) else Fate(p.list, id, was)
    ensures forall x :: x in PileOn(p, m).list ==> Concerns(x, id)
  {
    hide Fate;
    var k := |p.list| - 1;
    FateNext(p.list, m, id, was);
    if p.list != [] {
      assert p.list == p.list[..k] + [p.list[k]] && p.list[k] in p.list;
      FateNext(p.list[..k], p.list[k], id, was);
      FateNext(p.list[..k], m, id, was);
      if p.top.LastWrite? && IsWrite(m) { FateNext(p.list[..k], Merge(p.list[k], m), id, was); }
    }
  }

  lemma {:induction false} PileFateAll(ms: seq<Message>, id: nat, was: bool)
    requires forall m :: m in ms ==> Concerns(m, id)
    ensures Fate(PileOf(ms, id).list, id, was) == Fate(ms, id, was)
    ensures forall x :: x in PileOf(ms, id).list ==> Concerns(x, id)
  {
    hide PileOn, Concerns, Decides, Assigns;
    if ms != [] {
      assert ms[|ms| - 1] in ms;
      PileFateAll(ms[..|ms| - 1], id, was);
      PileFate(PileOf(ms[..|ms| - 1], id), ms[|ms| - 1], id, was);
    }
  }

  /** The queue does not change whether an assignment or a deletion of an entry comes last. */
  lemma FateAfterQueue(ms: seq<Message>, id: nat, was: bool)
    requires id != UNASSIGNED && forall m :: m in ms ==> !m.ClearEntries?
    ensures Fate(Compact(EnqueueAll(ms).list), id, was) == Fate(ms, id, was)
  {
    hide EnqueueAll, Compact, Fate, PileOf, OfEntry, Concerns;
    QueueByEntry(ms, id);
    FateOfEntry(Compact(EnqueueAll(ms).list), id, was);
    FateOfEntry(ms, id, was);
    PileFateAll(OfEntry(ms, id), id, was);
  }
}
