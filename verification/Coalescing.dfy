/** Rewriting the pending messages does not change what they mean to the peer. */
module Coalescing {
  import opened Wrappers
  import opened Serial
  import opened Protocol
  import opened Receiver
  import opened Coalescer

  // ---------------------------------------------------------------- the meaning of a list

  /**
   A peer: its entries, the id requests it has been sent whose entries a clear has not wiped out,
   and everything that is not about entries, in order.
   */
  datatype Peer = Peer(cells: Cells, requests: seq<Message>, others: seq<Message>)

  predicate IsRequest(m: Message) {
    m.EntryAssign? && m.id == UNASSIGNED
  }

  function KeptRequests(rs: seq<Message>): seq<Message> {
    if rs == [] then []
    else
      var m := rs[|rs| - 1];
      KeptRequests(rs[..|rs| - 1]) + (if m.EntryAssign? && Persistent(m.flags) then [m] else [])
  }

  function Apply(mode: Mode, r: Peer, m: Message): Peer {
    if IsRequest(m) then r.(requests := r.requests + [m])
    else if m.ClearEntries? then Peer(Kept(r.cells), KeptRequests(r.requests), r.others)
    else if IsEntryMessage(m) then r.(cells := ApplyCell(mode, r.cells, m))
    else r.(others := r.others + [m])
  }

  function ApplyAll(mode: Mode, r: Peer, ms: seq<Message>): Peer {
    if ms == [] then r else Apply(mode, ApplyAll(mode, r, ms[..|ms| - 1]), ms[|ms| - 1])
  }

  function ApplyGap(mode: Mode, r: Peer, o: Option<Message>): Peer {
    if o.Some? then Apply(mode, r, o.value) else r
  }

  /** The meaning of a list with gaps. */
  function ApplyList(mode: Mode, r: Peer, list: seq<Option<Message>>): Peer {
    if list == [] then r else ApplyGap(mode, ApplyList(mode, r, list[..|list| - 1]), list[|list| - 1])
  }

  lemma {:induction false} CompactMeaning(mode: Mode, r: Peer, list: seq<Option<Message>>)
    ensures ApplyAll(mode, r, Compact(list)) == ApplyList(mode, r, list)
    decreases |list|
  {
    if list != [] {
      var k := |list| - 1;
      CompactMeaning(mode, r, list[..k]);
      if list[k].Some? {
        assert Compact(list)[..|Compact(list)| - 1] == Compact(list[..k]);
      } else {
        assert Compact(list) == Compact(list[..k]);
      }
    }
  }

  lemma {:induction false} ApplyListConcat(mode: Mode, r: Peer, xs: seq<Option<Message>>, ys: seq<Option<Message>>)
    ensures ApplyList(mode, r, xs + ys) == ApplyList(mode, ApplyList(mode, r, xs), ys)
    decreases |ys|
  {
    if ys == [] {
      assert xs + ys == xs;
    } else {
      hide Apply;
      var k := |ys| - 1;
      assert (xs + ys)[..|xs + ys| - 1] == xs + ys[..k];
      ApplyListConcat(mode, r, xs, ys[..k]);
    }
  }

  /** A list around position k. */
  lemma ApplyListAt(mode: Mode, r: Peer, list: seq<Option<Message>>, k: nat)
    requires k < |list|
    ensures ApplyList(mode, r, list)
            == ApplyList(mode, ApplyGap(mode, ApplyList(mode, r, list[..k]), list[k]), list[k + 1..])
  {
    assert list == list[..k + 1] + list[k + 1..];
    assert list[..k + 1][..k] == list[..k];
    ApplyListConcat(mode, r, list[..k + 1], list[k + 1..]);
  }

  // ---------------------------------------------------------------- commutation

  predicate AboutOne(m: Message, id: nat) {
    (IsWrite(m) || m.FlagsUpdate? || m.EntryDelete?) && m.id == id
  }

  lemma Commute(mode: Mode, r: Peer, x: Message, m: Message, id: nat)
    requires AboutOne(m, id) && id != UNASSIGNED && !Touches(Some(x), id)
    ensures Apply(mode, Apply(mode, r, x), m) == Apply(mode, Apply(mode, r, m), x)
  {
    if !IsRequest(x) && IsEntryMessage(x) {
      CommuteCells(mode, r.cells, x, m, x.id, id);
    }
  }

  function Get(cells: Cells, id: nat): Option<Cell> {
    if id in cells then Some(cells[id]) else None
  }

  function Store(cells: Cells, id: nat, o: Option<Cell>): Cells {
    if o.Some? then cells[id := o.value] else cells - {id}
  }

  /** What a message does to the one cell it is about. */
  function ApplyOne(mode: Mode, o: Option<Cell>, m: Message): Option<Cell> {
    match m
    case EntryAssign(name, _, seqNum, value, flags) =>
      if o.None? then if mode.Follower? then Some(Cell(name, Some(value), flags, seqNum)) else None
      else if Newer(o.value.seqNum, seqNum) || o.value.name != name then o
      else Some(Cell(name, Some(value), flags, seqNum))
    case EntryUpdate(_, seqNum, value) =>
      if o.None? || NewerOrEqual(o.value.seqNum, seqNum) then o
      else Some(o.value.(value := Some(value), seqNum := seqNum))
    case FlagsUpdate(_, flags) => if o.None? then o else Some(o.value.(flags := flags))
    case _ => None
  }

  lemma ApplyIsLocal(mode: Mode, cells: Cells, m: Message, id: nat)
    requires AboutOne(m, id) && !IsRequest(m)
    ensures ApplyCell(mode, cells, m) == Store(cells, id, ApplyOne(mode, Get(cells, id), m))
  {
  }

  lemma StoresCommute(cells: Cells, i: nat, j: nat, a: Option<Cell>, b: Option<Cell>)
    requires i != j
    ensures Store(Store(cells, i, a), j, b) == Store(Store(cells, j, b), i, a)
    ensures Get(Store(cells, i, a), j) == Get(cells, j)
  {
  }

  lemma CommuteCells(mode: Mode, cells: Cells, x: Message, m: Message, i: nat, id: nat)
    requires AboutOne(m, id) && id != UNASSIGNED && AboutOne(x, i) && i != id && !IsRequest(x)
    ensures ApplyCell(mode, ApplyCell(mode, cells, x), m) == ApplyCell(mode, ApplyCell(mode, cells, m), x)
  {
    hide ApplyCell, ApplyOne, Get, Store;
    ApplyIsLocal(mode, cells, m, id);
    ApplyIsLocal(mode, cells, x, i);
    ApplyIsLocal(mode, ApplyCell(mode, cells, x), m, id);
    ApplyIsLocal(mode, ApplyCell(mode, cells, m), x, i);
    var a, b := ApplyOne(mode, Get(cells, i), x), ApplyOne(mode, Get(cells, id), m);
    StoresCommute(cells, i, id, a, b);
    StoresCommute(cells, id, i, b, a);
  }

  /** A message slides to the front of messages that have nothing to do with its id. */
  lemma {:induction false} Slide(mode: Mode, r: Peer, list: seq<Option<Message>>, m: Message, id: nat)
    requires AboutOne(m, id) && id != UNASSIGNED && Untouched(list, 0, id)
    ensures Apply(mode, ApplyList(mode, r, list), m) == ApplyList(mode, Apply(mode, r, m), list)
    decreases |list|
  {
    if list != [] {
      hide Apply;
      var k := |list| - 1;
      Slide(mode, r, list[..k], m, id);
      if list[k].Some? {
        assert !Touches(list[k], id);
        Commute(mode, ApplyList(mode, r, list[..k]), list[k].value, m, id);
      }
    }
  }

  /** Two messages about an id become one, at the place of the first. */
  lemma Replace(mode: Mode, r: Peer, list: seq<Option<Message>>, k: nat, m: Message, x: Option<Message>, id: nat)
    requires k < |list| && list[k].Some? && AboutOne(m, id) && id != UNASSIGNED && Untouched(list, k + 1, id)
    requires var here := ApplyList(mode, r, list[..k]);
             Apply(mode, Apply(mode, here, list[k].value), m) == ApplyGap(mode, here, x)
    ensures Apply(mode, ApplyList(mode, r, list), m) == ApplyList(mode, r, list[k := x])
  {
    hide Apply;
    ApplyListAt(mode, r, list, k);
    ApplyListAt(mode, r, list[k := x], k);
    assert list[k := x][..k] == list[..k] && list[k := x][k + 1..] == list[k + 1..];
    Slide(mode, Apply(mode, ApplyList(mode, r, list[..k]), list[k].value), list[k + 1..], m, id);
  }

  // ---------------------------------------------------------------- what a sequence must satisfy

  /** The write is ahead of a sequence number, by less than half the number space. */
  predicate Ahead(s: U16, m: Message)
    requires IsWrite(m)
  {
    Offset(s, m.seqNum) < HALF && (m.EntryUpdate? ==> s != m.seqNum)
  }

  predicate SameName(was: Message, m: Message) {
    was.EntryAssign? && m.EntryAssign? ==> was.name == m.name
  }

  /** The write comes after what the peer holds for its id. */
  predicate AfterCell(cells: Cells, m: Message)
    requires IsWrite(m)
  {
    m.id in cells ==>
      Ahead(cells[m.id].seqNum, m) && (m.EntryAssign? ==> m.name == cells[m.id].name)
  }

  predicate AfterMessage(was: Option<Message>, m: Message)
    requires IsWrite(m)
  {
    Write(was, m.id) ==> Ahead(was.value.seqNum, m) && SameName(was.value, m)
  }

  lemma AheadIsAccepted(s: U16, m: Message)
    requires IsWrite(m) && Ahead(s, m)
    ensures !Newer(s, m.seqNum) && (m.EntryUpdate? ==> !NewerOrEqual(s, m.seqNum))
  {
    NewerIsAhead(s, m.seqNum);
    NewerIsAhead(m.seqNum, s);
  }

  /** Merging two pending writes of an id: the peer ends up in the same state. */
  lemma MergeSound(mode: Mode, r: Peer, was: Message, m: Message)
    requires IsWrite(was) && IsWrite(m) && was.id == m.id != UNASSIGNED
    requires AfterCell(r.cells, was) && AfterCell(r.cells, m) && AfterMessage(Some(was), m)
    ensures Apply(mode, Apply(mode, r, was), m) == Apply(mode, r, Merge(was, m))
  {
    var id := m.id;
    ApplyIsLocal(mode, r.cells, was, id);
    ApplyIsLocal(mode, ApplyCell(mode, r.cells, was), m, id);
    ApplyIsLocal(mode, r.cells, Merge(was, m), id);
    MergeOne(mode, Get(r.cells, id), was, m);
    hide ApplyCell, ApplyOne, Merge;
  }

  lemma MergeOne(mode: Mode, o: Option<Cell>, was: Message, m: Message)
    requires IsWrite(was) && IsWrite(m) && was.id == m.id
    requires o.Some? ==> Ahead(o.value.seqNum, was) && Ahead(o.value.seqNum, m)
    requires o.Some? && was.EntryAssign? ==> was.name == o.value.name
    requires o.Some? && m.EntryAssign? ==> m.name == o.value.name
    requires Ahead(was.seqNum, m) && SameName(was, m)
    ensures ApplyOne(mode, ApplyOne(mode, o, was), m) == ApplyOne(mode, o, Merge(was, m))
  {
    if o.Some? {
      AheadIsAccepted(o.value.seqNum, was);
      AheadIsAccepted(o.value.seqNum, m);
    }
    AheadIsAccepted(was.seqNum, m);
  }

  /** Every write comes after what the peer holds, and after the earlier writes of its id. */
  predicate Window(r: Peer, ms: seq<Message>) {
    forall j :: 0 <= j < |ms| && IsWrite(ms[j]) && ms[j].id != UNASSIGNED ==>
      AfterCell(r.cells, ms[j]) && forall i :: 0 <= i < j ==> AfterMessage(Some(ms[i]), ms[j])
  }

  /**
   A clear finds the peer's persistent entries, and the persistent entries it is about to be asked for,
   as they were before the pending messages.
   */
  predicate ClearsExact(mode: Mode, r: Peer, ms: seq<Message>) {
    forall k :: 0 <= k < |ms| && ms[k].ClearEntries? ==> ClearExact(mode, r, ms[..k])
  }

  predicate ClearExact(mode: Mode, r: Peer, ms: seq<Message>) {
    var now := ApplyAll(mode, r, ms);
    Kept(now.cells) == Kept(r.cells) && KeptRequests(now.requests) == KeptRequests(r.requests)
  }

  // ---------------------------------------------------------------- what the pending list satisfies

  predicate AfterAll(r: Peer, list: seq<Option<Message>>, m: Message)
    requires IsWrite(m)
  {
    AfterCell(r.cells, m) && forall j :: 0 <= j < |list| ==> AfterMessage(list[j], m)
  }

  predicate NumberedWrite(o: Option<Message>) {
    o.Some? && IsWrite(o.value) && o.value.id != UNASSIGNED
  }

  predicate ListWindow(r: Peer, list: seq<Option<Message>>) {
    forall k :: 0 <= k < |list| && NumberedWrite(list[k]) ==> AfterAll(r, list[..k], list[k].value)
  }

  /** The sequence number, and the name, of a pending write are those of some write that was queued. */
  predicate From(x: Message, ms: seq<Message>)
    requires IsWrite(x)
  {
    && (exists i :: 0 <= i < |ms| && IsWrite(ms[i]) && ms[i].id == x.id && ms[i].seqNum == x.seqNum)
    && (x.EntryAssign? ==> exists i :: 0 <= i < |ms| && ms[i].EntryAssign? && ms[i].id == x.id && ms[i].name == x.name)
  }

  predicate AllFrom(list: seq<Option<Message>>, ms: seq<Message>) {
    forall k :: 0 <= k < |list| && NumberedWrite(list[k]) ==> From(list[k].value, ms)
  }

  /** What the peer holds for an id after a list stems from what it held before or from the list. */
  lemma {:induction false} AfterWhatIsHeld(mode: Mode, r: Peer, list: seq<Option<Message>>, m: Message)
    requires IsWrite(m) && m.id != UNASSIGNED && AfterAll(r, list, m)
    ensures AfterCell(ApplyList(mode, r, list).cells, m)
    decreases |list|
  {
    if list != [] {
      var k := |list| - 1;
      AfterWhatIsHeld(mode, r, list[..k], m);
      assert AfterMessage(list[k], m);
      if list[k].Some? {
        HeldAfterOne(mode, ApplyList(mode, r, list[..k]), list[k].value, m);
      }
    }
  }

  lemma HeldAfterOne(mode: Mode, r: Peer, x: Message, m: Message)
    requires IsWrite(m) && m.id != UNASSIGNED && AfterCell(r.cells, m) && AfterMessage(Some(x), m)
    ensures AfterCell(Apply(mode, r, x).cells, m)
  {
    hide Ahead;
  }

  lemma NewWriteIsLast(r: Peer, list: seq<Option<Message>>, ms: seq<Message>, m: Message)
    requires IsWrite(m) && m.id != UNASSIGNED && Window(r, ms + [m]) && AllFrom(list, ms)
    ensures AfterAll(r, list, m)
  {
    assert (ms + [m])[|ms|] == m;
    forall j | 0 <= j < |list| ensures AfterMessage(list[j], m) {
      if Write(list[j], m.id) {
        var x := list[j].value;
        var i :| 0 <= i < |ms| && IsWrite(ms[i]) && ms[i].id == x.id && ms[i].seqNum == x.seqNum;
        assert AfterMessage(Some((ms + [m])[i]), m);
        if x.EntryAssign? {
          var i' :| 0 <= i' < |ms| && ms[i'].EntryAssign? && ms[i'].id == x.id && ms[i'].name == x.name;
          assert AfterMessage(Some((ms + [m])[i']), m);
        }
      }
    }
  }

  // ---------------------------------------------------------------- one message is queued

  lemma AppendMeaning(mode: Mode, r: Peer, list: seq<Option<Message>>, m: Message)
    ensures ApplyList(mode, r, list + [Some(m)]) == Apply(mode, ApplyList(mode, r, list), m)
  {
    assert (list + [Some(m)])[..|list|] == list;
  }

  lemma WriteMeaning(mode: Mode, r: Peer, p: Pending, m: Message)
    requires Valid(p) && IsWrite(m) && ListWindow(r, p.list)
    requires m.id != UNASSIGNED ==> AfterAll(r, p.list, m)
    ensures ApplyList(mode, r, EnqueueWrite(p, m).list) == Apply(mode, ApplyList(mode, r, p.list), m)
  {
    if m.id != UNASSIGNED && m.id in p.slots && p.slots[m.id].first != 0 {
      assert PairOk(p, m.id);
      var k := p.slots[m.id].first - 1;
      var was := p.list[k].value;
      var here := ApplyList(mode, r, p.list[..k]);
      AfterWhatIsHeld(mode, r, p.list[..k], was);
      AfterWhatIsHeld(mode, r, p.list[..k], m);
      assert AfterMessage(p.list[k], m);
      MergeSound(mode, here, was, m);
      Replace(mode, r, p.list, k, m, Some(Merge(was, m)), m.id);
    } else {
      AppendMeaning(mode, r, p.list, m);
    }
  }

  lemma FlagsOverride(mode: Mode, r: Peer, was: Message, m: Message)
    requires was.FlagsUpdate? && m.FlagsUpdate? && was.id == m.id
    ensures Apply(mode, Apply(mode, r, was), m) == Apply(mode, r, m)
  {
  }

  /** No peer has an entry with the id 0xFFFF. */
  lemma {:induction false} NeverUnassigned(mode: Mode, r: Peer, list: seq<Option<Message>>)
    requires UNASSIGNED !in r.cells
    ensures UNASSIGNED !in ApplyList(mode, r, list).cells
    decreases |list|
  {
    if list != [] {
      NeverUnassigned(mode, r, list[..|list| - 1]);
    }
  }

  lemma UnassignedFlagsMeanNothing(mode: Mode, r: Peer, list: seq<Option<Message>>, k: nat, m: Message)
    requires UNASSIGNED !in r.cells && m.FlagsUpdate? && m.id == UNASSIGNED
    requires k < |list| && Flags(list[k], UNASSIGNED)
    ensures ApplyList(mode, r, list[k := Some(m)]) == Apply(mode, ApplyList(mode, r, list), m)
  {
    NeverUnassigned(mode, r, list);
    NeverUnassigned(mode, r, list[..k]);
    ApplyListAt(mode, r, list, k);
    ApplyListAt(mode, r, list[k := Some(m)], k);
    assert list[k := Some(m)][..k] == list[..k] && list[k := Some(m)][k + 1..] == list[k + 1..];
  }

  lemma FlagsMeaning(mode: Mode, r: Peer, p: Pending, m: Message)
    requires Valid(p) && m.FlagsUpdate? && UNASSIGNED !in r.cells
    ensures ApplyList(mode, r, EnqueueFlags(p, m).list) == Apply(mode, ApplyList(mode, r, p.list), m)
  {
    if m.id in p.slots && p.slots[m.id].second != 0 {
      assert PairOk(p, m.id);
      var k := p.slots[m.id].second - 1;
      if m.id == UNASSIGNED {
        UnassignedFlagsMeanNothing(mode, r, p.list, k, m);
      } else {
        FlagsOverride(mode, ApplyList(mode, r, p.list[..k]), p.list[k].value, m);
        Replace(mode, r, p.list, k, m, Some(m), m.id);
      }
    } else {
      AppendMeaning(mode, r, p.list, m);
    }
  }

  lemma DeleteAbsorbs(mode: Mode, r: Peer, was: Message, m: Message)
    requires (IsWrite(was) || was.FlagsUpdate?) && m.EntryDelete? && was.id == m.id != UNASSIGNED
    ensures Apply(mode, Apply(mode, r, was), m) == Apply(mode, r, m)
  {
    ApplyIsLocal(mode, r.cells, was, m.id);
  }

  /** A message about an id may be dropped if the next thing about that id is its deletion. */
  lemma DropBeforeDelete(mode: Mode, r: Peer, list: seq<Option<Message>>, k: nat, m: Message)
    requires k < |list| && m.EntryDelete? && m.id != UNASSIGNED && Untouched(list, k + 1, m.id)
    requires Write(list[k], m.id) || Flags(list[k], m.id)
    ensures Apply(mode, ApplyList(mode, r, list[k := None]), m) == Apply(mode, ApplyList(mode, r, list), m)
  {
    hide Apply;
    var here := ApplyList(mode, r, list[..k]);
    ApplyListAt(mode, r, list, k);
    ApplyListAt(mode, r, list[k := None], k);
    assert list[k := None][..k] == list[..k] && list[k := None][k + 1..] == list[k + 1..];
    Slide(mode, Apply(mode, here, list[k].value), list[k + 1..], m, m.id);
    Slide(mode, here, list[k + 1..], m, m.id);
    DeleteAbsorbs(mode, here, list[k].value, m);
  }

  /** The position that a deletion knocks out, if any. */
  lemma KnockedOutByDelete(p: Pending, m: Message) returns (k: nat)
    requires Valid(p) && m.EntryDelete? && m.id != UNASSIGNED && m.id in p.slots
    ensures k == 0 ==> EnqueueDelete(p, m).list == p.list + [Some(m)]
    ensures k != 0 ==>
              && k <= |p.list| && Untouched(p.list, k, m.id)
              && (Write(p.list[k - 1], m.id) || Flags(p.list[k - 1], m.id))
              && EnqueueDelete(p, m).list == p.list[k - 1 := None] + [Some(m)]
  {
    assert PairOk(p, m.id);
    k := p.slots[m.id].first + p.slots[m.id].second;
  }

  lemma DeleteMeaning(mode: Mode, r: Peer, p: Pending, m: Message)
    requires Valid(p) && m.EntryDelete?
    ensures ApplyList(mode, r, EnqueueDelete(p, m).list) == Apply(mode, ApplyList(mode, r, p.list), m)
  {
    hide Apply, Valid, Untouched, Write, Flags;
    if m.id == UNASSIGNED || m.id !in p.slots {
      AppendMeaning(mode, r, p.list, m);
    } else {
      hide EnqueueDelete;
      var k := KnockedOutByDelete(p, m);
      if k == 0 {
        AppendMeaning(mode, r, p.list, m);
      } else {
        AppendMeaning(mode, r, p.list[k - 1 := None], m);
        DropBeforeDelete(mode, r, p.list, k - 1, m);
      }
    }
  }

  lemma {:induction false} KnockedOutMeaning(mode: Mode, r: Peer, list: seq<Option<Message>>)
    ensures ApplyList(mode, r, KnockOutAll(list)) == r.(others := ApplyList(mode, r, list).others)
    decreases |list|
  {
    if list != [] {
      var k := |list| - 1;
      KnockedOutMeaning(mode, r, list[..k]);
      assert KnockOutAll(list)[..k] == KnockOutAll(list[..k]);
    }
  }

  /** A clear may drop what is pending exactly if that does not matter to the persistent entries. */
  lemma ClearMeaning(mode: Mode, r: Peer, list: seq<Option<Message>>)
    ensures var now := ApplyList(mode, r, list);
            ApplyList(mode, r, KnockOutAll(list) + [Some(ClearEntries)]) == Apply(mode, now, ClearEntries)
            <==> Kept(now.cells) == Kept(r.cells) && KeptRequests(now.requests) == KeptRequests(r.requests)
  {
    AppendMeaning(mode, r, KnockOutAll(list), ClearEntries);
    KnockedOutMeaning(mode, r, list);
  }

  // ---------------------------------------------------------------- invariants of the pending list

  lemma AfterMerged(x: Option<Message>, was: Message, m: Message)
    requires IsWrite(was) && IsWrite(m) && was.id == m.id && AfterMessage(x, was) && AfterMessage(x, m)
    ensures AfterMessage(x, Merge(was, m))
  {
  }

  lemma MergeKeepsWindow(r: Peer, list: seq<Option<Message>>, k: nat, m: Message)
    requires k < |list| && IsWrite(m) && m.id != UNASSIGNED && Write(list[k], m.id) && Untouched(list, k + 1, m.id)
    requires ListWindow(r, list) && AfterAll(r, list, m)
    ensures ListWindow(r, list[k := Some(Merge(list[k].value, m))])
  {
    var was := list[k].value;
    var x := Merge(was, m);
    var list' := list[k := Some(x)];
    forall l | 0 <= l < |list'| && NumberedWrite(list'[l]) ensures AfterAll(r, list'[..l], list'[l].value) {
      if l == k {
        assert AfterCell(r.cells, was);
        forall j | 0 <= j < l ensures AfterMessage(list'[..l][j], x) {
          assert AfterMessage(list[..k][j], was) && AfterMessage(list[j], m);
          AfterMerged(list[j], was, m);
        }
      } else {
        assert AfterAll(r, list[..l], list[l].value);
        forall j | 0 <= j < l ensures AfterMessage(list'[..l][j], list'[l].value) {
          assert AfterMessage(list[..l][j], list[l].value);
          if j == k { assert !Touches(list[l], m.id); }
        }
      }
    }
  }

  lemma GapKeepsWindow(r: Peer, list: seq<Option<Message>>, list': seq<Option<Message>>)
    requires |list'| == |list| && ListWindow(r, list)
    requires forall j :: 0 <= j < |list| ==> list'[j] == list[j] || !NumberedWrite(list'[j])
    ensures ListWindow(r, list')
  {
    forall l | 0 <= l < |list'| && NumberedWrite(list'[l]) ensures AfterAll(r, list'[..l], list'[l].value) {
      assert AfterAll(r, list[..l], list[l].value);
      forall j | 0 <= j < l ensures AfterMessage(list'[..l][j], list'[l].value) {
        assert AfterMessage(list[..l][j], list[l].value);
      }
    }
  }

  lemma AppendKeepsWindow(r: Peer, list: seq<Option<Message>>, m: Message)
    requires ListWindow(r, list) && (NumberedWrite(Some(m)) ==> AfterAll(r, list, m))
    ensures ListWindow(r, list + [Some(m)])
  {
    var list' := list + [Some(m)];
    forall l | 0 <= l < |list'| && NumberedWrite(list'[l]) ensures AfterAll(r, list'[..l], list'[l].value) {
      if l < |list| {
        assert list'[..l] == list[..l];
      } else {
        assert list'[..l] == list;
      }
    }
  }

  lemma EnqueueKeepsWindow(r: Peer, p: Pending, m: Message)
    requires Valid(p) && ListWindow(r, p.list) && (NumberedWrite(Some(m)) ==> AfterAll(r, p.list, m))
    ensures ListWindow(r, Enqueue(p, m).list)
  {
    if IsWrite(m) || m.FlagsUpdate? || m.EntryDelete? {
      assert m.id in p.slots ==> PairOk(p, m.id);
    }
    hide ListWindow, Merge;
    var list' := Enqueue(p, m).list;
    if |list'| == |p.list| {
      if IsWrite(m) {
        MergeKeepsWindow(r, p.list, p.slots[m.id].first - 1, m);
      } else {
        GapKeepsWindow(r, p.list, list');
      }
    } else {
      var gaps := list'[..|p.list|];
      assert list' == gaps + [Some(m)];
      GapKeepsWindow(r, p.list, gaps);
      AppendKeepsWindow(r, gaps, m);
    }
  }

  lemma EnqueueKeepsFrom(p: Pending, ms: seq<Message>, m: Message)
    requires Valid(p) && AllFrom(p.list, ms)
    ensures AllFrom(Enqueue(p, m).list, ms + [m])
  {
    if IsWrite(m) || m.FlagsUpdate? || m.EntryDelete? {
      assert m.id in p.slots ==> PairOk(p, m.id);
    }
    hide From;
    var list' := Enqueue(p, m).list;
    forall k | 0 <= k < |list'| && NumberedWrite(list'[k]) ensures From(list'[k].value, ms + [m]) {
      if k < |p.list| && NumberedWrite(p.list[k]) { StillFrom(p.list[k].value, ms, m); }
      if NumberedWrite(Some(m)) && list'[k].value.id == m.id { NewFrom(ms, m); }
      if k < |p.list| && NumberedWrite(p.list[k]) && NumberedWrite(Some(m)) && p.list[k].value.id == m.id {
        MergedFrom(p.list[k].value, ms, m);
      }
    }
  }

  lemma StillFrom(x: Message, ms: seq<Message>, m: Message)
    requires IsWrite(x) && From(x, ms)
    ensures From(x, ms + [m])
  {
    var i :| 0 <= i < |ms| && IsWrite(ms[i]) && ms[i].id == x.id && ms[i].seqNum == x.seqNum;
    assert (ms + [m])[i] == ms[i];
    if x.EntryAssign? {
      var i' :| 0 <= i' < |ms| && ms[i'].EntryAssign? && ms[i'].id == x.id && ms[i'].name == x.name;
      assert (ms + [m])[i'] == ms[i'];
    }
  }

  lemma NewFrom(ms: seq<Message>, m: Message)
    requires IsWrite(m)
    ensures From(m, ms + [m])
  {
    assert (ms + [m])[|ms|] == m;
  }

  lemma MergedFrom(was: Message, ms: seq<Message>, m: Message)
    requires IsWrite(was) && IsWrite(m) && was.id == m.id && From(was, ms)
    ensures From(Merge(was, m), ms + [m])
  {
    NewFrom(ms, m);
    StillFrom(was, ms, m);
  }

  // ---------------------------------------------------------------- the theorem

  predicate Faithful(mode: Mode, r: Peer, p: Pending, ms: seq<Message>)
  {
    && Valid(p)
    && ListWindow(r, p.list)
    && AllFrom(p.list, ms)
    && ApplyList(mode, r, p.list) == ApplyAll(mode, r, ms)
  }

  lemma EnqueueIsFaithful(mode: Mode, r: Peer, p: Pending, ms: seq<Message>, m: Message)
    requires Faithful(mode, r, p, ms) && UNASSIGNED !in r.cells && Window(r, ms + [m])
    requires m.ClearEntries? ==> ClearExact(mode, r, ms)
    ensures Faithful(mode, r, Enqueue(p, m), ms + [m])
  {
    if NumberedWrite(Some(m)) { NewWriteIsLast(r, p.list, ms, m); }
    EnqueueKeepsValid(p, m);
    EnqueueKeepsWindow(r, p, m);
    EnqueueKeepsFrom(p, ms, m);
    assert (ms + [m])[..|ms|] == ms;
    hide Valid, ListWindow, AllFrom, EnqueueWrite, EnqueueDelete, EnqueueFlags, Apply;
    if IsWrite(m) { WriteMeaning(mode, r, p, m); }
    else if m.EntryDelete? { DeleteMeaning(mode, r, p, m); }
    else if m.FlagsUpdate? { FlagsMeaning(mode, r, p, m); }
    else if m.ClearEntries? { ClearMeaning(mode, r, p.list); }
    else { AppendMeaning(mode, r, p.list, m); }
  }

  lemma WindowPrefix(r: Peer, ms: seq<Message>, k: nat)
    requires Window(r, ms) && k <= |ms|
    ensures Window(r, ms[..k])
  {
  }

  lemma ClearsPrefix(mode: Mode, r: Peer, ms: seq<Message>, k: nat)
    requires ClearsExact(mode, r, ms) && k <= |ms|
    ensures ClearsExact(mode, r, ms[..k])
  {
    forall j | 0 <= j < k && ms[j].ClearEntries? ensures ClearExact(mode, r, ms[..k][..j]) {
      assert ms[..k][..j] == ms[..j];
    }
  }

  /** What survives in the queue means to the peer what all the messages queued would have meant. */
  lemma {:induction false} CoalescingPreservesMeaning(mode: Mode, r: Peer, ms: seq<Message>)
    requires UNASSIGNED !in r.cells && Window(r, ms) && ClearsExact(mode, r, ms)
    ensures Faithful(mode, r, EnqueueAll(ms), ms)
    ensures ApplyAll(mode, r, Compact(EnqueueAll(ms).list)) == ApplyAll(mode, r, ms)
    decreases |ms|
  {
    if ms != [] {
      hide Window, ClearExact, Enqueue;
      var k := |ms| - 1;
      assert ms[..k] + [ms[k]] == ms;
      WindowPrefix(r, ms, k);
      ClearsPrefix(mode, r, ms, k);
      CoalescingPreservesMeaning(mode, r, ms[..k]);
      EnqueueIsFaithful(mode, r, EnqueueAll(ms[..k]), ms[..k], ms[k]);
    }
    CompactMeaning(mode, r, EnqueueAll(ms).list);
  }
}
