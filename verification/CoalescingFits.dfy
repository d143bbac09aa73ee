/** What survives in the queue towards a follower still fits the follower, message by message. */
module CoalescingFits {
  import opened Wrappers
  import opened Protocol
  import opened Receiver
  import opened Coalescer
  import opened Coalescing

  /** A follower that is sent entry messages only. */
  function Plain(cells: Cells): Peer {
    Peer(cells, [], [])
  }

  function Before(cells: Cells, list: seq<Option<Message>>, k: nat): Cells
    requires k <= |list|
  {
    ApplyList(Follower, Plain(cells), list[..k]).cells
  }

  predicate FitsList(cells: Cells, list: seq<Option<Message>>) {
    forall k :: 0 <= k < |list| && list[k].Some? ==> Fits(Before(cells, list, k), list[k].value)
  }

  lemma FitsIsPlain(cells: Cells, m: Message)
    requires Fits(cells, m)
    ensures Apply(Follower, Plain(cells), m) == Plain(ApplyCell(Follower, cells, m))
  {
  }

  lemma {:induction false} FitsAllIsPlain(cells: Cells, ms: seq<Message>)
    requires FitsAll(cells, ms)
    ensures ApplyAll(Follower, Plain(cells), ms) == Plain(ApplyCells(Follower, cells, ms))
    decreases |ms|
  {
    if ms != [] {
      FitsAllIsPlain(cells, ms[..|ms| - 1]);
      FitsIsPlain(ApplyCells(Follower, cells, ms[..|ms| - 1]), ms[|ms| - 1]);
    }
  }

  lemma {:induction false} FitsListFitsAll(cells: Cells, list: seq<Option<Message>>)
    requires FitsList(cells, list)
    ensures FitsAll(cells, Compact(list))
    ensures ApplyList(Follower, Plain(cells), list) == Plain(ApplyCells(Follower, cells, Compact(list)))
    decreases |list|
  {
    if list != [] {
      hide Apply, ApplyCell, Fits;
      var k := |list| - 1;
      forall j | 0 <= j < k && list[..k][j].Some? ensures Fits(Before(cells, list[..k], j), list[..k][j].value) {
        assert list[..k][..j] == list[..j];
      }
      FitsListFitsAll(cells, list[..k]);
      if list[k].Some? {
        assert Compact(list)[..|Compact(list)| - 1] == Compact(list[..k]);
        FitsIsPlain(Before(cells, list, k), list[k].value);
      } else {
        assert Compact(list) == Compact(list[..k]);
      }
    }
  }

  // ---------------------------------------------------------------- one position changes

  /** The same cells but for one id, which may be missing in the second and otherwise has the same name. */
  predicate Narrower(c1: Cells, c2: Cells, id: nat) {
    c1 - {id} == c2 - {id} && (id in c2 ==> id in c1 && c1[id].name == c2[id].name)
  }

  lemma NarrowerFits(c1: Cells, c2: Cells, id: nat, x: Message)
    requires Narrower(c1, c2, id) && Fits(c1, x) && !Touches(Some(x), id)
    ensures Fits(c2, x)
  {
    assert forall j :: j in c2 && j != id ==> j in c2 - {id};
    assert forall j :: j in c1 && j != id ==> j in c1 - {id};
    assert forall j :: j in c2 && j != id ==> c2[j] == (c2 - {id})[j] == c1[j];
  }

  lemma StoreIsNarrower(c1: Cells, c2: Cells, id: nat, j: nat, o: Option<Cell>)
    requires Narrower(c1, c2, id) && j != id
    ensures Narrower(Store(c1, j, o), Store(c2, j, o), id)
    ensures Get(c1, j) == Get(c2, j)
  {
    assert Store(c1, j, o) - {id} == Store(c1 - {id}, j, o);
    assert Store(c2, j, o) - {id} == Store(c2 - {id}, j, o);
    assert j in c1 <==> j in c1 - {id};
    assert j in c2 <==> j in c2 - {id};
  }

  lemma NarrowerApply(c1: Cells, c2: Cells, id: nat, x: Message)
    requires Narrower(c1, c2, id) && Fits(c1, x) && !Touches(Some(x), id)
    ensures Narrower(ApplyCell(Follower, c1, x), ApplyCell(Follower, c2, x), id)
  {
    ApplyIsLocal(Follower, c1, x, x.id);
    ApplyIsLocal(Follower, c2, x, x.id);
    hide ApplyCell, ApplyOne;
    StoreIsNarrower(c1, c2, id, x.id, ApplyOne(Follower, Get(c1, x.id), x));
  }

  lemma {:induction false} NarrowerAfter(cells: Cells, list: seq<Option<Message>>, list': seq<Option<Message>>,
      k: nat, l: nat, id: nat)
    requires k < l <= |list| == |list'| && list'[k + 1..] == list[k + 1..] && Untouched(list, k + 1, id)
    requires FitsList(cells, list)
    requires Narrower(Before(cells, list, k + 1), Before(cells, list', k + 1), id)
    requires ListIsPlain(cells, list) && ListIsPlain(cells, list')
    ensures Narrower(Before(cells, list, l), Before(cells, list', l), id)
    decreases l
  {
    if l > k + 1 {
      hide Fits, Narrower, Touches;
      NarrowerAfter(cells, list, list', k, l - 1, id);
      assert list[k + 1..][l - 1 - (k + 1)] == list[l - 1];
      assert list'[l - 1] == list[l - 1];
      BeforeNext(cells, list, l - 1);
      BeforeNext(cells, list', l - 1);
      if list[l - 1].Some? {
        assert !Touches(list[l - 1], id);
        NarrowerApply(Before(cells, list, l - 1), Before(cells, list', l - 1), id, list[l - 1].value);
      }
    }
  }

  /** The list holds entry messages about numbered entries only. */
  predicate ListIsPlain(cells: Cells, list: seq<Option<Message>>) {
    forall k :: 0 <= k < |list| && list[k].Some? ==> IsEntryMessage(list[k].value) && !IsRequest(list[k].value)
  }

  lemma FitsListIsPlain(cells: Cells, list: seq<Option<Message>>)
    requires FitsList(cells, list)
    ensures ListIsPlain(cells, list)
  {
    forall k | 0 <= k < |list| && list[k].Some? ensures IsEntryMessage(list[k].value) && !IsRequest(list[k].value) {
      assert Fits(Before(cells, list, k), list[k].value);
    }
  }

  lemma BeforeNext(cells: Cells, list: seq<Option<Message>>, k: nat)
    requires k < |list| && ListIsPlain(cells, list)
    ensures Before(cells, list, k + 1)
            == if list[k].Some? then ApplyCell(Follower, Before(cells, list, k), list[k].value)
                else Before(cells, list, k)
  {
    assert list[..k + 1][..k] == list[..k];
  }

  lemma ReplaceKeepsFits(cells: Cells, list: seq<Option<Message>>, k: nat, x: Option<Message>, id: nat)
    requires FitsList(cells, list) && k < |list| && list[k].Some? && Untouched(list, k + 1, id)
    requires var here := Before(cells, list, k);
             && (x.Some? ==> Fits(here, x.value))
             && Narrower(ApplyCell(Follower, here, list[k].value),
                         if x.Some? then ApplyCell(Follower, here, x.value) else here, id)
    ensures FitsList(cells, list[k := x])
  {
    var list' := list[k := x];
    assert list'[..k] == list[..k] && list'[k + 1..] == list[k + 1..];
    FitsListIsPlain(cells, list);
    assert ListIsPlain(cells, list');
    BeforeNext(cells, list, k);
    BeforeNext(cells, list', k);
    hide Fits, ApplyCell, Narrower, ListIsPlain;
    forall l | 0 <= l < |list'| && list'[l].Some? ensures Fits(Before(cells, list', l), list'[l].value) {
      if l < k {
        assert list'[..l] == list[..l];
      } else if l > k {
        NarrowerAfter(cells, list, list', k, l, id);
        NarrowerFits(Before(cells, list, l), Before(cells, list', l), id, list[l].value);
      }
    }
  }

  lemma AppendKeepsFits(cells: Cells, list: seq<Option<Message>>, m: Message)
    requires FitsList(cells, list) && Fits(Before(cells, list, |list|), m)
    ensures FitsList(cells, list + [Some(m)])
  {
    var list' := list + [Some(m)];
    forall l | 0 <= l < |list'| && list'[l].Some? ensures Fits(Before(cells, list', l), list'[l].value) {
      assert list'[..l] == list[..l];
    }
  }

  // ---------------------------------------------------------------- one message is queued

  /** Two outcomes at one id, if the second leaves no more than the first. */
  lemma NarrowerAt(here: Cells, a: Message, b: Message, id: nat)
    requires AboutOne(a, id) && AboutOne(b, id) && !IsRequest(a) && !IsRequest(b)
    requires var o := ApplyOne(Follower, Get(here, id), b);
             o.Some? ==> var o' := ApplyOne(Follower, Get(here, id), a); o'.Some? && o'.value.name == o.value.name
    ensures Narrower(ApplyCell(Follower, here, a), ApplyCell(Follower, here, b), id)
  {
    ApplyIsLocal(Follower, here, a, id);
    ApplyIsLocal(Follower, here, b, id);
    hide ApplyCell, ApplyOne;
  }

  lemma MergedFits(here: Cells, was: Message, m: Message)
    requires IsWrite(was) && IsWrite(m) && was.id == m.id != UNASSIGNED && Fits(here, was)
    requires AfterCell(here, m) && AfterMessage(Some(was), m)
    ensures Fits(here, Merge(was, m))
    ensures Narrower(ApplyCell(Follower, here, was), ApplyCell(Follower, here, Merge(was, m)), m.id)
  {
    hide ApplyCell, Narrower;
    NarrowerAt(here, was, Merge(was, m), m.id);
  }

  lemma FlagsFits(here: Cells, was: Message, m: Message)
    requires was.FlagsUpdate? && m.FlagsUpdate? && was.id == m.id && Fits(here, was)
    ensures Fits(here, m)
    ensures Narrower(ApplyCell(Follower, here, was), ApplyCell(Follower, here, m), m.id)
  {
  }

  lemma GapFits(here: Cells, was: Message)
    requires (IsWrite(was) || was.FlagsUpdate?) && Fits(here, was)
    ensures Narrower(ApplyCell(Follower, here, was), here, was.id)
  {
  }

  lemma WriteKeepsFits(cells: Cells, p: Pending, m: Message)
    requires Valid(p) && IsWrite(m) && FitsList(cells, p.list) && Fits(Before(cells, p.list, |p.list|), m)
    requires m.id != UNASSIGNED && AfterAll(Plain(cells), p.list, m)
    ensures FitsList(cells, EnqueueWrite(p, m).list)
  {
    if m.id in p.slots && p.slots[m.id].first != 0 {
      assert PairOk(p, m.id);
      var k := p.slots[m.id].first - 1;
      assert p.list[k].Some? && IsWrite(p.list[k].value) && p.list[k].value.id == m.id;
      assert AfterMessage(p.list[k], m);
      AfterWhatIsHeld(Follower, Plain(cells), p.list[..k], m);
      hide Fits, ApplyCell, Merge, Narrower, Valid, AfterMessage, AfterCell;
      MergedFits(Before(cells, p.list, k), p.list[k].value, m);
      ReplaceKeepsFits(cells, p.list, k, Some(Merge(p.list[k].value, m)), m.id);
    } else {
      AppendKeepsFits(cells, p.list, m);
    }
  }

  lemma FlagsKeepsFits(cells: Cells, p: Pending, m: Message)
    requires Valid(p) && m.FlagsUpdate? && FitsList(cells, p.list) && Fits(Before(cells, p.list, |p.list|), m)
    requires m.id != UNASSIGNED
    ensures FitsList(cells, EnqueueFlags(p, m).list)
  {
    if m.id in p.slots && p.slots[m.id].second != 0 {
      assert PairOk(p, m.id);
      var k := p.slots[m.id].second - 1;
      hide Fits, ApplyCell, Narrower, Valid;
      FlagsFits(Before(cells, p.list, k), p.list[k].value, m);
      ReplaceKeepsFits(cells, p.list, k, Some(m), m.id);
    } else {
      AppendKeepsFits(cells, p.list, m);
    }
  }

  lemma DeleteKeepsFits(cells: Cells, p: Pending, m: Message)
    requires Valid(p) && m.EntryDelete? && m.id < UNASSIGNED && FitsList(cells, p.list)
    ensures FitsList(cells, EnqueueDelete(p, m).list)
  {
    if m.id !in p.slots {
      AppendKeepsFits(cells, p.list, m);
    } else {
      var k := KnockedOutByDelete(p, m);
      hide EnqueueDelete, Valid;
      if k == 0 {
        AppendKeepsFits(cells, p.list, m);
      } else {
        GapFits(Before(cells, p.list, k - 1), p.list[k - 1].value);
        ReplaceKeepsFits(cells, p.list, k - 1, None, m.id);
        AppendKeepsFits(cells, p.list[k - 1 := None], m);
      }
    }
  }

  lemma ClearKeepsFits(cells: Cells, list: seq<Option<Message>>)
    requires FitsList(cells, list)
    ensures FitsList(cells, KnockOutAll(list) + [Some(ClearEntries)])
  {
    FitsListIsPlain(cells, list);
    assert forall k :: 0 <= k < |list| ==> KnockOutAll(list)[k].None?;
    assert FitsList(cells, KnockOutAll(list));
    AppendKeepsFits(cells, KnockOutAll(list), ClearEntries);
  }

  lemma EnqueueKeepsFits(cells: Cells, p: Pending, m: Message)
    requires Valid(p) && FitsList(cells, p.list) && Fits(Before(cells, p.list, |p.list|), m)
    requires UNASSIGNED !in Before(cells, p.list, |p.list|)
    requires NumberedWrite(Some(m)) ==> AfterAll(Plain(cells), p.list, m)
    ensures FitsList(cells, Enqueue(p, m).list)
  {
    hide FitsList, EnqueueWrite, EnqueueDelete, EnqueueFlags, Valid;
    if IsWrite(m) { WriteKeepsFits(cells, p, m); }
    else if m.EntryDelete? { DeleteKeepsFits(cells, p, m); }
    else if m.FlagsUpdate? { FlagsKeepsFits(cells, p, m); }
    else { ClearKeepsFits(cells, p.list); }
  }

  lemma QueueHolds(cells: Cells, ms: seq<Message>)
    requires UNASSIGNED !in cells && FitsAll(cells, ms)
    requires Window(Plain(cells), ms) && ClearsExact(Follower, Plain(cells), ms)
    ensures var p := EnqueueAll(ms);
            && AllFrom(p.list, ms)
            && Before(cells, p.list, |p.list|) == ApplyCells(Follower, cells, ms)
            && UNASSIGNED !in Before(cells, p.list, |p.list|)
  {
    var p := EnqueueAll(ms);
    hide Window, ClearsExact, EnqueueAll, Apply;
    CoalescingPreservesMeaning(Follower, Plain(cells), ms);
    FitsAllIsPlain(cells, ms);
    assert p.list[..|p.list|] == p.list;
    NeverUnassigned(Follower, Plain(cells), p.list);
  }

  /** If the messages queued fit a follower one after the other, so do the ones that survive. */
  lemma {:induction false} SurvivorsFit(cells: Cells, ms: seq<Message>)
    requires UNASSIGNED !in cells && FitsAll(cells, ms)
    requires Window(Plain(cells), ms) && ClearsExact(Follower, Plain(cells), ms)
    ensures FitsList(cells, EnqueueAll(ms).list)
    decreases |ms|
  {
    if ms != [] {
      hide Window, ClearExact, Enqueue, Fits, FitsList, Faithful, From, AfterAll, Valid, ClearsExact, ApplyCell, Apply;
      var k := |ms| - 1;
      var p := EnqueueAll(ms[..k]);
      WindowPrefix(Plain(cells), ms, k);
      ClearsPrefix(Follower, Plain(cells), ms, k);
      SurvivorsFit(cells, ms[..k]);
      QueueHolds(cells, ms[..k]);
      assert ms[..k] + [ms[k]] == ms;
      if NumberedWrite(Some(ms[k])) { NewWriteIsLast(Plain(cells), p.list, ms[..k], ms[k]); }
      EnqueueKeepsFits(cells, p, ms[k]);
    }
  }
}
