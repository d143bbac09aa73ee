/**
 How messages leave a locked region of `Storage`. Entering makes a new list and stores it in an attribute that all
 threads share; leaving gives up the lock first, and only then looks up the attribute and queues what it finds.
 A thread that enters in between has the other one queue the wrong list.
 */
module Handout {
  import opened StorageSpec

  /** Where a thread is: `own` is the list that it fills, `list` the one that its loop goes through. */
  datatype Worker = Idle | Inside(own: nat) | Released(own: nat) | Looping(list: nat, next: nat)

  /**
   The lists made so far; the shared attribute is the last of them. `started` remembers the list that each loop was
   started on, and `taken` what the loops have queued, as pairs of a list and a position.
   */
  datatype Desk = Desk(lists: seq<seq<Outgoing>>, workers: seq<Worker>, started: seq<nat>, taken: seq<(nat, nat)>)

  datatype Motion =
    | Enter(w: nat)
    | HandOut(w: nat, out: seq<Outgoing>)
    | Release(w: nat)
    | Start(w: nat)
    | Next(w: nat)

  predicate Free(d: Desk) {
    forall w :: 0 <= w < |d.workers| ==> !d.workers[w].Inside?
  }

  function Last(d: Desk): nat {
    if d.lists == [] then 0 else |d.lists| - 1
  }

  /** What the loop of a thread queues next, if it is not at the end of the list, which may still grow. */
  predicate HasNext(d: Desk, w: nat) {
    && w < |d.workers| && d.workers[w].Looping?
    && d.workers[w].list < |d.lists| && d.workers[w].next < |d.lists[d.workers[w].list]|
  }

  predicate CanEnter(d: Desk, w: nat) {
    w < |d.workers| && d.workers[w].Idle? && Free(d)
  }

  predicate IsInside(d: Desk, w: nat) {
    w < |d.workers| && d.workers[w].Inside? && d.workers[w].own < |d.lists|
  }

  /** A motion that is not possible changes nothing. */
  function Go(d: Desk, m: Motion): Desk {
    match m
    case Enter(w) =>
      if CanEnter(d, w) then d.(lists := d.lists + [[]], workers := d.workers[w := Inside(|d.lists|)]) else d
    case HandOut(w, out) =>
      if IsInside(d, w) then
        var own := d.workers[w].own;
        d.(lists := d.lists[own := d.lists[own] + out])
      else d
    case Release(w) =>
      if IsInside(d, w) then d.(workers := d.workers[w := Released(d.workers[w].own)]) else d
    case Start(w) =>
      if w < |d.workers| && d.workers[w].Released? then
        d.(workers := d.workers[w := Looping(Last(d), 0)], started := d.started + [Last(d)])
      else d
    case Next(w) =>
      if HasNext(d, w) then
        var list, next := d.workers[w].list, d.workers[w].next;
        d.(workers := d.workers[w := Looping(list, next + 1)], taken := d.taken + [(list, next)])
      else if w < |d.workers| && d.workers[w].Looping? then d.(workers := d.workers[w := Idle])
      else d
  }

  function GoAll(d: Desk, ms: seq<Motion>): Desk {
    if ms == [] then d else Go(GoAll(d, ms[..|ms| - 1]), ms[|ms| - 1])
  }

  predicate Fresh(d: Desk) {
    d.lists == [] && d.started == [] && d.taken == [] && AtRest(d)
  }

  predicate AtRest(d: Desk) {
    forall w :: 0 <= w < |d.workers| ==> d.workers[w].Idle?
  }

  // ---------------------------------------------------------------- intrusions

  function Waits(w: Worker): nat {
    if w.Released? then 1 else 0
  }

  function Waiting(ws: seq<Worker>): nat {
    if ws == [] then 0 else Waiting(ws[..|ws| - 1]) + Waits(ws[|ws| - 1])
  }

  /** How many threads wait between the release of the lock and the start of their loop when others enter. */
  function Intrusions(d: Desk, ms: seq<Motion>): nat {
    if ms == [] then 0
    else
      var k := |ms| - 1;
      var was := GoAll(d, ms[..k]);
      Intrusions(d, ms[..k]) + (if ms[k].Enter? && CanEnter(was, ms[k].w) then Waiting(was.workers) else 0)
  }

  // ---------------------------------------------------------------- sums

  function Sum(s: seq<nat>): nat {
    if s == [] then 0 else Sum(s[..|s| - 1]) + s[|s| - 1]
  }

  /** The sum of the numbers below n. */
  function Triangle(n: nat): nat {
    if n == 0 then 0 else Triangle(n - 1) + n - 1
  }

  function Upto(n: nat): multiset<nat> {
    if n == 0 then multiset{} else Upto(n - 1) + multiset{n - 1}
  }

  lemma {:induction false} UptoCounts(n: nat, k: nat)
    ensures Upto(n)[k] == if k < n then 1 else 0
    ensures |Upto(n)| == n
  {
    if n != 0 {
      UptoCounts(n - 1, k);
    }
  }

  lemma WithoutLast(s: seq<nat>, k: nat)
    requires k < |s| - 1
    ensures var n := |s| - 1; var rest := s[..n][..k] + s[..n][k + 1..];
            s[..k] + s[k + 1..] == rest + [s[n]] && (s[..k] + s[k + 1..])[..n - 1] == rest
  {
  }

  lemma {:induction false} SumWithout(s: seq<nat>, k: nat)
    requires k < |s|
    ensures Sum(s) == Sum(s[..k] + s[k + 1..]) + s[k]
    decreases |s|
  {
    var n := |s| - 1;
    if k == n {
      assert s[..k] + s[k + 1..] == s[..n];
    } else {
      SumWithout(s[..n], k);
      WithoutLast(s, k);
    }
  }

  lemma CountWithout(s: seq<nat>, k: nat)
    requires k < |s|
    ensures multiset(s) == multiset(s[..k] + s[k + 1..]) + multiset{s[k]}
  {
    assert s == s[..k] + [s[k]] + s[k + 1..];
  }

  lemma Cancel(a: multiset<nat>, b: multiset<nat>, x: nat)
    requires a + multiset{x} == b + multiset{x}
    ensures a == b
  {
    forall e: nat ensures a[e] == b[e] {
      assert (a + multiset{x})[e] == (b + multiset{x})[e];
    }
  }

  lemma LargestOut(s: seq<nat>, n: nat) returns (k: nat)
    requires n != 0 && multiset(s) == Upto(n)
    ensures k < |s| && s[k] == n - 1 && multiset(s[..k] + s[k + 1..]) == Upto(n - 1)
  {
    UptoCounts(n, n - 1);
    assert n - 1 in multiset(s);
    k :| 0 <= k < |s| && s[k] == n - 1;
    CountWithout(s, k);
    Cancel(multiset(s[..k] + s[k + 1..]), Upto(n - 1), n - 1);
  }

  lemma {:induction false} SumOfUpto(s: seq<nat>, n: nat)
    requires multiset(s) == Upto(n)
    ensures Sum(s) == Triangle(n)
    decreases n
  {
    if n == 0 {
      assert |s| == |multiset(s)|;
    } else {
      hide Upto, Sum;
      var k := LargestOut(s, n);
      SumWithout(s, k);
      SumOfUpto(s[..k] + s[k + 1..], n - 1);
    }
  }

  /** n numbers among which are all that are below n are exactly these, so that their sum is the least possible. */
  lemma AllOfThem(s: seq<nat>, n: nat)
    requires |s| == n && forall l :: 0 <= l < n ==> l in s
    ensures Sum(s) == Triangle(n)
  {
    forall k: nat ensures Upto(n)[k] <= multiset(s)[k] {
      UptoCounts(n, k);
      assert k < n ==> k in s;
    }
    UptoCounts(n, 0);
    var rest := multiset(s) - Upto(n);
    assert multiset(s) == Upto(n) + rest;
    assert |multiset(s)| == |s|;
    assert |rest| == 0;
    SumOfUpto(s, n);
  }

  // ---------------------------------------------------------------- every list is read once

  predicate WorkerOk(d: Desk, w: Worker) {
    match w
    case Idle => true
    case Inside(own) => own == Last(d) < |d.lists|
    case Released(own) => own < |d.lists|
    case Looping(list, next) => list < |d.lists| && next <= |d.lists[list]|
  }

  predicate Sane(d: Desk) {
    && (forall w {:trigger d.workers[w]} :: 0 <= w < |d.workers| ==> WorkerOk(d, d.workers[w]))
    && (forall v, w :: 0 <= v < |d.workers| && 0 <= w < |d.workers| && d.workers[v].Inside? && d.workers[w].Inside? ==>
        v == w)
    && (forall r :: r in d.started ==> r < |d.lists|)
    && (forall t :: t in d.taken ==> t.0 < |d.lists| && t.1 < |d.lists[t.0]| && t.0 in d.started)
    && (forall w :: 0 <= w < |d.workers| && d.workers[w].Looping? ==> d.workers[w].list in d.started)
  }

  lemma GoKeepsSane(d: Desk, m: Motion)
    requires Sane(d)
    ensures Sane(Go(d, m))
  {
    var d' := Go(d, m);
    forall w | 0 <= w < |d'.workers| ensures WorkerOk(d', d'.workers[w]) {
      assert WorkerOk(d, d.workers[w]);
    }
    if m.Next? && HasNext(d, m.w) { assert WorkerOk(d, d.workers[m.w]); }
  }

  lemma {:induction false} RunIsSane(d: Desk, ms: seq<Motion>)
    requires Sane(d)
    ensures Sane(GoAll(d, ms))
  {
    if ms != [] {
      RunIsSane(d, ms[..|ms| - 1]);
      GoKeepsSane(GoAll(d, ms[..|ms| - 1]), ms[|ms| - 1]);
    }
  }

  function Owes(w: Worker): nat {
    if w.Inside? || w.Released? then 1 else 0
  }

  /** The threads that have still to start the loop over their list. */
  function Owing(ws: seq<Worker>): nat {
    if ws == [] then 0 else Owing(ws[..|ws| - 1]) + Owes(ws[|ws| - 1])
  }

  lemma {:induction false} OneWorker(ws: seq<Worker>, k: nat, w: Worker)
    requires k < |ws|
    ensures Waiting(ws[k := w]) == Waiting(ws) - Waits(ws[k]) + Waits(w)
    ensures Owing(ws[k := w]) == Owing(ws) - Owes(ws[k]) + Owes(w)
  {
    var n := |ws| - 1;
    if k == n {
      assert ws[k := w][..n] == ws[..n];
    } else {
      OneWorker(ws[..n], k, w);
      assert ws[k := w][..n] == ws[..n][k := w];
    }
  }

  lemma {:induction false} WithoutInside(ws: seq<Worker>)
    requires forall w :: 0 <= w < |ws| ==> !ws[w].Inside?
    ensures Owing(ws) == Waiting(ws)
    ensures (forall w :: 0 <= w < |ws| ==> ws[w].Idle?) ==> Owing(ws) == 0
  {
    if ws != [] {
      WithoutInside(ws[..|ws| - 1]);
    }
  }

  /** Each loop started, and each that is owed as things stand, counts the list that it finds. */
  predicate Balanced(d: Desk, intrusions: nat) {
    && Sum(d.started) + Last(d) * Owing(d.workers) == Triangle(|d.lists|) + intrusions
    && |d.started| + Owing(d.workers) == |d.lists|
  }

  lemma EnterSum(sum: nat, n: nat, r: nat, rest: nat)
    requires if n == 0 then r == 0 && sum == rest else sum + (n - 1) * r == rest
    ensures sum + n * (r + 1) == rest + n + r
  {
  }

  lemma EnterBalances(d: Desk, w: nat, intrusions: nat)
    requires Balanced(d, intrusions) && CanEnter(d, w)
    ensures Balanced(Go(d, Enter(w)), intrusions + Waiting(d.workers))
  {
    hide Sum, Waiting, Owing;
    WithoutInside(d.workers);
    OneWorker(d.workers, w, Inside(|d.lists|));
    EnterSum(Sum(d.started), |d.lists|, Owing(d.workers), Triangle(|d.lists|) + intrusions);
  }

  lemma StartSum(sum: nat, l: nat, r: nat)
    requires r > 0
    ensures sum + l * r == sum + l + l * (r - 1)
  {
  }

  lemma SumOfOneMore(s: seq<nat>, x: nat)
    ensures Sum(s + [x]) == Sum(s) + x
  {
    assert (s + [x])[..|s|] == s;
  }

  lemma StartBalances(d: Desk, w: nat, intrusions: nat)
    requires Balanced(d, intrusions) && w < |d.workers| && d.workers[w].Released?
    ensures Balanced(Go(d, Start(w)), intrusions)
  {
    hide Sum, Waiting, Owing, Triangle;
    OneWorker(d.workers, w, Looping(Last(d), 0));
    SumOfOneMore(d.started, Last(d));
    StartSum(Sum(d.started), Last(d), Owing(d.workers));
  }

  lemma GoBalances(d: Desk, m: Motion, intrusions: nat)
    requires Sane(d) && Balanced(d, intrusions)
    ensures Balanced(Go(d, m), intrusions + (if m.Enter? && CanEnter(d, m.w) then Waiting(d.workers) else 0))
  {
    hide Sum, Waiting, Owing, Triangle, Sane;
    var d' := Go(d, m);
    match m
    case Enter(w) => if CanEnter(d, w) { EnterBalances(d, w, intrusions); }
    case HandOut(w, out) =>
    case Release(w) => if IsInside(d, w) { OneWorker(d.workers, w, d'.workers[w]); }
    case Start(w) => if d' != d { StartBalances(d, w, intrusions); }
    case Next(w) => if w < |d.workers| { OneWorker(d.workers, w, d'.workers[w]); }
  }

  lemma {:induction false} RunBalances(d: Desk, ms: seq<Motion>)
    requires Fresh(d)
    ensures Sane(GoAll(d, ms)) && Balanced(GoAll(d, ms), Intrusions(d, ms))
  {
    hide Go, Balanced, Sane;
    if ms == [] {
      FreshBalances(d);
    } else {
      RunBalances(d, ms[..|ms| - 1]);
      GoBalances(GoAll(d, ms[..|ms| - 1]), ms[|ms| - 1], Intrusions(d, ms[..|ms| - 1]));
      GoKeepsSane(GoAll(d, ms[..|ms| - 1]), ms[|ms| - 1]);
    }
  }

  lemma FreshBalances(d: Desk)
    requires Fresh(d)
    ensures Sane(d) && Balanced(d, 0)
  {
    WithoutInside(d.workers);
  }

  predicate AllStarted(d: Desk) {
    forall l :: 0 <= l < |d.lists| ==> l in d.started
  }

  /**
   When all threads are through, some loop has gone through every list if and only if no thread has entered
   while another one was between its release and the start of its loop.
   */
  lemma AllStartedIff(d: Desk, ms: seq<Motion>)
    requires Fresh(d) && AtRest(GoAll(d, ms))
    ensures AllStarted(GoAll(d, ms)) <==> Intrusions(d, ms) == 0
  {
    hide Go, GoAll, Intrusions, Sane, Sum, Triangle, Fresh;
    var end := GoAll(d, ms);
    RunBalances(d, ms);
    WithoutInside(end.workers);
    if AllStarted(end) { AllOfThem(end.started, |end.lists|); }
    assert Last(end) * Owing(end.workers) == 0;
    if Intrusions(d, ms) == 0 {
      InOrder(d, ms);
      forall l | 0 <= l < |end.lists| ensures l in end.started { assert end.started[l] == l; }
    }
  }

  // ---------------------------------------------------------------- without intrusions

  predicate LoopsOn(w: Worker, l: nat) {
    w.Looping? && w.list == l
  }

  /** How often a position of a list has been queued. */
  function Times(d: Desk, l: nat, p: nat): nat {
    multiset(d.taken)[(l, p)]
  }

  /** The loops go through the lists in the order in which these were made, each over its own. */
  predicate Tidy(d: Desk) {
    && |d.started| <= |d.lists| <= |d.started| + 1
    && (forall k :: 0 <= k < |d.started| ==> d.started[k] == k)
    && (forall w {:trigger d.workers[w]} :: 0 <= w < |d.workers| && Owes(d.workers[w]) == 1 ==>
          d.workers[w].own == |d.started| == |d.lists| - 1)
    && (forall w {:trigger d.workers[w]} :: 0 <= w < |d.workers| && d.workers[w].Looping? ==>
          d.workers[w].list < |d.started|)
    && (forall v, w :: 0 <= v < w < |d.workers| ==> !(Owes(d.workers[v]) == 1 && Owes(d.workers[w]) == 1))
    && (forall v, w :: 0 <= v < w < |d.workers| && d.workers[v].Looping? ==>
          !LoopsOn(d.workers[w], d.workers[v].list))
  }

  predicate SomeoneOn(d: Desk, l: nat) {
    exists w :: 0 <= w < |d.workers| && LoopsOn(d.workers[w], l)
  }

  /** A list has been queued up to where its loop is, and completely if its loop has ended. */
  ghost predicate Progress(d: Desk) {
    && (forall w, p: nat :: 0 <= w < |d.workers| && d.workers[w].Looping? ==>
          Times(d, d.workers[w].list, p) == if p < d.workers[w].next then 1 else 0)
    && (forall l: nat, p: nat :: l < |d.started| && l < |d.lists| && !SomeoneOn(d, l) ==>
          Times(d, l, p) == if p < |d.lists[l]| then 1 else 0)
  }

  lemma {:induction false} NobodyWaits(ws: seq<Worker>)
    ensures Waiting(ws) == 0 <==> forall w :: 0 <= w < |ws| ==> !ws[w].Released?
    ensures Owing(ws) == 0 ==> forall w :: 0 <= w < |ws| ==> Owes(ws[w]) == 0
  {
    if ws != [] {
      NobodyWaits(ws[..|ws| - 1]);
    }
  }

  lemma EnterKeepsTidy(d: Desk, w: nat)
    requires Tidy(d) && |d.started| == |d.lists| && CanEnter(d, w)
    requires forall v :: 0 <= v < |d.workers| ==> Owes(d.workers[v]) == 0
    ensures Tidy(Go(d, Enter(w)))
  {
    var d' := Go(d, Enter(w));
    assert forall v :: 0 <= v < |d.workers| && v != w ==> d'.workers[v] == d.workers[v];
  }

  lemma StartKeepsTidy(d: Desk, w: nat)
    requires Sane(d) && Tidy(d) && w < |d.workers| && d.workers[w].Released?
    ensures Tidy(Go(d, Start(w)))
  {
    var d' := Go(d, Start(w));
    assert Owes(d.workers[w]) == 1;
    assert forall v :: 0 <= v < |d.workers| && v != w ==> d'.workers[v] == d.workers[v] && Owes(d.workers[v]) == 0;
  }

  /** The other motions leave the lists in number, the loops on their lists, and the owing threads owing. */
  lemma OtherKeepsTidy(d: Desk, d': Desk)
    requires Tidy(d) && d'.started == d.started && |d'.lists| == |d.lists| && |d'.workers| == |d.workers|
    requires forall w :: 0 <= w < |d.workers| ==>
               && (Owes(d'.workers[w]) == 1 ==> Owes(d.workers[w]) == 1 && d'.workers[w].own == d.workers[w].own)
               && (d'.workers[w].Looping? ==> d.workers[w].Looping? && d'.workers[w].list == d.workers[w].list)
    ensures Tidy(d')
  {
  }

  lemma GoKeepsTidy(d: Desk, m: Motion)
    requires Sane(d) && Tidy(d) && |d.started| + Owing(d.workers) == |d.lists|
    requires m.Enter? && CanEnter(d, m.w) ==> Waiting(d.workers) == 0
    ensures Tidy(Go(d, m))
  {
    hide Owing, Waiting, Tidy, Sane;
    if m.Enter? && CanEnter(d, m.w) {
      WithoutInside(d.workers);
      NobodyWaits(d.workers);
      EnterKeepsTidy(d, m.w);
    } else if m.Start? && m.w < |d.workers| && d.workers[m.w].Released? {
      StartKeepsTidy(d, m.w);
    } else {
      OtherKeepsTidy(d, Go(d, m));
    }
  }

  lemma TimesOfOneMore(d: Desk, t: (nat, nat), l: nat, p: nat)
    ensures multiset(d.taken + [t])[(l, p)] == Times(d, l, p) + (if t == (l, p) then 1 else 0)
  {
  }

  lemma NotStarted(d: Desk, l: nat, p: nat)
    requires Sane(d) && Tidy(d) && l >= |d.started|
    ensures Times(d, l, p) == 0
  {
    assert (l, p) in d.taken ==> l in d.started;
  }

  lemma LoopProgress(d: Desk, m: Motion, w: nat, p: nat)
    requires Sane(d) && Tidy(d) && Progress(d) && w < |Go(d, m).workers| && Go(d, m).workers[w].Looping?
    ensures var d' := Go(d, m); Times(d', d'.workers[w].list, p) == if p < d'.workers[w].next then 1 else 0
  {
    hide Sane;
    var d' := Go(d, m);
    if m == Start(w) && d.workers[w].Released? {
      assert Owes(d.workers[w]) == 1;
      NotStarted(d, Last(d), p);
    } else {
      assert d.workers[w].Looping? && d'.workers[w].list == d.workers[w].list;
      assert Times(d, d.workers[w].list, p) == if p < d.workers[w].next then 1 else 0;
      if m.Next? && HasNext(d, m.w) {
        TimesOfOneMore(d, (d.workers[m.w].list, d.workers[m.w].next), d.workers[w].list, p);
        if m.w < w { assert !LoopsOn(d.workers[w], d.workers[m.w].list); }
        if w < m.w { assert !LoopsOn(d.workers[m.w], d.workers[w].list); }
      }
    }
  }

  /** A list that somebody goes through is still gone through, except when the loop ends. */
  lemma StillOn(d: Desk, m: Motion, l: nat)
    requires SomeoneOn(d, l) && !SomeoneOn(Go(d, m), l)
    ensures m.Next? && m.w < |d.workers| && LoopsOn(d.workers[m.w], l) && !HasNext(d, m.w)
  {
    var v :| 0 <= v < |d.workers| && LoopsOn(d.workers[v], l);
    assert !LoopsOn(Go(d, m).workers[v], l);
  }

  lemma ListProgress(d: Desk, m: Motion, l: nat, p: nat)
    requires Sane(d) && Tidy(d) && Progress(d)
    requires var d' := Go(d, m); l < |d'.started| && l < |d'.lists| && !SomeoneOn(d', l)
    ensures var d' := Go(d, m); Times(d', l, p) == if p < |d'.lists[l]| then 1 else 0
  {
    var d' := Go(d, m);
    if SomeoneOn(d, l) {
      StillOn(d, m, l);
      assert WorkerOk(d, d.workers[m.w]);
      assert Times(d, d.workers[m.w].list, p) == if p < d.workers[m.w].next then 1 else 0;
    } else {
      QuietList(d, m, l);
      assert Times(d, l, p) == if p < |d.lists[l]| then 1 else 0;
      if m.Next? && HasNext(d, m.w) {
        assert LoopsOn(d.workers[m.w], d.workers[m.w].list);
        TimesOfOneMore(d, (d.workers[m.w].list, d.workers[m.w].next), l, p);
      }
    }
  }

  /** A list that is done does not grow. */
  lemma QuietList(d: Desk, m: Motion, l: nat)
    requires Tidy(d) && l < |Go(d, m).started| && l < |Go(d, m).lists| && !SomeoneOn(Go(d, m), l)
    ensures l < |d.started| && l < |d.lists| && Go(d, m).lists[l] == d.lists[l]
  {
    var d' := Go(d, m);
    if m.Start? && d' != d {
      assert LoopsOn(d'.workers[m.w], Last(d)) && Owes(d.workers[m.w]) == 1;
    }
    if m.HandOut? && IsInside(d, m.w) { assert Owes(d.workers[m.w]) == 1; }
  }

  lemma GoKeepsProgress(d: Desk, m: Motion)
    requires Sane(d) && Tidy(d) && Tidy(Go(d, m)) && Progress(d)
    ensures Progress(Go(d, m))
  {
    var d' := Go(d, m);
    assert forall w :: 0 <= w < |d.workers| ==> WorkerOk(d, d.workers[w]);
    forall w, p: nat | 0 <= w < |d'.workers| && d'.workers[w].Looping?
      ensures Times(d', d'.workers[w].list, p) == if p < d'.workers[w].next then 1 else 0
    {
      LoopProgress(d, m, w, p);
    }
    forall l: nat, p: nat | l < |d'.started| && l < |d'.lists| && !SomeoneOn(d', l)
      ensures Times(d', l, p) == if p < |d'.lists[l]| then 1 else 0
    {
      ListProgress(d, m, l, p);
    }
  }

  lemma FreshIsTidy(d: Desk)
    requires Fresh(d)
    ensures Tidy(d) && Progress(d)
  {
  }

  lemma {:induction false} InOrder(d: Desk, ms: seq<Motion>)
    requires Fresh(d) && Intrusions(d, ms) == 0
    ensures Tidy(GoAll(d, ms)) && Progress(GoAll(d, ms))
  {
    hide Go, Balanced, Sane, Tidy, Progress, Fresh;
    if ms == [] {
      FreshIsTidy(d);
    } else {
      var was, m := GoAll(d, ms[..|ms| - 1]), ms[|ms| - 1];
      InOrder(d, ms[..|ms| - 1]);
      RunBalances(d, ms[..|ms| - 1]);
      BalancedCounts(was, 0);
      GoKeepsTidy(was, m);
      GoKeepsProgress(was, m);
    }
  }

  lemma BalancedCounts(d: Desk, intrusions: nat)
    requires Balanced(d, intrusions)
    ensures |d.started| + Owing(d.workers) == |d.lists|
  {
  }

  /** Every message handed out has been queued exactly once. */
  predicate TakenOnce(d: Desk) {
    forall l, p :: 0 <= l < |d.lists| && 0 <= p < |d.lists[l]| ==> Times(d, l, p) == 1
  }

  /** With an intrusion some list is lost: nothing of it is ever queued. */
  predicate SomeListLost(d: Desk) {
    exists l :: 0 <= l < |d.lists| && forall p :: 0 <= p < |d.lists[l]| ==> Times(d, l, p) == 0
  }

  /**
   Nothing is lost or doubled, when all threads are through, if no thread has entered while another one was
   between its release and the start of its loop; and otherwise a whole list is lost. So, if every list has
   a message, it is an if-and-only-if.
   */
  lemma NothingLostOrDoubledIff(d: Desk, ms: seq<Motion>)
    requires Fresh(d) && AtRest(GoAll(d, ms))
    ensures Intrusions(d, ms) == 0 ==> TakenOnce(GoAll(d, ms))
    ensures Intrusions(d, ms) != 0 ==> SomeListLost(GoAll(d, ms))
    ensures (forall l :: 0 <= l < |GoAll(d, ms).lists| ==> GoAll(d, ms).lists[l] != []) ==>
              (TakenOnce(GoAll(d, ms)) <==> Intrusions(d, ms) == 0)
  {
    hide Go, GoAll, Intrusions, Fresh;
    var end := GoAll(d, ms);
    AllStartedIff(d, ms);
    RunBalances(d, ms);
    if Intrusions(d, ms) == 0 {
      InOrder(d, ms);
      TidyAtRest(end);
    } else {
      LostAtRest(end);
    }
  }

  lemma TidyAtRest(d: Desk)
    requires Tidy(d) && Progress(d) && AtRest(d) && AllStarted(d)
    ensures TakenOnce(d)
  {
    forall l, p: nat | 0 <= l < |d.lists| && 0 <= p < |d.lists[l]| ensures Times(d, l, p) == 1 {
      assert !SomeoneOn(d, l) && l in d.started;
    }
  }

  lemma LostAtRest(d: Desk)
    requires Sane(d) && !AllStarted(d)
    ensures SomeListLost(d)
    ensures (forall l :: 0 <= l < |d.lists| ==> d.lists[l] != []) ==> !TakenOnce(d)
  {
    var l :| 0 <= l < |d.lists| && l !in d.started;
    forall p | 0 <= p < |d.lists[l]| ensures Times(d, l, p) == 0 {
      assert (l, p) !in d.taken;
    }
    assert d.lists[l] != [] ==> Times(d, l, 0) == 0;
  }

  // ---------------------------------------------------------------- one list

  /** A loop starts, and finds this list in the shared attribute: it is the last one made. */
  predicate StartsOn(d: Desk, ms: seq<Motion>, k: nat, l: nat) {
    && k < |ms| && ms[k].Start?
    && var was := GoAll(d, ms[..k]);
       ms[k].w < |was.workers| && was.workers[ms[k].w].Released? && Last(was) == l
  }

  lemma StartsOnPrefix(d: Desk, ms: seq<Motion>, k: nat, l: nat)
    requires ms != [] && k < |ms| - 1
    ensures StartsOn(d, ms[..|ms| - 1], k, l) <==> StartsOn(d, ms, k, l)
  {
    hide GoAll;
    assert ms[..|ms| - 1][..k] == ms[..k] && ms[..|ms| - 1][k] == ms[k];
  }

  /** One motion adds at most the list that it starts on. */
  lemma StartedNext(d: Desk, m: Motion, l: nat)
    ensures l in Go(d, m).started <==>
            l in d.started || (m.Start? && m.w < |d.workers| && d.workers[m.w].Released? && Last(d) == l)
  {
  }

  /** Whatever the run, some loop goes through a list if and only if a loop starts while it is the last one made. */
  lemma {:induction false} GoneThroughIff(d: Desk, ms: seq<Motion>, l: nat)
    requires d.started == []
    ensures l in GoAll(d, ms).started <==> exists k :: 0 <= k < |ms| && StartsOn(d, ms, k, l)
    decreases |ms|
  {
    hide Go;
    if ms != [] {
      var n := |ms| - 1;
      GoneThroughIff(d, ms[..n], l);
      StartedNext(GoAll(d, ms[..n]), ms[n], l);
      hide GoAll, StartsOn;
      forall k: nat | k < n ensures StartsOn(d, ms[..n], k, l) <==> StartsOn(d, ms, k, l) {
        StartsOnPrefix(d, ms, k, l);
      }
      LastStartsOn(d, ms, l);
    }
  }

  lemma LastStartsOn(d: Desk, ms: seq<Motion>, l: nat)
    requires ms != []
    ensures var n, m, was := |ms| - 1, ms[|ms| - 1], GoAll(d, ms[..|ms| - 1]);
            StartsOn(d, ms, n, l)
            <==> m.Start? && m.w < |was.workers| && was.workers[m.w].Released? && Last(was) == l
  {
  }

  /** If none does, nothing of the list is ever queued. */
  lemma NeverQueuedUnless(d: Desk, ms: seq<Motion>, l: nat, p: nat)
    requires Fresh(d) && forall k :: 0 <= k < |ms| ==> !StartsOn(d, ms, k, l)
    ensures Times(GoAll(d, ms), l, p) == 0
  {
    hide Go, GoAll, StartsOn;
    GoneThroughIff(d, ms, l);
    RunBalances(d, ms);
    assert (l, p) !in GoAll(d, ms).taken;
  }

  // ---------------------------------------------------------------- a losing run

  /** The second thread enters between the first one's release and its loop, and both go through the second list. */
  function Losing(a: Outgoing, b: Outgoing): seq<Motion> {
    [Enter(0), HandOut(0, [a]), Release(0), Enter(1), HandOut(1, [b]), Start(0), Release(1), Start(1),
     Next(0), Next(0), Next(1), Next(1)]
  }

  /** Whatever the two messages are, the first is never queued and the second is queued twice. */
  lemma SharedListLosesMessage(a: Outgoing, b: Outgoing)
    ensures var end := GoAll(Desk([], [Idle, Idle], [], []), Losing(a, b));
            AtRest(end) && end.lists == [[a], [b]] && end.taken == [(1, 0), (1, 0)]
  {
    hide Go, GoAll;
    var d0, ms := Desk([], [Idle, Idle], [], []), Losing(a, b);
    GoAllNone(d0);
    assert ms[..0] == [] && ms[..12] == ms;
    FirstHandsOut(a, b);
    SecondHandsOut(a, b);
    BothQueue(a, b);
    Onward(d0, ms, 0);
    Onward(d0, ms, 1);
    Onward(d0, ms, 2);
    Onward(d0, ms, 3);
    Onward(d0, ms, 4);
    Onward(d0, ms, 5);
    Onward(d0, ms, 6);
    Onward(d0, ms, 7);
    Onward(d0, ms, 8);
    Onward(d0, ms, 9);
    Onward(d0, ms, 10);
    Onward(d0, ms, 11);
  }

  lemma GoAllNone(d: Desk)
    ensures GoAll(d, []) == d
  {
  }

  lemma Onward(d: Desk, ms: seq<Motion>, k: nat)
    requires k < |ms|
    ensures GoAll(d, ms[..k + 1]) == Go(GoAll(d, ms[..k]), ms[k])
  {
    assert ms[..k + 1][..k] == ms[..k];
  }

  lemma FirstHandsOut(a: Outgoing, b: Outgoing)
    ensures var d := Go(Go(Go(Desk([], [Idle, Idle], [], []), Enter(0)), HandOut(0, [a])), Release(0));
            d == Desk([[a]], [Released(0), Idle], [], [])
  {
    var d1 := Go(Desk([], [Idle, Idle], [], []), Enter(0));
    assert d1.lists == [[]] && d1.workers == [Inside(0), Idle];
    var d2 := Go(d1, HandOut(0, [a]));
    assert [] + [a] == [a];
    assert d2.lists == [[a]] && d2.workers == [Inside(0), Idle];
  }

  lemma SecondHandsOut(a: Outgoing, b: Outgoing)
    ensures var d := Go(Go(Desk([[a]], [Released(0), Idle], [], []), Enter(1)), HandOut(1, [b]));
            Go(Go(Go(d, Start(0)), Release(1)), Start(1))
                == Desk([[a], [b]], [Looping(1, 0), Looping(1, 0)], [1, 1], [])
  {
    var d1 := Go(Desk([[a]], [Released(0), Idle], [], []), Enter(1));
    assert d1.lists == [[a], []] && d1.workers == [Released(0), Inside(1)];
    var d2 := Go(d1, HandOut(1, [b]));
    assert [] + [b] == [b];
    assert d2.lists == [[a], [b]] && d2.workers == [Released(0), Inside(1)];
    var d3 := Go(d2, Start(0));
    assert d3.workers == [Looping(1, 0), Inside(1)] && d3.started == [1];
    var d5 := Go(Go(d3, Release(1)), Start(1));
    assert d5.workers == [Looping(1, 0), Looping(1, 0)] && d5.started == [1, 1];
  }

  lemma BothQueue(a: Outgoing, b: Outgoing)
    ensures var d := Desk([[a], [b]], [Looping(1, 0), Looping(1, 0)], [1, 1], []);
            Go(Go(Go(Go(d, Next(0)), Next(0)), Next(1)), Next(1))
                == Desk([[a], [b]], [Idle, Idle], [1, 1], [(1, 0), (1, 0)])
  {
    var d := Desk([[a], [b]], [Looping(1, 0), Looping(1, 0)], [1, 1], []);
    var d2 := Go(Go(d, Next(0)), Next(0));
    assert d2.workers == [Idle, Looping(1, 0)] && d2.taken == [(1, 0)];
    var d4 := Go(Go(d2, Next(1)), Next(1));
    assert d4.workers == [Idle, Idle] && d4.taken == [(1, 0), (1, 0)];
  }
}
