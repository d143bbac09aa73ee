/**
 Runs in which threads overtake each other between the lock and the queue, so that a client which joins is left behind
 although every message is queued exactly once.
 */
module Overtaken {
  import opened Wrappers
  import opened Protocol
  import opened Serial
  import opened StorageSpec
  import opened Index
  import opened Network
  import opened HandshakeSpec
  import opened Handshake
  import opened Coalescer
  import opened Handout
  import opened Tracking
  import opened Joining

  /** A thread performs an operation and comes to its loop. */
  function Writing(w: nat, op: Op): seq<Move> {
    [Thread(Enter(w)), Operate(w, op), Thread(Release(w)), Thread(Start(w))]
  }

  /** Its loop queues the one message and ends. */
  function Queueing(w: nat): seq<Move> {
    [Thread(Motion.Next(w)), Thread(Motion.Next(w))]
  }

  /** Two threads change the entry one after the other, but the second one is the first to queue its message. */
  function Overtaking(op1: Op, op2: Op, between: seq<Move>): seq<Move> {
    [TakeSnapshot, Activate] + Writing(0, op1) + Writing(1, op2) + Queueing(1) + between + Queueing(0)
  }

  function Beginning(t: Table): Joint {
    Joint(t, Desk([], [Idle, Idle], [], []), Handshaking, Empty(), [], [])
  }

  lemma {:induction false} DoAllConcat(j: Joint, xs: seq<Move>, ys: seq<Move>, conn: Conn)
    ensures DoAll(j, xs + ys, conn) == DoAll(DoAll(j, xs, conn), ys, conn)
    decreases |ys|
  {
    hide Do;
    if ys == [] {
      assert xs + ys == xs;
    } else {
      assert (xs + ys)[..|xs + ys| - 1] == xs + ys[..|ys| - 1];
      DoAllConcat(j, xs, ys[..|ys| - 1], conn);
    }
  }

  lemma TwoMoves(j: Joint, a: Move, b: Move, conn: Conn)
    ensures DoAll(j, [a, b], conn) == Do(Do(j, a, conn), b, conn)
  {
    hide Do;
    assert [a, b][..1] == [a] && [a][..0] == [];
    assert DoAll(j, [], conn) == j;
  }

  lemma WritingDoes(j: Joint, w: nat, op: Op, o: Outgoing, conn: Conn)
    requires CanEnter(j.desk, w) && Step(j.server, op).out == [o]
    ensures DoAll(j, Writing(w, op), conn)
            == j.(server := Step(j.server, op).table,
                  desk := j.desk.(lists := j.desk.lists + [[o]],
                                  workers := j.desk.workers[w := Looping(|j.desk.lists|, 0)],
                                  started := j.desk.started + [|j.desk.lists|]))
  {
    hide Step;
    var d := j.desk;
    var j1 := Do(j, Thread(Enter(w)), conn);
    var j2 := Do(j1, Operate(w, op), conn);
    assert j2.desk == Desk(d.lists + [[o]], d.workers[w := Inside(|d.lists|)], d.started, d.taken) by {
      assert [] + [o] == [o];
    }
    var j4 := Do(Do(j2, Thread(Release(w)), conn), Thread(Start(w)), conn);
    assert j4.desk.workers == d.workers[w := Looping(|d.lists|, 0)];
    TwoMoves(j, Thread(Enter(w)), Operate(w, op), conn);
    TwoMoves(j2, Thread(Release(w)), Thread(Start(w)), conn);
    assert Writing(w, op) == [Thread(Enter(w)), Operate(w, op)] + [Thread(Release(w)), Thread(Start(w))];
    DoAllConcat(j, [Thread(Enter(w)), Operate(w, op)], [Thread(Release(w)), Thread(Start(w))], conn);
  }

  lemma QueueingDoes(j: Joint, w: nat, l: nat, m: Message, conn: Conn)
    requires w < |j.desk.workers| && j.desk.workers[w] == Looping(l, 0)
    requires l < |j.desk.lists| && j.desk.lists[l] == ToAll(m) && Open(j.phase)
    ensures DoAll(j, Queueing(w), conn)
            == j.(desk := j.desk.(workers := j.desk.workers[w := Idle], taken := j.desk.taken + [(l, 0)]),
                  raw := j.raw + [m])
  {
    RoutedOne(Outgoing(m, None), conn);
    hide Routed;
    var j1 := Do(j, Thread(Motion.Next(w)), conn);
    assert j1.desk.workers[w] == Looping(l, 1) && j1.raw == j.raw + [m];
    var j2 := Do(j1, Thread(Motion.Next(w)), conn);
    assert j2.desk.workers == j.desk.workers[w := Idle] && j2.raw == j.raw + [m];
    TwoMoves(j, Thread(Motion.Next(w)), Thread(Motion.Next(w)), conn);
  }

  /** What setting an entry sends, if the server may set it. */
  function SetMessage(t: Table, n: Text, v: Value): Message {
    var r := At(t, n);
    if r.value.None? then
      EntryAssign(n, if r.id == UNASSIGNED then |t.idmap| else r.id, Increment(r.seqNum), v, r.flags)
    else EntryUpdate(r.id, Increment(r.seqNum), v)
  }

  predicate Settable(t: Table, n: Text, v: Value) {
    && t.server && n != []
    && (At(t, n).value.Some? ==> At(t, n).value != Some(v) && At(t, n).value.value.Type() == v.Type()
                                 && At(t, n).id != UNASSIGNED)
  }

  lemma SetDoes(t: Table, n: Text, v: Value)
    requires Settable(t, n, v)
    ensures var e := Step(t, Set(n, v));
            && e.out == ToAll(SetMessage(t, n, v)) && e.table.server
            && At(e.table, n).value == Some(v) && At(e.table, n).seqNum == Increment(At(t, n).seqNum)
            && At(e.table, n).id == if At(t, n).id == UNASSIGNED then |t.idmap| else At(t, n).id
  {
  }

  lemma BothWrite(j: Joint, op1: Op, op2: Op, m1: Message, m2: Message, conn: Conn)
    requires Step(j.server, op1).out == ToAll(m1) && Step(Step(j.server, op1).table, op2).out == ToAll(m2)
    requires j.desk == Desk([], [Idle, Idle], [], [])
    ensures DoAll(j, Writing(0, op1) + Writing(1, op2), conn)
            == j.(server := Step(Step(j.server, op1).table, op2).table,
                  desk := Desk([ToAll(m1), ToAll(m2)], [Looping(0, 0), Looping(1, 0)], [0, 1], []))
  {
    hide Step, Do, DoAll, Writing;
    WritingDoes(j, 0, op1, Outgoing(m1, None), conn);
    var j1 := DoAll(j, Writing(0, op1), conn);
    assert j1.desk == Desk([ToAll(m1)], [Looping(0, 0), Idle], [0], []);
    WritingDoes(j1, 1, op2, Outgoing(m2, None), conn);
    assert [Looping(0, 0), Idle][1 := Looping(1, 0)] == [Looping(0, 0), Looping(1, 0)];
    DoAllConcat(j, Writing(0, op1), Writing(1, op2), conn);
  }

  lemma SecondQueuesFirst(j: Joint, m1: Message, m2: Message, post: bool, conn: Conn)
    requires j.desk == Desk([ToAll(m1), ToAll(m2)], [Looping(0, 0), Looping(1, 0)], [0, 1], [])
    requires j.phase.Active? && j.past == [] && j.raw == []
    ensures var between := if post then [Post] else [];
            var j' := DoAll(j, Queueing(1) + between + Queueing(0), conn);
            && j'.desk == Desk([ToAll(m1), ToAll(m2)], [Idle, Idle], [0, 1], [(1, 0), (0, 0)])
            && Intervals(j') == (if post then [[m2], [m1]] else [[m2, m1]])
            && j'.server == j.server && j'.seen == j.seen && j'.phase == j.phase
  {
    hide Do, DoAll, Queueing;
    var between := if post then [Post] else [];
    QueueingDoes(j, 1, 1, m2, conn);
    var j1 := DoAll(j, Queueing(1), conn);
    assert j1.desk == Desk([ToAll(m1), ToAll(m2)], [Looping(0, 0), Idle], [0, 1], [(1, 0)]) && j1.raw == [m2];
    PostOrNot(j1, post, conn);
    var j2 := DoAll(j1, between, conn);
    QueueingDoes(j2, 0, 0, m1, conn);
    var j3 := DoAll(j2, Queueing(0), conn);
    assert j3.desk.workers == [Idle, Idle] && j3.desk.taken == [(1, 0), (0, 0)];
    assert j3.past == if post then [[m2]] else [];
    assert j3.raw == if post then [m1] else [m2, m1];
    DoAllConcat(j, Queueing(1), between, conn);
    DoAllConcat(j, Queueing(1) + between, Queueing(0), conn);
  }

  /** The end of the run: everything has been queued once, in the wrong order. */
  lemma OvertakingDoes(t: Table, op1: Op, op2: Op, m1: Message, m2: Message, post: bool, conn: Conn)
    requires Step(t, op1).out == ToAll(m1) && Step(Step(t, op1).table, op2).out == ToAll(m2)
    ensures var j := DoAll(Beginning(t), Overtaking(op1, op2, if post then [Post] else []), conn);
            && AtRest(j.desk) && TakenOnce(j.desk) && j.phase.Active? && j.seen == t
            && j.server == Step(Step(t, op1).table, op2).table
            && Intervals(j) == if post then [[m2], [m1]] else [[m2, m1]]
  {
    hide Step, Do, DoAll, Writing, Queueing, AtRest, TakenOnce, Intervals, Overtaking, Free;
    var between := if post then [Post] else [];
    var first, next := [TakeSnapshot, Activate], Writing(0, op1) + Writing(1, op2);
    var last := Queueing(1) + between + Queueing(0);
    TwoMoves(Beginning(t), TakeSnapshot, Activate, conn);
    IdleIsFree([], []);
    SnapshotAndActivate(Beginning(t), conn);
    var j1 := DoAll(Beginning(t), first, conn);
    BothWrite(j1, op1, op2, m1, m2, conn);
    SecondQueuesFirst(DoAll(j1, next, conn), m1, m2, post, conn);
    DoAllConcat(Beginning(t), first, next, conn);
    DoAllConcat(Beginning(t), first + next, last, conn);
    OvertakingIs(op1, op2, between);
    TwoTaken(m1, m2);
  }

  lemma OvertakingIs(op1: Op, op2: Op, between: seq<Move>)
    ensures Overtaking(op1, op2, between)
            == [TakeSnapshot, Activate] + (Writing(0, op1) + Writing(1, op2)) + (Queueing(1) + between + Queueing(0))
  {
    hide Writing, Queueing;
  }

  lemma IdleIsFree(lists: seq<seq<Outgoing>>, started: seq<nat>)
    ensures Free(Desk(lists, [Idle, Idle], started, []))
  {
  }

  lemma TwoTaken(m1: Message, m2: Message)
    ensures var d := Desk([ToAll(m1), ToAll(m2)], [Idle, Idle], [0, 1], [(1, 0), (0, 0)]); AtRest(d) && TakenOnce(d)
  {
  }

  /** Setting the entry twice. */
  lemma SetsTwice(t: Table, n: Text, v1: Value, v2: Value)
    requires Settable(t, n, v1) && v1 != v2 && v1.Type() == v2.Type()
    requires At(t, n).value.Some? || |t.idmap| < UNASSIGNED
    ensures var t1 := Step(t, Set(n, v1)).table;
            var i := if At(t, n).id == UNASSIGNED then |t.idmap| else At(t, n).id;
            && Step(t, Set(n, v1)).out == ToAll(SetMessage(t, n, v1))
            && Step(t1, Set(n, v2)).out == ToAll(EntryUpdate(i, Increment(Increment(At(t, n).seqNum)), v2))
            && At(Step(t1, Set(n, v2)).table, n).value == Some(v2)
  {
    hide Step, Settable;
    SetDoes(t, n, v1);
    SettableAgain(t, n, v1, v2);
    SetDoes(Step(t, Set(n, v1)).table, n, v2);
  }

  lemma SettableAgain(t: Table, n: Text, v1: Value, v2: Value)
    requires Settable(t, n, v1) && v1 != v2 && v1.Type() == v2.Type()
    requires At(t, n).value.Some? || |t.idmap| < UNASSIGNED
    ensures Settable(Step(t, Set(n, v1)).table, n, v2)
  {
    SetDoes(t, n, v1);
  }

  lemma SnapshotAndActivate(j: Joint, conn: Conn)
    requires j.phase.Handshaking? && Free(j.desk)
    ensures Do(Do(j, TakeSnapshot, conn), Activate, conn) == j.(phase := Active, seen := j.server)
  {
  }

  lemma PostOrNot(j: Joint, post: bool, conn: Conn)
    requires j.phase.Active?
    ensures DoAll(j, if post then [Post] else [], conn) == if post then j.(past := j.past + [j.raw], raw := []) else j
  {
    assert [Post][..0] == [];
    assert DoAll(j, [], conn) == j;
  }

  /** Of two pending writes the queue keeps the one that was queued last. */
  lemma LastQueuedStays(i: nat, s: U16, v: Value, s': U16, v': Value)
    requires i != UNASSIGNED
    ensures Compact(EnqueueAll([EntryUpdate(i, s, v), EntryUpdate(i, s', v')]).list) == [EntryUpdate(i, s', v')]
  {
    var a, b := EntryUpdate(i, s, v), EntryUpdate(i, s', v');
    QueueOfOne(a);
    assert [a, b][..1] == [a];
    assert EnqueueAll([a, b]).list == [Some(b)];
    assert [Some(b)][..0] == [];
  }

  lemma QueueOfOne(m: Message)
    requires IsWrite(m) && m.id != UNASSIGNED
    ensures EnqueueAll([m]) == Pending([Some(m)], map[m.id := Pair(1, 0)])
    ensures Compact(EnqueueAll([m]).list) == [m]
  {
    assert [m][..0] == [];
    assert [Some(m)][..0] == [];
    assert EnqueueAll([]) == EMPTY;
  }

  lemma DrainOne(t: Table, m: Message, conn: Conn)
    ensures Drain(t, [m], conn).table == ProcessIncoming(t, m, conn).table
  {
    assert [m][..0] == [];
  }

  lemma DeliveredOne(b: seq<Message>)
    ensures Delivered([b]) == Compact(EnqueueAll(b).list)
  {
    hide EnqueueAll, Compact;
    assert [b][..0] == [];
    assert Delivered([]) == [];
  }

  /**
   An entry that was in the snapshot can be left behind although nothing is lost or doubled: the server holds the
   second value, the client the first one, for good. This holds of every entry of every server and of every client.
   */
  lemma OvertakenWriteIsLost(t: Table, n: Text, v1: Value, v2: Value, c: Table, conn: Conn, up: Conn)
    requires Settled(t) && At(t, n).value.Some? && Settable(t, n, v1) && v1 != v2 && v1.Type() == v2.Type()
    requires ClientOk(c) && !Keeps(At(c, n))
    ensures var j := DoAll(Beginning(t), Overtaking(Set(n, v1), Set(n, v2), []), conn);
            && AtRest(j.desk) && TakenOnce(j.desk)
            && At(j.server, n).value == Some(v2) && At(View(j, c, up), n).value == Some(v1)
  {
    hide Settled, Settable, Step, DoAll, Do, AtRest, TakenOnce, ApplyInitial, Snapshot, Drain, ProcessIncoming, Shows,
         ClientOk, Keeps, Compact, EnqueueAll, Delivered;
    var s, i := At(t, n).seqNum, At(t, n).id;
    var spot := Spot(n, i, s);
    AliveNow(t, spot);
    SetsTwice(t, n, v1, v2);
    OvertakingDoes(t, Set(n, v1), Set(n, v2), EntryUpdate(i, Increment(s), v1),
                   EntryUpdate(i, Increment(Increment(s)), v2), false, conn);
    var j := DoAll(Beginning(t), Overtaking(Set(n, v1), Set(n, v2), []), conn);
    SnapshotShows(t, c, spot, map[s := At(t, n).value.value], up);
    var t0 := ApplyInitial(c, Snapshot(t, t.localmap), up).table;
    var m := EntryUpdate(i, Increment(s), v1);
    LastQueuedStays(i, Increment(Increment(s)), v2, Increment(s), v1);
    DeliveredOne(Intervals(j)[0]);
    DrainOne(t0, m, up);
    WriteArrives(t0, m, spot, up);
    NextIsNewer(s);
  }

  lemma AliveNow(t: Table, spot: Spot)
    requires Settled(t) && At(t, spot.name).value.Some? && At(t, spot.name).id == spot.id
    requires At(t, spot.name).seqNum == spot.base
    ensures Alive(t, spot)
  {
    assert RecordOk(t, spot.name) && RecordExact(t, spot.name);
  }

  lemma NextIsNewer(s: U16)
    ensures !NewerOrEqual(s, Increment(s)) && Increment(s) != s && Increment(Increment(s)) != Increment(s)
  {
  }

  /**
   An entry that was not in the snapshot can be left behind even with a post in between: its first update overtakes
   its assignment, and the client does not know the id yet.
   */
  lemma OvertakenAssignmentIsLost(t: Table, n: Text, v1: Value, v2: Value, c: Table, conn: Conn, up: Conn)
    requires Settled(t) && At(t, n).value.None? && |t.idmap| < UNASSIGNED
    requires Settable(t, n, v1) && v1 != v2 && v1.Type() == v2.Type()
    requires ClientOk(c) && !At(c, n).localWrite
    ensures var j := DoAll(Beginning(t), Overtaking(Set(n, v1), Set(n, v2), [Post]), conn);
            && AtRest(j.desk) && TakenOnce(j.desk)
            && At(j.server, n).value == Some(v2) && At(View(j, c, up), n).value == Some(v1)
  {
    hide Settled, Settable, Step, DoAll, Do, AtRest, TakenOnce, ApplyInitial, Snapshot, Drain, ProcessIncoming, Absent,
         Shows, ClientOk, Compact, EnqueueAll, Delivered;
    UnbornNow(t, n);
    var s, i := At(t, n).seqNum, |t.idmap|;
    SetsTwice(t, n, v1, v2);
    OvertakingDoes(t, Set(n, v1), Set(n, v2), SetMessage(t, n, v1), EntryUpdate(i, Increment(Increment(s)), v2), true,
                   conn);
    var j := DoAll(Beginning(t), Overtaking(Set(n, v1), Set(n, v2), [Post]), conn);
    var spot := Spot(n, i, s);
    SnapshotLacks(t, c, spot, up);
    var t0 := ApplyInitial(c, Snapshot(t, t.localmap), up).table;
    var m1, m2 := SetMessage(t, n, v1), EntryUpdate(i, Increment(Increment(s)), v2);
    NextIsNewer(s);
    var log: Log := map[Increment(s) := v1, Increment(Increment(s)) := v2];
    TwoDelivered(m2, m1);
    AbsentIgnores(t0, m2, spot, up);
    var t1 := ProcessIncoming(t0, m2, up).table;
    AbsentLearns(t1, m1, spot, log, up);
    TwoDrained(t0, m2, m1, up);
  }

  lemma UnbornNow(t: Table, n: Text)
    requires Settled(t) && At(t, n).value.None?
    ensures At(t, n).id == UNASSIGNED
  {
    if n in t.entries { assert RecordOk(t, n); }
  }

  lemma TwoDelivered(a: Message, b: Message)
    requires IsWrite(a) && IsWrite(b) && a.id != UNASSIGNED && b.id != UNASSIGNED
    ensures Delivered([[a], [b]]) == [a, b]
  {
    hide EnqueueAll, Compact;
    QueueOfOne(a);
    QueueOfOne(b);
    DeliveredOne([a]);
    assert [[a], [b]][..1] == [[a]];
    assert [a] + [b] == [a, b];
  }

  lemma TwoDrained(t: Table, a: Message, b: Message, conn: Conn)
    ensures Drain(t, [a, b], conn).table == ProcessIncoming(ProcessIncoming(t, a, conn).table, b, conn).table
  {
    hide ProcessIncoming, Drain;
    DrainOne(t, a, conn);
    assert [a, b] == [a] + [b];
    DrainNext(t, [a], b, conn);
  }

  // ---------------------------------------------------------------- a deletion that overtakes

  lemma RemoveDoes(t: Table, n: Text, v: Value)
    requires Settled(t) && Settable(t, n, v) && At(t, n).value.None? && |t.idmap| < UNASSIGNED
    ensures var t1 := Step(t, Set(n, v)).table;
            Step(t1, Remove(n)).out == ToAll(EntryDelete(|t.idmap|)) && At(Step(t1, Remove(n)).table, n).value.None?
  {
    UnbornNow(t, n);
    SetDoes(t, n, v);
  }

  lemma QueueOfDeletion(i: nat)
    requires i != UNASSIGNED
    ensures EnqueueAll([EntryDelete(i)]).list == [Some(EntryDelete(i))]
    ensures i !in EnqueueAll([EntryDelete(i)]).slots
  {
    var d := EntryDelete(i);
    assert [d][..0] == [];
    assert EnqueueAll([]) == EMPTY;
    assert EnqueueAll([d]) == Enqueue(EMPTY, d);
  }

  lemma AssignAfterDeletion(p: Pending, d: Message, a: Message)
    requires p.list == [Some(d)] && a.EntryAssign? && Valid(p) && a.id !in p.slots
    ensures Enqueue(p, a).list == [Some(d), Some(a)]
  {
  }

  lemma CompactTwo(d: Message, a: Message)
    ensures Compact([Some(d), Some(a)]) == [d, a]
  {
    assert [Some(d), Some(a)][..1] == [Some(d)] && [Some(d)][..0] == [];
    assert Compact([Some(d)]) == [d];
  }

  /** A deletion leaves nothing pending for an assignment to replace. */
  lemma DeletionThenAssign(i: nat, a: Message)
    requires i != UNASSIGNED && a.EntryAssign? && a.id == i
    ensures Delivered([[EntryDelete(i), a]]) == [EntryDelete(i), a]
  {
    hide Enqueue, Compact, Delivered;
    var d := EntryDelete(i);
    DeliveredOne([d, a]);
    QueueOfDeletion(i);
    AssignAfterDeletion(EnqueueAll([d]), d, a);
    assert [d, a][..1] == [d];
    CompactTwo(d, a);
  }

  /**
   An entry is set and deleted again, but the deletion is queued first: the server has no such entry, and the client
   keeps it for good.
   */
  lemma OvertakenDeletionIsLost(t: Table, n: Text, v: Value, c: Table, conn: Conn, up: Conn)
    requires Settled(t) && At(t, n).value.None? && |t.idmap| < UNASSIGNED && Settable(t, n, v)
    requires ClientOk(c) && !At(c, n).localWrite
    ensures var j := DoAll(Beginning(t), Overtaking(Set(n, v), Remove(n), []), conn);
            && AtRest(j.desk) && TakenOnce(j.desk)
            && At(j.server, n).value.None? && At(View(j, c, up), n).value == Some(v)
  {
    hide Settled, Settable, Step, DoAll, Do, AtRest, TakenOnce, ApplyInitial, Snapshot, Drain, ProcessIncoming, Absent,
         Shows, ClientOk, Delivered;
    var i, s := |t.idmap|, At(t, n).seqNum;
    var a, d := SetMessage(t, n, v), EntryDelete(i);
    UnbornNow(t, n);
    SetDoes(t, n, v);
    RemoveDoes(t, n, v);
    OvertakingDoes(t, Set(n, v), Remove(n), a, d, false, conn);
    var j := DoAll(Beginning(t), Overtaking(Set(n, v), Remove(n), []), conn);
    var spot := Spot(n, i, s);
    SnapshotLacks(t, c, spot, up);
    var t0 := ApplyInitial(c, Snapshot(t, t.localmap), up).table;
    DeletionThenAssign(i, a);
    AbsentIgnores(t0, d, spot, up);
    AbsentLearns(ProcessIncoming(t0, d, up).table, a, spot, map[a.seqNum := v], up);
    TwoDrained(t0, d, a, up);
  }
}
