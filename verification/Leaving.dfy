/**
 An entry may be deleted while a client joins. Whether the client ends with the entry is decided by what was queued last
 about it, an assignment or a deletion, and by nothing else.
 */
module Leaving {
  import opened Wrappers
  import opened Protocol
  import opened StorageSpec
  import opened Index
  import opened Network
  import opened HandshakeSpec
  import opened Handshake
  import opened Coalescer
  import opened Arrivals
  import opened Handout
  import opened Tracking
  import opened Joining
  import Survivors

  // ---------------------------------------------------------------- the server

  /** The entry is there with its id, or is not there and the id leads nowhere. */
  predicate Stands(t: Table, spot: Spot) {
    && spot.id < UNASSIGNED && |t.idmap| <= UNASSIGNED
    && (At(t, spot.name).id == spot.id || Missing(t, spot))
  }

  function FromHere(t: Table, spot: Spot): Spot {
    spot.(base := At(t, spot.name).seqNum)
  }

  lemma StandsAlive(t: Table, spot: Spot)
    requires Settled(t) && Stands(t, spot)
    ensures At(t, spot.name).id == spot.id ==> Alive(t, FromHere(t, spot)) && At(t, spot.name).value.Some?
    ensures At(t, spot.name).id != spot.id ==> Missing(t, spot) && At(t, spot.name).value.None?
  {
    if At(t, spot.name).id == spot.id {
      assert spot.name in t.entries;
      assert RecordOk(t, spot.name);
    }
  }

  predicate AllPaired(ms: seq<Message>, spot: Spot) {
    forall m :: m in ms ==> Paired(m, spot)
  }

  /** A write that is sent carries the name that the table has for its id. */
  lemma ToldIsPaired(t: Table, m: Message, spot: Spot)
    requires Settled(t) && Stands(t, spot) && Tracking.Tells(t, m) && !m.ClearEntries?
    ensures Paired(m, spot)
  {
    if At(t, spot.name).id == spot.id {
      StandsAlive(t, spot);
      AliveHasCell(t, FromHere(t, spot));
    }
  }

  lemma StepIsPaired(t: Table, op: Op, spot: Spot, conn: Conn)
    requires Settled(t) && t.server && Stands(Step(t, op).table, spot)
    requires Allowed(ServerOp(op), conn) && NoClear(op)
    ensures Settled(Step(t, op).table) && Step(t, op).table.server
    ensures forall o :: o in Step(t, op).out ==> Paired(o.msg, spot) && o.except != Some(conn)
  {
    hide Indexed, Exact, Step, Tracking.Tells, Paired, Missing;
    StepKeepsIndexed(t, op);
    StepTells(t, op);
    NoClearSent(t, op);
    var e := Step(t, op);
    forall o | o in e.out ensures Paired(o.msg, spot) { ToldIsPaired(e.table, o.msg, spot); }
  }

  // ---------------------------------------------------------------- the client

  lemma ClientSees(c: Table, m: Message, spot: Spot, shown: bool, conn: Conn)
    requires Sees(c, spot, shown) && Paired(m, spot)
    ensures Sees(ProcessIncoming(c, m, conn).table, spot, if Decides(m, spot.id) then Assigns(m, spot.id) else shown)
  {
    hide ProcessIncoming, Shows, Absent;
    if shown {
      if Writes(m, spot.id) { WriteArrives(c, m, spot, conn); }
      else if m.EntryDelete? && m.id == spot.id { DeletionArrives(c, m, spot, conn); }
      else { OtherMessage(c, m, spot, conn); }
    } else if Assigns(m, spot.id) {
      AbsentLearns(c, m, spot, map[m.seqNum := m.value], conn);
    } else {
      AbsentIgnores(c, m, spot, conn);
    }
  }

  /** What the client has in the end depends on the last assignment or deletion that it reads. */
  lemma {:induction false} ClientSeesAll(c: Table, ms: seq<Message>, spot: Spot, shown: bool, conn: Conn)
    requires Sees(c, spot, shown) && AllPaired(ms, spot)
    ensures Sees(Drain(c, ms, conn).table, spot, Fate(ms, spot.id, shown))
    decreases |ms|
  {
    hide ProcessIncoming, Sees, Paired, Decides, Assigns;
    if ms != [] {
      var k := |ms| - 1;
      assert ms[k] in ms;
      ClientSeesAll(c, ms[..k], spot, shown, conn);
      ClientSees(Drain(c, ms[..k], conn).table, ms[k], spot, Fate(ms[..k], spot.id, shown), conn);
    }
  }

  // ---------------------------------------------------------------- the way in between

  predicate ListsPaired(d: Desk, spot: Spot, conn: Conn) {
    forall l, p :: 0 <= l < |d.lists| && 0 <= p < |d.lists[l]| ==>
      Paired(d.lists[l][p].msg, spot) && d.lists[l][p].except != Some(conn)
  }

  predicate IntervalsPaired(bs: seq<seq<Message>>, spot: Spot) {
    forall a :: 0 <= a < |bs| ==> AllPaired(bs[a], spot)
  }

  predicate PendingPaired(list: seq<Option<Message>>, spot: Spot) {
    forall k :: 0 <= k < |list| && list[k].Some? ==> Paired(list[k].value, spot)
  }

  lemma EnqueueKeepsPaired(p: Pending, m: Message, spot: Spot)
    requires Coalescer.Valid(p) && PendingPaired(p.list, spot) && Paired(m, spot)
    ensures PendingPaired(Enqueue(p, m).list, spot)
  {
    if (IsWrite(m) || m.FlagsUpdate? || m.EntryDelete?) && m.id in p.slots { assert PairOk(p, m.id); }
  }

  lemma {:induction false} QueueKeepsPaired(ms: seq<Message>, spot: Spot)
    requires AllPaired(ms, spot)
    ensures PendingPaired(EnqueueAll(ms).list, spot) && AllPaired(Compact(EnqueueAll(ms).list), spot)
  {
    hide Paired, Enqueue, Coalescer.Valid;
    if ms != [] {
      QueueKeepsPaired(ms[..|ms| - 1], spot);
      assert ms[|ms| - 1] in ms;
      EnqueueKeepsPaired(EnqueueAll(ms[..|ms| - 1]), ms[|ms| - 1], spot);
    }
    forall m | m in Compact(EnqueueAll(ms).list) ensures Paired(m, spot) {
      Survivors.InCompact(EnqueueAll(ms).list, m);
    }
  }

  /** Everything queued, without regard to posts. */
  function Flat(bs: seq<seq<Message>>): seq<Message> {
    if bs == [] then [] else Flat(bs[..|bs| - 1]) + bs[|bs| - 1]
  }

  lemma PairedIsNoClear(ms: seq<Message>, spot: Spot)
    requires AllPaired(ms, spot)
    ensures forall m :: m in ms ==> !m.ClearEntries?
  {
  }

  lemma {:induction false} DeliveredFate(bs: seq<seq<Message>>, spot: Spot, was: bool)
    requires spot.id != UNASSIGNED && IntervalsPaired(bs, spot)
    ensures Fate(Delivered(bs), spot.id, was) == Fate(Flat(bs), spot.id, was)
    ensures AllPaired(Delivered(bs), spot)
    decreases |bs|
  {
    hide Fate, EnqueueAll, Compact, Paired;
    if bs != [] {
      var k := |bs| - 1;
      assert AllPaired(bs[k], spot) && IntervalsPaired(bs[..k], spot);
      DeliveredFate(bs[..k], spot, was);
      PairedIsNoClear(bs[k], spot);
      QueueKeepsPaired(bs[k], spot);
      FateAfterQueue(bs[k], spot.id, Fate(Flat(bs[..k]), spot.id, was));
      FateConcat(Delivered(bs[..k]), Compact(EnqueueAll(bs[k]).list), spot.id, was);
      FateConcat(Flat(bs[..k]), bs[k], spot.id, was);
    }
  }

  // ---------------------------------------------------------------- the invariant

  predicate Watched(j: Joint, spot: Spot, conn: Conn) {
    && Settled(j.server) && j.server.server && Stands(j.server, spot)
    && ListsPaired(j.desk, spot, conn) && IntervalsPaired(Intervals(j), spot)
    && (j.phase.Handshaking? ==> j.past == [] && j.raw == [])
    && (Open(j.phase) ==> Settled(j.seen) && Stands(j.seen, spot))
  }

  /** Nobody clears, and the name does not get another id. */
  predicate SteadyMove(j: Joint, e: Move, spot: Spot, conn: Conn) {
    e.Operate? && IsInside(j.desk, e.w) ==>
      Allowed(ServerOp(e.op), conn) && NoClear(e.op) && Stands(Step(j.server, e.op).table, spot)
  }

  predicate Steady(j: Joint, moves: seq<Move>, spot: Spot, conn: Conn) {
    if moves == [] then Stands(j.server, spot)
    else
      var k := |moves| - 1;
      Steady(j, moves[..k], spot, conn) && SteadyMove(DoAll(j, moves[..k], conn), moves[k], spot, conn)
  }

  lemma HandOutPaired(d: Desk, w: nat, out: seq<Outgoing>, spot: Spot, conn: Conn)
    requires ListsPaired(d, spot, conn) && IsInside(d, w)
    requires forall o :: o in out ==> Paired(o.msg, spot) && o.except != Some(conn)
    ensures ListsPaired(Go(d, HandOut(w, out)), spot, conn)
  {
    hide Paired;
  }

  lemma MotionKeepsPaired(d: Desk, m: Motion, spot: Spot, conn: Conn)
    requires ListsPaired(d, spot, conn) && !m.HandOut?
    ensures ListsPaired(Go(d, m), spot, conn)
  {
    hide Paired;
  }

  lemma QueuedPaired(j: Joint, m: Motion, spot: Spot, conn: Conn)
    requires ListsPaired(j.desk, spot, conn)
    ensures AllPaired(Queued(j, m, conn), spot)
  {
    hide Paired, Routed;
    if m.Next? && HasNext(j.desk, m.w) {
      RoutedOne(j.desk.lists[j.desk.workers[m.w].list][j.desk.workers[m.w].next], conn);
    }
  }

  lemma OperateIsWatched(j: Joint, w: nat, op: Op, spot: Spot, conn: Conn)
    requires Watched(j, spot, conn) && IsInside(j.desk, w) && SteadyMove(j, Operate(w, op), spot, conn)
    ensures Watched(Do(j, Operate(w, op), conn), spot, conn)
  {
    hide Step, Settled, Stands, Paired, NoClear, Allowed;
    StepIsPaired(j.server, op, spot, conn);
    HandOutPaired(j.desk, w, Step(j.server, op).out, spot, conn);
  }

  lemma ThreadIsWatched(j: Joint, m: Motion, spot: Spot, conn: Conn)
    requires Watched(j, spot, conn) && !m.HandOut?
    ensures Watched(Do(j, Thread(m), conn), spot, conn)
  {
    hide Settled, Stands, Paired, Routed, HasNext, Go;
    var j' := Do(j, Thread(m), conn);
    MotionKeepsPaired(j.desk, m, spot, conn);
    QueuedPaired(j, m, spot, conn);
    assert Intervals(j)[|j.past|] == j.raw;
    forall a | 0 <= a < |Intervals(j')| ensures AllPaired(Intervals(j')[a], spot) {
      assert AllPaired(Intervals(j)[a], spot);
    }
    NothingQueuedBefore(j, m, conn);
  }

  lemma NothingQueuedBefore(j: Joint, m: Motion, conn: Conn)
    ensures j.phase.Handshaking? ==> Queued(j, m, conn) == []
  {
  }

  lemma OtherIsWatched(j: Joint, e: Move, spot: Spot, conn: Conn)
    requires Watched(j, spot, conn) && !e.Thread? && !e.Operate?
    ensures Watched(Do(j, e, conn), spot, conn)
  {
    hide Settled, Stands, Paired, ListsPaired;
    var j' := Do(j, e, conn);
    if e.Post? && j.phase.Active? {
      assert Intervals(j') == Intervals(j) + [[]];
    } else {
      assert Intervals(j') == Intervals(j);
    }
  }

  lemma StartIsWatched(j: Joint, spot: Spot, conn: Conn)
    requires Starts(j) && Stands(j.server, spot)
    ensures Watched(j, spot, conn)
  {
  }

  lemma {:induction false} RunIsWatched(j: Joint, moves: seq<Move>, spot: Spot, conn: Conn)
    requires Starts(j) && Steady(j, moves, spot, conn)
    ensures Watched(DoAll(j, moves, conn), spot, conn)
    decreases |moves|
  {
    hide Watched, Starts, SteadyMove, Stands;
    if moves == [] {
      StartIsWatched(j, spot, conn);
    } else {
      var k := |moves| - 1;
      RunIsWatched(j, moves[..k], spot, conn);
      MoveIsWatched(DoAll(j, moves[..k], conn), moves[k], spot, conn);
    }
  }

  lemma MoveIsWatched(j: Joint, e: Move, spot: Spot, conn: Conn)
    requires Watched(j, spot, conn) && SteadyMove(j, e, spot, conn)
    ensures Watched(Do(j, e, conn), spot, conn)
  {
    hide Watched, SteadyMove, Go, Queued;
    match e
    case Thread(m) => if !m.HandOut? { ThreadIsWatched(j, m, spot, conn); }
    case Operate(w, op) => if IsInside(j.desk, w) { OperateIsWatched(j, w, op, spot, conn); }
    case _ => OtherIsWatched(j, e, spot, conn);
  }

  // ---------------------------------------------------------------- what the client ends with

  predicate WasSeen(j: Joint, spot: Spot) {
    At(j.seen, spot.name).value.Some?
  }

  lemma SnapshotSees(s: Table, c: Table, spot: Spot, conn: Conn)
    requires Settled(s) && Stands(s, spot) && ClientOk(c)
    requires At(s, spot.name).value.None? ==> !At(c, spot.name).localWrite
    ensures Sees(ApplyInitial(c, Snapshot(s, s.localmap), conn).table, spot, At(s, spot.name).value.Some?)
  {
    hide Settled, ApplyInitial, Snapshot, Shows, Absent, Alive, ClientOk, Missing;
    StandsAlive(s, spot);
    if At(s, spot.name).id == spot.id {
      SnapshotShowsIt(s, c, FromHere(s, spot), conn);
      SameSpot(ApplyInitial(c, Snapshot(s, s.localmap), conn).table, FromHere(s, spot), spot);
    } else {
      SnapshotLacks(s, c, spot, conn);
    }
  }

  lemma SameSpot(c: Table, a: Spot, b: Spot)
    requires Shows(c, a) && a.name == b.name && a.id == b.id
    ensures Shows(c, b)
  {
  }

  /**
   Whatever the interleaving, the client shows the entry in the end if and only if the last assignment or deletion of it
   that was queued since the snapshot is an assignment, or there was none and the snapshot had it. Otherwise it has
   nothing of it.
   */
  lemma ShownIff(j0: Joint, moves: seq<Move>, spot: Spot, c: Table, conn: Conn, up: Conn)
    requires Starts(j0) && Steady(j0, moves, spot, conn)
    requires var j := DoAll(j0, moves, conn);
             Open(j.phase) && (!WasSeen(j, spot) ==> !At(c, spot.name).localWrite)
    requires ClientOk(c)
    ensures var j := DoAll(j0, moves, conn);
            && Sees(View(j, c, up), spot, Fate(Flat(Intervals(j)), spot.id, WasSeen(j, spot)))
            && (At(View(j, c, up), spot.name).value.Some? <==> Fate(Flat(Intervals(j)), spot.id, WasSeen(j, spot)))
  {
    hide DoAll, Starts, Steady, Settled, Drain, ApplyInitial, Snapshot, Delivered, ClientOk, At, Fate, Sees,
         ListsPaired, IntervalsPaired;
    var j := DoAll(j0, moves, conn);
    RunIsWatched(j0, moves, spot, conn);
    SnapshotSees(j.seen, c, spot, up);
    DeliveredFate(Intervals(j), spot, WasSeen(j, spot));
    ClientSeesAll(ApplyInitial(c, Snapshot(j.seen, j.seen.localmap), up).table, Delivered(Intervals(j)), spot,
                  WasSeen(j, spot), up);
    SeesValue(View(j, c, up), spot, Fate(Flat(Intervals(j)), spot.id, WasSeen(j, spot)));
  }

  lemma SeesValue(c: Table, spot: Spot, shown: bool)
    requires Sees(c, spot, shown)
    ensures At(c, spot.name).value.Some? <==> shown
  {
  }

  /** So a deletion reaches the client if and only if no assignment of the entry was queued after the last deletion. */
  lemma DeletionReachesClientIff(j0: Joint, moves: seq<Move>, spot: Spot, c: Table, conn: Conn, up: Conn)
    requires Starts(j0) && Steady(j0, moves, spot, conn)
    requires var j := DoAll(j0, moves, conn);
             && Open(j.phase) && (!WasSeen(j, spot) ==> !At(c, spot.name).localWrite)
             && At(j.server, spot.name).value.None?
    requires ClientOk(c)
    ensures var j := DoAll(j0, moves, conn);
            At(View(j, c, up), spot.name).value == At(j.server, spot.name).value
            <==> !Fate(Flat(Intervals(j)), spot.id, WasSeen(j, spot))
  {
    hide DoAll, Starts, Steady, View, ClientOk, At, Fate, Sees;
    ShownIff(j0, moves, spot, c, conn, up);
  }
}
