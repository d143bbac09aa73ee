/**
 A client that joins while the server is being written. Operations run under the storage lock, but what they send is
 queued after the lock is released, so that the snapshot and the queued messages may overlap, and messages may
 overtake each other on their way to the queue of the connection, which keeps of several pending writes to an entry
 the one that is queued last.
 */
module Joining {
  import opened Wrappers
  import opened Protocol
  import opened Serial
  import opened StorageSpec
  import opened Index
  import opened Network
  import opened HandshakeSpec
  import opened Handshake
  import opened Coalescer
  import opened Survivors
  import opened Arrivals
  import opened Handout
  import opened Tracking

  datatype Phase = Handshaking | Synchronized | Active | Dead

  /**
   `seen` is the table that the snapshot shows. `raw` is what has been queued on the joining connection since the
   last post, and `past` the same for each earlier post.
   */
  datatype Joint = Joint(
    server: Table,
    desk: Desk,
    phase: Phase,
    seen: Table,
    past: seq<seq<Message>>,
    raw: seq<Message>)

  datatype Move =
    | Thread(motion: Motion)
    | Operate(w: nat, op: Op)
    | TakeSnapshot
    | Activate
    | Post
    | Die

  predicate Open(phase: Phase) {
    phase.Synchronized? || phase.Active?
  }

  /** What the motion of a thread queues on the connection. */
  function Queued(j: Joint, m: Motion, conn: Conn): seq<Message> {
    if m.Next? && HasNext(j.desk, m.w) && Open(j.phase) then
      var w := j.desk.workers[m.w];
      Routed([j.desk.lists[w.list][w.next]], conn)
    else []
  }

  /** A move that is not possible changes nothing. */
  function Do(j: Joint, e: Move, conn: Conn): Joint {
    match e
    case Thread(m) =>
      if m.HandOut? then j else j.(desk := Go(j.desk, m), raw := j.raw + Queued(j, m, conn))
    case Operate(w, op) =>
      if IsInside(j.desk, w) then
        var eff := Step(j.server, op);
        j.(server := eff.table, desk := Go(j.desk, HandOut(w, eff.out)))
      else j
    case TakeSnapshot =>
      if j.phase.Handshaking? && Free(j.desk) then j.(phase := Synchronized, seen := j.server) else j
    case Activate => if j.phase.Synchronized? then j.(phase := Active) else j
    case Post => if j.phase.Active? then j.(past := j.past + [j.raw], raw := []) else j
    case Die => j.(phase := Dead)
  }

  function DoAll(j: Joint, moves: seq<Move>, conn: Conn): Joint {
    if moves == [] then j else Do(DoAll(j, moves[..|moves| - 1], conn), moves[|moves| - 1], conn)
  }

  /** What was queued between the posts, the next one included. */
  function Intervals(j: Joint): seq<seq<Message>> {
    j.past + [j.raw]
  }

  /** What the client reads of it. */
  function Delivered(bs: seq<seq<Message>>): seq<Message> {
    if bs == [] then [] else Delivered(bs[..|bs| - 1]) + Compact(EnqueueAll(bs[|bs| - 1]).list)
  }

  /** The client's table once it has applied the snapshot and everything that was queued since. */
  function View(j: Joint, c: Table, conn: Conn): Table {
    Drain(ApplyInitial(c, Snapshot(j.seen, j.seen.localmap), conn).table, Delivered(Intervals(j)), conn).table
  }

  // ---------------------------------------------------------------- what the messages say

  predicate AllKnown(ms: seq<Message>, spot: Spot, log: Log) {
    forall m :: m in ms ==> Known(m, spot, log)
  }

  predicate ListsKnown(d: Desk, spot: Spot, log: Log, conn: Conn) {
    forall l, p :: 0 <= l < |d.lists| && 0 <= p < |d.lists[l]| ==>
      Known(d.lists[l][p].msg, spot, log) && d.lists[l][p].except != Some(conn)
  }

  predicate IntervalsKnown(bs: seq<seq<Message>>, spot: Spot, log: Log) {
    forall a :: 0 <= a < |bs| ==> AllKnown(bs[a], spot, log)
  }

  predicate Grows(log: Log, log': Log) {
    forall s :: s in log ==> s in log' && log'[s] == log[s]
  }

  lemma KnownGrows(d: Desk, bs: seq<seq<Message>>, spot: Spot, log: Log, log': Log, conn: Conn)
    requires ListsKnown(d, spot, log, conn) && IntervalsKnown(bs, spot, log) && Grows(log, log')
    ensures ListsKnown(d, spot, log', conn) && IntervalsKnown(bs, spot, log')
  {
  }

  predicate PendingKnown(list: seq<Option<Message>>, spot: Spot, log: Log) {
    forall k :: 0 <= k < |list| && list[k].Some? ==> Known(list[k].value, spot, log)
  }

  lemma EnqueueKeepsKnown(p: Pending, m: Message, spot: Spot, log: Log)
    requires Coalescer.Valid(p) && PendingKnown(p.list, spot, log) && Known(m, spot, log)
    ensures PendingKnown(Enqueue(p, m).list, spot, log)
  {
    if IsWrite(m) && m.id in p.slots { assert PairOk(p, m.id); }
    if m.FlagsUpdate? && m.id in p.slots { assert PairOk(p, m.id); }
    if m.EntryDelete? && m.id in p.slots { assert PairOk(p, m.id); }
  }

  lemma {:induction false} QueueKeepsKnown(ms: seq<Message>, spot: Spot, log: Log)
    requires AllKnown(ms, spot, log)
    ensures PendingKnown(EnqueueAll(ms).list, spot, log)
    ensures AllKnown(Compact(EnqueueAll(ms).list), spot, log)
  {
    hide Known, Enqueue, Coalescer.Valid;
    if ms != [] {
      QueueKeepsKnown(ms[..|ms| - 1], spot, log);
      assert ms[|ms| - 1] in ms;
      EnqueueKeepsKnown(EnqueueAll(ms[..|ms| - 1]), ms[|ms| - 1], spot, log);
    }
    forall m | m in Compact(EnqueueAll(ms).list) ensures Known(m, spot, log) {
      InCompact(EnqueueAll(ms).list, m);
    }
  }

  lemma {:induction false} DeliveredKnown(bs: seq<seq<Message>>, spot: Spot, log: Log)
    requires IntervalsKnown(bs, spot, log)
    ensures AllKnown(Delivered(bs), spot, log)
  {
    hide Known;
    if bs != [] {
      assert AllKnown(bs[|bs| - 1], spot, log);
      assert IntervalsKnown(bs[..|bs| - 1], spot, log);
      DeliveredKnown(bs[..|bs| - 1], spot, log);
      QueueKeepsKnown(bs[|bs| - 1], spot, log);
    }
  }

  predicate Delivers(ms: seq<Message>, id: nat, x: U16) {
    exists m :: m in ms && Writes(m, id) && m.seqNum == x
  }

  predicate SurvivesSomewhere(bs: seq<seq<Message>>, id: nat, x: U16) {
    exists a :: 0 <= a < |bs| && SurvivesWith(bs[a], id, x)
  }

  /** What survives in the queues is what is delivered. */
  lemma {:induction false} DeliveredWrites(bs: seq<seq<Message>>, spot: Spot, log: Log, x: U16)
    requires spot.id != UNASSIGNED && IntervalsKnown(bs, spot, log)
    ensures Delivers(Delivered(bs), spot.id, x) <==> SurvivesSomewhere(bs, spot.id, x)
  {
    hide SurvivesWith, EnqueueAll, Compact;
    if bs != [] {
      var k := |bs| - 1;
      assert IntervalsKnown(bs[..k], spot, log);
      DeliveredWrites(bs[..k], spot, log, x);
      assert AllKnown(bs[k], spot, log);
      IntervalWrites(bs[k], spot.id, x);
      SplitDelivers(Delivered(bs[..k]), Compact(EnqueueAll(bs[k]).list), spot.id, x);
      SplitSurvives(bs, spot.id, x);
    }
  }

  lemma IntervalWrites(ms: seq<Message>, id: nat, x: U16)
    requires id != UNASSIGNED && forall m :: m in ms ==> Stays(m, id)
    ensures Delivers(Compact(EnqueueAll(ms).list), id, x) <==> SurvivesWith(ms, id, x)
  {
    SurvivingWrites(ms, id, x);
    hide SurvivesWith, EnqueueAll, Compact;
    assert forall m :: Writes(m, id) <==> WriteOf(m, id);
  }

  lemma SplitDelivers(xs: seq<Message>, ys: seq<Message>, id: nat, x: U16)
    ensures Delivers(xs + ys, id, x) <==> Delivers(xs, id, x) || Delivers(ys, id, x)
  {
    assert forall m :: m in xs + ys <==> m in xs || m in ys;
  }

  lemma SplitSurvives(bs: seq<seq<Message>>, id: nat, x: U16)
    requires bs != []
    ensures SurvivesSomewhere(bs, id, x) <==>
            SurvivesSomewhere(bs[..|bs| - 1], id, x) || SurvivesWith(bs[|bs| - 1], id, x)
  {
    hide SurvivesWith;
    var k := |bs| - 1;
    if SurvivesSomewhere(bs[..k], id, x) {
      var a :| 0 <= a < k && SurvivesWith(bs[..k][a], id, x);
      assert SurvivesWith(bs[a], id, x);
    }
    if SurvivesSomewhere(bs, id, x) {
      var a :| 0 <= a < |bs| && SurvivesWith(bs[a], id, x);
      if a < k { assert SurvivesWith(bs[..k][a], id, x); }
    }
  }

  /** To arrive in time is to be among the timely writes of what is read. */
  lemma {:induction false} TimelyIsInTime(ms: seq<Message>, id: nat, x: U16)
    ensures x in Timely(ms, id, false) <==> ArrivesInTime(ms, id, x)
    ensures HasAssign(ms, id) <==> exists f: nat :: FirstAssign(ms, id, f)
  {
    FirstIsSome(ms, id);
    if ms != [] {
      var k := |ms| - 1;
      TimelyIsInTime(ms[..k], id, x);
      hide Timely, HasAssign;
      LastTimely(ms, id, x);
      LastInTime(ms, id, x);
    }
  }

  lemma LastTimely(ms: seq<Message>, id: nat, x: U16)
    requires ms != []
    ensures x in Timely(ms, id, false) <==>
            x in Timely(ms[..|ms| - 1], id, false)
            || (Writes(ms[|ms| - 1], id) && HasAssign(ms, id) && ms[|ms| - 1].seqNum == x)
  {
  }

  lemma FirstIsSome(ms: seq<Message>, id: nat)
    ensures HasAssign(ms, id) <==> exists f: nat :: FirstAssign(ms, id, f)
  {
    assert forall k :: 0 <= k < |ms| ==> ms[k] in ms;
    if forall f: nat :: !FirstAssign(ms, id, f) { NoFirstAssign(ms, id); }
    if f: nat :| FirstAssign(ms, id, f) { assert Assigns(ms[f], id); }
  }

  lemma FirstOfPrefix(ms: seq<Message>, id: nat, f: nat)
    requires ms != [] && f < |ms| - 1
    ensures FirstAssign(ms[..|ms| - 1], id, f) <==> FirstAssign(ms, id, f)
  {
    assert forall j :: 0 <= j < |ms| - 1 ==> ms[..|ms| - 1][j] == ms[j];
  }

  lemma LastInTime(ms: seq<Message>, id: nat, x: U16)
    requires ms != []
    ensures ArrivesInTime(ms, id, x) <==>
            ArrivesInTime(ms[..|ms| - 1], id, x)
            || (Writes(ms[|ms| - 1], id) && HasAssign(ms, id) && ms[|ms| - 1].seqNum == x)
  {
    var l := |ms| - 1;
    FirstIsSome(ms, id);
    hide FirstAssign, HasAssign;
    forall f: nat | f < l ensures FirstAssign(ms[..l], id, f) <==> FirstAssign(ms, id, f) { FirstOfPrefix(ms, id, f); }
    if ArrivesInTime(ms, id, x) {
      var f, k :| 0 <= f <= k < |ms| && FirstAssign(ms, id, f) && Writes(ms[k], id) && ms[k].seqNum == x;
      assert k < l ==> FirstAssign(ms[..l], id, f) && ms[..l][k] == ms[k];
    }
    if ArrivesInTime(ms[..l], id, x) {
      var f, k :| 0 <= f <= k < l && FirstAssign(ms[..l], id, f) && Writes(ms[..l][k], id) && ms[..l][k].seqNum == x;
      assert FirstAssign(ms, id, f) && ms[..l][k] == ms[k];
    }
    if f: nat :| FirstAssign(ms, id, f) { FirstIsBefore(ms, id, f); }
  }

  lemma FirstIsBefore(ms: seq<Message>, id: nat, f: nat)
    requires FirstAssign(ms, id, f)
    ensures f < |ms|
  {
  }

  lemma StaysKnown(ms: seq<Message>, spot: Spot, log: Log)
    requires AllKnown(ms, spot, log)
    ensures forall m :: m in ms ==> Stays(m, spot.id)
  {
  }

  lemma SplitInTime(bs: seq<seq<Message>>, id: nat, x: U16)
    requires bs != []
    ensures var k := |bs| - 1;
            && (QueuedInTime(bs, id, x) <==>
                  QueuedInTime(bs[..k], id, x) || SurvivesInTime(bs[k], id, x, AssignedBefore(bs, k, id)))
            && (AssignedBefore(bs, |bs|, id) <==> AssignedBefore(bs[..k], k, id) || HasAssign(bs[k], id))
            && (AssignedBefore(bs, k, id) <==> AssignedBefore(bs[..k], k, id))
  {
    hide SurvivesInTime, HasAssign;
    var k := |bs| - 1;
    forall a: nat | a <= k ensures AssignedBefore(bs[..k], a, id) <==> AssignedBefore(bs, a, id) {
      if b :| 0 <= b < a && b < |bs| && HasAssign(bs[b], id) { assert HasAssign(bs[..k][b], id); }
      if b :| 0 <= b < a && b < |bs[..k]| && HasAssign(bs[..k][b], id) { assert HasAssign(bs[b], id); }
    }
    if a :| 0 <= a < |bs| && SurvivesInTime(bs[a], id, x, AssignedBefore(bs, a, id)) {
      if a < k { assert SurvivesInTime(bs[..k][a], id, x, AssignedBefore(bs[..k], a, id)); }
    }
    if a :| 0 <= a < |bs[..k]| && SurvivesInTime(bs[..k][a], id, x, AssignedBefore(bs[..k], a, id)) {
      assert SurvivesInTime(bs[a], id, x, AssignedBefore(bs, a, id));
    }
    if b :| 0 <= b < |bs| && HasAssign(bs[b], id) {
      assert b < k ==> HasAssign(bs[..k][b], id);
    }
    if b :| 0 <= b < k && b < |bs[..k]| && HasAssign(bs[..k][b], id) { assert HasAssign(bs[b], id); }
  }

  lemma {:induction false} DeliveredTimely(bs: seq<seq<Message>>, spot: Spot, log: Log, x: U16)
    requires spot.id != UNASSIGNED && IntervalsKnown(bs, spot, log)
    ensures x in Timely(Delivered(bs), spot.id, false) <==> QueuedInTime(bs, spot.id, x)
    ensures HasAssign(Delivered(bs), spot.id) <==> AssignedBefore(bs, |bs|, spot.id)
    decreases |bs|
  {
    hide Timely, HasAssign, QueuedInTime, AssignedBefore, SurvivesInTime, EnqueueAll, Compact, AllKnown;
    if bs == [] {
      NothingTimely(spot.id, x);
    } else {
      var k, id := |bs| - 1, spot.id;
      assert AllKnown(bs[k], spot, log) && IntervalsKnown(bs[..k], spot, log);
      DeliveredTimely(bs[..k], spot, log, x);
      StaysKnown(bs[k], spot, log);
      var known := HasAssign(Delivered(bs[..k]), id);
      TimelyAfterQueue(bs[k], id, known, x);
      TimelyConcat(Delivered(bs[..k]), Compact(EnqueueAll(bs[k]).list), id, false);
      HasAssignConcat(Delivered(bs[..k]), Compact(EnqueueAll(bs[k]).list), id);
      SplitInTime(bs, id, x);
    }
  }

  lemma NothingTimely(id: nat, x: U16)
    ensures Timely([], id, false) == {} && !QueuedInTime([], id, x) && !HasAssign([], id) && !AssignedBefore([], 0, id)
  {
  }

  lemma DeliveredInTime(bs: seq<seq<Message>>, spot: Spot, log: Log, x: U16)
    requires spot.id != UNASSIGNED && IntervalsKnown(bs, spot, log)
    ensures ArrivesInTime(Delivered(bs), spot.id, x) <==> QueuedInTime(bs, spot.id, x)
  {
    TimelyIsInTime(Delivered(bs), spot.id, x);
    DeliveredTimely(bs, spot, log, x);
  }

  // ---------------------------------------------------------------- one entry of the server

  predicate Lives(t: Table, spot: Spot) {
    Alive(t, spot) || Unborn(t, spot)
  }

  /** The log has what the entry has held, and the entry holds the last of it. */
  predicate Logged(t: Table, spot: Spot, log: Log) {
    (Alive(t, spot) && Tops(t, spot, log)) || (Unborn(t, spot) && log == map[])
  }

  /** One writer of the entry at a time, and nobody clears. */
  predicate MoveOk(j: Joint, e: Move, spot: Spot, conn: Conn) {
    e.Operate? && IsInside(j.desk, e.w) ==>
      && Allowed(ServerOp(e.op), conn) && NoClear(e.op)
      && (Alive(j.server, spot) ==> NoTie(j.server, Step(j.server, e.op).table, spot))
  }

  lemma AliveIsNotUnborn(t: Table, t': Table, spot: Spot)
    requires Settled(t) && Alive(t, spot) && Extends(t, t')
    ensures !Unborn(t', spot)
  {
    AliveHasCell(t, spot);
  }

  lemma NotUnborn(t: Table, spot: Spot, log: Log)
    requires Settled(t) && Logged(t, spot, log) && Alive(t, spot)
    ensures Tops(t, spot, log) && spot.id != UNASSIGNED
  {
    AliveIsNotUnborn(t, t, spot);
  }

  lemma LoggedStep(t: Table, op: Op, spot: Spot, log: Log, conn: Conn) returns (log': Log)
    requires Settled(t) && t.server && Logged(t, spot, log) && Lives(Step(t, op).table, spot)
    requires Allowed(ServerOp(op), conn) && NoClear(op)
    requires Alive(t, spot) ==> NoTie(t, Step(t, op).table, spot)
    ensures Settled(Step(t, op).table) && Step(t, op).table.server
    ensures var e := Step(t, op);
            && Logged(e.table, spot, log') && Grows(log, log')
            && (forall o :: o in e.out ==> Known(o.msg, spot, log') && o.except != Some(conn))
            && (Alive(e.table, spot) ==>
                  || (Alive(t, spot) && At(e.table, spot.name).seqNum == At(t, spot.name).seqNum)
                  || (e.out != [] && Brings(e.out[0].msg, e.table, spot)))
  {
    hide Step, Settled, Alive, Unborn, Tops, Known, Brings, NoTie, Allowed, NoClear;
    var e := Step(t, op);
    if Alive(t, spot) {
      NotUnborn(t, spot, log);
      AliveIsNotUnborn(t, e.table, spot);
      log' := GoesOn(t, op, spot, log, conn);
    } else if Alive(e.table, spot) {
      log' := IsBorn(t, op, spot, conn);
    } else {
      UnbornStep(t, op, spot, conn);
      log' := log;
    }
  }

  lemma GoesOn(t: Table, op: Op, spot: Spot, log: Log, conn: Conn) returns (log': Log)
    requires Settled(t) && t.server && Alive(t, spot) && Tops(t, spot, log) && Alive(Step(t, op).table, spot)
    requires Allowed(ServerOp(op), conn) && NoClear(op) && NoTie(t, Step(t, op).table, spot)
    ensures Settled(Step(t, op).table) && Step(t, op).table.server
    ensures var e := Step(t, op);
            && Tops(e.table, spot, log') && Grows(log, log')
            && (forall o :: o in e.out ==> Known(o.msg, spot, log') && o.except != Some(conn))
            && (|| At(e.table, spot.name).seqNum == At(t, spot.name).seqNum
                || (e.out != [] && Brings(e.out[0].msg, e.table, spot)))
  {
    hide Step, Settled, Alive, Tops, Known, Brings, NoTie, Allowed, NoClear;
    SpotStep(t, op, spot, log, conn);
    log' := Extended(log, Step(t, op).table, spot);
  }

  lemma IsBorn(t: Table, op: Op, spot: Spot, conn: Conn) returns (log': Log)
    requires Settled(t) && t.server && Unborn(t, spot) && Alive(Step(t, op).table, spot)
    requires Allowed(ServerOp(op), conn) && NoClear(op)
    ensures Settled(Step(t, op).table) && Step(t, op).table.server
    ensures var e := Step(t, op);
            && Tops(e.table, spot, log')
            && (forall o :: o in e.out ==> Known(o.msg, spot, log') && o.except != Some(conn))
            && e.out != [] && Brings(e.out[0].msg, e.table, spot)
  {
    hide Step, Settled, Alive, Unborn, Tops, Known, Brings, Allowed, NoClear;
    BirthStep(t, op, spot, conn);
    log' := Extended(map[], Step(t, op).table, spot);
  }

  // ---------------------------------------------------------------- the invariant

  /** The snapshot shows the entry with a value that it has had, or does not show it. */
  predicate SeenOk(seen: Table, spot: Spot, log: Log) {
    Settled(seen) && ((Alive(seen, spot) && Holds(seen, spot, log)) || Unborn(seen, spot))
  }

  predicate Tracked(j: Joint, spot: Spot, log: Log, conn: Conn) {
    && Settled(j.server) && j.server.server && Logged(j.server, spot, log) && Sane(j.desk)
    && ListsKnown(j.desk, spot, log, conn) && IntervalsKnown(Intervals(j), spot, log)
    && (j.phase.Handshaking? ==> j.past == [] && j.raw == [])
    && (Open(j.phase) ==> SeenOk(j.seen, spot, log))
  }

  predicate SnapshotHas(j: Joint, spot: Spot) {
    At(j.seen, spot.name).value.Some? && At(j.seen, spot.name).seqNum == At(j.server, spot.name).seqNum
  }

  /** The message that brings what the entry holds now has been queued since the snapshot. */
  predicate Arrived(j: Joint, spot: Spot) {
    exists a, k :: 0 <= a < |Intervals(j)| && 0 <= k < |Intervals(j)[a]| && Brings(Intervals(j)[a][k], j.server, spot)
  }

  predicate ListHas(j: Joint, l: nat, p: nat, spot: Spot) {
    && l < |j.desk.lists| && p < |j.desk.lists[l]| && Brings(j.desk.lists[l][p].msg, j.server, spot)
    && ((l, p) in j.desk.taken ==> Arrived(j, spot))
  }

  /** It is in the snapshot, or some list has it; and if a loop has come to it, it has been queued. */
  ghost predicate HandedOn(j: Joint, spot: Spot) {
    Open(j.phase) && Alive(j.server, spot) ==> SnapshotHas(j, spot) || exists l: nat, p: nat :: ListHas(j, l, p, spot)
  }

  lemma OperateKeepsTracked(j: Joint, w: nat, op: Op, spot: Spot, log: Log, conn: Conn) returns (log': Log)
    requires Tracked(j, spot, log, conn) && HandedOn(j, spot) && IsInside(j.desk, w)
    requires MoveOk(j, Operate(w, op), spot, conn) && Lives(Step(j.server, op).table, spot)
    ensures Tracked(Do(j, Operate(w, op), conn), spot, log', conn) && HandedOn(Do(j, Operate(w, op), conn), spot)
  {
    hide Step, Settled, Alive, Unborn, Tops, Known, Brings, NoTie, Allowed, NoClear, Sane, Logged, Lives;
    var j', out := Do(j, Operate(w, op), conn), Step(j.server, op).out;
    log' := LoggedStep(j.server, op, spot, log, conn);
    KnownGrows(j.desk, Intervals(j), spot, log, log', conn);
    GoKeepsSane(j.desk, HandOut(w, out));
    HandOutKnown(j.desk, w, out, spot, log', conn);
    SeenGrows(j, spot, log, log');
    if Open(j.phase) && Alive(j'.server, spot) {
      if out != [] && Brings(out[0].msg, j'.server, spot) {
        NewIsCarried(j, w, op, spot, conn);
      } else {
        SameIsCarried(j, w, op, spot, conn);
      }
    }
  }

  lemma SeenGrows(j: Joint, spot: Spot, log: Log, log': Log)
    requires Open(j.phase) ==> SeenOk(j.seen, spot, log)
    requires Grows(log, log')
    ensures Open(j.phase) ==> SeenOk(j.seen, spot, log')
  {
    hide Settled, Alive, Unborn;
  }

  lemma HandOutKnown(d: Desk, w: nat, out: seq<Outgoing>, spot: Spot, log: Log, conn: Conn)
    requires ListsKnown(d, spot, log, conn) && IsInside(d, w)
    requires forall o :: o in out ==> Known(o.msg, spot, log) && o.except != Some(conn)
    ensures ListsKnown(Go(d, HandOut(w, out)), spot, log, conn)
  {
    hide Known;
  }

  lemma NewIsCarried(j: Joint, w: nat, op: Op, spot: Spot, conn: Conn)
    requires Sane(j.desk) && IsInside(j.desk, w)
    requires var e := Step(j.server, op); e.out != [] && Brings(e.out[0].msg, e.table, spot)
    ensures var j', l := Do(j, Operate(w, op), conn), j.desk.workers[w].own;
            l < |j.desk.lists| && ListHas(j', l, |j.desk.lists[l]|, spot)
  {
    hide Step, Brings;
    var l := j.desk.workers[w].own;
    assert (l, |j.desk.lists[l]|) !in j.desk.taken;
  }

  lemma SameIsCarried(j: Joint, w: nat, op: Op, spot: Spot, conn: Conn)
    requires HandedOn(j, spot) && Open(j.phase) && Alive(j.server, spot) && IsInside(j.desk, w)
    requires At(Step(j.server, op).table, spot.name).seqNum == At(j.server, spot.name).seqNum
    ensures HandedOn(Do(j, Operate(w, op), conn), spot)
  {
    hide Step, Alive;
    var j' := Do(j, Operate(w, op), conn);
    if !SnapshotHas(j, spot) {
      var l: nat, p: nat :| ListHas(j, l, p, spot);
      SameArrived(j, w, op, spot, conn);
      assert ListHas(j', l, p, spot);
    }
  }

  lemma SameArrived(j: Joint, w: nat, op: Op, spot: Spot, conn: Conn)
    requires At(Step(j.server, op).table, spot.name).seqNum == At(j.server, spot.name).seqNum && IsInside(j.desk, w)
    ensures Arrived(j, spot) ==> Arrived(Do(j, Operate(w, op), conn), spot)
  {
    hide Step, At, Go, IsInside;
    var j' := Do(j, Operate(w, op), conn);
    if Arrived(j, spot) {
      var a, k :| 0 <= a < |Intervals(j)| && 0 <= k < |Intervals(j)[a]| && Brings(Intervals(j)[a][k], j.server, spot);
      assert Brings(Intervals(j')[a][k], j'.server, spot);
    }
  }

  lemma ThreadKeepsTracked(j: Joint, m: Motion, spot: Spot, log: Log, conn: Conn)
    requires Tracked(j, spot, log, conn) && !m.HandOut?
    ensures Tracked(Do(j, Thread(m), conn), spot, log, conn)
  {
    hide Settled, Known, Sane, Logged, SeenOk, Routed, HasNext;
    var j' := Do(j, Thread(m), conn);
    GoKeepsSane(j.desk, m);
    MotionKeepsLists(j.desk, m, spot, log, conn);
    assert Intervals(j)[|j.past|] == j.raw;
    forall a | 0 <= a < |Intervals(j')| ensures AllKnown(Intervals(j')[a], spot, log) {
      assert AllKnown(Intervals(j)[a], spot, log);
      QueuedKnown(j, m, spot, log, conn);
    }
  }

  lemma MotionKeepsLists(d: Desk, m: Motion, spot: Spot, log: Log, conn: Conn)
    requires ListsKnown(d, spot, log, conn) && !m.HandOut?
    ensures ListsKnown(Go(d, m), spot, log, conn)
  {
    hide Known;
  }

  lemma QueuedKnown(j: Joint, m: Motion, spot: Spot, log: Log, conn: Conn)
    requires ListsKnown(j.desk, spot, log, conn)
    ensures AllKnown(Queued(j, m, conn), spot, log)
    ensures m.Next? && HasNext(j.desk, m.w) ==> m.w < |j.desk.workers| && j.desk.workers[m.w].Looping?
    ensures m.Next? && HasNext(j.desk, m.w) && Open(j.phase) ==>
              Queued(j, m, conn) == [j.desk.lists[j.desk.workers[m.w].list][j.desk.workers[m.w].next].msg]
    ensures m.Next? ==> Go(j.desk, m).taken
                        == j.desk.taken + (if HasNext(j.desk, m.w)
                                           then [(j.desk.workers[m.w].list, j.desk.workers[m.w].next)] else [])
  {
    hide Known, Routed;
    if m.Next? && HasNext(j.desk, m.w) {
      RoutedOne(j.desk.lists[j.desk.workers[m.w].list][j.desk.workers[m.w].next], conn);
    }
  }

  lemma ThreadKeepsHandedOn(j: Joint, m: Motion, spot: Spot, log: Log, conn: Conn)
    requires Tracked(j, spot, log, conn) && HandedOn(j, spot) && !m.HandOut?
    ensures HandedOn(Do(j, Thread(m), conn), spot)
  {
    hide Tracked, Alive, Brings, Known;
    var j' := Do(j, Thread(m), conn);
    if Open(j.phase) && Alive(j.server, spot) && !SnapshotHas(j, spot) {
      var l: nat, p: nat :| ListHas(j, l, p, spot);
      ListsOf(j, spot, log, conn);
      if Arrived(j, spot) { StaysArrived(j, m, spot, conn); }
      if (l, p) in j'.desk.taken && (l, p) !in j.desk.taken { JustTaken(j, m, l, p, spot, log, conn); }
      assert ListHas(j', l, p, spot);
    }
  }

  lemma ListsOf(j: Joint, spot: Spot, log: Log, conn: Conn)
    requires Tracked(j, spot, log, conn)
    ensures ListsKnown(j.desk, spot, log, conn)
  {
  }

  lemma StaysArrived(j: Joint, m: Motion, spot: Spot, conn: Conn)
    requires Arrived(j, spot) && !m.HandOut?
    ensures Arrived(Do(j, Thread(m), conn), spot)
  {
    hide Brings, Queued, Go;
    var j' := Do(j, Thread(m), conn);
    var a, k :| 0 <= a < |Intervals(j)| && 0 <= k < |Intervals(j)[a]| && Brings(Intervals(j)[a][k], j.server, spot);
    assert Brings(Intervals(j')[a][k], j'.server, spot);
  }

  lemma JustTaken(j: Joint, m: Motion, l: nat, p: nat, spot: Spot, log: Log, conn: Conn)
    requires ListsKnown(j.desk, spot, log, conn) && Open(j.phase) && !m.HandOut?
    requires (l, p) in Go(j.desk, m).taken && (l, p) !in j.desk.taken
    requires l < |j.desk.lists| && p < |j.desk.lists[l]| && Brings(j.desk.lists[l][p].msg, j.server, spot)
    ensures Arrived(Do(j, Thread(m), conn), spot)
  {
    QueuedKnown(j, m, spot, log, conn);
    hide Brings, Queued, Known, HasNext;
    var j' := Do(j, Thread(m), conn);
    assert m.Next? && HasNext(j.desk, m.w);
    assert Intervals(j')[|j.past|] == j.raw + [j.desk.lists[l][p].msg];
    assert Brings(Intervals(j')[|j.past|][|j.raw|], j'.server, spot);
  }

  lemma SnapshotKeepsTracked(j: Joint, spot: Spot, log: Log, conn: Conn)
    requires Tracked(j, spot, log, conn) && HandedOn(j, spot)
    ensures Tracked(Do(j, TakeSnapshot, conn), spot, log, conn) && HandedOn(Do(j, TakeSnapshot, conn), spot)
  {
    hide Settled, Alive, Unborn, Known, Sane, ListsKnown, IntervalsKnown, Brings, At;
    if Alive(j.server, spot) {
      NotUnborn(j.server, spot, log);
      assert Holds(j.server, spot, log);
    }
    assert Intervals(Do(j, TakeSnapshot, conn)) == Intervals(j);
  }

  lemma PostKeepsTracked(j: Joint, spot: Spot, log: Log, conn: Conn)
    requires Tracked(j, spot, log, conn) && HandedOn(j, spot)
    ensures Tracked(Do(j, Post, conn), spot, log, conn) && HandedOn(Do(j, Post, conn), spot)
  {
    hide Settled, Alive, Logged, SeenOk, Known, Sane, ListsKnown, Brings;
    var j' := Do(j, Post, conn);
    if j.phase.Active? {
      assert Intervals(j') == Intervals(j) + [[]];
      if Arrived(j, spot) {
        var a, k :| 0 <= a < |Intervals(j)| && 0 <= k < |Intervals(j)[a]|
                    && Brings(Intervals(j)[a][k], j.server, spot);
        assert Brings(Intervals(j')[a][k], j'.server, spot);
      }
      if Alive(j.server, spot) && !SnapshotHas(j, spot) {
        var l: nat, p: nat :| ListHas(j, l, p, spot);
        assert ListHas(j', l, p, spot);
      }
    }
  }

  lemma PhaseKeepsTracked(j: Joint, e: Move, spot: Spot, log: Log, conn: Conn)
    requires Tracked(j, spot, log, conn) && HandedOn(j, spot) && (e.Activate? || e.Die?)
    ensures Tracked(Do(j, e, conn), spot, log, conn) && HandedOn(Do(j, e, conn), spot)
  {
    hide Settled, Alive, Logged, SeenOk, Known, Sane, ListsKnown, IntervalsKnown, Brings;
    var j' := Do(j, e, conn);
    assert Intervals(j') == Intervals(j);
    if Open(j'.phase) && Alive(j.server, spot) && !SnapshotHas(j, spot) {
      var l: nat, p: nat :| ListHas(j, l, p, spot);
      assert Arrived(j, spot) ==> Arrived(j', spot);
      assert ListHas(j', l, p, spot);
    }
  }

  // ---------------------------------------------------------------- whole runs

  /** The conditions on a run: the entry is not deleted, nobody clears, and it has one writer at a time. */
  predicate Orderly(j: Joint, moves: seq<Move>, spot: Spot, conn: Conn) {
    if moves == [] then Lives(j.server, spot)
    else
      var k := |moves| - 1;
      && Orderly(j, moves[..k], spot, conn)
      && MoveOk(DoAll(j, moves[..k], conn), moves[k], spot, conn)
      && Lives(DoAll(j, moves, conn).server, spot)
  }

  /** Nothing has been queued or handed out yet, and the client has not been served. */
  predicate Starts(j: Joint) {
    && Settled(j.server) && j.server.server && Fresh(j.desk)
    && j.phase.Handshaking? && j.past == [] && j.raw == []
  }

  lemma StartIsTracked(j: Joint, spot: Spot, conn: Conn) returns (log: Log)
    requires Starts(j) && Lives(j.server, spot)
    ensures Tracked(j, spot, log, conn) && HandedOn(j, spot)
  {
    hide Settled;
    if Alive(j.server, spot) {
      AliveHasCell(j.server, spot);
      log := Extended(map[], j.server, spot);
    } else {
      log := map[];
    }
  }

  lemma MoveKeepsTracked(j: Joint, e: Move, spot: Spot, log: Log, conn: Conn) returns (log': Log)
    requires Tracked(j, spot, log, conn) && HandedOn(j, spot)
    requires MoveOk(j, e, spot, conn) && Lives(Do(j, e, conn).server, spot)
    ensures Tracked(Do(j, e, conn), spot, log', conn) && HandedOn(Do(j, e, conn), spot)
  {
    log' := log;
    match e
    case Thread(m) =>
      hide Tracked, HandedOn, Go, Queued, MoveOk, Lives;
      if !m.HandOut? {
        ThreadKeepsTracked(j, m, spot, log, conn);
        ThreadKeepsHandedOn(j, m, spot, log, conn);
      }
    case Operate(w, op) =>
      hide Tracked, HandedOn, Go, MoveOk, Lives;
      if IsInside(j.desk, w) { log' := OperateKeepsTracked(j, w, op, spot, log, conn); }
    case TakeSnapshot => SnapshotKeepsTracked(j, spot, log, conn);
    case Activate => PhaseKeepsTracked(j, Activate, spot, log, conn);
    case Post => PostKeepsTracked(j, spot, log, conn);
    case Die => PhaseKeepsTracked(j, Die, spot, log, conn);
  }

  lemma {:induction false} RunIsTracked(j: Joint, moves: seq<Move>, spot: Spot, conn: Conn) returns (log: Log)
    requires Starts(j) && Orderly(j, moves, spot, conn)
    ensures Tracked(DoAll(j, moves, conn), spot, log, conn) && HandedOn(DoAll(j, moves, conn), spot)
    decreases |moves|
  {
    hide Tracked, HandedOn, Do, MoveOk, Lives, Starts;
    if moves == [] {
      log := StartIsTracked(j, spot, conn);
    } else {
      var k := |moves| - 1;
      log := RunIsTracked(j, moves[..k], spot, conn);
      log := MoveKeepsTracked(DoAll(j, moves[..k], conn), moves[k], spot, log, conn);
    }
  }

  // ---------------------------------------------------------------- when an entry is safe

  lemma SnapshotShowsIt(s: Table, c: Table, spot: Spot, conn: Conn)
    requires Settled(s) && Alive(s, spot) && ClientOk(c)
    ensures Shows(ApplyInitial(c, Snapshot(s, s.localmap), conn).table, spot)
    ensures At(ApplyInitial(c, Snapshot(s, s.localmap), conn).table, spot.name) == AfterInitial(s, c, spot.name, conn)
    ensures At(s, spot.name).value.Some?
  {
    AliveHasCell(s, spot);
    ClientInitialised(s, c, conn);
    hide Settled, ApplyInitial, Snapshot, Updates, Requests, RequestsOf, Handles;
    var t := ApplyInitial(c, Snapshot(s, s.localmap), conn).table;
    assert At(t, spot.name) == AfterInitial(s, c, spot.name, conn);
    forall k | k in t.entries && t.entries[k].id == spot.id ensures k == spot.name {
      assert At(t, k).id == spot.id;
    }
  }

  lemma SnapshotShows(s: Table, c: Table, spot: Spot, log: Log, conn: Conn)
    requires Settled(s) && Alive(s, spot) && Holds(s, spot, log) && ClientOk(c) && !Keeps(At(c, spot.name))
    ensures var t := ApplyInitial(c, Snapshot(s, s.localmap), conn).table;
            Shows(t, spot) && Holds(t, spot, log) && At(t, spot.name).seqNum == At(s, spot.name).seqNum
  {
    hide Settled, ApplyInitial, Snapshot, Shows, ClientOk, Alive;
    SnapshotShowsIt(s, c, spot, conn);
  }

  /** No entry has the id, and so no slot leads to it. */
  lemma FreeIsAbsent(t: Table, spot: Spot)
    requires Linked(t) && !t.server && At(t, spot.name) == At(t, spot.name).(value := None, id := UNASSIGNED)
    requires spot.id != UNASSIGNED && forall k {:trigger At(t, k)} :: At(t, k).id != spot.id
    ensures Absent(t, spot)
  {
    forall i: nat ensures Lookup(t, i) != Some(spot.name) && (i == spot.id ==> Lookup(t, i).None?) {
      if Lookup(t, i).Some? { assert At(t, Lookup(t, i).value).id == i; }
    }
    forall k | k in t.entries ensures t.entries[k].id != spot.id { assert At(t, k).id != spot.id; }
  }

  /** The entry has no value, and its id leads nowhere: it does not exist yet, or not any more. */
  predicate Missing(t: Table, spot: Spot) {
    At(t, spot.name).value.None? && Lookup(t, spot.id).None? && spot.id < UNASSIGNED
  }

  lemma MissingId(s: Table, c: Table, k: Text, spot: Spot, conn: Conn)
    requires Settled(s) && Missing(s, spot)
    ensures AfterInitial(s, c, k, conn).id != spot.id
  {
    if k in s.entries { assert RecordOk(s, k); }
    LiveHasId(s, k);
  }

  lemma SnapshotLacks(s: Table, c: Table, spot: Spot, conn: Conn)
    requires Settled(s) && Missing(s, spot) && ClientOk(c) && !At(c, spot.name).localWrite
    ensures Absent(ApplyInitial(c, Snapshot(s, s.localmap), conn).table, spot)
  {
    ClientInitialised(s, c, conn);
    hide Settled, ApplyInitial, Snapshot, Updates, Requests, RequestsOf, Handles, Linked, Absent;
    var t := ApplyInitial(c, Snapshot(s, s.localmap), conn).table;
    assert At(t, spot.name) == AfterInitial(s, c, spot.name, conn);
    forall k {:trigger At(t, k)} ensures At(t, k).id != spot.id {
      assert At(t, k) == AfterInitial(s, c, k, conn);
      MissingId(s, c, k, spot, conn);
    }
    FreeIsAbsent(t, spot);
  }

  /** What the client ends with is what the server has. */
  predicate SameThere(j: Joint, c: Table, spot: Spot, conn: Conn) {
    && At(View(j, c, conn), spot.name).value == At(j.server, spot.name).value
    && At(View(j, c, conn), spot.name).seqNum == At(j.server, spot.name).seqNum
  }

  lemma TopOfLog(t: Table, spot: Spot, log: Log)
    requires Alive(t, spot) && Tops(t, spot, log)
    ensures var top := At(t, spot.name).seqNum;
            && top in log && Some(log[top]) == At(t, spot.name).value
            && (forall s :: s in log ==> Place(spot, s) <= Place(spot, top) && Place(spot, s) < HALF)
  {
  }

  lemma SeenIsAlive(seen: Table, spot: Spot, log: Log)
    requires SeenOk(seen, spot, log)
    ensures At(seen, spot.name).value.Some? ==> Settled(seen) && Alive(seen, spot) && Holds(seen, spot, log)
    ensures At(seen, spot.name).value.None? ==> Settled(seen) && Unborn(seen, spot)
  {
    if Alive(seen, spot) { AliveHasCell(seen, spot); }
  }

  /**
   An entry that was in the snapshot ends at the server's value if and only if the snapshot had that value, or a
   write with its number survives in what was queued up to some post: the next thing queued about the entry before
   that post, if there was one, was a flags update. The order in which writes are queued decides, not their numbers.
   */
  lemma SnapshotEntrySafeIff(j0: Joint, moves: seq<Move>, spot: Spot, c: Table, conn: Conn, up: Conn)
    requires Starts(j0) && Orderly(j0, moves, spot, conn)
    requires var j := DoAll(j0, moves, conn);
             Open(j.phase) && At(j.seen, spot.name).value.Some? && Alive(j.server, spot)
    requires ClientOk(c) && !Keeps(At(c, spot.name))
    ensures var j := DoAll(j0, moves, conn);
            SameThere(j, c, spot, up)
            <==> SnapshotHas(j, spot) || SurvivesSomewhere(Intervals(j), spot.id, At(j.server, spot.name).seqNum)
  {
    hide DoAll, Starts, Orderly, Settled, Alive, Unborn, Tops, Holds, Known, Shows, Drain, ApplyInitial, Snapshot,
         Delivered, SurvivesSomewhere, ClientOk, Keeps, At, Sane, Logged, SeenOk;
    var j := DoAll(j0, moves, conn);
    var log := RunIsTracked(j0, moves, spot, conn);
    var top := At(j.server, spot.name).seqNum;
    NotUnborn(j.server, spot, log);
    TopOfLog(j.server, spot, log);
    SeenIsAlive(j.seen, spot, log);
    SnapshotShows(j.seen, c, spot, log, up);
    DeliveredKnown(Intervals(j), spot, log);
    var t := ApplyInitial(c, Snapshot(j.seen, j.seen.localmap), up).table;
    ShownEndsAtTopIff(t, Delivered(Intervals(j)), spot, log, top, up);
    DeliveredWrites(Intervals(j), spot, log, top);
  }

  /**
   An entry that was not in the snapshot ends at the server's value if and only if a write with its number survives in
   what was queued up to some post, and an assignment of the id was queued at or before it, or up to an earlier post.
   */
  lemma NewEntrySafeIff(j0: Joint, moves: seq<Move>, spot: Spot, c: Table, conn: Conn, up: Conn)
    requires Starts(j0) && Orderly(j0, moves, spot, conn)
    requires var j := DoAll(j0, moves, conn);
             Open(j.phase) && At(j.seen, spot.name).value.None? && Alive(j.server, spot)
    requires ClientOk(c) && !At(c, spot.name).localWrite
    ensures var j := DoAll(j0, moves, conn);
            SameThere(j, c, spot, up)
            <==> QueuedInTime(Intervals(j), spot.id, At(j.server, spot.name).seqNum)
  {
    hide DoAll, Starts, Orderly, Settled, Alive, Unborn, Tops, Holds, Known, Absent, Drain, ApplyInitial, Snapshot,
         Delivered, ArrivesInTime, ClientOk, At, Sane, Logged, SeenOk, QueuedInTime;
    var j := DoAll(j0, moves, conn);
    var log := RunIsTracked(j0, moves, spot, conn);
    var top := At(j.server, spot.name).seqNum;
    NotUnborn(j.server, spot, log);
    TopOfLog(j.server, spot, log);
    SeenIsAlive(j.seen, spot, log);
    SnapshotLacks(j.seen, c, spot, up);
    DeliveredKnown(Intervals(j), spot, log);
    var t := ApplyInitial(c, Snapshot(j.seen, j.seen.localmap), up).table;
    AbsentEndsAtTopIff(t, Delivered(Intervals(j)), spot, log, top, up);
    DeliveredInTime(Intervals(j), spot, log, top);
  }

  // ---------------------------------------------------------------- a run that is safe

  function MotionOf(j: Joint, e: Move): seq<Motion> {
    match e
    case Thread(m) => if m.HandOut? then [] else [m]
    case Operate(w, op) => if IsInside(j.desk, w) then [HandOut(w, Step(j.server, op).out)] else []
    case _ => []
  }

  /** The motions of the threads among the moves. */
  function MotionsOf(j: Joint, moves: seq<Move>, conn: Conn): seq<Motion> {
    if moves == [] then []
    else
      var k := |moves| - 1;
      MotionsOf(j, moves[..k], conn) + MotionOf(DoAll(j, moves[..k], conn), moves[k])
  }

  lemma GoAllNext(d: Desk, ms: seq<Motion>, m: Motion)
    ensures GoAll(d, ms + []) == GoAll(d, ms) && GoAll(d, ms + [m]) == Go(GoAll(d, ms), m)
  {
    assert ms + [] == ms && (ms + [m])[..|ms|] == ms;
  }

  lemma {:induction false} DeskMoves(j: Joint, moves: seq<Move>, conn: Conn)
    ensures DoAll(j, moves, conn).desk == GoAll(j.desk, MotionsOf(j, moves, conn))
  {
    hide Go, GoAll, Step, Queued, IsInside;
    if moves == [] {
      GoAllNone(j.desk);
    } else {
      var k := |moves| - 1;
      DeskMoves(j, moves[..k], conn);
      var m := MotionOf(DoAll(j, moves[..k], conn), moves[k]);
      GoAllNext(j.desk, MotionsOf(j, moves[..k], conn), if m == [] then Start(0) else m[0]);
      assert m == [] || m == [m[0]];
    }
  }

  /** The writes of the entry are queued in the order in which they were made. */
  predicate QueuedInOrder(ms: seq<Message>, spot: Spot) {
    forall i, k :: 0 <= i < k < |ms| && Writes(ms[i], spot.id) && Writes(ms[k], spot.id) ==>
      Place(spot, ms[i].seqNum) <= Place(spot, ms[k].seqNum)
  }

  lemma {:induction false} LastInOrderSurvives(ms: seq<Message>, spot: Spot, k: nat, top: U16)
    requires QueuedInOrder(ms, spot) && k < |ms| && Writes(ms[k], spot.id) && ms[k].seqNum == top
    requires forall m :: m in ms && Writes(m, spot.id) ==> Place(spot, m.seqNum) <= Place(spot, top)
    ensures SurvivesWith(ms, spot.id, top)
    decreases |ms| - k
  {
    if i :| k < i < |ms| && Writes(ms[i], spot.id) {
      assert ms[i] in ms;
      SameOffset(spot.base, ms[i].seqNum, top);
      LastInOrderSurvives(ms, spot, i, top);
    } else {
      assert forall i :: k < i < |ms| ==> !Writes(ms[i], spot.id);
      assert Survives(ms, k, spot.id);
    }
  }

  lemma InOrderSurvives(bs: seq<seq<Message>>, spot: Spot, log: Log, top: U16, a: nat, k: nat)
    requires IntervalsKnown(bs, spot, log) && a < |bs| && k < |bs[a]| && QueuedInOrder(bs[a], spot)
    requires Writes(bs[a][k], spot.id) && bs[a][k].seqNum == top
    requires forall s :: s in log ==> Place(spot, s) <= Place(spot, top)
    ensures SurvivesSomewhere(bs, spot.id, top)
  {
    hide QueuedInOrder, SurvivesWith, Offset;
    assert AllKnown(bs[a], spot, log);
    LastInOrderSurvives(bs[a], spot, k, top);
  }

  lemma AllArrived(j: Joint, spot: Spot)
    requires HandedOn(j, spot) && Open(j.phase) && Alive(j.server, spot) && TakenOnce(j.desk)
    ensures SnapshotHas(j, spot) || Arrived(j, spot)
  {
    if !SnapshotHas(j, spot) {
      var l: nat, p: nat :| ListHas(j, l, p, spot);
      assert Times(j.desk, l, p) == 1;
      assert (l, p) in j.desk.taken;
    }
  }

  /**
   What is enough: all threads are through, none has entered while another was between its release and the start of
   its loop, and between any two posts the writes to the entry were queued in the order in which they were made.
   */
  lemma OrderedQueueIsSafe(j0: Joint, moves: seq<Move>, spot: Spot, c: Table, conn: Conn, up: Conn)
    requires Starts(j0) && Orderly(j0, moves, spot, conn)
    requires var j := DoAll(j0, moves, conn);
             Open(j.phase) && At(j.seen, spot.name).value.Some? && Alive(j.server, spot)
             && AtRest(j.desk) && forall a :: 0 <= a < |Intervals(j)| ==> QueuedInOrder(Intervals(j)[a], spot)
    requires Intrusions(j0.desk, MotionsOf(j0, moves, conn)) == 0
    requires ClientOk(c) && !Keeps(At(c, spot.name))
    ensures SameThere(DoAll(j0, moves, conn), c, spot, up)
  {
    hide DoAll, Orderly, Settled, Alive, Tops, Holds, Known, SurvivesSomewhere, ClientOk, Keeps, At, Sane, Logged,
         SeenOk, Fresh, TakenOnce, AtRest, GoAll, Intrusions, MotionsOf, HandedOn, ListsKnown, IntervalsKnown,
         QueuedInOrder, SameThere;
    var j := DoAll(j0, moves, conn);
    var log := RunIsTracked(j0, moves, spot, conn);
    DeskMoves(j0, moves, conn);
    NothingLostOrDoubledIff(j0.desk, MotionsOf(j0, moves, conn));
    AllArrived(j, spot);
    NotUnborn(j.server, spot, log);
    TopOfLog(j.server, spot, log);
    SnapshotEntrySafeIff(j0, moves, spot, c, conn, up);
    if !SnapshotHas(j, spot) {
      var a, k :| 0 <= a < |Intervals(j)| && 0 <= k < |Intervals(j)[a]| && Brings(Intervals(j)[a][k], j.server, spot);
      InOrderSurvives(Intervals(j), spot, log, At(j.server, spot.name).seqNum, a, k);
    }
  }
}
