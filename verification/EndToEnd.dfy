/**
 A server, its outgoing queue to one client, and the client: replication works through the queue that
 rewrites what is still pending.
 */
module EndToEnd {
  import opened Protocol
  import opened StorageSpec
  import opened Index
  import opened Receiver
  import opened Replication
  import opened Network
  import opened Coalescer
  import opened Coalescing
  import opened CoalescingFits

  /**
   `pending` is the queue of the connection and `wire` what has been posted and not been read yet. `raw`
   remembers the messages that were queued since the last post.
   */
  datatype Line = Line(server: Table, raw: seq<Message>, pending: Pending, wire: seq<Message>, client: Table)

  datatype Action = ServerDoes(op: Op) | Post | ClientReads

  function QueueAll(p: Pending, ms: seq<Message>): Pending
    requires Coalescer.Valid(p)
    decreases |ms|
  {
    if ms == [] then p
    else
      EnqueueKeepsValid(p, ms[0]);
      QueueAll(Enqueue(p, ms[0]), ms[1..])
  }

  function Act(line: Line, a: Action, conn: Conn): Line
    requires Coalescer.Valid(line.pending)
  {
    match a
    case ServerDoes(op) =>
      var e := Step(line.server, op);
      var ms := Routed(e.out, conn);
      line.(server := e.table, raw := line.raw + ms, pending := QueueAll(line.pending, ms))
    case Post =>
      line.(wire := line.wire + Compact(line.pending.list), raw := [], pending := EMPTY)
    case ClientReads =>
      if line.wire == [] then line
      else line.(wire := line.wire[1..], client := ProcessIncoming(line.client, line.wire[0], conn).table)
  }

  /** The cells of the client once it has read what is on the wire. */
  function Reached(line: Line): Cells {
    ApplyCells(Follower, CellsOf(line.client), line.wire)
  }

  /**
   The two limits of the queue, in terms of what was queued since the last post: no entry ran through half
   of the sequence numbers, and no clear came upon a pending change of a persistent entry.
   */
  predicate Calm(line: Line) {
    var r := Plain(Reached(line));
    Window(r, line.raw) && ClearsExact(Follower, r, line.raw)
  }

  predicate InStep(line: Line) {
    && line.server.server && Settled(line.server)
    && !line.client.server && Settled(line.client)
    && line.pending == EnqueueAll(line.raw)
    && FitsAll(CellsOf(line.client), line.wire)
    && FitsAll(Reached(line), line.raw)
    && ApplyCells(Follower, Reached(line), line.raw) == CellsOf(line.server)
  }

  /** Where everything starts. */
  lemma EmptyIsInStep()
    ensures var line := Line(Empty(), [], EMPTY, [], EmptyClient()); InStep(line) && Calm(line)
  {
    EmptyIsSynced();
    NothingQueued();
  }

  lemma ReachedIsNumbered(line: Line, conn: Conn)
    requires InStep(line) && conn.protoRev >= PROTO_3
    ensures UNASSIGNED !in Reached(line)
  {
    DrainFollows(line.client, line.wire, conn);
  }

  lemma QueueNothing(p: Pending, ms: seq<Message>)
    requires Coalescer.Valid(p) && |ms| <= 1
    ensures QueueAll(p, ms) == if ms == [] then p else Enqueue(p, ms[0])
  {
  }

  lemma ServerKeepsInStep(line: Line, op: Op, conn: Conn)
    requires InStep(line) && Allowed(ServerOp(op), conn)
    requires |Step(line.server, op).table.idmap| <= UNASSIGNED
    ensures InStep(Act(line, ServerDoes(op), conn))
  {
    hide Enqueue, Indexed, Exact, FitsAll, ApplyCells, CellsOf;
    var e := Step(line.server, op);
    StepAnnounced(line.server, op);
    StepKeepsIndexed(line.server, op);
    RoutedToAll(line.server, op, conn);
    hide Step;
    Announce(Reached(line), line.raw, CellsOf(line.server), CellsOf(e.table), e.out);
    var ms := Routed(e.out, conn);
    QueueNothing(line.pending, ms);
    if ms != [] {
      assert (line.raw + ms)[..|line.raw + ms| - 1] == line.raw;
    } else {
      assert line.raw + ms == line.raw;
    }
  }

  lemma PostKeepsInStep(line: Line, conn: Conn)
    requires InStep(line) && Calm(line) && conn.protoRev >= PROTO_3
    ensures InStep(Act(line, Post, conn))
  {
    ReachedIsNumbered(line, conn);
    hide Settled, Enqueue, CellsOf, Window, ClearsExact, EnqueueAll, Compact;
    var ms := Compact(line.pending.list);
    SurvivorsFit(Reached(line), line.raw);
    FitsListFitsAll(Reached(line), line.pending.list);
    CoalescingPreservesMeaning(Follower, Plain(Reached(line)), line.raw);
    CompactMeaning(Follower, Plain(Reached(line)), line.pending.list);
    FitsAllIsPlain(Reached(line), line.raw);
    FitsAllConcat(CellsOf(line.client), line.wire, ms);
    ApplyCellsConcat(Follower, CellsOf(line.client), line.wire, ms);
    NothingQueued();
  }

  lemma NothingQueued()
    ensures EnqueueAll([]) == EMPTY
  {
  }

  lemma ReadKeepsInStep(line: Line, conn: Conn)
    requires InStep(line) && conn.protoRev >= PROTO_3
    ensures InStep(Act(line, ClientReads, conn))
    ensures line.wire != [] ==> ProcessIncoming(line.client, line.wire[0], conn).out == []
  {
    if line.wire != [] {
      hide Indexed, Exact, CellsOf, ProcessIncoming, EnqueueAll, Fits, ApplyCell;
      var m, rest := line.wire[0], line.wire[1..];
      assert line.wire == [m] + rest;
      FitsAllConcat(CellsOf(line.client), [m], rest);
      ApplyCellsConcat(Follower, CellsOf(line.client), [m], rest);
      ApplyCellsOne(Follower, CellsOf(line.client), m);
      assert [m][..0] == [];
      FollowStep(line.client, m, conn);
    }
  }

  lemma ActKeepsInStep(line: Line, a: Action, conn: Conn)
    requires InStep(line) && Calm(line) && conn.protoRev >= PROTO_3
    requires a.ServerDoes? ==> Allowed(ServerOp(a.op), conn)
    requires |Act(line, a, conn).server.idmap| <= UNASSIGNED
    ensures InStep(Act(line, a, conn))
  {
    hide InStep, Calm, Step, ProcessIncoming;
    match a
    case ServerDoes(op) => ServerKeepsInStep(line, op, conn);
    case Post => PostKeepsInStep(line, conn);
    case ClientReads => ReadKeepsInStep(line, conn);
  }

  // ---------------------------------------------------------------- whole runs

  /** The states that a run of actions goes through. */
  predicate IsRun(lines: seq<Line>, actions: seq<Action>, conn: Conn) {
    && |lines| == |actions| + 1
    && forall k :: 0 <= k < |actions| ==>
         Coalescer.Valid(lines[k].pending) && lines[k + 1] == Act(lines[k], actions[k], conn)
  }

  /**
   Replication through the queue: in every run within the limits, at every moment, reading what is on the
   wire and what the next post would send turns the client's table into the server's.
   */
  lemma {:induction false} RunStaysInStep(lines: seq<Line>, actions: seq<Action>, conn: Conn, k: nat)
    requires IsRun(lines, actions, conn) && InStep(lines[0]) && conn.protoRev >= PROTO_3
    requires forall a :: a in actions && a.ServerDoes? ==> Allowed(ServerOp(a.op), conn)
    requires forall line :: line in lines ==> Calm(line) && |line.server.idmap| <= UNASSIGNED
    requires k < |lines|
    ensures InStep(lines[k])
    ensures var line := lines[k];
            var e := Drain(line.client, line.wire + Compact(line.pending.list), conn);
            Live(e.table) == Live(line.server) && e.out == []
    decreases k
  {
    hide InStep, Calm, Act, Allowed, Coalescer.Valid, Drain, Live;
    if k != 0 {
      RunStaysInStep(lines, actions, conn, k - 1);
      assert lines[k - 1] in lines && lines[k] in lines && actions[k - 1] in actions;
      ActKeepsInStep(lines[k - 1], actions[k - 1], conn);
    }
    assert lines[k] in lines;
    FlushedEqualsServer(lines[k], conn);
  }

  lemma FlushedEqualsServer(line: Line, conn: Conn)
    requires InStep(line) && Calm(line) && conn.protoRev >= PROTO_3
    ensures var e := Drain(line.client, line.wire + Compact(line.pending.list), conn);
            Live(e.table) == Live(line.server) && e.out == []
  {
    PostKeepsInStep(line, conn);
    hide Settled, CellsOf, Compact, EnqueueAll, FitsAll;
    var after := Act(line, Post, conn);
    assert Reached(after) == CellsOf(line.server);
    DrainFollows(after.client, after.wire, conn);
    CellsGiveLive(Drain(after.client, after.wire, conn).table, line.server);
  }
}
