/**
 How far the numbers of a server's own writes can run ahead of what a client has: as far as there were operations
 since the last post. So the window that the queue needs follows from a count of operations.
 */
module OwnWrites {
  import opened Wrappers
  import opened Serial
  import opened Protocol
  import opened StorageSpec
  import opened Index
  import opened Receiver
  import opened Replication
  import opened Network
  import opened Coalescer
  import opened Coalescing
  import opened CoalescingFits
  import opened EndToEnd

  // ---------------------------------------------------------------- one operation

  /** A write that is sent has the next number of its entry, or is about a new id. */
  predicate NextWrite(cells: Cells, bound: nat, bound': nat, m: Message) {
    IsWrite(m) ==>
      && m.id < bound' && m.id != UNASSIGNED
      && if m.id in cells then
           m.seqNum == Increment(cells[m.id].seqNum) && (m.EntryAssign? ==> m.name == cells[m.id].name)
         else m.id >= bound
  }

  lemma SetValueWrites(t: Table, n: Text, v: Value)
    requires Settled(t) && t.server && n in t.entries && |SetValue(t, n, v, true).table.idmap| <= UNASSIGNED
    ensures var e := SetValue(t, n, v, true);
            forall o :: o in e.out ==> NextWrite(CellsOf(t), |t.idmap|, |e.table.idmap|, o.msg)
  {
    assert RecordOk(t, n) && RecordExact(t, n);
  }

  lemma SetByName(t: Table, n: Text, v: Value)
    requires Settled(t) && t.server && |SetValue(GetOrNew(t, n), n, v, true).table.idmap| <= UNASSIGNED
    ensures var e := SetValue(GetOrNew(t, n), n, v, true);
            forall o :: o in e.out ==> NextWrite(CellsOf(t), |t.idmap|, |e.table.idmap|, o.msg)
  {
    hide Indexed, Exact, SetValue, NextWrite, CellsOf;
    GetOrNewKeeps(t, n);
    CellsOfGetOrNew(t, n);
    SetValueWrites(GetOrNew(t, n), n, v);
  }

  lemma OwnStepWrites(t: Table, op: Op)
    requires Settled(t) && t.server && !op.Incoming? && |Step(t, op).table.idmap| <= UNASSIGNED
    ensures forall o :: o in Step(t, op).out ==> NextWrite(CellsOf(t), |t.idmap|, |Step(t, op).table.idmap|, o.msg)
  {
    hide Indexed, Exact, SetValue, GetOrNew, CellsOf;
    match op
    case Set(n, v) => if Step(t, op).out != [] { SetByName(t, n, v); }
    case ForceSet(n, v) => if n != [] { SetByName(t, n, v); }
    case SetDefault(n, v) => if Step(t, op).out != [] { SetByName(t, n, v); }
    case _ => QuietWrites(t, op);
  }

  lemma QuietWrites(t: Table, op: Op)
    requires op.ChangeFlags? || op.Remove? || op.RemoveAll?
    ensures forall o :: o in Step(t, op).out ==> !IsWrite(o.msg)
  {
  }

  // ---------------------------------------------------------------- since the last post

  /** What the peer has of the entry, or what is pending for it, is at most n changes behind the server. */
  predicate Near(s: U16, name: Text, id: nat, cells: Cells, n: nat) {
    id in cells ==> Offset(s, cells[id].seqNum) <= n && cells[id].name == name
  }

  /** At most n operations lead from what the peer has, and from each pending write, to what the server has. */
  predicate Spread(r: Cells, raw: seq<Message>, cells: Cells, bound: nat, n: nat) {
    && (forall i :: i in r ==> i < bound && Near(r[i].seqNum, r[i].name, i, cells, n))
    && (forall j :: 0 <= j < |raw| && IsWrite(raw[j]) ==>
          && raw[j].id < bound
          && (raw[j].id in cells ==> Offset(raw[j].seqNum, cells[raw[j].id].seqNum) <= n)
          && (raw[j].id in cells && raw[j].EntryAssign? ==> cells[raw[j].id].name == raw[j].name))
  }

  lemma OneFurther(s: U16, now: U16, n: nat)
    requires Offset(s, now) <= n && n + 1 < HALF
    ensures Offset(s, Increment(now)) == Offset(s, now) + 1 && s != Increment(now)
  {
  }

  /** What a message does to the number and the name of an entry. */
  lemma CellMoves(cells: Cells, cells': Cells, m: Message, bound: nat, bound': nat, i: nat)
    requires Fits(cells, m) && cells' == ApplyCell(Follower, cells, m) && NextWrite(cells, bound, bound', m)
    ensures i in cells' && i in cells ==>
              && cells'[i].name == cells[i].name
              && cells'[i].seqNum == if IsWrite(m) && m.id == i then m.seqNum else cells[i].seqNum
    ensures i in cells' && i !in cells ==>
              IsWrite(m) && m.id == i && i >= bound && cells'[i].seqNum == m.seqNum
                  && (m.EntryAssign? ==> cells'[i].name == m.name)
  {
    if IsWrite(m) && m.id in cells {
      NewerIsAhead(cells[m.id].seqNum, m.seqNum);
      NewerIsAhead(m.seqNum, cells[m.id].seqNum);
    }
  }

  lemma NewWriteInWindow(r: Cells, raw: seq<Message>, cells: Cells, bound: nat, bound': nat, n: nat, m: Message)
    requires Spread(r, raw, cells, bound, n) && n + 1 < HALF && NextWrite(cells, bound, bound', m)
    requires IsWrite(m) && Window(Plain(r), raw)
    ensures Window(Plain(r), raw + [m])
  {
    hide Offset;
    var ms := raw + [m];
    if m.id in r && m.id in cells { OneFurther(r[m.id].seqNum, cells[m.id].seqNum, n); }
    assert AfterCell(r, m);
    forall i | 0 <= i < |raw| ensures AfterMessage(Some(raw[i]), m) {
      if IsWrite(raw[i]) && raw[i].id == m.id && m.id in cells {
        OneFurther(raw[i].seqNum, cells[m.id].seqNum, n);
      }
    }
    WindowGrows(Plain(r), raw, m);
  }

  lemma WindowGrows(r: Peer, raw: seq<Message>, m: Message)
    requires Window(r, raw)
    requires IsWrite(m) && m.id != UNASSIGNED ==>
               AfterCell(r.cells, m) && forall i :: 0 <= i < |raw| ==> AfterMessage(Some(raw[i]), m)
    ensures Window(r, raw + [m])
  {
    hide AfterCell, AfterMessage;
    var ms := raw + [m];
    forall j | 0 <= j < |ms| && IsWrite(ms[j]) && ms[j].id != UNASSIGNED
      ensures AfterCell(r.cells, ms[j]) && forall i :: 0 <= i < j ==> AfterMessage(Some(ms[i]), ms[j])
    {
      if j < |raw| { assert ms[j] == raw[j]; }
    }
  }

  lemma NearMoves(s: U16, name: Text, id: nat, cells: Cells, cells': Cells, m: Message, bound: nat, bound': nat, n: nat)
    requires Near(s, name, id, cells, n) && n + 1 < HALF && id < bound
    requires Fits(cells, m) && cells' == ApplyCell(Follower, cells, m) && NextWrite(cells, bound, bound', m)
    ensures Near(s, name, id, cells', n + 1)
  {
    hide Offset, Fits, ApplyCell;
    CellMoves(cells, cells', m, bound, bound', id);
    if id in cells && id in cells' { OneFurther(s, cells[id].seqNum, n); }
  }

  lemma MessageSpreads(r: Cells, raw: seq<Message>, cells: Cells, cells': Cells, bound: nat, bound': nat, n: nat,
      m: Message)
    requires Spread(r, raw, cells, bound, n) && bound <= bound' && n + 1 < HALF
    requires Fits(cells, m) && cells' == ApplyCell(Follower, cells, m) && NextWrite(cells, bound, bound', m)
    ensures Spread(r, raw + [m], cells', bound', n + 1)
  {
    hide Offset, Fits, ApplyCell;
    forall i | i in r ensures i < bound' && Near(r[i].seqNum, r[i].name, i, cells', n + 1) {
      NearMoves(r[i].seqNum, r[i].name, i, cells, cells', m, bound, bound', n);
    }
    var ms := raw + [m];
    forall j | 0 <= j < |ms| && IsWrite(ms[j])
      ensures && ms[j].id < bound'
              && (ms[j].id in cells' ==> Offset(ms[j].seqNum, cells'[ms[j].id].seqNum) <= n + 1)
              && (ms[j].id in cells' && ms[j].EntryAssign? ==> cells'[ms[j].id].name == ms[j].name)
    {
      var i := ms[j].id;
      CellMoves(cells, cells', m, bound, bound', i);
      if j == |raw| {
        NoDistance(m.seqNum);
      } else if i in cells && i in cells' {
        OneFurther(ms[j].seqNum, cells[i].seqNum, n);
      }
    }
  }

  lemma NoDistance(s: U16)
    ensures Offset(s, s) == 0
  {
  }

  lemma SpreadGrows(r: Cells, raw: seq<Message>, cells: Cells, bound: nat, bound': nat, n: nat)
    requires Spread(r, raw, cells, bound, n) && bound <= bound'
    ensures Spread(r, raw, cells, bound', n + 1)
  {
    hide Offset;
  }

  lemma StepSpreads(r: Cells, raw: seq<Message>, cells: Cells, cells': Cells, out: seq<Outgoing>, bound: nat,
      bound': nat, n: nat)
    requires Spread(r, raw, cells, bound, n) && Window(Plain(r), raw) && bound <= bound' && n + 1 < HALF
    requires Announced(cells, cells', out)
    requires forall o :: o in out ==> NextWrite(cells, bound, bound', o.msg)
    ensures Spread(r, raw + Messages(out), cells', bound', n + 1) && Window(Plain(r), raw + Messages(out))
  {
    hide Spread, Window, Fits, ApplyCell, NextWrite;
    if out == [] {
      assert raw + Messages(out) == raw;
      SpreadGrows(r, raw, cells, bound, bound', n);
    } else {
      var m := out[0].msg;
      assert Messages(out) == [m];
      MessageSpreads(r, raw, cells, cells', bound, bound', n, m);
      if IsWrite(m) {
        NewWriteInWindow(r, raw, cells, bound, bound', n, m);
      } else {
        WindowGrows(Plain(r), raw, m);
      }
    }
  }

  // ---------------------------------------------------------------- whole runs

  /** Within n operations of the last post. */
  predicate Within(line: Line, n: nat) {
    && InStep(line) && Window(Plain(Reached(line)), line.raw)
    && Spread(Reached(line), line.raw, CellsOf(line.server), |line.server.idmap|, n)
  }

  predicate Cleared(line: Line) {
    ClearsExact(Follower, Plain(Reached(line)), line.raw)
  }

  lemma WithinIsCalm(line: Line, n: nat)
    requires Within(line, n) && Cleared(line)
    ensures Calm(line)
  {
  }

  lemma ServerStaysWithin(line: Line, op: Op, n: nat, conn: Conn)
    requires Within(line, n) && n + 1 < HALF && !op.Incoming? && Allowed(ServerOp(op), conn)
    requires |Step(line.server, op).table.idmap| <= UNASSIGNED
    ensures Within(Act(line, ServerDoes(op), conn), n + 1)
  {
    hide Settled, Window, Spread, Step, CellsOf, Announced, NextWrite, QueueAll, ApplyCells, FitsAll, EnqueueAll;
    ServerKeepsInStep(line, op, conn);
    StepAnnounced(line.server, op);
    OwnStepWrites(line.server, op);
    var e := Step(line.server, op);
    AtMostOneOut(CellsOf(line.server), CellsOf(e.table), e.out);
    RoutedToAll(line.server, op, conn);
    StepSpreads(Reached(line), line.raw, CellsOf(line.server), CellsOf(e.table), e.out,
                |line.server.idmap|, |e.table.idmap|, n);
  }

  lemma AtMostOneOut(cells: Cells, cells': Cells, out: seq<Outgoing>)
    requires Announced(cells, cells', out)
    ensures |out| <= 1
  {
  }

  lemma FlushedIsWithin(line: Line)
    requires InStep(line) && line.raw == []
    ensures Within(line, 0)
  {
    var cells := CellsOf(line.server);
    assert Reached(line) == cells;
    forall i | i in cells ensures Near(cells[i].seqNum, cells[i].name, i, cells, 0) { NoDistance(cells[i].seqNum); }
  }

  lemma PostIsWithin(line: Line, n: nat, conn: Conn)
    requires Within(line, n) && Cleared(line) && conn.protoRev >= PROTO_3
    ensures Within(Act(line, Post, conn), 0)
  {
    hide InStep, Within, Calm, Compact;
    WithinIsInStep(line, n);
    WithinIsCalm(line, n);
    PostKeepsInStep(line, conn);
    FlushedIsWithin(Act(line, Post, conn));
  }

  lemma WithinIsInStep(line: Line, n: nat)
    requires Within(line, n)
    ensures InStep(line) && Coalescer.Valid(line.pending)
  {
  }

  lemma ReadStaysWithin(line: Line, n: nat, conn: Conn)
    requires Within(line, n) && conn.protoRev >= PROTO_3
    ensures Within(Act(line, ClientReads, conn), n)
  {
    hide Settled, Window, Spread, FitsAll, EnqueueAll, ProcessIncoming, CellsOf, ApplyCells;
    ReadKeepsInStep(line, conn);
    ReadReaches(line, conn);
  }

  lemma ReadReaches(line: Line, conn: Conn)
    requires InStep(line) && conn.protoRev >= PROTO_3
    ensures Reached(Act(line, ClientReads, conn)) == Reached(line)
  {
    hide Indexed, Exact, CellsOf, ProcessIncoming, EnqueueAll, Fits, ApplyCell;
    if line.wire != [] {
      var m, rest := line.wire[0], line.wire[1..];
      assert line.wire == [m] + rest;
      FitsAllConcat(CellsOf(line.client), [m], rest);
      ApplyCellsConcat(Follower, CellsOf(line.client), [m], rest);
      ApplyCellsOne(Follower, CellsOf(line.client), m);
      assert [m][..0] == [];
      FollowStep(line.client, m, conn);
    }
  }

  function Counted(a: Action, n: nat): nat {
    match a
    case ServerDoes(_) => n + 1
    case Post => 0
    case ClientReads => n
  }

  /** How many operations the server has performed since the last post. */
  function Since(actions: seq<Action>): nat {
    if actions == [] then 0 else Counted(actions[|actions| - 1], Since(actions[..|actions| - 1]))
  }

  lemma NothingSince(actions: seq<Action>)
    ensures Since(actions[..0]) == 0
  {
  }

  lemma SinceNext(actions: seq<Action>, k: nat)
    requires k < |actions|
    ensures Since(actions[..k + 1]) == Counted(actions[k], Since(actions[..k]))
  {
    assert actions[..k + 1][..k] == actions[..k];
  }

  lemma ActStaysWithin(line: Line, a: Action, n: nat, conn: Conn)
    requires Within(line, n) && Cleared(line) && conn.protoRev >= PROTO_3
    requires Counted(a, n) < HALF && (a.ServerDoes? ==> !a.op.Incoming? && Allowed(ServerOp(a.op), conn))
    requires |Act(line, a, conn).server.idmap| <= UNASSIGNED
    ensures Within(Act(line, a, conn), Counted(a, n))
  {
    match a
    case ServerDoes(op) =>
      hide Within, Cleared, Step, QueueAll;
      ServerStaysWithin(line, op, n, conn);
    case Post =>
      hide Within, Cleared, Compact;
      PostIsWithin(line, n, conn);
    case ClientReads =>
      hide Within, Cleared, ProcessIncoming;
      ReadStaysWithin(line, n, conn);
  }

  lemma {:induction false} RunStaysWithin(lines: seq<Line>, actions: seq<Action>, conn: Conn, k: nat)
    requires IsRun(lines, actions, conn) && InStep(lines[0]) && lines[0].raw == [] && conn.protoRev >= PROTO_3
    requires forall a :: a in actions && a.ServerDoes? ==> !a.op.Incoming? && Allowed(ServerOp(a.op), conn)
    requires forall j :: 0 <= j <= |actions| ==> Since(actions[..j]) < HALF
    requires forall line :: line in lines ==> Cleared(line) && |line.server.idmap| <= UNASSIGNED
    requires k < |lines|
    ensures Within(lines[k], Since(actions[..k]))
    decreases k
  {
    hide InStep, Within, Cleared, Act, Allowed, Coalescer.Valid, Since, Counted;
    if k == 0 {
      NothingSince(actions);
      FlushedIsWithin(lines[0]);
    } else {
      RunStaysWithin(lines, actions, conn, k - 1);
      assert lines[k - 1] in lines && lines[k] in lines && actions[k - 1] in actions;
      SinceNext(actions, k - 1);
      ActStaysWithin(lines[k - 1], actions[k - 1], Since(actions[..k - 1]), conn);
    }
  }

  /**
   A server that is written only by its own program, fewer than 32768 times between two posts, keeps every client in
   step through the queue; of a clear alone it matters what it finds pending.
   */
  lemma OwnRunStaysInStep(lines: seq<Line>, actions: seq<Action>, conn: Conn, k: nat)
    requires IsRun(lines, actions, conn) && InStep(lines[0]) && lines[0].raw == [] && conn.protoRev >= PROTO_3
    requires forall a :: a in actions && a.ServerDoes? ==> !a.op.Incoming? && Allowed(ServerOp(a.op), conn)
    requires forall j :: 0 <= j <= |actions| ==> Since(actions[..j]) < HALF
    requires forall line :: line in lines ==> Cleared(line) && |line.server.idmap| <= UNASSIGNED
    requires k < |lines|
    ensures InStep(lines[k])
    ensures var line := lines[k];
            var e := Drain(line.client, line.wire + Compact(line.pending.list), conn);
            Live(e.table) == Live(line.server) && e.out == []
  {
    hide InStep, Within, Cleared, Calm, Act, Allowed, Coalescer.Valid, Drain, Live, Compact, Since;
    forall i | 0 <= i < |lines| ensures Calm(lines[i]) {
      RunStaysWithin(lines, actions, conn, i);
      assert lines[i] in lines;
      WithinIsCalm(lines[i], Since(actions[..i]));
    }
    RunStaysInStep(lines, actions, conn, k);
  }
}
