/**
 A client that writes an entry through the outgoing queue of its connection, which rewrites what is pending, to a server
 whose answers come through a queue as well: the last value and flags still reach the server.
 */
module QueuedWriter {
  import opened Wrappers
  import opened Serial
  import opened Protocol
  import opened StorageSpec
  import opened Index
  import opened Receiver
  import opened Replication
  import opened Network
  import opened Coalescer
  import opened Coalescing
  import opened PerEntry
  import opened PendingId
  import Survivors

  /** `up` and `down` have been posted and not been read yet; `raw` and `rawDown` were queued since the last posts. */
  datatype Lane = Lane(
    server: Table,
    client: Table,
    up: seq<Message>,
    raw: seq<Message>,
    down: seq<Message>,
    rawDown: seq<Message>)

  datatype Deed = Turned(turn: Turn) | PostsUp | PostsDown

  /** What a post puts on the wire. */
  function Posted(raw: seq<Message>): seq<Message> {
    Compact(EnqueueAll(raw).list)
  }

  function Act(l: Lane, deed: Deed, conn: Conn, link: Conn): Lane {
    match deed
    case Turned(ClientDoes(op)) =>
      var e := Step(l.client, op);
      l.(client := e.table, raw := l.raw + Messages(e.out))
    case Turned(ServerDoes(op)) =>
      var e := Step(l.server, op);
      l.(server := e.table, rawDown := l.rawDown + Routed(e.out, conn))
    case Turned(ServerReads) =>
      if l.up == [] then l
      else
        var e := ProcessIncoming(l.server, l.up[0], conn);
        l.(server := e.table, up := l.up[1..], rawDown := l.rawDown + Routed(e.out, conn))
    case Turned(ClientReads) =>
      if l.down == [] then l
      else
        var e := ProcessIncoming(l.client, l.down[0], link);
        l.(client := e.table, down := l.down[1..], raw := l.raw + Messages(e.out))
    case PostsUp => l.(up := l.up + Posted(l.raw), raw := [])
    case PostsDown => l.(down := l.down + Posted(l.rawDown), rawDown := [])
  }

  /** The same without queues: everything is on the wire as it was sent. */
  function Merged(l: Lane): Duo {
    Duo(l.server, l.client, l.up + l.raw, l.down + l.rawDown)
  }

  lemma TurnMerges(l: Lane, t: Turn, conn: Conn, link: Conn)
    ensures Merged(Act(l, Turned(t), conn, link)) == After(Merged(l), t, conn, link)
            || Act(l, Turned(t), conn, link) == l
  {
    hide Step, ProcessIncoming, Routed, Messages;
    var l' := Act(l, Turned(t), conn, link);
    match t
    case ClientDoes(op) =>
      var ms := Messages(Step(l.client, op).out);
      assert l.up + (l.raw + ms) == Merged(l).up + ms;
    case ServerDoes(op) =>
      var ms := Routed(Step(l.server, op).out, conn);
      assert l.down + (l.rawDown + ms) == Merged(l).down + ms;
    case ServerReads =>
      if l.up != [] {
        var out := ProcessIncoming(l.server, l.up[0], conn).out;
        assert Merged(l).up[1..] == l.up[1..] + l.raw;
        assert l.down + (l.rawDown + Routed(out, conn)) == Merged(l).down + Routed(out, conn);
      }
    case ClientReads =>
      if l.down != [] {
        var out := ProcessIncoming(l.client, l.down[0], link).out;
        assert Merged(l).down[1..] == l.down[1..] + l.rawDown;
        assert l.up + (l.raw + Messages(out)) == Merged(l).up + Messages(out);
      }
  }

  // ---------------------------------------------------------------- the queue and the messages about the name

  predicate PendingProper(list: seq<Option<Message>>, n: Text, i: nat, bound: nat) {
    forall k :: 0 <= k < |list| && list[k].Some? ==> Proper(list[k].value, n, i, bound)
  }

  lemma EnqueueKeepsProper(p: Coalescer.Pending, m: Message, n: Text, i: nat, bound: nat)
    requires Coalescer.Valid(p) && PendingProper(p.list, n, i, bound) && Proper(m, n, i, bound)
    ensures PendingProper(Enqueue(p, m).list, n, i, bound)
  {
    if (IsWrite(m) || m.FlagsUpdate? || m.EntryDelete?) && m.id in p.slots { assert PairOk(p, m.id); }
  }

  lemma {:induction false} QueueKeepsProper(ms: seq<Message>, n: Text, i: nat, bound: nat)
    requires AllProper(ms, n, i, bound)
    ensures PendingProper(EnqueueAll(ms).list, n, i, bound) && AllProper(Posted(ms), n, i, bound)
  {
    hide Proper, Enqueue, Coalescer.Valid;
    if ms != [] {
      QueueKeepsProper(ms[..|ms| - 1], n, i, bound);
      assert ms[|ms| - 1] in ms;
      EnqueueKeepsProper(EnqueueAll(ms[..|ms| - 1]), ms[|ms| - 1], n, i, bound);
    }
    forall m | m in Posted(ms) ensures Proper(m, n, i, bound) {
      Survivors.InCompact(EnqueueAll(ms).list, m);
    }
  }

  lemma ProperIsNoClear(ms: seq<Message>, n: Text, i: nat, bound: nat)
    requires AllProper(ms, n, i, bound)
    ensures forall m :: m in ms ==> !m.ClearEntries?
  {
  }

  /** Without messages that carry the id, what is about the name are requests. */
  lemma {:induction false} MineIsRequests(ms: seq<Message>, n: Text, i: nat, bound: nat)
    requires AllProper(ms, n, i, bound) && (i == UNASSIGNED || OfEntry(ms, i) == [])
    ensures Mine(ms, n, i) == RequestsFor(ms, n)
  {
    if ms != [] {
      assert ms[|ms| - 1] in ms;
      MineIsRequests(ms[..|ms| - 1], n, i, bound);
    }
  }

  /** Without requests, what is about the name carries the id. */
  lemma {:induction false} MineIsEntry(ms: seq<Message>, n: Text, i: nat, bound: nat)
    requires AllProper(ms, n, i, bound) && i != UNASSIGNED && RequestsFor(ms, n) == []
    ensures Mine(ms, n, i) == OfEntry(ms, i)
  {
    if ms != [] {
      assert ms[|ms| - 1] in ms;
      MineIsEntry(ms[..|ms| - 1], n, i, bound);
    }
  }

  /** Requests and messages that carry the id are all about the name. */
  lemma {:induction false} MineHasBoth(ms: seq<Message>, n: Text, i: nat, bound: nat)
    requires AllProper(ms, n, i, bound) && i != UNASSIGNED
    ensures forall m :: m in OfEntry(ms, i) || m in RequestsFor(ms, n) ==> m in Mine(ms, n, i)
    ensures forall m :: m in OfEntry(ms, i) ==> Concerns(m, i)
    ensures forall m :: m in RequestsFor(ms, n) ==> m.EntryAssign? && m.id == UNASSIGNED
  {
    if ms != [] {
      assert ms[|ms| - 1] in ms;
      MineHasBoth(ms[..|ms| - 1], n, i, bound);
    }
  }

  /** To the server only the messages that carry the id matter. */
  lemma {:induction false} MineMeansEntry(cells: Cells, ms: seq<Message>, n: Text, i: nat, bound: nat)
    requires AllProper(ms, n, i, bound) && i != UNASSIGNED
    ensures ApplyCells(Authority, cells, Mine(ms, n, i)) == ApplyCells(Authority, cells, OfEntry(ms, i))
  {
    hide ApplyCell, ApplyCells, About, Concerns, Proper;
    if ms != [] {
      var k := |ms| - 1;
      assert ms[k] in ms;
      MineMeansEntry(cells, ms[..k], n, i, bound);
      OneMeansEntry(ApplyCells(Authority, cells, OfEntry(ms[..k], i)), ms[k], n, i, bound);
      ApplyCellsConcat(Authority, cells, Mine(ms[..k], n, i), if About(ms[k], n, i) then [ms[k]] else []);
      ApplyCellsConcat(Authority, cells, OfEntry(ms[..k], i), if Concerns(ms[k], i) then [ms[k]] else []);
    }
  }

  lemma OneMeansEntry(cells: Cells, m: Message, n: Text, i: nat, bound: nat)
    requires Proper(m, n, i, bound) && i != UNASSIGNED
    ensures ApplyCells(Authority, cells, if About(m, n, i) then [m] else [])
            == ApplyCells(Authority, cells, if Concerns(m, i) then [m] else [])
  {
    ApplyCellsOne(Authority, cells, m);
    ApplyCellsNone(cells);
  }

  /** What may be dropped from the messages about the name without a trace: nothing if none carries the id. */
  lemma PostedRequests(ms: seq<Message>, n: Text, i: nat, bound: nat)
    requires AllProper(ms, n, i, bound) && (i == UNASSIGNED || OfEntry(ms, i) == [])
    ensures Mine(Posted(ms), n, i) == Mine(ms, n, i)
  {
    hide Proper, EnqueueAll, Compact, Mine;
    ProperIsNoClear(ms, n, i, bound);
    QueueKeepsProper(ms, n, i, bound);
    QueueKeepsRequests(ms, n);
    if i != UNASSIGNED { QueueByEntry(ms, i); }
    MineIsRequests(ms, n, i, bound);
    MineIsRequests(Posted(ms), n, i, bound);
  }

  /** Nothing at all, or the server's single answer, goes through the queue as it is. */
  lemma PostedAnswer(ms: seq<Message>, n: Text, i: nat, bound: nat)
    requires AllProper(ms, n, i, bound) && |Mine(ms, n, i)| <= 1
    requires forall m :: m in Mine(ms, n, i) ==> i != UNASSIGNED && m.EntryAssign? && m.id == i
    ensures Mine(Posted(ms), n, i) == Mine(ms, n, i)
  {
    hide Proper, EnqueueAll, Compact, Mine, RequestsFor, OfEntry;
    if i == UNASSIGNED {
      PostedRequests(ms, n, i, bound);
    } else {
      ProperIsNoClear(ms, n, i, bound);
      QueueKeepsProper(ms, n, i, bound);
      QueueKeepsRequests(ms, n);
      QueueByEntry(ms, i);
      MineHasBoth(ms, n, i, bound);
      SomeIn(RequestsFor(ms, n));
      MineIsEntry(ms, n, i, bound);
      MineIsEntry(Posted(ms), n, i, bound);
      ShortPile(OfEntry(ms, i), i);
    }
  }

  lemma SomeIn(ms: seq<Message>)
    ensures ms != [] ==> exists m :: m in ms
  {
    if ms != [] { assert ms[0] in ms; }
  }

  lemma ShortPile(ms: seq<Message>, i: nat)
    requires |ms| <= 1 && forall m :: m in ms ==> Concerns(m, i)
    ensures PileOf(ms, i).list == ms
  {
    if ms != [] {
      assert ms == [ms[0]] && ms[..0] == [];
    }
  }

  // ---------------------------------------------------------------- numbers on the way up

  /** The number of the last write, if there is one. */
  function LastNumber(base: U16, ms: seq<Message>): U16 {
    if ms == [] then base
    else
      var m := ms[|ms| - 1];
      if IsWrite(m) then m.seqNum else LastNumber(base, ms[..|ms| - 1])
  }

  /** The writes go up from the base, by less than half of the number space in all. */
  predicate Rises(base: U16, ms: seq<Message>, n: Text) {
    ms == [] ||
    (var k, m := |ms| - 1, ms[|ms| - 1];
     && Rises(base, ms[..k], n)
     && (IsWrite(m) ==> Offset(base, LastNumber(base, ms[..k])) < Offset(base, m.seqNum) < HALF)
     && (m.EntryAssign? ==> m.name == n))
  }

  lemma {:induction false} RisesAt(base: U16, ms: seq<Message>, n: Text, k: nat)
    requires Rises(base, ms, n) && k < |ms| && IsWrite(ms[k])
    ensures 0 < Offset(base, ms[k].seqNum) <= Offset(base, LastNumber(base, ms)) < HALF
    ensures ms[k].EntryAssign? ==> ms[k].name == n
    ensures forall j :: 0 <= j < k && IsWrite(ms[j]) ==> Offset(base, ms[j].seqNum) < Offset(base, ms[k].seqNum)
    decreases |ms|
  {
    hide Offset;
    var l := |ms| - 1;
    if k < l {
      RisesAt(base, ms[..l], n, k);
      assert ms[..l][k] == ms[k];
      forall j | 0 <= j < k && IsWrite(ms[j]) ensures Offset(base, ms[j].seqNum) < Offset(base, ms[k].seqNum) {
        assert ms[..l][j] == ms[j];
      }
    } else {
      forall j | 0 <= j < k && IsWrite(ms[j]) ensures Offset(base, ms[j].seqNum) < Offset(base, ms[k].seqNum) {
        RisesAt(base, ms[..l], n, j);
        assert ms[..l][j] == ms[j];
      }
    }
  }

  lemma AheadInWindow(base: U16, s: U16, m: Message)
    requires IsWrite(m) && Offset(base, s) < Offset(base, m.seqNum) < HALF
    ensures Coalescing.Ahead(s, m)
  {
  }

  /** Such writes of an entry are what the queue may merge. */
  lemma RisesIsWindow(cell: Cell, ms: seq<Message>, i: nat)
    requires Rises(cell.seqNum, ms, cell.name)
    requires i != UNASSIGNED && forall m :: m in ms ==> Concerns(m, i)
    ensures Window(Peer(map[i := cell], [], []), ms)
  {
    hide Rises, Offset;
    var r := Peer(map[i := cell], [], []);
    NoOffset(cell.seqNum);
    forall j | 0 <= j < |ms| && IsWrite(ms[j]) && ms[j].id != UNASSIGNED
      ensures AfterCell(r.cells, ms[j]) && forall k :: 0 <= k < j ==> AfterMessage(Some(ms[k]), ms[j])
    {
      RisesAt(cell.seqNum, ms, cell.name, j);
      assert ms[j] in ms;
      AheadInWindow(cell.seqNum, cell.seqNum, ms[j]);
      forall k | 0 <= k < j ensures AfterMessage(Some(ms[k]), ms[j]) {
        if IsWrite(ms[k]) {
          RisesAt(cell.seqNum, ms, cell.name, k);
          AheadInWindow(cell.seqNum, ms[k].seqNum, ms[j]);
        }
      }
    }
  }

  lemma NoOffset(s: U16)
    ensures Offset(s, s) == 0
  {
  }

  // ---------------------------------------------------------------- the queue of the entry means the same

  predicate AllConcern(ms: seq<Message>, i: nat) {
    forall m :: m in ms ==> Concerns(m, i)
  }

  lemma {:induction false} PileConcerns(ms: seq<Message>, i: nat)
    requires AllConcern(ms, i)
    ensures AllConcern(PileOf(ms, i).list, i)
  {
    if ms != [] {
      var k := |ms| - 1;
      assert ms[k] in ms;
      assert AllConcern(ms[..k], i);
      PileConcerns(ms[..k], i);
      var p, p' := PileOf(ms[..k], i), PileOf(ms, i);
      assert p' == PileOn(p, ms[k]);
      assert p.list != [] ==> p.list[|p.list| - 1] in p.list;
    }
  }

  lemma {:induction false} PlainMeaning(mode: Mode, cells: Cells, ms: seq<Message>, i: nat)
    requires AllConcern(ms, i) && i != UNASSIGNED
    ensures ApplyAll(mode, Peer(cells, [], []), ms) == Peer(ApplyCells(mode, cells, ms), [], [])
    decreases |ms|
  {
    hide ApplyCell;
    if ms != [] {
      assert ms[|ms| - 1] in ms;
      PlainMeaning(mode, cells, ms[..|ms| - 1], i);
    }
  }

  /** All that is queued here is about the entry, and so is all that is left of it. */
  lemma OnlyThisEntry(ms: seq<Message>, i: nat)
    requires AllConcern(ms, i) && i != UNASSIGNED
    ensures Posted(ms) == PileOf(ms, i).list
  {
    hide EnqueueAll, Compact, Concerns;
    ConcernIsNoClear(ms, i);
    AllOfEntry(ms, i);
    QueueByEntry(ms, i);
    QueueConcerns(ms, i);
    AllOfEntry(Posted(ms), i);
  }

  lemma ConcernIsNoClear(ms: seq<Message>, i: nat)
    requires AllConcern(ms, i)
    ensures forall m :: m in ms ==> !m.ClearEntries?
  {
  }

  predicate PendingConcerns(list: seq<Option<Message>>, i: nat) {
    forall k :: 0 <= k < |list| && list[k].Some? ==> Concerns(list[k].value, i)
  }

  lemma EnqueueKeepsConcern(p: Coalescer.Pending, m: Message, i: nat)
    requires Coalescer.Valid(p) && PendingConcerns(p.list, i) && Concerns(m, i)
    ensures PendingConcerns(Enqueue(p, m).list, i)
  {
    if m.id in p.slots { assert PairOk(p, m.id); }
  }

  lemma {:induction false} QueueConcerns(ms: seq<Message>, i: nat)
    requires AllConcern(ms, i)
    ensures PendingConcerns(EnqueueAll(ms).list, i) && AllConcern(Posted(ms), i)
  {
    hide Concerns, Enqueue, Coalescer.Valid;
    if ms != [] {
      QueueConcerns(ms[..|ms| - 1], i);
      assert ms[|ms| - 1] in ms;
      EnqueueKeepsConcern(EnqueueAll(ms[..|ms| - 1]), ms[|ms| - 1], i);
    }
    forall m | m in Posted(ms) ensures Concerns(m, i) {
      Survivors.InCompact(EnqueueAll(ms).list, m);
    }
  }

  lemma EntryMeansTheSame(cell: Cell, ms: seq<Message>, i: nat)
    requires AllConcern(ms, i) && i != UNASSIGNED && Rises(cell.seqNum, ms, cell.name)
    ensures ApplyCells(Authority, map[i := cell], PileOf(ms, i).list) == ApplyCells(Authority, map[i := cell], ms)
  {
    hide EnqueueAll, Compact, Concerns, Window, ClearsExact, Rises, ApplyCells, ApplyAll;
    var r := Peer(map[i := cell], [], []);
    RisesIsWindow(cell, ms, i);
    NoClears(ms, i, r);
    CoalescingPreservesMeaning(Authority, r, ms);
    OnlyThisEntry(ms, i);
    PileConcerns(ms, i);
    PlainMeaning(Authority, map[i := cell], ms, i);
    PlainMeaning(Authority, map[i := cell], PileOf(ms, i).list, i);
  }

  lemma NoClears(ms: seq<Message>, i: nat, r: Peer)
    requires AllConcern(ms, i)
    ensures ClearsExact(Authority, r, ms)
  {
    ConcernIsNoClear(ms, i);
  }

  // ---------------------------------------------------------------- the invariant

  /** What the server will have of the entry once it has read what is on the wire. */
  function Arriving(l: Lane, n: Text): Cells {
    var s := At(l.server, n);
    ApplyCells(Authority, map[s.id := RecordCell(n, s)], OfEntry(l.up, s.id))
  }

  predicate IsNumbered(l: Lane, n: Text) {
    StageOf(At(l.server, n), At(l.client, n)).Numbered?
  }

  /** What is pending of the entry leads on from what is arriving, up to the client's own number. */
  predicate ClimbsFrom(l: Lane, n: Text, cell: Cell) {
    var i, c := At(l.server, n).id, At(l.client, n);
    && Arriving(l, n) == map[i := cell] && cell.name == n
    && Rises(cell.seqNum, OfEntry(l.raw, i), n)
    && LastNumber(cell.seqNum, OfEntry(l.raw, i)) == c.seqNum
  }

  ghost predicate Climbs(l: Lane, n: Text) {
    IsNumbered(l, n) ==> exists cell :: ClimbsFrom(l, n, cell)
  }

  ghost predicate GoodLane(l: Lane, n: Text) {
    Good(Merged(l), n) && Climbs(l, n)
  }

  /** The client is less than half of the number space ahead of what is arriving at the server. */
  predicate InReach(l: Lane, n: Text) {
    IsNumbered(l, n) && At(l.server, n).id in Arriving(l, n) ==>
      Offset(Arriving(l, n)[At(l.server, n).id].seqNum, At(l.client, n).seqNum) < HALF
  }

  /** The id of the name at the server, and that the messages under way are proper. */
  lemma LaneIsSound(l: Lane, n: Text)
    requires Good(Merged(l), n)
    ensures var i, bound := At(l.server, n).id, |l.server.idmap|;
            && AllProper(l.up, n, i, bound) && AllProper(l.raw, n, i, bound)
            && AllProper(l.down, n, i, bound) && AllProper(l.rawDown, n, i, bound)
            && ClientIds(l.client, n, i, bound) && Settled(l.server) && l.server.server
            && Mine(l.up + l.raw, n, i) == Mine(l.up, n, i) + Mine(l.raw, n, i)
            && Mine(l.down + l.rawDown, n, i) == Mine(l.down, n, i) + Mine(l.rawDown, n, i)
  {
    var i := At(l.server, n).id;
    hide Settled, ClientIds, Proper, Mine, StageHolds;
    MineConcat(l.up, l.raw, n, i);
    MineConcat(l.down, l.rawDown, n, i);
    assert forall m :: m in l.up + l.raw <==> m in l.up || m in l.raw;
    assert forall m :: m in l.down + l.rawDown <==> m in l.down || m in l.rawDown;
  }

  /** In the numbered stage what is arriving, and then what is pending, leads to the client's record. */
  lemma LeadsOn(l: Lane, n: Text)
    requires Good(Merged(l), n) && IsNumbered(l, n)
    ensures var i, c := At(l.server, n).id, At(l.client, n);
            && i != UNASSIGNED && c.id == i
            && ApplyCells(Authority, Arriving(l, n), OfEntry(l.raw, i)) == map[i := RecordCell(n, c)]
            && Mine(l.down, n, i) == [] && Mine(l.rawDown, n, i) == []
  {
    LaneIsSound(l, n);
    hide Settled, ClientIds, Proper, Mine, ApplyCells, OfEntry;
    var s, i, bound := At(l.server, n), At(l.server, n).id, |l.server.idmap|;
    ServerRecord(l.server, n);
    ClientIsClient(l.client, n, i, bound);
    var start := map[i := RecordCell(n, s)];
    ApplyCellsConcat(Authority, start, Mine(l.up, n, i), Mine(l.raw, n, i));
    MineMeansEntry(start, l.up, n, i, bound);
    MineMeansEntry(Arriving(l, n), l.raw, n, i, bound);
  }

  // ---------------------------------------------------------------- posting

  lemma RequestsCarryNoId(ms: seq<Message>, us: seq<Message>, n: Text, i: nat, bound: nat)
    requires AllProper(ms, n, i, bound) && i != UNASSIGNED && Requests(us, n)
    requires forall m :: m in Mine(ms, n, i) ==> m in us
    ensures OfEntry(ms, i) == []
  {
    hide Proper, Mine;
    MineHasBoth(ms, n, i, bound);
    forall m | m in us ensures m.EntryAssign? && m.id == UNASSIGNED {
      var k :| 0 <= k < |us| && us[k] == m;
    }
    SomeIn(OfEntry(ms, i));
  }

  /** Before the id has come back the queue passes on what there is about the name. */
  lemma PostedBeforeId(l: Lane, n: Text)
    requires Good(Merged(l), n) && !IsNumbered(l, n)
    ensures var i := At(l.server, n).id; Mine(Posted(l.raw), n, i) == Mine(l.raw, n, i)
  {
    LaneIsSound(l, n);
    hide Settled, ClientIds, Proper, Mine, Posted;
    var i, bound := At(l.server, n).id, |l.server.idmap|;
    var us := Mine(l.up + l.raw, n, i);
    ServerRecord(l.server, n);
    if StageOf(At(l.server, n), At(l.client, n)).Unwritten? {
      assert Requests(us, n);
    }
    if i != UNASSIGNED { RequestsCarryNoId(l.raw, us, n, i, bound); }
    PostedRequests(l.raw, n, i, bound);
  }

  lemma StagePart(l: Lane, n: Text)
    requires Good(Merged(l), n)
    ensures var s, c := At(l.server, n), At(l.client, n);
            && (s.value.Some? <==> s.id != UNASSIGNED)
            && StageHolds(s, c, Mine(l.up + l.raw, n, s.id), Mine(l.down + l.rawDown, n, s.id), n)
  {
  }

  lemma GoodFrom(l: Lane, l': Lane, n: Text)
    requires Good(Merged(l), n) && l'.server == l.server && l'.client == l.client
    requires var i, bound := At(l.server, n).id, |l.server.idmap|;
             && Mine(l'.up + l'.raw, n, i) == Mine(l.up + l.raw, n, i)
             && Mine(l'.down + l'.rawDown, n, i) == Mine(l.down + l.rawDown, n, i)
             && AllProper(l'.up + l'.raw, n, i, bound) && AllProper(l'.down + l'.rawDown, n, i, bound)
    ensures Good(Merged(l'), n)
  {
    hide Settled, ClientIds, Proper, Mine, StageHolds, At;
  }

  /** A lane that differs on the way up only is good if the stage holds. */
  lemma GoodUp(l: Lane, l': Lane, n: Text)
    requires Good(Merged(l), n) && l'.server == l.server && l'.client == l.client
    requires l'.down == l.down && l'.rawDown == l.rawDown
    requires var s, c := At(l.server, n), At(l.client, n);
             && AllProper(l'.up + l'.raw, n, s.id, |l.server.idmap|)
             && StageHolds(s, c, Mine(l'.up + l'.raw, n, s.id), Mine(l.down + l.rawDown, n, s.id), n)
    ensures Good(Merged(l'), n)
  {
    hide Settled, ClientIds, Proper, Mine, StageHolds, At;
  }

  /** In the numbered stage only what leads on matters. */
  lemma NumberedHolds(s: Record, c: Record, us: seq<Message>, us': seq<Message>, ds: seq<Message>, n: Text)
    requires StageHolds(s, c, us, ds, n) && StageOf(s, c).Numbered? && Leads(s, us', c, n)
    ensures StageHolds(s, c, us', ds, n)
  {
    hide ApplyCells;
  }

  lemma PostsUpKeepsGood(l: Lane, n: Text, conn: Conn, link: Conn)
    requires GoodLane(l, n)
    ensures Good(Merged(Act(l, PostsUp, conn, link)), n)
    ensures IsNumbered(l, n) ==>
              Arriving(Act(l, PostsUp, conn, link), n) == map[At(l.server, n).id := RecordCell(n, At(l.client, n))]
  {
    hide Good, Settled, ClientIds, Proper, Mine, Posted, ApplyCells, OfEntry, At, StageHolds, ClimbsFrom, RecordCell;
    LaneIsSound(l, n);
    StagePart(l, n);
    var i, bound := At(l.server, n).id, |l.server.idmap|;
    QueueKeepsProper(l.raw, n, i, bound);
    MineConcat(l.up, Posted(l.raw), n, i);
    var l' := Act(l, PostsUp, conn, link);
    assert l'.up + l'.raw == l.up + Posted(l.raw);
    assert forall m :: m in l.up + Posted(l.raw) ==> Proper(m, n, i, bound);
    if IsNumbered(l, n) {
      PostedLeadsOn(l, n);
      NumberedHolds(At(l.server, n), At(l.client, n), Mine(l.up + l.raw, n, i), Mine(l'.up + l'.raw, n, i),
                    Mine(l.down + l.rawDown, n, i), n);
    } else {
      PostedBeforeId(l, n);
    }
    GoodUp(l, l', n);
  }

  lemma PostedLeadsOn(l: Lane, n: Text)
    requires GoodLane(l, n) && IsNumbered(l, n)
    ensures var s, c := At(l.server, n), At(l.client, n);
            && Leads(s, Mine(l.up, n, s.id) + Mine(Posted(l.raw), n, s.id), c, n)
            && ApplyCells(Authority, map[s.id := RecordCell(n, s)], OfEntry(l.up + Posted(l.raw), s.id))
               == map[s.id := RecordCell(n, c)]
  {
    hide Good, Settled, ClientIds, Proper, Mine, EnqueueAll, Compact, ApplyCells, OfEntry, At, Rises, LastNumber, Leads,
         RecordCell;
    LaneIsSound(l, n);
    var i, bound := At(l.server, n).id, |l.server.idmap|;
    QueueKeepsProper(l.raw, n, i, bound);
    ProperIsNoClear(l.raw, n, i, bound);
    LeadsOn(l, n);
    var cell :| ClimbsFrom(l, n, cell);
    QueueByEntry(l.raw, i);
    EntryMeansTheSame(cell, OfEntry(l.raw, i), i);
    PostedLeads(l, n, i, bound);
  }

  lemma PostedLeads(l: Lane, n: Text, i: nat, bound: nat)
    requires i == At(l.server, n).id != UNASSIGNED
    requires AllProper(l.up, n, i, bound) && AllProper(Posted(l.raw), n, i, bound)
    requires ApplyCells(Authority, Arriving(l, n), OfEntry(Posted(l.raw), i))
             == map[i := RecordCell(n, At(l.client, n))]
    ensures Leads(At(l.server, n), Mine(l.up, n, i) + Mine(Posted(l.raw), n, i), At(l.client, n), n)
    ensures ApplyCells(Authority, map[i := RecordCell(n, At(l.server, n))], OfEntry(l.up + Posted(l.raw), i))
            == map[i := RecordCell(n, At(l.client, n))]
  {
    hide Proper, Mine, Posted, ApplyCells, OfEntry, At;
    var start := map[i := RecordCell(n, At(l.server, n))];
    ApplyCellsConcat(Authority, start, Mine(l.up, n, i), Mine(Posted(l.raw), n, i));
    MineMeansEntry(start, l.up, n, i, bound);
    MineMeansEntry(Arriving(l, n), Posted(l.raw), n, i, bound);
    OfEntryConcat(l.up, Posted(l.raw), i);
    ApplyCellsConcat(Authority, start, OfEntry(l.up, i), OfEntry(Posted(l.raw), i));
  }

  lemma PostsUpKeeps(l: Lane, n: Text, conn: Conn, link: Conn)
    requires GoodLane(l, n)
    ensures GoodLane(Act(l, PostsUp, conn, link), n)
  {
    hide Good, ApplyCells, Posted, Arriving;
    PostsUpKeepsGood(l, n, conn, link);
    var l' := Act(l, PostsUp, conn, link);
    if IsNumbered(l', n) {
      assert OfEntry([], At(l.server, n).id) == [];
      assert ClimbsFrom(l', n, RecordCell(n, At(l.client, n)));
    }
  }

  /** On the way down there is at most the server's answer. */
  lemma OneAnswer(s: Record, c: Record, us: seq<Message>, ds: seq<Message>, n: Text)
    requires StageHolds(s, c, us, ds, n) && (s.value.Some? <==> s.id != UNASSIGNED)
    ensures |ds| <= 1 && forall m :: m in ds ==> s.id != UNASSIGNED && m.EntryAssign? && m.id == s.id
  {
  }

  lemma PostsDownKeeps(l: Lane, n: Text, conn: Conn, link: Conn)
    requires GoodLane(l, n)
    ensures GoodLane(Act(l, PostsDown, conn, link), n)
  {
    hide Good, Settled, ClientIds, Proper, Mine, Posted, OfEntry, At, StageHolds, Climbs;
    LaneIsSound(l, n);
    var i, bound := At(l.server, n).id, |l.server.idmap|;
    StagePart(l, n);
    OneAnswer(At(l.server, n), At(l.client, n), Mine(l.up + l.raw, n, i), Mine(l.down + l.rawDown, n, i), n);
    QueueKeepsProper(l.rawDown, n, i, bound);
    MineConcat(l.down, Posted(l.rawDown), n, i);
    var l' := Act(l, PostsDown, conn, link);
    assert l'.down + l'.rawDown == l.down + Posted(l.rawDown);
    assert forall m :: m in Mine(l.rawDown, n, i) ==> m in Mine(l.down + l.rawDown, n, i);
    PostedAnswer(l.rawDown, n, i, bound);
    GoodFrom(l, l', n);
    SameClimb(l, l', n);
  }

  /** The climb is about the server's record, the client's, and what is between them on the way up. */
  lemma SameClimb(l: Lane, l': Lane, n: Text)
    requires Climbs(l, n) && At(l'.server, n) == At(l.server, n) && At(l'.client, n) == At(l.client, n)
    requires OfEntry(l'.up, At(l.server, n).id) == OfEntry(l.up, At(l.server, n).id)
    requires OfEntry(l'.raw, At(l.server, n).id) == OfEntry(l.raw, At(l.server, n).id)
    ensures Climbs(l', n)
  {
    hide ApplyCells, Rises, LastNumber, OfEntry, At;
    if IsNumbered(l', n) {
      var cell :| ClimbsFrom(l, n, cell);
      assert ClimbsFrom(l', n, cell);
    }
  }

  // ---------------------------------------------------------------- the turns

  lemma {:induction false} StrangersConcernNothing(ms: seq<Message>, n: Text, i: nat)
    requires i != UNASSIGNED && forall m :: m in ms ==> Stranger(m, n, i)
    ensures OfEntry(ms, i) == []
  {
    if ms != [] {
      assert ms[|ms| - 1] in ms;
      StrangersConcernNothing(ms[..|ms| - 1], n, i);
    }
  }

  lemma StrangersOut(out: seq<Outgoing>, n: Text, i: nat, bound: nat)
    requires Strangers(out, n, i, bound) && i != UNASSIGNED
    ensures OfEntry(Messages(out), i) == []
  {
    forall m | m in Messages(out) ensures Stranger(m, n, i) {
      var k :| 0 <= k < |out| && Messages(out)[k] == m;
      assert out[k] in out;
    }
    StrangersConcernNothing(Messages(out), n, i);
  }

  lemma OneFurther(base: U16, s: U16)
    requires Offset(base, s) < HALF
    ensures Offset(base, Increment(s)) == Offset(base, s) + 1
  {
  }

  lemma {:induction false} LastIsLow(base: U16, ms: seq<Message>, n: Text)
    requires Rises(base, ms, n)
    ensures Offset(base, LastNumber(base, ms)) < HALF
  {
    if ms != [] {
      LastIsLow(base, ms[..|ms| - 1], n);
    } else {
      NoOffset(base);
    }
  }

  /** The client's own change adds to the climb what it adds to the number. */
  lemma ChangeClimbs(base: U16, xs: seq<Message>, c: Record, c': Record, ms: seq<Message>, n: Text)
    requires c.id != UNASSIGNED && c.value.Some? && Change(c, c', ms, n)
    requires Rises(base, xs, n) && LastNumber(base, xs) == c.seqNum && Offset(base, c'.seqNum) < HALF
    ensures Rises(base, xs + ms, n) && LastNumber(base, xs + ms) == c'.seqNum
    ensures OfEntry(ms, c.id) == ms
  {
    LastIsLow(base, xs, n);
    OneFurther(base, c.seqNum);
    hide Offset, Increment;
    if ms == [] {
      assert xs + ms == xs;
    } else {
      assert ms == [ms[0]] && ms[..0] == [];
      assert (xs + ms)[..|xs|] == xs;
    }
  }

  lemma ClientOpClimbs(l: Lane, op: Op, n: Text, conn: Conn, link: Conn)
    requires GoodLane(l, n) && Fair(Merged(l), ClientDoes(op), n, conn)
    requires InReach(Act(l, Turned(ClientDoes(op)), conn, link), n)
    ensures Climbs(Act(l, Turned(ClientDoes(op)), conn, link), n)
  {
    LaneIsSound(l, n);
    ServerRecord(l.server, n);
    var i, bound, e := At(l.server, n).id, |l.server.idmap|, Step(l.client, op);
    hide Settled, Step, At, ClientIds, Mine, Proper, StageHolds, Lookup, OneEntryMoves, Sends, Strangers, Rises,
         LastNumber, OfEntry, ApplyCells, Good;
    var l' := Act(l, Turned(ClientDoes(op)), conn, link);
    ClientIsClient(l.client, n, i, bound);
    OfEntryConcat(l.raw, Messages(e.out), i);
    if op.name != n {
      ClientElsewhere(l.client, op, n, i, bound);
      if i != UNASSIGNED {
        StrangersOut(e.out, n, i, bound);
        assert OfEntry(l.raw, i) + [] == OfEntry(l.raw, i);
        SameClimb(l, l', n);
      }
    } else {
      OwnOpIsChange(l.client, op);
      if IsNumbered(l', n) {
        var cell :| ClimbsFrom(l, n, cell);
        assert Arriving(l', n) == map[i := cell];
        ChangeClimbs(cell.seqNum, OfEntry(l.raw, i), At(l.client, n), At(e.table, n), Messages(e.out), n);
        assert ClimbsFrom(l', n, cell);
      }
    }
  }

  lemma ServerOpClimbs(l: Lane, op: Op, n: Text, conn: Conn, link: Conn)
    requires GoodLane(l, n) && Fair(Merged(l), ServerDoes(op), n, conn)
    requires |Step(l.server, op).table.idmap| <= UNASSIGNED
    ensures Climbs(Act(l, Turned(ServerDoes(op)), conn, link), n)
  {
    LaneIsSound(l, n);
    hide Settled, Step, At, ClientIds, Mine, Proper, OfEntry, Good, Elsewhere, Climbs;
    ServerElsewhere(l.server, op, n);
    SameClimb(l, Act(l, Turned(ServerDoes(op)), conn, link), n);
  }

  lemma FirstOfEntry(ms: seq<Message>, i: nat)
    requires ms != []
    ensures OfEntry(ms, i) == (if Concerns(ms[0], i) then [ms[0]] else []) + OfEntry(ms[1..], i)
  {
    hide Concerns;
    assert ms == [ms[0]] + ms[1..];
    OfEntryConcat([ms[0]], ms[1..], i);
    assert [ms[0]][..0] == [];
  }

  /** What the server reads of the entry was arriving before. */
  lemma ReadArrives(l: Lane, n: Text, conn: Conn, link: Conn)
    requires Good(Merged(l), n) && IsNumbered(l, n) && conn.protoRev >= PROTO_3
    requires l.up != [] && About(l.up[0], n, At(l.server, n).id)
    ensures var l' := Act(l, Turned(ServerReads), conn, link);
            At(l'.server, n).id == At(l.server, n).id && Arriving(l', n) == Arriving(l, n)
  {
    hide Settled, At, ClientIds, Mine, Proper, OfEntry, ProcessIncoming, ApplyCells, ApplyCell, About, Concerns, Good,
         Merged;
    LaneIsSound(l, n);
    ServerRecord(l.server, n);
    var s, m := At(l.server, n), l.up[0];
    ServerTakes(l.server, m, conn, n);
    var s' := At(ProcessIncoming(l.server, m, conn).table, n);
    var start := map[s.id := RecordCell(n, s)];
    FirstOfEntry(l.up, s.id);
    if Concerns(m, s.id) {
      ApplyCellsConcat(Authority, start, [m], OfEntry(l.up[1..], s.id));
      ApplyCellsOne(Authority, start, m);
    } else {
      AboutButNotConcerned(m, n, s.id);
      ServerIgnores(l.server, m, conn);
      assert [] + OfEntry(l.up[1..], s.id) == OfEntry(l.up[1..], s.id);
    }
  }

  lemma AboutButNotConcerned(m: Message, n: Text, i: nat)
    requires About(m, n, i) && !Concerns(m, i)
    ensures m.EntryAssign? && m.id == UNASSIGNED && m.name == n
  {
  }

  lemma StrangerConcernsNothing(m: Message, n: Text, i: nat)
    requires Stranger(m, n, i) && i != UNASSIGNED
    ensures !Concerns(m, i)
  {
  }

  /** A message about something else leaves the climb as it is. */
  lemma StrangerReadClimbs(l: Lane, n: Text, conn: Conn, link: Conn)
    requires GoodLane(l, n) && l.up != [] && Stranger(l.up[0], n, At(l.server, n).id)
    requires |Act(l, Turned(ServerReads), conn, link).server.idmap| <= UNASSIGNED
    ensures Climbs(Act(l, Turned(ServerReads), conn, link), n)
  {
    hide Indexed, Exact, At, ClientIds, Mine, Proper, OfEntry, ProcessIncoming, Elsewhere, Good, Stranger, Concerns,
         Climbs, IdInRange, Merged;
    LaneIsSound(l, n);
    var i, m := At(l.server, n).id, l.up[0];
    ProperIsInRange(m, n, i, |l.server.idmap|);
    StrangerIsElsewhere(l.server, m, n, conn);
    ServerElsewhere(l.server, Incoming(m, conn), n);
    var l' := Act(l, Turned(ServerReads), conn, link);
    if i == UNASSIGNED {
      ServerRecord(l.server, n);
      WithoutValue(l', n);
    } else {
      FirstOfEntry(l.up, i);
      StrangerConcernsNothing(m, n, i);
      assert [] + OfEntry(l.up[1..], i) == OfEntry(l.up[1..], i);
      SameClimb(l, l', n);
    }
  }

  lemma WithoutValue(l: Lane, n: Text)
    requires At(l.server, n).value.None?
    ensures Climbs(l, n)
  {
  }

  lemma ServerReadClimbs(l: Lane, n: Text, conn: Conn, link: Conn)
    requires GoodLane(l, n) && conn.protoRev >= PROTO_3
    requires |Act(l, Turned(ServerReads), conn, link).server.idmap| <= UNASSIGNED
    ensures Climbs(Act(l, Turned(ServerReads), conn, link), n)
  {
    if l.up != [] {
      hide Settled, At, ClientIds, Mine, Proper, ProcessIncoming, Good, About, Stranger, ApplyCells, Rises, LastNumber,
           StageHolds, Bounded, OfEntry, Merged;
      LaneIsSound(l, n);
      StagePart(l, n);
      var i, bound, m := At(l.server, n).id, |l.server.idmap|, l.up[0];
      ProperSplits(m, n, i, bound);
      ClientIsClient(l.client, n, i, bound);
      var l' := Act(l, Turned(ServerReads), conn, link);
      if Stranger(m, n, i) {
        StrangerReadClimbs(l, n, conn, link);
      } else if IsNumbered(l, n) {
        ReadArrives(l, n, conn, link);
        var cell :| ClimbsFrom(l, n, cell);
        assert ClimbsFrom(l', n, cell);
      } else {
        StageOfClient(At(l.server, n), At(l.client, n), Mine(l.up + l.raw, n, i), Mine(l.down + l.rawDown, n, i), n);
        assert !IsNumbered(l', n);
      }
    }
  }

  /** Before the id has come back the client's record has none. */
  lemma StageOfClient(s: Record, c: Record, us: seq<Message>, ds: seq<Message>, n: Text)
    requires StageHolds(s, c, us, ds, n) && !StageOf(s, c).Numbered? && (c.value.None? ==> c.id == UNASSIGNED)
    ensures c.id == UNASSIGNED
    ensures forall s' :: !StageOf(s', c).Numbered?
  {
  }

  lemma FlagsDoNotClimb(base: U16, id: nat, flags: int, n: Text)
    ensures Rises(base, [FlagsUpdate(id, flags)], n) && LastNumber(base, [FlagsUpdate(id, flags)]) == base
  {
    assert [FlagsUpdate(id, flags)][..0] == [];
    assert Rises(base, [], n);
  }

  lemma UpdateClimbs(base: U16, ms: seq<Message>, id: nat, s: U16, v: Value, n: Text)
    requires Rises(base, ms, n) && LastNumber(base, ms) == base && 0 < Offset(base, s) < HALF
    ensures Rises(base, ms + [EntryUpdate(id, s, v)], n) && LastNumber(base, ms + [EntryUpdate(id, s, v)]) == s
  {
    NoOffset(base);
    hide Offset;
    assert (ms + [EntryUpdate(id, s, v)])[..|ms|] == ms;
  }

  lemma AnswerClimbsOn(base: U16, flagged: seq<Message>, m: Message, c: Record, n: Text)
    requires m.EntryAssign? && m.seqNum == base && c.value.Some?
    requires Rises(base, flagged, n) && LastNumber(base, flagged) == base
    ensures var rest := if Newer(c.seqNum, base) then [EntryUpdate(m.id, c.seqNum, c.value.value)] else [];
            && Rises(base, flagged + rest, n)
            && LastNumber(base, flagged + rest) == if Newer(c.seqNum, base) then c.seqNum else base
  {
    hide Newer, Offset, Rises, LastNumber;
    NewerIsAhead(c.seqNum, base);
    if Newer(c.seqNum, base) {
      UpdateClimbs(base, flagged, m.id, c.seqNum, c.value.value, n);
    } else {
      assert flagged + [] == flagged;
    }
  }

  lemma AnswerConcerns(m: Message, c: Record, id: nat)
    requires m.EntryAssign? && m.id == id && c.value.Some?
    ensures OfEntry(Answer(m, c), id) == Answer(m, c)
  {
    hide Newer, OfEntry;
    AllOfEntry(Answer(m, c), id);
  }

  /** The client's answer to its id is the start of a climb from the server's number. */
  lemma AnswerClimbs(s: Record, c: Record, m: Message, n: Text)
    requires m.EntryAssign? && m.id == s.id != UNASSIGNED && m.seqNum == s.seqNum && c.value.Some?
    ensures OfEntry(Answer(m, c), s.id) == Answer(m, c)
    ensures Rises(s.seqNum, Answer(m, c), n)
    ensures LastNumber(s.seqNum, Answer(m, c)) == if Newer(c.seqNum, m.seqNum) then c.seqNum else s.seqNum
  {
    hide Newer, Offset, Rises, LastNumber, OfEntry;
    AnswerConcerns(m, c, s.id);
    NothingClimbs(s.seqNum, n);
    FlagsDoNotClimb(s.seqNum, m.id, c.flags, n);
    AnswerClimbsOn(s.seqNum, if m.flags != c.flags then [FlagsUpdate(m.id, c.flags)] else [], m, c, n);
  }

  lemma NothingClimbs(base: U16, n: Text)
    ensures Rises(base, [], n) && LastNumber(base, []) == base
  {
  }

  /** Where the answer comes from: the server's record, and no message of the entry on the way up. */
  lemma ReplyIs(s: Record, c: Record, us: seq<Message>, ds: seq<Message>, n: Text)
    requires StageHolds(s, c, us, ds, n) && (s.value.Some? <==> s.id != UNASSIGNED) && ds != []
    ensures s.id != UNASSIGNED && Requests(us, n) && c.id == UNASSIGNED && c.value.Some?
    ensures ds[0] == EntryAssign(n, s.id, s.seqNum, s.value.value, s.flags)
  {
  }

  lemma NothingOfEntryUp(l: Lane, n: Text)
    requires Good(Merged(l), n) && At(l.server, n).id != UNASSIGNED
    requires Requests(Mine(l.up + l.raw, n, At(l.server, n).id), n)
    ensures OfEntry(l.up, At(l.server, n).id) == [] && OfEntry(l.raw, At(l.server, n).id) == []
  {
    LaneIsSound(l, n);
    hide Settled, At, ClientIds, Mine, Proper, OfEntry, Requests;
    var i, bound := At(l.server, n).id, |l.server.idmap|;
    RequestsCarryNoId(l.up, Mine(l.up + l.raw, n, i), n, i, bound);
    RequestsCarryNoId(l.raw, Mine(l.up + l.raw, n, i), n, i, bound);
  }

  lemma ReplyClimbs(l: Lane, n: Text, conn: Conn, link: Conn)
    requires GoodLane(l, n) && l.down != [] && About(l.down[0], n, At(l.server, n).id)
    ensures Climbs(Act(l, Turned(ClientReads), conn, link), n)
  {
    hide Settled, At, ClientIds, Mine, Proper, ProcessIncoming, About, ApplyCells, Lookup, Messages, OfEntry, Rises,
         LastNumber, Good, RecordCell, StageHolds, Requests, Answer, Climbs, Merged;
    LaneIsSound(l, n);
    ServerRecord(l.server, n);
    StagePart(l, n);
    var s, c, m, bound := At(l.server, n), At(l.client, n), l.down[0], |l.server.idmap|;
    MineFirst(l.down, n, s.id);
    var us, ds := Mine(l.up + l.raw, n, s.id), Mine(l.down + l.rawDown, n, s.id);
    assert ds[0] == m;
    ReplyIs(s, c, us, ds, n);
    NothingOfEntryUp(l, n);
    ClientIsClient(l.client, n, s.id, bound);
    NoSlotYet(l.client, n, s.id, bound);
    ReplyArrives(l.client, m, link);
    ReplyStarts(l, Act(l, Turned(ClientReads), conn, link), m, n);
  }

  lemma ReplyStarts(l: Lane, l': Lane, m: Message, n: Text)
    requires var s, c := At(l.server, n), At(l.client, n);
             && m.EntryAssign? && m.id == s.id && m.seqNum == s.seqNum && s.id != UNASSIGNED && c.value.Some?
             && OfEntry(l.up, s.id) == [] && OfEntry(l.raw, s.id) == []
             && l'.server == l.server && l'.up == l.up && l'.raw == l.raw + Answer(m, c)
             && At(l'.client, n).seqNum == if Newer(c.seqNum, m.seqNum) then c.seqNum else m.seqNum
    ensures Climbs(l', n)
  {
    hide At, ApplyCells, OfEntry, Rises, LastNumber, Answer, Newer;
    var s, c := At(l.server, n), At(l.client, n);
    OfEntryConcat(l.raw, Answer(m, c), s.id);
    AnswerClimbs(s, c, m, n);
    assert [] + Answer(m, c) == Answer(m, c);
    ApplyCellsNone(map[s.id := RecordCell(n, s)]);
    assert ClimbsFrom(l', n, RecordCell(n, s));
  }

  lemma ClientReadClimbs(l: Lane, n: Text, conn: Conn, link: Conn)
    requires GoodLane(l, n)
    ensures Climbs(Act(l, Turned(ClientReads), conn, link), n)
  {
    if l.down != [] {
      LaneIsSound(l, n);
      ServerRecord(l.server, n);
      var i, bound, m := At(l.server, n).id, |l.server.idmap|, l.down[0];
      hide Settled, At, ClientIds, Mine, Proper, ProcessIncoming, About, Stranger, Strangers, Messages, OfEntry, Good,
           Climbs, Bounded;
      ProperSplits(m, n, i, bound);
      if Stranger(m, n, i) {
        ClientReadsStranger(l.client, m, link, n, i, bound);
        var e := ProcessIncoming(l.client, m, link);
        OfEntryConcat(l.raw, Messages(e.out), i);
        if i != UNASSIGNED {
          StrangersOut(e.out, n, i, bound);
          assert OfEntry(l.raw, i) + [] == OfEntry(l.raw, i);
          SameClimb(l, Act(l, Turned(ClientReads), conn, link), n);
        } else {
          WithoutValue(Act(l, Turned(ClientReads), conn, link), n);
        }
      } else {
        ReplyClimbs(l, n, conn, link);
      }
    }
  }

  // ---------------------------------------------------------------- whole runs

  predicate FairDeed(l: Lane, deed: Deed, n: Text, conn: Conn) {
    deed.Turned? ==> Fair(Merged(l), deed.turn, n, conn)
  }

  lemma DeedKeepsGood(l: Lane, deed: Deed, n: Text, conn: Conn, link: Conn)
    requires GoodLane(l, n) && FairDeed(l, deed, n, conn) && conn.protoRev >= PROTO_3
    requires var l' := Act(l, deed, conn, link);
             InTime(Merged(l'), n) && InReach(l', n) && |l'.server.idmap| <= UNASSIGNED
    ensures GoodLane(Act(l, deed, conn, link), n)
  {
    hide Good, Fair, InTime, InReach, Step, ProcessIncoming, Climbs, Posted, Merged;
    match deed
    case PostsUp => PostsUpKeeps(l, n, conn, link);
    case PostsDown => PostsDownKeeps(l, n, conn, link);
    case Turned(t) =>
      TurnMerges(l, t, conn, link);
      MergedServer(Act(l, deed, conn, link));
      if Act(l, deed, conn, link) != l {
        TurnKeepsGood(Merged(l), t, n, conn, link);
        match t
        case ClientDoes(op) => ClientOpClimbs(l, op, n, conn, link);
        case ServerDoes(op) => ServerOpClimbs(l, op, n, conn, link);
        case ServerReads => ServerReadClimbs(l, n, conn, link);
        case ClientReads => ClientReadClimbs(l, n, conn, link);
      }
  }

  lemma MergedServer(l: Lane)
    ensures Merged(l).server == l.server
  {
  }

  predicate IsLaneRun(ls: seq<Lane>, deeds: seq<Deed>, conn: Conn, link: Conn) {
    |ls| == |deeds| + 1 && forall k :: 0 <= k < |deeds| ==> ls[k + 1] == Act(ls[k], deeds[k], conn, link)
  }

  lemma {:induction false} LaneStaysGood(ls: seq<Lane>, deeds: seq<Deed>, n: Text, conn: Conn, link: Conn, k: nat)
    requires IsLaneRun(ls, deeds, conn, link) && GoodLane(ls[0], n) && conn.protoRev >= PROTO_3 && k < |ls|
    requires forall j :: 0 <= j < |deeds| ==> FairDeed(ls[j], deeds[j], n, conn)
    requires forall l :: l in ls ==> InTime(Merged(l), n) && InReach(l, n) && |l.server.idmap| <= UNASSIGNED
    ensures GoodLane(ls[k], n)
    decreases k
  {
    hide GoodLane, FairDeed, InTime, InReach, Act, Merged;
    if k != 0 {
      LaneStaysGood(ls, deeds, n, conn, link, k - 1);
      assert ls[k] in ls && ls[k] == Act(ls[k - 1], deeds[k - 1], conn, link);
      DeedKeepsGood(ls[k - 1], deeds[k - 1], n, conn, link);
    }
  }

  /** Everything is posted, and then both ends read until nothing is under way. */
  function Flushed(l: Lane): Duo {
    Duo(l.server, l.client, l.up + Posted(l.raw), l.down + Posted(l.rawDown))
  }

  lemma FlushedIsGood(l: Lane, n: Text, conn: Conn, link: Conn)
    requires GoodLane(l, n)
    ensures Good(Flushed(l), n)
  {
    hide Good, Climbs, Posted;
    PostsUpKeeps(l, n, conn, link);
    var l1 := Act(l, PostsUp, conn, link);
    PostsDownKeeps(l1, n, conn, link);
    var l2 := Act(l1, PostsDown, conn, link);
    assert Merged(l2).up == Flushed(l).up && Merged(l2).down == Flushed(l).down;
    assert Merged(l2) == Flushed(l);
  }

  lemma SyncedLaneIsGood(s: Table, c: Table, n: Text)
    requires Synced(Net(s, [], c))
    ensures GoodLane(Lane(s, c, [], [], [], []), n)
  {
    hide Synced, Good, ApplyCells;
    SyncedIsGood(s, c, n);
    var l := Lane(s, c, [], [], [], []);
    assert Merged(l) == Duo(s, c, [], []);
    if IsNumbered(l, n) {
      LeadsOn(l, n);
      ApplyCellsNone(map[At(s, n).id := RecordCell(n, At(s, n))]);
      assert Arriving(l, n) == map[At(s, n).id := RecordCell(n, At(s, n))];
      assert ApplyCells(Authority, Arriving(l, n), []) == Arriving(l, n) by { ApplyCellsNone(Arriving(l, n)); }
      assert RecordCell(n, At(c, n)) == map[At(s, n).id := RecordCell(n, At(c, n))][At(s, n).id];
      assert ClimbsFrom(l, n, RecordCell(n, At(s, n)));
    }
  }

  /**
   Convergence with one writer through the queues: from a start in sync, through any run of operations, posts and reads
   in which only this client writes the name, and after everything has been posted and read, the server and the client
   hold the value and the flags that the client wrote last.
   */
  lemma QueuedWriterConverges(ls: seq<Lane>, deeds: seq<Deed>, n: Text, conn: Conn, link: Conn)
    requires IsLaneRun(ls, deeds, conn, link) && conn.protoRev >= PROTO_3
    requires Synced(Net(ls[0].server, [], ls[0].client)) && ls[0] == Lane(ls[0].server, ls[0].client, [], [], [], [])
    requires forall j :: 0 <= j < |deeds| ==> FairDeed(ls[j], deeds[j], n, conn)
    requires forall l :: l in ls ==> InTime(Merged(l), n) && InReach(l, n) && |l.server.idmap| <= UNASSIGNED
    requires ls[|deeds|].server.server && !ls[|deeds|].client.server
    requires |Quiet(Flushed(ls[|deeds|]), conn, link).server.idmap| <= UNASSIGNED
    ensures var l := ls[|deeds|]; var q := Quiet(Flushed(l), conn, link);
            && At(q.server, n).value == At(q.client, n).value == At(l.client, n).value
            && At(q.server, n).id == At(q.client, n).id
            && (At(l.client, n).value.Some? ==> At(q.server, n).flags == At(q.client, n).flags == At(l.client, n).flags)
  {
    hide Synced, Good, GoodLane, FairDeed, InTime, InReach, Act, Quiet, At, Merged;
    SyncedLaneIsGood(ls[0].server, ls[0].client, n);
    LaneStaysGood(ls, deeds, n, conn, link, |deeds|);
    FlushedIsGood(ls[|deeds|], n, conn, link);
    LastWriteReachesServer(Flushed(ls[|deeds|]), n, conn, link);
  }
}
