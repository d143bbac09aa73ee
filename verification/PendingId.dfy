/**
 A client that writes an entry, and goes on writing a new one before the server's id for it has come back:
 the last value and flags reach the server, as long as nobody else writes the name.
 */
module PendingId {
  import opened Wrappers
  import opened Serial
  import opened Protocol
  import opened StorageSpec
  import opened Index
  import opened Receiver
  import opened Replication
  import opened Network

  /** `up` is what the client has sent and the server has not read yet, `down` the opposite direction. */
  datatype Duo = Duo(server: Table, client: Table, up: seq<Message>, down: seq<Message>)

  datatype Turn = ClientDoes(op: Op) | ServerDoes(op: Op) | ServerReads | ClientReads

  /** `conn` is the connection at the server's end, `link` at the client's. */
  function After(d: Duo, t: Turn, conn: Conn, link: Conn): Duo {
    match t
    case ClientDoes(op) =>
      var e := Step(d.client, op);
      d.(client := e.table, up := d.up + Messages(e.out))
    case ServerDoes(op) =>
      var e := Step(d.server, op);
      d.(server := e.table, down := d.down + Routed(e.out, conn))
    case ServerReads =>
      if d.up == [] then d
      else
        var e := ProcessIncoming(d.server, d.up[0], conn);
        d.(server := e.table, up := d.up[1..], down := d.down + Routed(e.out, conn))
    case ClientReads =>
      if d.down == [] then d
      else
        var e := ProcessIncoming(d.client, d.down[0], link);
        d.(client := e.table, down := d.down[1..], up := d.up + Messages(e.out))
  }

  // ---------------------------------------------------------------- messages about the name and others

  /** A message about the name, whose id on the server is i. */
  predicate About(m: Message, n: Text, i: nat) {
    match m
    case EntryAssign(name, id, _, _, _) => name == n && (id == UNASSIGNED || id == i)
    case EntryUpdate(id, _, _) => id == i != UNASSIGNED
    case FlagsUpdate(id, _) => id == i != UNASSIGNED
    case _ => false
  }

  predicate Stranger(m: Message, n: Text, i: nat) {
    match m
    case EntryAssign(name, id, _, _, _) => name != n && (id == i ==> i == UNASSIGNED)
    case EntryUpdate(id, _, _) => id != i
    case FlagsUpdate(id, _) => id != i
    case EntryDelete(id) => id != i
    case ClearEntries => false
    case _ => true
  }

  /** Ids that are in use come from the server. */
  predicate Bounded(m: Message, bound: nat) {
    match m
    case EntryAssign(_, id, _, _, _) => id == UNASSIGNED || id < bound
    case EntryUpdate(id, _, _) => id < bound
    case FlagsUpdate(id, _) => id < bound
    case EntryDelete(id) => id < bound
    case _ => true
  }

  predicate Proper(m: Message, n: Text, i: nat, bound: nat) {
    (About(m, n, i) || Stranger(m, n, i)) && Bounded(m, bound)
  }

  function Mine(ms: seq<Message>, n: Text, i: nat): seq<Message> {
    if ms == [] then []
    else Mine(ms[..|ms| - 1], n, i) + (if About(ms[|ms| - 1], n, i) then [ms[|ms| - 1]] else [])
  }

  lemma {:induction false} MineConcat(xs: seq<Message>, ys: seq<Message>, n: Text, i: nat)
    ensures Mine(xs + ys, n, i) == Mine(xs, n, i) + Mine(ys, n, i)
  {
    if ys == [] {
      assert xs + ys == xs;
    } else {
      assert (xs + ys)[..|xs + ys| - 1] == xs + ys[..|ys| - 1];
      MineConcat(xs, ys[..|ys| - 1], n, i);
    }
  }

  lemma MineOne(m: Message, n: Text, i: nat)
    ensures Mine([m], n, i) == if About(m, n, i) then [m] else []
  {
    assert [m][..0] == [];
  }

  lemma MineFirst(ms: seq<Message>, n: Text, i: nat)
    requires ms != []
    ensures Mine(ms, n, i) == (if About(ms[0], n, i) then [ms[0]] else []) + Mine(ms[1..], n, i)
  {
    hide Mine, About;
    assert ms == [ms[0]] + ms[1..];
    MineConcat([ms[0]], ms[1..], n, i);
    MineOne(ms[0], n, i);
  }

  lemma {:induction false} StrangersAreNotMine(ms: seq<Message>, n: Text, i: nat)
    requires forall m :: m in ms ==> Stranger(m, n, i)
    ensures Mine(ms, n, i) == []
  {
    if ms != [] {
      StrangersAreNotMine(ms[..|ms| - 1], n, i);
      assert ms[|ms| - 1] in ms;
    }
  }

  /** The messages about the name stay the same when it gets an id that no message mentions yet. */
  lemma {:induction false} MineWithNewId(ms: seq<Message>, n: Text, bound: nat)
    requires bound != UNASSIGNED && forall m :: m in ms ==> Bounded(m, bound)
    ensures Mine(ms, n, bound) == Mine(ms, n, UNASSIGNED)
  {
    if ms != [] {
      MineWithNewId(ms[..|ms| - 1], n, bound);
      assert ms[|ms| - 1] in ms;
    }
  }

  // ---------------------------------------------------------------- the invariant

  /** On the client, the id of the name is known to be this name's, and other names have other ids. */
  ghost predicate ClientIds(c: Table, n: Text, i: nat, bound: nat) {
    && !c.server
    && (forall k {:trigger At(c, k)} :: k != n ==>
        At(c, k).id == UNASSIGNED || (At(c, k).id < bound && At(c, k).id != i))
    && (forall j: nat {:trigger Lookup(c, j)} :: Lookup(c, j).Some? ==>
          j < bound && (Lookup(c, j) == Some(n) <==> j == i) && (j == i ==> At(c, n).id == i))
    && (At(c, n).id != UNASSIGNED ==> At(c, n).id == i && Lookup(c, i) == Some(n))
    && (At(c, n).value.None? ==> At(c, n).id == UNASSIGNED)
  }

  ghost predicate Sound(d: Duo, n: Text) {
    var i, bound := At(d.server, n).id, |d.server.idmap|;
    && Settled(d.server) && d.server.server && ClientIds(d.client, n, i, bound)
    && (forall m :: m in d.up ==> Proper(m, n, i, bound))
    && (forall m :: m in d.down ==> Proper(m, n, i, bound))
  }

  predicate Requests(ms: seq<Message>, n: Text) {
    forall k :: 0 <= k < |ms| ==> ms[k].EntryAssign? && ms[k].id == UNASSIGNED && ms[k].name == n
  }

  /** The client's record is less than half a turn after this value, and is this value if it has not moved. */
  predicate Ahead(r: Record, seqNum: U16, value: Value) {
    Offset(seqNum, r.seqNum) < HALF && (r.seqNum == seqNum ==> r.value == Some(value))
  }

  /** The messages about the entry turn the server's record into the client's. */
  predicate Leads(s: Record, us: seq<Message>, c: Record, n: Text) {
    ApplyCells(Authority, map[s.id := RecordCell(n, s)], us) == map[s.id := RecordCell(n, c)]
  }

  datatype Stage = Unwritten | Pending | Replied | Numbered

  function StageOf(s: Record, c: Record): Stage {
    if c.value.None? then Unwritten
    else if s.value.None? then Pending
    else if c.id == UNASSIGNED then Replied
    else Numbered
  }

  /** `us` and `ds` are the messages about the name on the way up and down. */
  predicate StageHolds(s: Record, c: Record, us: seq<Message>, ds: seq<Message>, n: Text) {
    match StageOf(s, c)
    case Unwritten => s.value.None? && us == [] && ds == []
    case Pending =>
      && c.id == UNASSIGNED && us != [] && Requests(us, n) && ds == []
      && Ahead(c, us[0].seqNum, us[0].value)
    case Replied =>
      && Requests(us, n) && ds == [EntryAssign(n, s.id, s.seqNum, s.value.value, s.flags)]
      && Ahead(c, s.seqNum, s.value.value)
    case Numbered => c.id == s.id && ds == [] && Leads(s, us, c, n)
  }

  ghost predicate Good(d: Duo, n: Text) {
    var s, c := At(d.server, n), At(d.client, n);
    && Sound(d, n)
    && (s.value.Some? <==> s.id != UNASSIGNED)
    && StageHolds(s, c, Mine(d.up, n, s.id), Mine(d.down, n, s.id), n)
  }

  /** While the id is pending the client makes fewer than 32768 changes after its request. */
  predicate InTime(d: Duo, n: Text) {
    var s, c := At(d.server, n), At(d.client, n);
    var us := Mine(d.up, n, s.id);
    match StageOf(s, c)
    case Pending => us != [] && us[0].EntryAssign? ==> Offset(us[0].seqNum, c.seqNum) < HALF
    case Replied => Offset(s.seqNum, c.seqNum) < HALF
    case _ => true
  }

  // ---------------------------------------------------------------- operations on other names

  predicate LocalElsewhere(op: Op, n: Text) {
    match op
    case RemoveAll => false
    case Incoming(_, _) => false
    case _ => op.name != n
  }

  /** Nobody but the client writes the name, and nobody clears. */
  predicate Elsewhere(t: Table, op: Op, n: Text) {
    match op
    case Incoming(m, _) =>
      (match m
       case EntryAssign(name, id, _, _, _) => name != n && Lookup(t, id) != Some(n)
       case EntryUpdate(id, _, _) => Lookup(t, id) != Some(n)
       case FlagsUpdate(id, _) => Lookup(t, id) != Some(n)
       case EntryDelete(id) => Lookup(t, id) != Some(n)
       case ClearEntries => false
       case _ => true)
    case _ => LocalElsewhere(op, n)
  }

  ghost predicate Strangers(out: seq<Outgoing>, n: Text, i: nat, bound: nat) {
    forall o :: o in out ==> Stranger(o.msg, n, i) && Bounded(o.msg, bound)
  }

  /** Only the entry k changes; it keeps its id, or loses it together with its slot. */
  ghost predicate OneEntryMoves(t: Table, t': Table, k: Text) {
    && t'.server == t.server
    && (forall j {:trigger At(t', j)} :: j != k ==> At(t', j) == At(t, j))
    && (At(t', k).id == At(t, k).id || At(t', k).id == UNASSIGNED)
    && (forall j: nat {:trigger Lookup(t', j)} ::
          Lookup(t', j) == Lookup(t, j) || (Lookup(t', j).None? && j == At(t, k).id))
  }

  /** The messages are about the entry k with this id. */
  predicate Sends(out: seq<Outgoing>, k: Text, id: nat) {
    forall o :: o in out ==>
      match o.msg
      case EntryAssign(name, x, _, _, _) => name == k && x == id
      case EntryUpdate(x, _, _) => x == id != UNASSIGNED
      case FlagsUpdate(x, _) => x == id != UNASSIGNED
      case EntryDelete(x) => x == id != UNASSIGNED
      case _ => false
  }

  lemma MoveKeepsIds(c: Table, c': Table, k: Text, n: Text, i: nat, bound: nat)
    requires ClientIds(c, n, i, bound) && OneEntryMoves(c, c', k) && k != n && bound <= UNASSIGNED
    ensures ClientIds(c', n, i, bound)
  {
    hide At, Lookup;
    assert At(c, k).id == UNASSIGNED || At(c, k).id < bound;
    forall j ensures j != n ==> At(c', j).id == At(c, j).id || At(c', j).id == UNASSIGNED {}
    assert Lookup(c', At(c, n).id) == Lookup(c, At(c, n).id) || At(c, n).id == At(c, k).id;
  }

  lemma SendsToStrangers(c: Table, out: seq<Outgoing>, k: Text, n: Text, i: nat, bound: nat)
    requires ClientIds(c, n, i, bound) && Sends(out, k, At(c, k).id) && k != n && bound <= UNASSIGNED
    ensures Strangers(out, n, i, bound)
  {
    hide At, Lookup;
    assert At(c, k).id == UNASSIGNED || (At(c, k).id < bound && At(c, k).id != i);
  }

  lemma ClientSetValue(c: Table, k: Text, v: Value)
    requires !c.server && k in c.entries
    ensures var e := SetValue(c, k, v, true); OneEntryMoves(c, e.table, k) && Sends(e.out, k, At(c, k).id)
  {
  }

  lemma ClientGetOrNew(c: Table, k: Text)
    ensures var c' := GetOrNew(c, k);
            OneEntryMoves(c, c', k) && At(c', k) == At(c, k) && forall j: nat :: Lookup(c', j) == Lookup(c, j)
  {
  }

  lemma MovesTwice(a: Table, b: Table, c: Table, k: Text)
    requires OneEntryMoves(a, b, k) && OneEntryMoves(b, c, k) && At(b, k).id == At(a, k).id
    ensures OneEntryMoves(a, c, k)
  {
    hide At, Lookup;
    assert forall j: nat :: Lookup(b, j) == Lookup(b, j);
    forall j | j != k ensures At(c, j) == At(a, j) { assert At(b, j) == At(a, j); }
    forall j: nat ensures Lookup(c, j) == Lookup(a, j) || (Lookup(c, j).None? && j == At(a, k).id) {
      assert Lookup(b, j) == Lookup(a, j) || (Lookup(b, j).None? && j == At(a, k).id);
    }
  }

  lemma SetsElsewhere(c: Table, k: Text, v: Value)
    requires !c.server
    ensures var t := GetOrNew(c, k); var e := SetValue(t, k, v, true);
            OneEntryMoves(c, t, k) && OneEntryMoves(c, e.table, k) && Sends(e.out, k, At(c, k).id)
  {
    hide GetOrNew, SetValue;
    var t := GetOrNew(c, k);
    ClientGetOrNew(c, k);
    ClientSetValue(t, k, v);
    MovesTwice(c, t, SetValue(t, k, v, true).table, k);
  }

  lemma OthersElsewhere(c: Table, k: Text, f: int)
    requires k in c.entries
    ensures var e := SetFlags(c, k, f, true); OneEntryMoves(c, e.table, k) && Sends(e.out, k, At(c, k).id)
    ensures var e := Delete(c, k, true); OneEntryMoves(c, e.table, k) && Sends(e.out, k, At(c, k).id)
  {
  }

  lemma NothingElsewhere(c: Table, k: Text)
    ensures OneEntryMoves(c, c, k) && forall id :: Sends([], k, id)
  {
  }

  /** A client's operation on one entry. */
  lemma ClientOp(c: Table, op: Op)
    requires !c.server && !op.RemoveAll? && !op.Incoming?
    ensures var e := Step(c, op); OneEntryMoves(c, e.table, op.name) && Sends(e.out, op.name, At(c, op.name).id)
  {
    hide GetOrNew, SetValue, SetFlags, Delete, OneEntryMoves, Sends;
    NothingElsewhere(c, op.name);
    match op
    case Set(k, v) => SetsElsewhere(c, k, v);
    case ForceSet(k, v) => SetsElsewhere(c, k, v);
    case SetDefault(k, v) => SetsElsewhere(c, k, v);
    case ChangeFlags(k, f) => if k in c.entries { OthersElsewhere(c, k, f); }
    case Remove(k) => if k in c.entries { OthersElsewhere(c, k, 0); }
  }

  lemma ClientElsewhere(c: Table, op: Op, n: Text, i: nat, bound: nat)
    requires ClientIds(c, n, i, bound) && LocalElsewhere(op, n) && bound <= UNASSIGNED
    ensures var e := Step(c, op);
            At(e.table, n) == At(c, n) && ClientIds(e.table, n, i, bound) && Strangers(e.out, n, i, bound)
  {
    hide Step, Sends;
    ClientOp(c, op);
    MoveKeepsIds(c, Step(c, op).table, op.name, n, i, bound);
    SendsToStrangers(c, Step(c, op).out, op.name, n, i, bound);
  }

  // ---------------------------------------------------------------- the server and other names

  /** What a server may do with other entries: the name keeps its record, and the messages are not about it. */
  ghost predicate Aside(t: Table, e: Effect, n: Text) {
    && (forall j {:trigger At(e.table, j)} :: j == n ==> At(e.table, j) == At(t, j))
    && Strangers(e.out, n, At(t, n).id, |e.table.idmap|)
  }

  /** An entry with an id of its own, or a new one: the messages that carry this id are not about the name. */
  lemma AsideByName(t: Table, e: Effect, k: Text, id: nat, n: Text)
    requires Settled(t) && k != n && Sends(e.out, k, id) && At(e.table, n) == At(t, n)
    requires |t.idmap| <= |e.table.idmap|
    requires id == UNASSIGNED || id == At(t, k).id || |t.idmap| <= id < |e.table.idmap|
    ensures Aside(t, e, n)
  {
    if n in t.entries { assert RecordOk(t, n); }
    if k in t.entries { assert RecordOk(t, k); }
  }

  lemma ServerSetValue(t: Table, k: Text, v: Value, local: bool, n: Text)
    requires Settled(t) && t.server && k in t.entries && k != n
    requires |SetValue(t, k, v, local).table.idmap| <= UNASSIGNED
    ensures Aside(t, SetValue(t, k, v, local), n)
  {
    var e := SetValue(t, k, v, local);
    assert Sends(e.out, k, At(e.table, k).id);
    hide SetValue, Settled;
    AsideByName(t, e, k, At(e.table, k).id, n);
  }

  lemma ServerSets(t: Table, k: Text, v: Value, n: Text)
    requires Settled(t) && t.server && k != n
    ensures Aside(t, Effect(GetOrNew(t, k), []), n)
    ensures var e := SetValue(GetOrNew(t, k), k, v, true); |e.table.idmap| <= UNASSIGNED ==> Aside(t, e, n)
  {
    hide SetValue;
    GetOrNewKeeps(t, k);
    if |SetValue(GetOrNew(t, k), k, v, true).table.idmap| <= UNASSIGNED {
      ServerSetValue(GetOrNew(t, k), k, v, true, n);
    }
  }

  lemma ServerOthers(t: Table, k: Text, f: int, n: Text)
    requires Settled(t) && k in t.entries && k != n
    ensures Aside(t, SetFlags(t, k, f, true), n) && Aside(t, Delete(t, k, true), n)
  {
    OthersElsewhere(t, k, f);
    hide SetFlags, Delete, Settled;
    var e, e' := SetFlags(t, k, f, true), Delete(t, k, true);
    assert At(e.table, n) == At(t, n) && At(e'.table, n) == At(t, n);
    AsideByName(t, e, k, At(t, k).id, n);
    AsideByName(t, e', k, At(t, k).id, n);
  }

  lemma RequestAside(t: Table, m: Message, n: Text)
    requires Settled(t) && t.server && m.EntryAssign? && m.name != n && |AssignRequest(t, m).table.idmap| <= UNASSIGNED
    ensures Aside(t, AssignRequest(t, m), n)
  {
    hide Settled, SetValue;
    if At(t, m.name).id == UNASSIGNED {
      RequestPrepares(t, m);
      ServerSetValue(Put(GetOrNew(t, m.name), m.name, Requested(m)), m.name, m.value, false, n);
    }
  }

  lemma KnownAside(t: Table, k: Text, m: Message, conn: Conn, n: Text)
    requires Settled(t) && m.EntryAssign? && k in t.entries && t.entries[k].id == m.id && k != n
    ensures Aside(t, AssignKnown(t, k, m, conn, false), n)
  {
    var e := AssignKnown(t, k, m, conn, false);
    assert Sends(e.out, k, m.id) && At(e.table, n) == At(t, n);
    hide AssignKnown, Settled;
    AsideByName(t, e, k, m.id, n);
  }

  lemma UpdateAside(t: Table, k: Text, m: Message, conn: Conn, n: Text)
    requires Settled(t) && m.EntryUpdate? && k in t.entries && t.entries[k].id == m.id != UNASSIGNED && k != n
    ensures Aside(t, IncomingUpdate(t, k, m, conn), n)
  {
    var e := IncomingUpdate(t, k, m, conn);
    assert Sends(e.out, k, m.id) && At(e.table, n) == At(t, n);
    hide IncomingUpdate, Settled;
    AsideByName(t, e, k, m.id, n);
  }

  lemma RelayAside(t: Table, k: Text, m: Message, conn: Conn, n: Text)
    requires m.FlagsUpdate? || m.EntryDelete?
    requires Settled(t) && k in t.entries && t.entries[k].id == m.id != UNASSIGNED && k != n
    ensures m.FlagsUpdate? ==> Aside(t, Effect(SetFlags(t, k, m.flags, false).table, Relay(t, m, conn)), n)
    ensures m.EntryDelete? ==> Aside(t, Effect(Delete(t, k, false).table, Relay(t, m, conn)), n)
  {
    assert RecordOk(t, k);
    if n in t.entries { assert RecordOk(t, n); }
  }

  lemma IncomingAside(t: Table, m: Message, conn: Conn, n: Text)
    requires Settled(t) && t.server && IdInRange(m) && Elsewhere(t, Incoming(m, conn), n)
    requires |ProcessIncoming(t, m, conn).table.idmap| <= UNASSIGNED
    ensures Aside(t, ProcessIncoming(t, m, conn), n)
  {
    hide Indexed, Exact, Lookup, AssignKnown, AssignRequest, IncomingUpdate, SetFlags, Delete, Relay;
    match m
    case EntryAssign(_, id, _, _, _) =>
      if id == UNASSIGNED {
        RequestAside(t, m, n);
      } else if Lookup(t, id).Some? {
        SlotGives(t, id);
        KnownAside(t, Lookup(t, id).value, m, conn, n);
      }
    case EntryUpdate(id, _, _) =>
      if Lookup(t, id).Some? {
        SlotGives(t, id);
        UpdateAside(t, Lookup(t, id).value, m, conn, n);
      }
    case FlagsUpdate(id, _) =>
      if Lookup(t, id).Some? {
        SlotGives(t, id);
        RelayAside(t, Lookup(t, id).value, m, conn, n);
      }
    case EntryDelete(id) =>
      if Lookup(t, id).Some? {
        SlotGives(t, id);
        RelayAside(t, Lookup(t, id).value, m, conn, n);
      }
    case _ =>
  }

  /** A server's operation on other names, or a message about them. */
  lemma ServerElsewhere(t: Table, op: Op, n: Text)
    requires Settled(t) && t.server && OpInRange(op) && Elsewhere(t, op, n) && |Step(t, op).table.idmap| <= UNASSIGNED
    ensures Aside(t, Step(t, op), n)
  {
    hide Settled, GetOrNew, SetValue, SetFlags, Delete, ProcessIncoming, DeleteAllEntries;
    match op
    case Set(k, v) => if k != [] { ServerSets(t, k, v, n); }
    case ForceSet(k, v) => if k != [] { ServerSets(t, k, v, n); }
    case SetDefault(k, v) => if k != [] { ServerSets(t, k, v, n); }
    case ChangeFlags(k, f) => if k in t.entries { ServerOthers(t, k, f, n); }
    case Remove(k) => if k in t.entries { ServerOthers(t, k, 0, n); }
    case Incoming(m, conn) => IncomingAside(t, m, conn, n);
  }

  // ---------------------------------------------------------------- the client and messages about other names

  lemma ClientKnown(c: Table, k: Text, m: Message, link: Conn, mayNeedUpdate: bool)
    requires !c.server && m.EntryAssign? && k in c.entries && (mayNeedUpdate ==> c.entries[k].value.Some?)
    requires c.entries[k].id == m.id != UNASSIGNED || !mayNeedUpdate
    ensures var e := AssignKnown(c, k, m, link, mayNeedUpdate);
            OneEntryMoves(c, e.table, k) && Sends(e.out, k, At(c, k).id)
  {
  }

  lemma ClientUpdate(c: Table, k: Text, m: Message, link: Conn)
    requires !c.server && m.EntryUpdate? && k in c.entries
    ensures var e := IncomingUpdate(c, k, m, link); OneEntryMoves(c, e.table, k) && e.out == []
  {
  }

  lemma ClientFlagsDelete(c: Table, k: Text, f: int)
    requires k in c.entries
    ensures OneEntryMoves(c, SetFlags(c, k, f, false).table, k) && OneEntryMoves(c, Delete(c, k, false).table, k)
  {
  }

  lemma ExtendedIds(c: Table, id: nat, n: Text, i: nat, bound: nat)
    requires ClientIds(c, n, i, bound)
    ensures ClientIds(c.(idmap := ExtendTo(c.idmap, id)), n, i, bound)
  {
    var c' := c.(idmap := ExtendTo(c.idmap, id));
    assert forall j: nat :: Lookup(c', j) == Lookup(c, j);
    assert forall k :: At(c', k) == At(c, k);
  }

  /** Another name takes a free slot. */
  function Slotted(c: Table, k: Text, id: nat): Table
    requires id < |c.idmap|
  {
    var c1 := GetOrNew(c, k);
    Put(c1.(idmap := c1.idmap[id := Some(k)]), k, c1.entries[k].(id := id))
  }

  lemma SlottedIds(c: Table, k: Text, id: nat, n: Text, i: nat, bound: nat)
    requires ClientIds(c, n, i, bound) && id < |c.idmap| && Lookup(c, id).None?
    requires k != n && id < bound && id != i
    ensures ClientIds(Slotted(c, k, id), n, i, bound) && At(Slotted(c, k, id), n) == At(c, n)
  {
    var c' := Slotted(c, k, id);
    forall j: nat ensures Lookup(c', j) == if j == id then Some(k) else Lookup(c, j) {}
    forall j ensures At(c', j).id == if j == k then id else At(c, j).id {}
    assert At(c', n) == At(c, n);
  }

  lemma AssignNewSplits(c: Table, m: Message, link: Conn)
    requires m.EntryAssign? && m.id < |c.idmap|
    ensures var c2 := Slotted(c, m.name, m.id);
            var e := AssignNew(c, m, link);
            if At(c2, m.name).value.None? then
              OneEntryMoves(c2, e.table, m.name) && e.out == []
            else
              && e.table == AssignKnown(c2, m.name, m, link, true).table
              && e.out == (if m.flags != At(c2, m.name).flags then ToAll(FlagsUpdate(m.id, At(c2, m.name).flags))
                  else [])
                          + AssignKnown(c2, m.name, m, link, true).out
    ensures At(Slotted(c, m.name, m.id), m.name) == At(c, m.name).(id := m.id)
  {
    hide AssignKnown;
  }

  lemma NewAside(c: Table, m: Message, link: Conn, n: Text, i: nat, bound: nat)
    requires ClientIds(c, n, i, bound) && m.EntryAssign? && m.id < |c.idmap| && Lookup(c, m.id).None?
    requires m.name != n && m.id < bound <= UNASSIGNED && m.id != i
    ensures var e := AssignNew(c, m, link);
            At(e.table, n) == At(c, n) && ClientIds(e.table, n, i, bound) && Strangers(e.out, n, i, bound)
  {
    hide AssignNew, AssignKnown, Slotted, ClientIds;
    var c2 := Slotted(c, m.name, m.id);
    SlottedIds(c, m.name, m.id, n, i, bound);
    AssignNewSplits(c, m, link);
    if At(c2, m.name).value.Some? { ClientKnown(c2, m.name, m, link, true); }
    MoveKeepsIds(c2, AssignNew(c, m, link).table, m.name, n, i, bound);
    assert Sends(AssignNew(c, m, link).out, m.name, m.id);
    SendsToStrangers(c2, AssignNew(c, m, link).out, m.name, n, i, bound);
  }

  lemma AssignAside(c: Table, m: Message, link: Conn, n: Text, i: nat, bound: nat)
    requires ClientIds(c, n, i, bound) && m.EntryAssign? && Stranger(m, n, i) && Bounded(m, bound)
              && bound <= UNASSIGNED
    ensures var e := IncomingAssign(c, m, link);
            At(e.table, n) == At(c, n) && ClientIds(e.table, n, i, bound) && Strangers(e.out, n, i, bound)
  {
    hide AssignNew, AssignKnown, Strangers;
    NoStrangers(n, i, bound);
    if m.id != UNASSIGNED {
      var c1 := c.(idmap := ExtendTo(c.idmap, m.id));
      ExtendedIds(c, m.id, n, i, bound);
      var slot := Lookup(c1, m.id);
      assert slot == c1.idmap[m.id];
      if slot.None? {
        NewAside(c1, m, link, n, i, bound);
      } else if slot.value in c1.entries {
        ClientKnown(c1, slot.value, m, link, false);
        MoveKeepsIds(c1, AssignKnown(c1, slot.value, m, link, false).table, slot.value, n, i, bound);
        SendsToStrangers(c1, AssignKnown(c1, slot.value, m, link, false).out, slot.value, n, i, bound);
      }
    }
  }

  lemma NoStrangers(n: Text, i: nat, bound: nat)
    ensures Strangers([], n, i, bound)
  {
  }

  lemma ClientReadsStranger(c: Table, m: Message, link: Conn, n: Text, i: nat, bound: nat)
    requires ClientIds(c, n, i, bound) && Stranger(m, n, i) && Bounded(m, bound) && bound <= UNASSIGNED
    ensures var e := ProcessIncoming(c, m, link);
            At(e.table, n) == At(c, n) && ClientIds(e.table, n, i, bound) && Strangers(e.out, n, i, bound)
  {
    hide IncomingAssign, IncomingUpdate, SetFlags, Delete, Strangers, At;
    NoStrangers(n, i, bound);
    if m.EntryAssign? {
      AssignAside(c, m, link, n, i, bound);
    } else if m.EntryUpdate? || m.FlagsUpdate? || m.EntryDelete? {
      var k := Lookup(c, m.id);
      if k.Some? && k.value in c.entries {
        if m.EntryUpdate? { ClientUpdate(c, k.value, m, link); }
        ClientFlagsDelete(c, k.value, if m.FlagsUpdate? then m.flags else 0);
        MoveKeepsIds(c, ProcessIncoming(c, m, link).table, k.value, n, i, bound);
      }
    }
  }

  // ---------------------------------------------------------------- the client's own writes of the name

  /** A write, a flags change or nothing, and the message that tells of it; without an id only assignments are sent. */
  predicate Change(r: Record, r': Record, ms: seq<Message>, n: Text) {
    && r'.id == r.id
    && (|| (RecordCell(n, r') == RecordCell(n, r) && ms == [])
        || (r.value.None? && r'.value.Some? && ms == [EntryAssign(n, r.id, r'.seqNum, r'.value.value, r'.flags)])
        || (r.value.Some? && r'.value.Some? && r'.seqNum == Increment(r.seqNum) && r'.flags == r.flags
            && (|| ms == [EntryAssign(n, r.id, r'.seqNum, r'.value.value, r'.flags)]
                || (if r.id == UNASSIGNED then ms == [] else ms == [EntryUpdate(r.id, r'.seqNum, r'.value.value)])))
        || (r.value.Some? && r'.value == r.value && r'.seqNum == r.seqNum
            && ms == if r.id == UNASSIGNED then [] else [FlagsUpdate(r.id, r'.flags)]))
  }

  lemma SetIsChange(c: Table, n: Text, v: Value)
    requires !c.server && n in c.entries
    ensures var e := SetValue(c, n, v, true);
            Change(At(c, n), At(e.table, n), Messages(e.out), n) && e.table.idmap == c.idmap
  {
  }

  lemma FlagsAreChange(c: Table, n: Text, f: int)
    requires n in c.entries
    ensures var e := SetFlags(c, n, f, true);
            Change(At(c, n), At(e.table, n), Messages(e.out), n) && e.table.idmap == c.idmap
  {
  }

  lemma SameSlots(c: Table, n: Text)
    ensures GetOrNew(c, n).idmap == c.idmap
  {
  }

  lemma OwnOpIsChange(c: Table, op: Op)
    requires !c.server && !op.RemoveAll? && !op.Incoming? && !op.Remove?
    ensures var e := Step(c, op);
            Change(At(c, op.name), At(e.table, op.name), Messages(e.out), op.name) && e.table.idmap == c.idmap
  {
    hide GetOrNew, SetValue, SetFlags;
    var n := op.name;
    ClientGetOrNew(c, n);
    SameSlots(c, n);
    match op
    case Set(_, v) => SetIsChange(GetOrNew(c, n), n, v);
    case ForceSet(_, v) => SetIsChange(GetOrNew(c, n), n, v);
    case SetDefault(_, v) => SetIsChange(GetOrNew(c, n), n, v);
    case ChangeFlags(_, f) => if n in c.entries { FlagsAreChange(c, n, f); }
  }

  /** The stage holds on through a change of the client's, within the time that a pending id allows. */
  lemma ChangeKeepsStage(s: Record, c: Record, c': Record, us: seq<Message>, ds: seq<Message>, ms: seq<Message>,
      n: Text)
    requires StageHolds(s, c, us, ds, n) && Change(c, c', ms, n)
    requires s.value.Some? <==> s.id != UNASSIGNED
    requires c.value.None? ==> c.id == UNASSIGNED
    requires StageOf(s, c').Pending? && us != [] && us[0].EntryAssign? ==> Offset(us[0].seqNum, c'.seqNum) < HALF
    requires StageOf(s, c').Replied? ==> Offset(s.seqNum, c'.seqNum) < HALF
    ensures StageHolds(s, c', us + ms, ds, n)
  {
    hide ApplyCells;
    if ms == [] { assert us + ms == us; }
    match StageOf(s, c)
    case Unwritten => assert us + ms == ms;
    case Pending => StillAhead(us[0].seqNum, us[0].value, c, c', ms, n);
    case Replied => StillAhead(s.seqNum, s.value.value, c, c', ms, n);
    case Numbered =>
      if ms != [] {
        ApplyCellsConcat(Authority, map[s.id := RecordCell(n, s)], us, ms);
        ApplyCellsOne(Authority, map[s.id := RecordCell(n, c)], ms[0]);
        assert ms == [ms[0]];
        CellTakesChange(c, c', ms[0], n);
      }
  }

  lemma CellTakesChange(c: Record, c': Record, m: Message, n: Text)
    requires c.id != UNASSIGNED && c.value.Some? && Change(c, c', [m], n)
    ensures ApplyCell(Authority, map[c.id := RecordCell(n, c)], m) == map[c.id := RecordCell(n, c')]
  {
    NewerIsAhead(c.seqNum, Increment(c.seqNum));
  }

  lemma StillAhead(seqNum: U16, value: Value, c: Record, c': Record, ms: seq<Message>, n: Text)
    requires c.id == UNASSIGNED && c.value.Some? && Change(c, c', ms, n) && Ahead(c, seqNum, value)
    requires Offset(seqNum, c'.seqNum) < HALF
    ensures Ahead(c', seqNum, value) && Requests(ms, n)
  {
  }

  // ---------------------------------------------------------------- the server reads about the name

  /** The first request: the server numbers the entry and answers with its assignment. */
  lemma ServerNumbers(t: Table, m: Message, conn: Conn)
    requires Settled(t) && t.server && m.EntryAssign? && m.id == UNASSIGNED && At(t, m.name).value.None?
    requires |ProcessIncoming(t, m, conn).table.idmap| <= UNASSIGNED
    ensures var e := ProcessIncoming(t, m, conn);
            && |e.table.idmap| == |t.idmap| + 1
            && At(e.table, m.name) == Record(Some(m.value), m.flags, |t.idmap|, m.seqNum, false)
            && e.out == ToAll(EntryAssign(m.name, |t.idmap|, m.seqNum, m.value, m.flags))
  {
    if m.name in t.entries { assert RecordOk(t, m.name); }
    hide Settled;
    RequestPrepares(t, m);
  }

  /** A later request: the entry has its id already. */
  lemma ServerIgnores(t: Table, m: Message, conn: Conn)
    requires t.server && m.EntryAssign? && m.id == UNASSIGNED && At(t, m.name).id != UNASSIGNED
    ensures ProcessIncoming(t, m, conn) == Effect(t, [])
  {
  }

  /** The server does with the entry what the cell calls for, and relays to others only. */
  lemma ServerTakes(t: Table, m: Message, conn: Conn, n: Text)
    requires Settled(t) && t.server && conn.protoRev >= PROTO_3
    requires About(m, n, At(t, n).id) && At(t, n).id != UNASSIGNED
    ensures var e := ProcessIncoming(t, m, conn);
            && |e.table.idmap| == |t.idmap| && At(e.table, n).id == At(t, n).id && At(e.table, n).value.Some?
            && ApplyCell(Authority, map[At(t, n).id := RecordCell(n, At(t, n))], m)
               == map[At(t, n).id := RecordCell(n, At(e.table, n))]
            && (forall o :: o in e.out ==> o.except == Some(conn))
  {
    assert RecordOk(t, n);
    hide Settled;
    if m.EntryAssign? && m.id == UNASSIGNED {
      ServerIgnores(t, m, conn);
    }
  }

  lemma {:induction false} RelaysSkipSender(out: seq<Outgoing>, conn: Conn)
    requires forall o :: o in out ==> o.except == Some(conn)
    ensures Routed(out, conn) == []
  {
    if out != [] {
      assert out[|out| - 1] in out;
      RelaysSkipSender(out[..|out| - 1], conn);
    }
  }

  // ---------------------------------------------------------------- the client reads about the name

  /** The client's answer to the assignment: what it has changed since its request. */
  function Answer(m: Message, c: Record): seq<Message>
    requires m.EntryAssign? && c.value.Some?
  {
    (if m.flags != c.flags then [FlagsUpdate(m.id, c.flags)] else [])
    + (if Newer(c.seqNum, m.seqNum) then [EntryUpdate(m.id, c.seqNum, c.value.value)] else [])
  }

  lemma ReplyArrives(c: Table, m: Message, link: Conn)
    requires !c.server && m.EntryAssign? && m.id != UNASSIGNED && Lookup(c, m.id).None? && At(c, m.name).value.Some?
    ensures var e, r := ProcessIncoming(c, m, link), At(c, m.name);
            && e.table.server == c.server
            && At(e.table, m.name) == (if Newer(r.seqNum, m.seqNum) then r.(id := m.id)
                                       else r.(id := m.id, value := Some(m.value), seqNum := m.seqNum))
            && (forall k {:trigger At(e.table, k)} :: k != m.name ==> At(e.table, k) == At(c, k))
            && (forall j: nat {:trigger Lookup(e.table, j)} ::
                  Lookup(e.table, j) == if j == m.id then Some(m.name) else Lookup(c, j))
            && Messages(e.out) == Answer(m, r)
  {
  }

  /**
   When the answer comes the client's value stays exactly if it is between 1 and 32767 changes ahead of the
   request, or is the value of the request.
   */
  lemma ReplyKeepsValueIff(c: Table, m: Message, link: Conn)
    requires !c.server && m.EntryAssign? && m.id != UNASSIGNED && Lookup(c, m.id).None? && At(c, m.name).value.Some?
    ensures At(ProcessIncoming(c, m, link).table, m.name).value == At(c, m.name).value
            <==> 1 <= Offset(m.seqNum, At(c, m.name).seqNum) < HALF || At(c, m.name).value == Some(m.value)
  {
    hide ProcessIncoming;
    ReplyArrives(c, m, link);
    NewerIsAhead(At(c, m.name).seqNum, m.seqNum);
  }

  lemma {:induction false} RequestsChangeNothing(cells: Cells, us: seq<Message>, n: Text)
    requires Requests(us, n)
    ensures ApplyCells(Authority, cells, us) == cells
  {
    if us != [] {
      RequestsChangeNothing(cells, us[..|us| - 1], n);
    }
  }

  /** With the answer the client's record and its messages meet the server's. */
  lemma ReplyNumbers(s: Record, c: Record, us: seq<Message>, n: Text)
    requires s.value.Some? && s.id != UNASSIGNED && c.value.Some? && c.id == UNASSIGNED
    requires Requests(us, n) && Ahead(c, s.seqNum, s.value.value)
    ensures var m := EntryAssign(n, s.id, s.seqNum, s.value.value, s.flags);
            var c' := if Newer(c.seqNum, m.seqNum) then c.(id := m.id)
                      else c.(id := m.id, value := Some(m.value), seqNum := m.seqNum);
            c'.value == c.value && StageHolds(s, c', us + Answer(m, c), [], n)
  {
    var m := EntryAssign(n, s.id, s.seqNum, s.value.value, s.flags);
    var cells := map[s.id := RecordCell(n, s)];
    NewerIsAhead(c.seqNum, s.seqNum);
    SameOffset(s.seqNum, s.seqNum, c.seqNum);
    ApplyCellsConcat(Authority, cells, us, Answer(m, c));
    RequestsChangeNothing(cells, us, n);
    AnswerMeets(s, c, m, n);
  }

  lemma AnswerMeets(s: Record, c: Record, m: Message, n: Text)
    requires s.value.Some? && s.id != UNASSIGNED && c.value.Some?
    requires m == EntryAssign(n, s.id, s.seqNum, s.value.value, s.flags)
    requires Newer(c.seqNum, s.seqNum) || (c.seqNum == s.seqNum && c.value == s.value)
    ensures ApplyCells(Authority, map[s.id := RecordCell(n, s)], Answer(m, c)) == map[s.id := RecordCell(n, c)]
  {
    hide ApplyCells;
    var cells := map[s.id := RecordCell(n, s)];
    var f, u := FlagsUpdate(m.id, c.flags), EntryUpdate(m.id, c.seqNum, c.value.value);
    var flagged := if m.flags != c.flags then [f] else [];
    var cells' := map[s.id := RecordCell(n, s.(flags := c.flags))];
    ApplyCellsNone(cells);
    ApplyCellsNone(cells');
    ApplyCellsOne(Authority, cells, f);
    assert ApplyCells(Authority, cells, flagged) == cells';
    ApplyCellsOne(Authority, cells', u);
    NewerIsAhead(c.seqNum, s.seqNum);
    ApplyCellsConcat(Authority, cells, flagged, if Newer(c.seqNum, s.seqNum) then [u] else []);
  }

  lemma ApplyCellsNone(cells: Cells)
    ensures ApplyCells(Authority, cells, []) == cells
  {
  }

  // ---------------------------------------------------------------- one turn of the system

  /** Nobody else writes the name, nobody deletes it, and nobody clears. */
  predicate Fair(d: Duo, t: Turn, n: Text, conn: Conn) {
    match t
    case ClientDoes(op) => !op.Incoming? && !op.RemoveAll? && !(op.Remove? && op.name == n)
    case ServerDoes(op) => Elsewhere(d.server, op, n) && Allowed(ServerOp(op), conn)
    case _ => true
  }

  ghost predicate AllProper(ms: seq<Message>, n: Text, i: nat, bound: nat) {
    forall m :: m in ms ==> Proper(m, n, i, bound)
  }

  lemma StrangerMessages(out: seq<Outgoing>, n: Text, i: nat, bound: nat, conn: Conn)
    requires Strangers(out, n, i, bound)
    ensures AllProper(Messages(out), n, i, bound) && Mine(Messages(out), n, i) == []
    ensures AllProper(Routed(out, conn), n, i, bound) && Mine(Routed(out, conn), n, i) == []
  {
    forall m | m in Messages(out) ensures Stranger(m, n, i) && Bounded(m, bound) {
      var k :| 0 <= k < |out| && Messages(out)[k] == m;
      assert out[k] in out;
    }
    StrangersAreNotMine(Messages(out), n, i);
    RoutedStrangers(out, n, i, bound, conn);
    StrangersAreNotMine(Routed(out, conn), n, i);
  }

  lemma {:induction false} RoutedStrangers(out: seq<Outgoing>, n: Text, i: nat, bound: nat, conn: Conn)
    requires Strangers(out, n, i, bound)
    ensures forall m :: m in Routed(out, conn) ==> Stranger(m, n, i) && Bounded(m, bound)
  {
    if out != [] {
      assert out[|out| - 1] in out;
      RoutedStrangers(out[..|out| - 1], n, i, bound, conn);
    }
  }

  lemma {:induction false} AllMine(ms: seq<Message>, n: Text, i: nat)
    requires forall m :: m in ms ==> About(m, n, i)
    ensures Mine(ms, n, i) == ms
  {
    if ms != [] {
      AllMine(ms[..|ms| - 1], n, i);
      assert ms[|ms| - 1] in ms;
    }
  }

  lemma OwnMessages(out: seq<Outgoing>, n: Text, id: nat, i: nat, bound: nat)
    requires Sends(out, n, id) && (id == UNASSIGNED || id == i < bound)
    requires forall m :: m in Messages(out) ==> !m.EntryDelete?
    ensures AllProper(Messages(out), n, i, bound) && Mine(Messages(out), n, i) == Messages(out)
  {
    forall m | m in Messages(out) ensures About(m, n, i) && Bounded(m, bound) {
      var k :| 0 <= k < |out| && Messages(out)[k] == m;
      assert out[k] in out;
    }
    AllMine(Messages(out), n, i);
  }

  lemma ProperGrows(ms: seq<Message>, n: Text, i: nat, bound: nat, bound': nat)
    requires AllProper(ms, n, i, bound) && bound <= bound'
    ensures AllProper(ms, n, i, bound')
  {
  }

  lemma IdsGrow(c: Table, n: Text, i: nat, bound: nat, bound': nat)
    requires ClientIds(c, n, i, bound) && bound <= bound'
    ensures ClientIds(c, n, i, bound')
  {
  }

  lemma ServerRecord(t: Table, n: Text)
    requires Settled(t)
    ensures At(t, n).value.Some? <==> At(t, n).id != UNASSIGNED
    ensures At(t, n).id != UNASSIGNED ==> At(t, n).id < |t.idmap| && Lookup(t, At(t, n).id) == Some(n)
    ensures forall id :: Lookup(t, id) == Some(n) ==> id == At(t, n).id
    ensures |t.idmap| <= UNASSIGNED
  {
    if n in t.entries { assert RecordOk(t, n) && RecordExact(t, n); }
    forall id | Lookup(t, id) == Some(n) ensures id == At(t, n).id { SlotGives(t, id); }
  }

  lemma OwnIds(c: Table, c': Table, n: Text, i: nat, bound: nat, ms: seq<Message>)
    requires ClientIds(c, n, i, bound) && OneEntryMoves(c, c', n) && c'.idmap == c.idmap
              && Change(At(c, n), At(c', n), ms, n)
    ensures ClientIds(c', n, i, bound)
  {
    assert forall j: nat :: Lookup(c', j) == Lookup(c, j);
    assert forall k :: At(c', k).id == At(c, k).id;
  }

  lemma ClientDoesKeeps(d: Duo, op: Op, n: Text, conn: Conn, link: Conn)
    requires Good(d, n) && Fair(d, ClientDoes(op), n, conn) && InTime(After(d, ClientDoes(op), conn, link), n)
    ensures Good(After(d, ClientDoes(op), conn, link), n)
  {
    hide Settled, Step, At, ClientIds, Mine, Proper, StageHolds, Lookup, Change, OneEntryMoves, Sends, Strangers;
    var i, bound := At(d.server, n).id, |d.server.idmap|;
    var e := Step(d.client, op);
    ServerRecord(d.server, n);
    MineConcat(d.up, Messages(e.out), n, i);
    ClientIsClient(d.client, n, i, bound);
    if op.name != n {
      ClientElsewhere(d.client, op, n, i, bound);
      StrangerMessages(e.out, n, i, bound, conn);
      assert Mine(d.up, n, i) + [] == Mine(d.up, n, i);
    } else {
      ClientOp(d.client, op);
      OwnOpIsChange(d.client, op);
      OwnIds(d.client, e.table, n, i, bound, Messages(e.out));
      ChangeDeletesNothing(At(d.client, n), At(e.table, n), Messages(e.out), n);
      OwnMessages(e.out, n, At(d.client, n).id, i, bound);
      ChangeKeepsStage(At(d.server, n), At(d.client, n), At(e.table, n), Mine(d.up, n, i), Mine(d.down, n, i),
                       Messages(e.out), n);
    }
  }

  lemma ChangeDeletesNothing(r: Record, r': Record, ms: seq<Message>, n: Text)
    requires Change(r, r', ms, n)
    ensures forall m :: m in ms ==> !m.EntryDelete?
  {
  }

  lemma ClientIsClient(c: Table, n: Text, i: nat, bound: nat)
    requires ClientIds(c, n, i, bound)
    ensures !c.server && (At(c, n).value.None? ==> At(c, n).id == UNASSIGNED)
    ensures At(c, n).id == UNASSIGNED || At(c, n).id == i
  {
  }

  /** The server changes other entries, having read some of the client's messages. */
  lemma ServerAsideKeeps(d: Duo, e: Effect, up: seq<Message>, n: Text, conn: Conn)
    requires Good(d, n) && Aside(d.server, e, n) && Settled(e.table) && e.table.server
    requires |d.server.idmap| <= |e.table.idmap| && Mine(up, n, At(d.server, n).id) == Mine(d.up, n, At(d.server, n).id)
    requires forall m :: m in up ==> m in d.up
    ensures Good(Duo(e.table, d.client, up, d.down + Routed(e.out, conn)), n)
  {
    hide Settled, At, ClientIds, Mine, Proper, StageHolds, Strangers;
    var i, bound, bound' := At(d.server, n).id, |d.server.idmap|, |e.table.idmap|;
    assert At(e.table, n) == At(d.server, n);
    StrangerMessages(e.out, n, i, bound', conn);
    MineConcat(d.down, Routed(e.out, conn), n, i);
    assert Mine(d.down, n, i) + [] == Mine(d.down, n, i);
    IdsGrow(d.client, n, i, bound, bound');
    ProperGrows(d.up, n, i, bound, bound');
    ProperGrows(d.down, n, i, bound, bound');
  }

  lemma ServerDoesKeeps(d: Duo, op: Op, n: Text, conn: Conn, link: Conn)
    requires Good(d, n) && Fair(d, ServerDoes(op), n, conn)
    requires |Step(d.server, op).table.idmap| <= UNASSIGNED
    ensures Good(After(d, ServerDoes(op), conn, link), n)
  {
    hide Indexed, Exact, Step, At, ClientIds, Mine, Proper, StageHolds, Elsewhere, Aside;
    StepKeepsIndexed(d.server, op);
    ServerElsewhere(d.server, op, n);
    ServerAsideKeeps(d, Step(d.server, op), d.up, n, conn);
  }

  lemma ProperIsInRange(m: Message, n: Text, i: nat, bound: nat)
    requires Proper(m, n, i, bound) && bound <= UNASSIGNED
    ensures IdInRange(m)
  {
  }

  lemma StrangerIsElsewhere(t: Table, m: Message, n: Text, conn: Conn)
    requires Settled(t) && Stranger(m, n, At(t, n).id)
    ensures Elsewhere(t, Incoming(m, conn), n)
  {
    ServerRecord(t, n);
    hide Settled, Lookup, At;
  }

  /** The entry gets an id that nobody has mentioned. */
  lemma FreshId(ms: seq<Message>, n: Text, bound: nat)
    requires AllProper(ms, n, UNASSIGNED, bound) && bound < UNASSIGNED
    ensures AllProper(ms, n, bound, bound + 1) && Mine(ms, n, bound) == Mine(ms, n, UNASSIGNED)
  {
    MineWithNewId(ms, n, bound);
  }

  lemma FreshIds(c: Table, n: Text, bound: nat)
    requires ClientIds(c, n, UNASSIGNED, bound) && bound < UNASSIGNED
    ensures ClientIds(c, n, bound, bound + 1)
  {
  }

  lemma FirstRequestRead(d: Duo, n: Text, conn: Conn)
    requires Good(d, n) && d.up != [] && About(d.up[0], n, At(d.server, n).id)
    requires StageOf(At(d.server, n), At(d.client, n)).Pending?
    requires |ProcessIncoming(d.server, d.up[0], conn).table.idmap| <= UNASSIGNED
    requires Settled(ProcessIncoming(d.server, d.up[0], conn).table)
    ensures Good(After(d, ServerReads, conn, conn), n)
  {
    hide Settled, At, ClientIds, Mine, Proper, ProcessIncoming, Ahead;
    var m, bound := d.up[0], |d.server.idmap|;
    var rest := d.up[1..];
    MineFirst(d.up, n, UNASSIGNED);
    ServerNumbers(d.server, m, conn);
    var e := ProcessIncoming(d.server, m, conn);
    FreshId(rest, n, bound);
    FreshId(d.down, n, bound);
    FreshIds(d.client, n, bound);
    var reply := e.out[0].msg;
    RoutedOne(e.out[0], conn);
    MineConcat(d.down, [reply], n, bound);
    MineOne(reply, n, bound);
    assert Mine(d.up, n, UNASSIGNED)[1..] == Mine(rest, n, UNASSIGNED);
    ReplyIsProper(reply, n, bound);
  }

  lemma ReplyIsProper(m: Message, n: Text, bound: nat)
    requires m.EntryAssign? && m.name == n && m.id == bound
    ensures About(m, n, bound) && Proper(m, n, bound, bound + 1)
  {
  }

  /** The stage once the server has taken in the first of the messages about the name. */
  lemma ReadKeepsStage(s: Record, s': Record, c: Record, us: seq<Message>, ds: seq<Message>, n: Text)
    requires StageHolds(s, c, us, ds, n) && us != [] && s.value.Some? && s'.value.Some? && s'.id == s.id != UNASSIGNED
    requires ApplyCell(Authority, map[s.id := RecordCell(n, s)], us[0]) == map[s.id := RecordCell(n, s')]
    requires us[0].EntryAssign? && us[0].id == UNASSIGNED ==> s' == s
    ensures StageHolds(s', c, us[1..], ds, n)
  {
    hide ApplyCell;
    var cells := map[s.id := RecordCell(n, s)];
    assert us == [us[0]] + us[1..];
    ApplyCellsConcat(Authority, cells, [us[0]], us[1..]);
    ApplyCellsOne(Authority, cells, us[0]);
  }

  lemma LaterMessageRead(d: Duo, n: Text, conn: Conn)
    requires Good(d, n) && d.up != [] && About(d.up[0], n, At(d.server, n).id) && conn.protoRev >= PROTO_3
    requires !StageOf(At(d.server, n), At(d.client, n)).Pending?
    requires Settled(ProcessIncoming(d.server, d.up[0], conn).table)
              && ProcessIncoming(d.server, d.up[0], conn).table.server
    ensures Good(After(d, ServerReads, conn, conn), n)
  {
    hide Settled, At, ClientIds, Mine, Proper, ProcessIncoming, About, ApplyCell;
    var s, m := At(d.server, n), d.up[0];
    MineFirst(d.up, n, s.id);
    ServerTakes(d.server, m, conn, n);
    var e := ProcessIncoming(d.server, m, conn);
    RelaysSkipSender(e.out, conn);
    assert d.down + [] == d.down;
    assert Mine(d.up, n, s.id)[1..] == Mine(d.up[1..], n, s.id);
    if m.EntryAssign? && m.id == UNASSIGNED {
      AboutIsNamed(m, n, s.id);
      ServerIgnores(d.server, m, conn);
    }
    ReadKeepsStage(s, At(e.table, n), At(d.client, n), Mine(d.up, n, s.id), Mine(d.down, n, s.id), n);
  }

  lemma AboutIsNamed(m: Message, n: Text, i: nat)
    requires About(m, n, i) && m.EntryAssign?
    ensures m.name == n
  {
  }

  lemma ServerReadsKeeps(d: Duo, n: Text, conn: Conn, link: Conn)
    requires Good(d, n) && conn.protoRev >= PROTO_3
    requires |After(d, ServerReads, conn, link).server.idmap| <= UNASSIGNED
    ensures Good(After(d, ServerReads, conn, link), n)
  {
    hide Indexed, Exact, At, ClientIds, Mine, Proper, StageHolds, Elsewhere, Aside, ProcessIncoming, About, Stranger,
         IdInRange;
    if d.up != [] {
      var m, i := d.up[0], At(d.server, n).id;
      ProperIsInRange(m, n, i, |d.server.idmap|);
      StepKeepsIndexed(d.server, Incoming(m, conn));
      MineFirst(d.up, n, i);
      ProperSplits(m, n, i, |d.server.idmap|);
      if Stranger(m, n, i) {
        NotBoth(m, n, i);
        StrangerIsElsewhere(d.server, m, n, conn);
        ServerElsewhere(d.server, Incoming(m, conn), n);
        assert [] + Mine(d.up[1..], n, i) == Mine(d.up[1..], n, i);
        ServerAsideKeeps(d, Step(d.server, Incoming(m, conn)), d.up[1..], n, conn);
      } else if StageOf(At(d.server, n), At(d.client, n)).Pending? {
        FirstRequestRead(d, n, conn);
      } else {
        LaterMessageRead(d, n, conn);
      }
    }
  }

  lemma ProperSplits(m: Message, n: Text, i: nat, bound: nat)
    requires Proper(m, n, i, bound)
    ensures (About(m, n, i) || Stranger(m, n, i)) && Bounded(m, bound)
  {
  }

  lemma NotBoth(m: Message, n: Text, i: nat)
    requires Stranger(m, n, i)
    ensures !About(m, n, i)
  {
  }

  // ---------------------------------------------------------------- the client's reads

  lemma ReplyIds(c: Table, c': Table, n: Text, i: nat, bound: nat)
    requires ClientIds(c, n, i, bound) && i < bound && c'.server == c.server && At(c', n).id == i
              && At(c', n).value.Some?
    requires forall k {:trigger At(c', k)} :: k != n ==> At(c', k) == At(c, k)
    requires forall j: nat {:trigger Lookup(c', j)} :: Lookup(c', j) == if j == i then Some(n) else Lookup(c, j)
    ensures ClientIds(c', n, i, bound)
  {
  }

  lemma {:induction false} MineIsIn(ms: seq<Message>, n: Text, i: nat)
    ensures forall m :: m in Mine(ms, n, i) ==> m in ms && About(m, n, i)
  {
    if ms != [] {
      MineIsIn(ms[..|ms| - 1], n, i);
    }
  }

  lemma AnswerIsProper(m: Message, c: Record, n: Text, bound: nat)
    requires m.EntryAssign? && c.value.Some? && m.id < bound <= UNASSIGNED
    ensures AllProper(Answer(m, c), n, m.id, bound) && Mine(Answer(m, c), n, m.id) == Answer(m, c)
  {
    assert forall x :: x in Answer(m, c) ==> About(x, n, m.id) && Bounded(x, bound);
    AllMine(Answer(m, c), n, m.id);
  }

  lemma NoSlotYet(c: Table, n: Text, i: nat, bound: nat)
    requires ClientIds(c, n, i, bound) && At(c, n).id != i
    ensures Lookup(c, i).None?
  {
  }

  /** Reading leaves the client's own value and flags alone. */
  predicate SameWrite(c: Table, c': Table, n: Text) {
    At(c', n).value == At(c, n).value && At(c', n).flags == At(c, n).flags
  }

  lemma ReplyRead(d: Duo, n: Text, link: Conn)
    requires Good(d, n) && d.down != [] && About(d.down[0], n, At(d.server, n).id)
    ensures Good(After(d, ClientReads, link, link), n)
    ensures SameWrite(d.client, After(d, ClientReads, link, link).client, n)
  {
    hide Settled, At, ClientIds, Mine, Proper, ProcessIncoming, About, ApplyCells, Lookup, Messages;
    var s, c, m, bound := At(d.server, n), At(d.client, n), d.down[0], |d.server.idmap|;
    MineFirst(d.down, n, s.id);
    assert Mine(d.down, n, s.id)[1..] == Mine(d.down[1..], n, s.id);
    assert Mine(d.down, n, s.id)[0] == m;
    assert StageOf(s, c).Replied?;
    ServerRecord(d.server, n);
    ClientIsClient(d.client, n, s.id, bound);
    NoSlotYet(d.client, n, s.id, bound);
    ReplyArrives(d.client, m, link);
    ReplyNumbers(s, c, Mine(d.up, n, s.id), n);
    var e := ProcessIncoming(d.client, m, link);
    ReplyIds(d.client, e.table, n, s.id, bound);
    AnswerIsProper(m, c, n, bound);
    MineConcat(d.up, Answer(m, c), n, s.id);
  }

  lemma ClientReadsKeeps(d: Duo, n: Text, conn: Conn, link: Conn)
    requires Good(d, n)
    ensures Good(After(d, ClientReads, conn, link), n)
    ensures SameWrite(d.client, After(d, ClientReads, conn, link).client, n)
  {
    hide Settled, At, ClientIds, Mine, Proper, StageHolds, ProcessIncoming, About, Stranger, Strangers, Messages;
    if d.down != [] {
      var m, i, bound := d.down[0], At(d.server, n).id, |d.server.idmap|;
      ServerRecord(d.server, n);
      MineFirst(d.down, n, i);
      ProperSplits(m, n, i, bound);
      if Stranger(m, n, i) {
        NotBoth(m, n, i);
        ClientReadsStranger(d.client, m, link, n, i, bound);
        var e := ProcessIncoming(d.client, m, link);
        StrangerMessages(e.out, n, i, bound, conn);
        MineConcat(d.up, Messages(e.out), n, i);
        assert Mine(d.up, n, i) + [] == Mine(d.up, n, i);
        assert [] + Mine(d.down[1..], n, i) == Mine(d.down[1..], n, i);
      } else {
        ReplyRead(d, n, link);
      }
    }
  }

  // ---------------------------------------------------------------- whole runs

  predicate IsRun(ds: seq<Duo>, turns: seq<Turn>, conn: Conn, link: Conn) {
    |ds| == |turns| + 1 && forall k :: 0 <= k < |turns| ==> ds[k + 1] == After(ds[k], turns[k], conn, link)
  }

  lemma TurnKeepsGood(d: Duo, t: Turn, n: Text, conn: Conn, link: Conn)
    requires Good(d, n) && Fair(d, t, n, conn) && conn.protoRev >= PROTO_3
    requires InTime(After(d, t, conn, link), n) && |After(d, t, conn, link).server.idmap| <= UNASSIGNED
    ensures Good(After(d, t, conn, link), n)
  {
    hide Good, Fair, InTime, Step, ProcessIncoming;
    match t
    case ClientDoes(op) => ClientDoesKeeps(d, op, n, conn, link);
    case ServerDoes(op) => ServerDoesKeeps(d, op, n, conn, link);
    case ServerReads => ServerReadsKeeps(d, n, conn, link);
    case ClientReads => ClientReadsKeeps(d, n, conn, link);
  }

  lemma {:induction false} RunStaysGood(ds: seq<Duo>, turns: seq<Turn>, n: Text, conn: Conn, link: Conn, k: nat)
    requires IsRun(ds, turns, conn, link) && Good(ds[0], n) && conn.protoRev >= PROTO_3 && k < |ds|
    requires forall j :: 0 <= j < |turns| ==> Fair(ds[j], turns[j], n, conn)
    requires forall d :: d in ds ==> InTime(d, n) && |d.server.idmap| <= UNASSIGNED
    ensures Good(ds[k], n)
    decreases k
  {
    hide Good, Fair, InTime, After;
    if k != 0 {
      RunStaysGood(ds, turns, n, conn, link, k - 1);
      assert ds[k] in ds && ds[k] == After(ds[k - 1], turns[k - 1], conn, link);
      TurnKeepsGood(ds[k - 1], turns[k - 1], n, conn, link);
    }
  }

  /** Once nothing is in flight the server has the client's last value and flags, and both have the same id. */
  lemma DrainedServerHasLastWrite(d: Duo, n: Text)
    requires Good(d, n) && d.up == [] && d.down == []
    ensures var s, c := At(d.server, n), At(d.client, n);
            && s.value == c.value && s.id == c.id
            && (c.value.Some? ==> s.flags == c.flags && s.seqNum == c.seqNum && s.id != UNASSIGNED)
  {
    hide Settled, ClientIds, Proper, At;
    var i := At(d.server, n).id;
    ClientIsClient(d.client, n, i, |d.server.idmap|);
    assert Mine(d.up, n, i) == [] && Mine(d.down, n, i) == [];
    if StageOf(At(d.server, n), At(d.client, n)).Numbered? {
      assert RecordCell(n, At(d.server, n)) == map[i := RecordCell(n, At(d.server, n))][i];
      assert RecordCell(n, At(d.client, n)) == map[i := RecordCell(n, At(d.client, n))][i];
    }
  }

  // ---------------------------------------------------------------- reading comes to an end

  /** How many messages reading these can lead to, at most: an assignment may be answered twice. */
  function Weight(ms: seq<Message>, assign: nat): nat {
    if ms == [] then 0 else Weight(ms[..|ms| - 1], assign) + (if ms[|ms| - 1].EntryAssign? then assign else 1)
  }

  function Load(d: Duo): nat {
    Weight(d.up, 4) + Weight(d.down, 3)
  }

  lemma {:induction false} WeightConcat(xs: seq<Message>, ys: seq<Message>, assign: nat)
    ensures Weight(xs + ys, assign) == Weight(xs, assign) + Weight(ys, assign)
  {
    if ys == [] {
      assert xs + ys == xs;
    } else {
      assert (xs + ys)[..|xs + ys| - 1] == xs + ys[..|ys| - 1];
      WeightConcat(xs, ys[..|ys| - 1], assign);
    }
  }

  lemma WeightFirst(ms: seq<Message>, assign: nat)
    requires ms != []
    ensures Weight(ms, assign) == (if ms[0].EntryAssign? then assign else 1) + Weight(ms[1..], assign)
  {
    assert ms == [ms[0]] + ms[1..];
    WeightConcat([ms[0]], ms[1..], assign);
    assert [ms[0]][..0] == [];
  }

  /** A server answers the sender of a message only if it is a request for an id. */
  lemma ServerAnswers(t: Table, m: Message, conn: Conn)
    requires t.server
    ensures var out := ProcessIncoming(t, m, conn).out;
            |out| <= 1 && (m.EntryAssign? || forall o :: o in out ==> o.except == Some(conn))
  {
  }

  lemma ClientAnswers(c: Table, m: Message, link: Conn)
    requires !c.server
    ensures var out := ProcessIncoming(c, m, link).out;
            |out| <= 2 && (m.EntryAssign? || out == []) && (forall o :: o in out ==> !o.msg.EntryAssign?)
  {
  }

  lemma {:induction false} PlainWeight(ms: seq<Message>, assign: nat)
    requires forall m :: m in ms ==> !m.EntryAssign?
    ensures Weight(ms, assign) == |ms|
  {
    if ms != [] {
      assert ms[|ms| - 1] in ms;
      PlainWeight(ms[..|ms| - 1], assign);
    }
  }

  lemma OneWeight(ms: seq<Message>)
    requires |ms| <= 1
    ensures Weight(ms, 3) <= 3
  {
    if |ms| == 1 { assert ms[..0] == []; }
  }

  lemma FewAnswers(out: seq<Outgoing>, conn: Conn)
    ensures |out| <= 1 ==> Weight(Routed(out, conn), 3) <= 3
    ensures (forall o :: o in out ==> !o.msg.EntryAssign?) ==> Weight(Messages(out), 4) == |out|
  {
    if |out| == 1 {
      assert out == [out[0]];
      RoutedOne(out[0], conn);
      OneWeight(Routed(out, conn));
    }
    if forall o :: o in out ==> !o.msg.EntryAssign? {
      forall m | m in Messages(out) ensures !m.EntryAssign? {
        var k :| 0 <= k < |out| && Messages(out)[k] == m;
        assert out[k] in out;
      }
      PlainWeight(Messages(out), 4);
    }
  }

  /** Every read takes more off the load than it adds. */
  lemma ReadLightens(d: Duo, conn: Conn, link: Conn)
    requires d.server.server && !d.client.server
    ensures d.up != [] ==> Load(After(d, ServerReads, conn, link)) < Load(d)
    ensures d.down != [] ==> Load(After(d, ClientReads, conn, link)) < Load(d)
  {
    hide ProcessIncoming, Weight, Routed, Messages;
    if d.up != [] {
      var out := ProcessIncoming(d.server, d.up[0], conn).out;
      WeightFirst(d.up, 4);
      WeightConcat(d.down, Routed(out, conn), 3);
      ServerAnswers(d.server, d.up[0], conn);
      FewAnswers(out, conn);
      if !d.up[0].EntryAssign? {
        RelaysSkipSender(out, conn);
        NoWeight();
      }
    }
    if d.down != [] {
      var out := ProcessIncoming(d.client, d.down[0], link).out;
      WeightFirst(d.down, 3);
      WeightConcat(d.up, Messages(out), 4);
      ClientAnswers(d.client, d.down[0], link);
      FewAnswers(out, link);
    }
  }

  lemma NoWeight()
    ensures Weight([], 3) == 0
  {
  }

  lemma ReadKeepsRoles(d: Duo, conn: Conn, link: Conn)
    ensures forall t :: t == ServerReads || t == ClientReads ==>
              After(d, t, conn, link).server.server == d.server.server
                  && After(d, t, conn, link).client.server == d.client.server
              && |d.server.idmap| <= |After(d, t, conn, link).server.idmap|
  {
    hide ProcessIncoming;
  }

  /** Both ends read until nothing is in flight. */
  function Quiet(d: Duo, conn: Conn, link: Conn): (q: Duo)
    requires d.server.server && !d.client.server
    ensures q.up == [] && q.down == [] && |d.server.idmap| <= |q.server.idmap|
    decreases Load(d)
  {
    ReadLightens(d, conn, link);
    ReadKeepsRoles(d, conn, link);
    if d.up != [] then Quiet(After(d, ServerReads, conn, link), conn, link)
    else if d.down != [] then Quiet(After(d, ClientReads, conn, link), conn, link)
    else d
  }

  /**
   Whatever stage the entry is in, after both ends have read what is in flight the server holds the value
   and the flags that the client wrote last.
   */
  lemma {:induction false} LastWriteReachesServer(d: Duo, n: Text, conn: Conn, link: Conn)
    requires Good(d, n) && conn.protoRev >= PROTO_3 && d.server.server && !d.client.server
    requires |Quiet(d, conn, link).server.idmap| <= UNASSIGNED
    ensures var q := Quiet(d, conn, link);
            && At(q.server, n).value == At(q.client, n).value == At(d.client, n).value
            && At(q.server, n).id == At(q.client, n).id
            && (At(d.client, n).value.Some? ==> At(q.server, n).flags == At(q.client, n).flags == At(d.client, n).flags)
    decreases Load(d)
  {
    hide Good, After, At, Load;
    ReadLightens(d, conn, link);
    ReadKeepsRoles(d, conn, link);
    if d.up != [] {
      ServerReadsKeeps(d, n, conn, link);
      SameClient(d, conn, link);
      LastWriteReachesServer(After(d, ServerReads, conn, link), n, conn, link);
    } else if d.down != [] {
      ClientReadsKeeps(d, n, conn, link);
      LastWriteReachesServer(After(d, ClientReads, conn, link), n, conn, link);
    } else {
      DrainedServerHasLastWrite(d, n);
    }
  }

  lemma SameClient(d: Duo, conn: Conn, link: Conn)
    ensures After(d, ServerReads, conn, link).client == d.client
  {
  }

  // ---------------------------------------------------------------- the start

  lemma SameRecords(s: Table, c: Table, k: Text)
    requires Settled(s) && Settled(c) && CellsOf(s) == CellsOf(c)
    ensures At(c, k).id == At(s, k).id
              && (At(c, k).id != UNASSIGNED ==> RecordCell(k, At(c, k)) == RecordCell(k, At(s, k)))
    ensures At(c, k).value == At(s, k).value
  {
    ServerRecord(s, k);
    ServerRecord(c, k);
    assert At(c, k).id != UNASSIGNED ==>
              At(c, k).id in CellsOf(c) && CellsOf(c)[At(c, k).id] == RecordCell(k, At(c, k));
    assert At(s, k).id != UNASSIGNED ==>
              At(s, k).id in CellsOf(s) && CellsOf(s)[At(s, k).id] == RecordCell(k, At(s, k));
    ServerRecord(s, k);
    SlotOfCell(c, At(s, k).id, k);
    SlotOfCell(s, At(c, k).id, k);
  }

  lemma SlotOfCell(t: Table, i: nat, k: Text)
    requires Settled(t)
    ensures i in CellsOf(t) && CellsOf(t)[i].name == k ==> At(t, k).id == i
  {
    if i in CellsOf(t) { SlotGives(t, i); }
  }

  /** In sync with nothing in flight: this is where a client may start to write any name, new or not. */
  lemma SyncedIsGood(s: Table, c: Table, n: Text)
    requires Synced(Net(s, [], c))
    ensures Good(Duo(s, c, [], []), n)
  {
    assert CellsOf(s) == CellsOf(c);
    hide Settled, CellsOf, ApplyCells;
    SameRecords(s, c, n);
    ServerRecord(s, n);
    ServerRecord(c, n);
    SyncedIds(s, c, n);
    ApplyCellsNone(map[At(s, n).id := RecordCell(n, At(s, n))]);
  }

  lemma SyncedIds(s: Table, c: Table, n: Text)
    requires Settled(s) && s.server && Settled(c) && !c.server && CellsOf(s) == CellsOf(c)
    ensures ClientIds(c, n, At(s, n).id, |s.idmap|)
  {
    ServerRecord(s, n);
    ServerRecord(c, n);
    SameRecords(s, c, n);
    forall k | k != n ensures At(c, k).id == UNASSIGNED || (At(c, k).id < |s.idmap| && At(c, k).id != At(s, n).id) {
      ServerRecord(c, k);
      assert At(c, k).id != UNASSIGNED ==> At(c, k).id in CellsOf(c) && CellsOf(c)[At(c, k).id].name == k;
      SlotOfCell(s, At(c, k).id, k);
      ServerRecord(s, k);
      assert At(c, k).id != UNASSIGNED ==> Lookup(s, At(c, k).id) == Some(k);
    }
    forall j: nat | Lookup(c, j).Some? ensures j < |s.idmap| && (Lookup(c, j) == Some(n) <==> j == At(s, n).id) {
      assert j in CellsOf(c);
      SlotGives(c, j);
    }
  }

  /**
   Convergence with one writer: from a start in sync, through any run in which only this client writes the
   name, and after both ends have read what is in flight, the server and the client hold what the client wrote last.
   */
  lemma OneWriterConverges(ds: seq<Duo>, turns: seq<Turn>, n: Text, conn: Conn, link: Conn)
    requires IsRun(ds, turns, conn, link) && conn.protoRev >= PROTO_3
    requires Synced(Net(ds[0].server, [], ds[0].client)) && ds[0].up == [] && ds[0].down == []
    requires forall j :: 0 <= j < |turns| ==> Fair(ds[j], turns[j], n, conn)
    requires forall d :: d in ds ==> InTime(d, n) && |d.server.idmap| <= UNASSIGNED
    requires ds[|turns|].server.server && !ds[|turns|].client.server
    requires |Quiet(ds[|turns|], conn, link).server.idmap| <= UNASSIGNED
    ensures var d := ds[|turns|]; var q := Quiet(d, conn, link);
            && At(q.server, n).value == At(q.client, n).value == At(d.client, n).value
            && (At(d.client, n).value.Some? ==> At(q.server, n).flags == At(q.client, n).flags == At(d.client, n).flags)
  {
    hide Synced, Good, Fair, InTime, After, Quiet, At;
    SyncedIsGood(ds[0].server, ds[0].client, n);
    assert ds[0] == Duo(ds[0].server, ds[0].client, [], []);
    RunStaysGood(ds, turns, n, conn, link, |turns|);
    LastWriteReachesServer(ds[|turns|], n, conn, link);
  }
}
