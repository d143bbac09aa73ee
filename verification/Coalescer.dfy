/** The outgoing queue of a connection, which rewrites what is still pending. */
module Coalescer {
  import opened Wrappers
  import opened Protocol

  /** Where the last pending write, or the last pending flags update, of an id is; 0 for nowhere. */
  datatype Pair = Pair(first: nat, second: nat)

  /** Knocked-out messages leave a gap. */
  datatype Pending = Pending(list: seq<Option<Message>>, slots: map<nat, Pair>)

  const EMPTY := Pending([], map[])

  predicate IsWrite(m: Message) {
    m.EntryAssign? || m.EntryUpdate?
  }

  /** The messages that a clear knocks out. */
  predicate IsEntryMessage(m: Message) {
    m.EntryAssign? || m.EntryUpdate? || m.FlagsUpdate? || m.EntryDelete? || m.ClearEntries?
  }

  predicate Write(o: Option<Message>, id: nat) {
    o.Some? && IsWrite(o.value) && o.value.id == id
  }

  predicate Flags(o: Option<Message>, id: nat) {
    o.Some? && o.value.FlagsUpdate? && o.value.id == id
  }

  /** The message concerns the entry with this id, or all entries. */
  predicate Touches(o: Option<Message>, id: nat) {
    o.Some? && (o.value.ClearEntries? ||
                ((IsWrite(o.value) || o.value.FlagsUpdate? || o.value.EntryDelete?) && o.value.id == id))
  }

  /** Nothing at or after position k is about the id. */
  predicate Untouched(list: seq<Option<Message>>, k: nat, id: nat) {
    forall j :: k <= j < |list| ==> !Touches(list[j], id)
  }

  /**
   A slot points, with at most one of its halves, at the last surviving message about its id. The id 0xFFFF
   can get a slot too, by the flags updates below, but then later messages with that id may follow.
   */
  predicate PairOk(p: Pending, id: nat)
    requires id in p.slots
  {
    var s := p.slots[id];
    && (s.first == 0 || s.second == 0)
    && (s.first != 0 ==> s.first <= |p.list| && Write(p.list[s.first - 1], id))
    && (s.second != 0 ==> s.second <= |p.list| && Flags(p.list[s.second - 1], id))
    && (id != UNASSIGNED ==> Untouched(p.list, s.first + s.second, id) || s == Pair(0, 0))
    && (id == UNASSIGNED ==> s.first == 0)
  }

  predicate Valid(p: Pending) {
    forall id {:trigger PairOk(p, id)} :: id in p.slots ==> PairOk(p, id)
  }

  function Append(p: Pending, m: Message): Pending {
    p.(list := p.list + [Some(m)])
  }

  /** What becomes of a pending write when a newer one arrives. */
  function Merge(was: Message, m: Message): Message
    requires IsWrite(was) && IsWrite(m)
  {
    if was.EntryAssign? && m.EntryUpdate? then EntryAssign(was.name, m.id, m.seqNum, m.value, was.flags) else m
  }

  function EnqueueWrite(p: Pending, m: Message): Pending
    requires Valid(p) && IsWrite(m)
  {
    if m.id == UNASSIGNED then
      Append(p, m)
    else if m.id in p.slots && p.slots[m.id].first != 0 then
      assert PairOk(p, m.id);
      var k := p.slots[m.id].first - 1;
      p.(list := p.list[k := Some(Merge(p.list[k].value, m))])
    else
      Append(p, m).(slots := p.slots[m.id := Pair(|p.list| + 1, 0)])
  }

  function EnqueueDelete(p: Pending, m: Message): Pending
    requires Valid(p) && m.EntryDelete?
  {
    if m.id == UNASSIGNED || m.id !in p.slots then
      Append(p, m)
    else
      assert PairOk(p, m.id);
      var s := p.slots[m.id];
      var list := if s.first != 0 then p.list[s.first - 1 := None] else p.list;
      var list' := if s.second != 0 then list[s.second - 1 := None] else list;
      Append(Pending(list', p.slots[m.id := Pair(0, 0)]), m)
  }

  /** The source tests the builtin `id` for 0xFFFF here, so no flags update is exempt. */
  function EnqueueFlags(p: Pending, m: Message): Pending
    requires Valid(p) && m.FlagsUpdate?
  {
    if m.id in p.slots && p.slots[m.id].second != 0 then
      assert PairOk(p, m.id);
      p.(list := p.list[p.slots[m.id].second - 1 := Some(m)])
    else
      Append(p, m).(slots := p.slots[m.id := Pair(0, |p.list| + 1)])
  }

  function KnockOut(o: Option<Message>): Option<Message> {
    if o.Some? && IsEntryMessage(o.value) then None else o
  }

  function KnockOutAll(list: seq<Option<Message>>): seq<Option<Message>> {
    seq(|list|, i requires 0 <= i < |list| => KnockOut(list[i]))
  }

  function Enqueue(p: Pending, m: Message): Pending
    requires Valid(p)
  {
    if IsWrite(m) then EnqueueWrite(p, m)
    else if m.EntryDelete? then EnqueueDelete(p, m)
    else if m.FlagsUpdate? then EnqueueFlags(p, m)
    else if m.ClearEntries? then Append(Pending(KnockOutAll(p.list), map[]), m)
    else Append(p, m)
  }

  /** What the write thread sends of a posted list. */
  function Compact(list: seq<Option<Message>>): seq<Message> {
    if list == [] then []
    else Compact(list[..|list| - 1]) + (if list[|list| - 1].Some? then [list[|list| - 1].value] else [])
  }

  lemma EnqueueWriteKeepsValid(p: Pending, m: Message)
    requires Valid(p) && IsWrite(m)
    ensures Valid(EnqueueWrite(p, m))
  {
    var p' := EnqueueWrite(p, m);
    assert m.id in p.slots ==> PairOk(p, m.id);
    forall id | id in p'.slots ensures PairOk(p', id) {
      if id != m.id || id == UNASSIGNED { assert PairOk(p, id); }
    }
  }

  lemma EnqueueDeleteKeepsValid(p: Pending, m: Message)
    requires Valid(p) && m.EntryDelete?
    ensures Valid(EnqueueDelete(p, m))
  {
    var p' := EnqueueDelete(p, m);
    assert m.id in p.slots ==> PairOk(p, m.id);
    forall id | id in p'.slots ensures PairOk(p', id) {
      if id != m.id || id == UNASSIGNED { assert PairOk(p, id); }
    }
  }

  lemma EnqueueFlagsKeepsValid(p: Pending, m: Message)
    requires Valid(p) && m.FlagsUpdate?
    ensures Valid(EnqueueFlags(p, m))
  {
    var p' := EnqueueFlags(p, m);
    assert m.id in p.slots ==> PairOk(p, m.id);
    forall id | id in p'.slots ensures PairOk(p', id) {
      if id != m.id { assert PairOk(p, id); }
    }
  }

  lemma AppendKeepsValid(p: Pending, m: Message)
    requires Valid(p) && !IsEntryMessage(m)
    ensures Valid(Append(p, m))
  {
    var p' := Append(p, m);
    forall id | id in p'.slots ensures PairOk(p', id) {
      assert PairOk(p, id);
    }
  }

  /** The slots stay right, whatever is queued. */
  lemma EnqueueKeepsValid(p: Pending, m: Message)
    requires Valid(p)
    ensures Valid(Enqueue(p, m))
  {
    hide Valid, EnqueueWrite, EnqueueDelete, EnqueueFlags;
    if IsWrite(m) { EnqueueWriteKeepsValid(p, m); }
    else if m.EntryDelete? { EnqueueDeleteKeepsValid(p, m); }
    else if m.FlagsUpdate? { EnqueueFlagsKeepsValid(p, m); }
    else if !m.ClearEntries? { AppendKeepsValid(p, m); }
    else { NoSlotsIsValid(Enqueue(p, m)); }
  }

  lemma NoSlotsIsValid(p: Pending)
    requires p.slots == map[]
    ensures Valid(p)
  {
  }

  /** The queue after a sequence of messages. */
  function EnqueueAll(ms: seq<Message>): (p: Pending)
    ensures Valid(p)
  {
    if ms == [] then EMPTY
    else
      EnqueueKeepsValid(EnqueueAll(ms[..|ms| - 1]), ms[|ms| - 1]);
      Enqueue(EnqueueAll(ms[..|ms| - 1]), ms[|ms| - 1])
  }
}
