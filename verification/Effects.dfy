/**
 What the operations of a program do to the values and flags that it reads back, by name: told without records, ids,
 sequence numbers or messages.
 */
module Effects {
  import opened Wrappers
  import opened Serial
  import opened Protocol
  import opened StorageSpec

  /** What a program reads. */
  function ValuesOf(t: Table): map<Text, Value> {
    map n | n in t.entries && t.entries[n].value.Some? :: t.entries[n].value.value
  }

  predicate OfAnotherType(values: map<Text, Value>, n: Text, v: Value) {
    n in values && values[n].Type() != v.Type()
  }

  /** What each operation is for. The empty name is never written. */
  function ValuesAfter(values: map<Text, Value>, saved: set<Text>, op: Op): map<Text, Value>
    requires !op.Incoming?
  {
    match op
    case Set(n, v) => if n == [] || OfAnotherType(values, n, v) then values else values[n := v]
    case ForceSet(n, v) => if n == [] then values else values[n := v]
    case SetDefault(n, v) => if n == [] || n in values then values else values[n := v]
    case ChangeFlags(_, _) => values
    case Remove(n) => if n == [] then values else values - {n}
    case RemoveAll => map n | n in values && n in saved :: values[n]
  }

  function SavedNames(t: Table): set<Text> {
    set n | n in t.entries && Persistent(t.entries[n].flags)
  }

  predicate Writes(op: Op) {
    op.Set? || op.ForceSet? || op.SetDefault?
  }

  lemma ValuesOfSet(t: Table, n: Text, v: Value)
    ensures ValuesOf(SetValue(GetOrNew(t, n), n, v, true).table) == ValuesOf(t)[n := v]
    ensures ValuesOf(GetOrNew(t, n)) == ValuesOf(t)
  {
    assert forall k :: k in ValuesOf(GetOrNew(t, n)) <==> k in ValuesOf(t);
  }

  lemma ValuesOfDelete(t: Table, n: Text)
    requires n in t.entries
    ensures ValuesOf(Delete(t, n, true).table) == ValuesOf(t) - {n}
  {
  }

  lemma ValuesOfClear(t: Table)
    ensures ValuesOf(DeleteNames(t, Unprotected(t))) == map n | n in ValuesOf(t) && n in SavedNames(t) :: ValuesOf(t)[n]
  {
  }

  /** Every operation of a program, on a server or a client, does to the values what it is for, and nothing else. */
  lemma OperationDoes(t: Table, op: Op)
    requires !op.Incoming?
    ensures ValuesOf(Step(t, op).table) == ValuesAfter(ValuesOf(t), SavedNames(t), op)
  {
    match op
    case Set(n, v) => ValuesOfSet(t, n, v);
    case ForceSet(n, v) => ValuesOfSet(t, n, v);
    case SetDefault(n, v) => ValuesOfSet(t, n, v);
    case ChangeFlags(n, f) =>
    case Remove(n) => if n in t.entries { ValuesOfDelete(t, n); }
    case RemoveAll => ValuesOfClear(t);
  }

  /** An operation that a program may find refused: a value of another type. Nothing is changed and nothing is sent. */
  lemma SetIsRefusedIff(t: Table, n: Text, v: Value)
    requires n != []
    ensures OfAnotherType(ValuesOf(t), n, v) ==>
              Step(t, Set(n, v)).out == [] && forall k :: At(Step(t, Set(n, v)).table, k) == At(t, k)
    ensures At(Step(t, Set(n, v)).table, n).value == Some(v) <==> !OfAnotherType(ValuesOf(t), n, v)
  {
  }

  // ---------------------------------------------------------------- flags, numbers and marks

  lemma SetTouches(t: Table, n: Text, v: Value, k: Text)
    ensures At(GetOrNew(t, n), k) == At(t, k)
    ensures var was, now := At(t, k), At(SetValue(GetOrNew(t, n), n, v, true).table, k);
            if k != n then now == was
            else now.value == Some(v) && now.flags == was.flags && now.localWrite
                 && now.seqNum == if was.value == Some(v) then was.seqNum else Increment(was.seqNum)
  {
  }

  lemma DeleteTouches(t: Table, n: Text, k: Text)
    requires n in t.entries
    ensures At(Delete(t, n, true).table, k) == if k == n then BLANK.(seqNum := At(t, n).seqNum) else At(t, k)
  {
  }

  lemma ClearTouches(t: Table, k: Text)
    ensures At(DeleteNames(t, Unprotected(t)), k)
            == if At(t, k).value.Some? && !Persistent(At(t, k).flags) then Emptied(At(t, k)) else At(t, k)
  {
  }

  lemma FlagsTouch(t: Table, n: Text, f: int, k: Text)
    requires n in t.entries
    ensures At(SetFlags(t, n, f, true).table, k)
            == if k == n && At(t, n).value.Some? then At(t, n).(flags := f) else At(t, k)
  {
  }

  /** The flags of an entry are changed by `ChangeFlags` alone, and only if it has a value; deleting it clears them. */
  function FlagsAfter(t: Table, op: Op, n: Text): int {
    if op.ChangeFlags? && op.name == n && n != [] && n in ValuesOf(t) then op.flags
    else if op.Remove? && op.name == n && n != [] then 0
    else At(t, n).flags
  }

  lemma OperationFlags(t: Table, op: Op, n: Text)
    requires !op.Incoming?
    ensures At(Step(t, op).table, n).flags == FlagsAfter(t, op, n)
  {
    hide SetValue, SetFlags, Delete, DeleteNames, GetOrNew, Unprotected;
    match op
    case Set(k, v) => SetTouches(t, k, v, n);
    case ForceSet(k, v) => SetTouches(t, k, v, n);
    case SetDefault(k, v) => SetTouches(t, k, v, n);
    case ChangeFlags(k, f) => if k in t.entries { FlagsTouch(t, k, f, n); }
    case Remove(k) => if k in t.entries { DeleteTouches(t, k, n); }
    case RemoveAll => ClearTouches(t, n);
  }

  /** The number of an entry advances by one when its value changes to another value, and at no other time. */
  lemma OperationCounts(t: Table, op: Op, n: Text)
    requires !op.Incoming?
    ensures var was, now := At(t, n), At(Step(t, op).table, n);
            now.seqNum == if now.value.Some? && now.value != was.value then Increment(was.seqNum) else was.seqNum
  {
    hide SetValue, SetFlags, Delete, DeleteNames, GetOrNew, Unprotected;
    match op
    case Set(k, v) => SetTouches(t, k, v, n);
    case ForceSet(k, v) => SetTouches(t, k, v, n);
    case SetDefault(k, v) => SetTouches(t, k, v, n);
    case ChangeFlags(k, f) => if k in t.entries { FlagsTouch(t, k, f, n); }
    case Remove(k) => if k in t.entries { DeleteTouches(t, k, n); }
    case RemoveAll => ClearTouches(t, n);
  }

  /** A write that is not refused, even of the value that is there already. */
  predicate Marks(t: Table, op: Op, n: Text) {
    && Writes(op) && op.name == n && n != []
    && !(op.SetDefault? && n in ValuesOf(t))
    && !(op.Set? && OfAnotherType(ValuesOf(t), n, op.value))
  }

  /** An entry is marked as written here by every such write, and unmarked when its value goes. */
  lemma OperationMarks(t: Table, op: Op, n: Text)
    requires !op.Incoming? && (At(t, n).localWrite ==> At(t, n).value.Some?)
    ensures var now := At(Step(t, op).table, n);
            now.localWrite <==> now.value.Some? && (At(t, n).localWrite || Marks(t, op, n))
  {
    hide SetValue, SetFlags, Delete, DeleteNames, GetOrNew, Unprotected;
    match op
    case Set(k, v) => SetTouches(t, k, v, n);
    case ForceSet(k, v) => SetTouches(t, k, v, n);
    case SetDefault(k, v) => SetTouches(t, k, v, n);
    case ChangeFlags(k, f) => if k in t.entries { FlagsTouch(t, k, f, n); }
    case Remove(k) => if k in t.entries { DeleteTouches(t, k, n); }
    case RemoveAll => ClearTouches(t, n);
  }

  lemma SetIsQuiet(t: Table, n: Text, v: Value)
    requires At(t, n).value == Some(v)
    ensures SetValue(GetOrNew(t, n), n, v, true).out == []
  {
  }

  lemma ClearIsQuiet(t: Table)
    requires forall n :: At(DeleteNames(t, Unprotected(t)), n).value == At(t, n).value
    ensures Unprotected(t) == {}
  {
    forall n | n in Unprotected(t) ensures false { ClearTouches(t, n); }
  }

  /** An operation that changes no value and no flags sends nothing. */
  lemma NothingToTell(t: Table, op: Op)
    requires !op.Incoming?
    requires forall n :: var now := At(Step(t, op).table, n); now.value == At(t, n).value && now.flags == At(t, n).flags
    ensures Step(t, op).out == []
  {
    hide GetOrNew, SetValue, DeleteNames, Unprotected;
    match op
    case Set(n, v) =>
      SetTouches(t, n, v, n);
      if At(t, n).value == Some(v) { SetIsQuiet(t, n, v); }
    case ForceSet(n, v) =>
      SetTouches(t, n, v, n);
      if At(t, n).value == Some(v) { SetIsQuiet(t, n, v); }
    case SetDefault(n, v) =>
      SetTouches(t, n, v, n);
      if At(t, n).value == Some(v) { SetIsQuiet(t, n, v); }
    case ChangeFlags(n, f) => if n != [] && n in t.entries { FlagsTouch(t, n, f, n); }
    case Remove(n) => if n != [] && n in t.entries { DeleteTouches(t, n, n); }
    case RemoveAll => ClearIsQuiet(t);
  }

  // ---------------------------------------------------------------- types over whole runs

  function RunAll(t: Table, ops: seq<Op>): Table {
    if ops == [] then t else Step(RunAll(t, ops[..|ops| - 1]), ops[|ops| - 1]).table
  }

  /** What can change the type of an entry, or take its value away. */
  predicate MayRetype(op: Op, n: Text) {
    (op.ForceSet? && op.name == n) || (op.Remove? && op.name == n) || op.RemoveAll? || op.Incoming?
  }

  /** In every run an entry keeps its type until one of these. */
  lemma {:induction false} TypeStays(t: Table, ops: seq<Op>, n: Text)
    requires n in ValuesOf(t) && forall op :: op in ops ==> !MayRetype(op, n)
    ensures n in ValuesOf(RunAll(t, ops)) && ValuesOf(RunAll(t, ops))[n].Type() == ValuesOf(t)[n].Type()
    decreases |ops|
  {
    hide Step, ValuesOf, SavedNames;
    if ops != [] {
      var k := |ops| - 1;
      TypeStays(t, ops[..k], n);
      assert ops[k] in ops;
      OperationDoes(RunAll(t, ops[..k]), ops[k]);
    }
  }
}
