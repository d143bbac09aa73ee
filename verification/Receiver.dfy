/**
 What a peer that is addressed by network id does with a stream of messages. This is the meaning of a
 message list: a storage that follows a server refines it (module Replication), and the outgoing queue
 of a connection may rewrite a list only if this meaning stays the same (module Coalescer).
 */
module Receiver {
  import opened Wrappers
  import opened Serial
  import opened Protocol

  datatype Cell = Cell(name: Text, value: Option<Value>, flags: int, seqNum: U16)

  type Cells = map<nat, Cell>

  /** A client accepts assignments of new ids, a server does not. Both speak protocol 3.0 here. */
  datatype Mode = Follower | Authority

  function Kept(cells: Cells): Cells {
    map i | i in cells && Persistent(cells[i].flags) :: cells[i]
  }

  function ApplyCell(mode: Mode, cells: Cells, m: Message): Cells {
    match m
    case EntryAssign(name, id, seqNum, value, flags) =>
      if id == UNASSIGNED then cells
      else if id !in cells then
        if mode.Follower? then cells[id := Cell(name, Some(value), flags, seqNum)] else cells
      else if Newer(cells[id].seqNum, seqNum) || cells[id].name != name then cells
      else cells[id := Cell(name, Some(value), flags, seqNum)]
    case EntryUpdate(id, seqNum, value) =>
      if id !in cells || NewerOrEqual(cells[id].seqNum, seqNum) then cells
      else cells[id := cells[id].(value := Some(value), seqNum := seqNum)]
    case FlagsUpdate(id, flags) =>
      if id !in cells then cells else cells[id := cells[id].(flags := flags)]
    case EntryDelete(id) => cells - {id}
    case ClearEntries => Kept(cells)
    case _ => cells
  }

  function ApplyCells(mode: Mode, cells: Cells, ms: seq<Message>): Cells {
    if ms == [] then cells else ApplyCell(mode, ApplyCells(mode, cells, ms[..|ms| - 1]), ms[|ms| - 1])
  }

  lemma {:induction false} ApplyCellsConcat(mode: Mode, cells: Cells, xs: seq<Message>, ys: seq<Message>)
    ensures ApplyCells(mode, cells, xs + ys) == ApplyCells(mode, ApplyCells(mode, cells, xs), ys)
    decreases |ys|
  {
    if ys == [] {
      assert xs + ys == xs;
    } else {
      var k := |ys| - 1;
      assert (xs + ys)[..|xs + ys| - 1] == xs + ys[..k];
      ApplyCellsConcat(mode, cells, xs, ys[..k]);
    }
  }

  lemma ApplyCellsOne(mode: Mode, cells: Cells, m: Message)
    ensures ApplyCells(mode, cells, [m]) == ApplyCell(mode, cells, m)
  {
    assert [m][..0] == [];
  }

  /** A message that a server may send to a follower that holds these cells. */
  predicate Fits(cells: Cells, m: Message) {
    match m
    case EntryAssign(name, id, _, _, _) =>
      && id < UNASSIGNED
      && (id in cells ==> cells[id].name == name)
      && (id !in cells ==> forall j :: j in cells ==> cells[j].name != name)
    case EntryUpdate(id, _, _) => id < UNASSIGNED && id in cells
    case FlagsUpdate(id, _) => id < UNASSIGNED && id in cells
    case EntryDelete(id) => id < UNASSIGNED
    case ClearEntries => true
    case _ => false
  }

  predicate FitsAll(cells: Cells, ms: seq<Message>) {
    ms == [] || (FitsAll(cells, ms[..|ms| - 1]) && Fits(ApplyCells(Follower, cells, ms[..|ms| - 1]), ms[|ms| - 1]))
  }

  lemma {:induction false} FitsAllConcat(cells: Cells, xs: seq<Message>, ys: seq<Message>)
    ensures FitsAll(cells, xs + ys) <==> FitsAll(cells, xs) && FitsAll(ApplyCells(Follower, cells, xs), ys)
    decreases |ys|
  {
    if ys == [] {
      assert xs + ys == xs;
    } else {
      var k := |ys| - 1;
      assert (xs + ys)[..|xs + ys| - 1] == xs + ys[..k];
      FitsAllConcat(cells, xs, ys[..k]);
      ApplyCellsConcat(Follower, cells, xs, ys[..k]);
    }
  }
}
