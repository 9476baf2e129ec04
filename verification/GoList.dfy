/** Go's `container/list`, as far as the aggregator uses it: elements have an
    identity of their own, and an element that has been removed no longer
    belongs to any list, so asking it for its successor yields nothing. */
module GoList {
  datatype Option<+T> = None | Some(value: T)

  datatype Cell<T> = Cell(handle: nat, value: T)

  /** `issued` is larger than every handle ever handed out by this list. */
  datatype List<T> = List(cells: seq<Cell<T>>, issued: nat) {

    ghost predicate Valid() {
      && (forall i | 0 <= i < |cells| :: cells[i].handle < issued)
      && (forall i, j | 0 <= i < j < |cells| :: cells[i].handle != cells[j].handle)
    }

    ghost function Values(): (s: seq<T>)
      ensures |s| == |cells|
    {
      seq(|cells|, i requires 0 <= i < |cells| => cells[i].value)
    }

    function Front(): Option<nat> {
      if cells == [] then None else Some(cells[0].handle)
    }

    predicate Has(e: nat) {
      exists i :: 0 <= i < |cells| && cells[i].handle == e
    }

    /** Where element `e` stands; `|cells|` when it is not in the list. */
    function Position(e: nat): (p: nat)
      ensures p <= |cells|
      ensures p < |cells| ==> cells[p].handle == e
      ensures p == |cells| <==> !Has(e)
    {
      PositionFrom(e, 0)
    }

    function PositionFrom(e: nat, i: nat): (p: nat)
      requires i <= |cells|
      ensures i <= p <= |cells|
      ensures p < |cells| ==> cells[p].handle == e
      ensures forall k | i <= k < p :: cells[k].handle != e
      decreases |cells| - i
    {
      if i == |cells| || cells[i].handle == e then i else PositionFrom(e, i + 1)
    }

    /** `e.Next()`: nothing for the last element and for a removed one. */
    function Next(e: nat): Option<nat> {
      var p := Position(e);
      if p + 1 < |cells| then Some(cells[p + 1].handle) else None
    }

    function Read(e: nat): T
      requires Has(e)
    {
      cells[Position(e)].value
    }

    function Remove(e: nat): List<T> {
      var p := Position(e);
      if p == |cells| then this else List(cells[..p] + cells[p + 1..], issued)
    }

    function PushBack(v: T): List<T> {
      List(cells + [Cell(issued, v)], issued + 1)
    }
  }

  function Empty<T>(): List<T> {
    List([], 0)
  }

  /** Walking: in a valid list the successor of the p-th element is the
      (p+1)-st. */
  lemma WalkOn<T>(l: List<T>, p: nat)
    requires l.Valid() && p < |l.cells|
    ensures l.Position(l.cells[p].handle) == p
    ensures l.Next(l.cells[p].handle) == if p + 1 < |l.cells| then Some(l.cells[p + 1].handle) else None
    ensures l.Read(l.cells[p].handle) == l.cells[p].value
  {
    assert l.Has(l.cells[p].handle);
  }

  lemma CutKeeps<T>(l: List<T>, l': List<T>, p: nat)
    requires l.Valid() && p < |l.cells| && l'.cells == l.cells[..p] + l.cells[p + 1..] && l'.issued == l.issued
    ensures l'.Valid() && !l'.Has(l.cells[p].handle)
  {
    assert forall i | 0 <= i < |l'.cells| :: l'.cells[i] == l.cells[if i < p then i else i + 1];
  }

  lemma CutValues<T>(l: List<T>, l': List<T>, p: nat)
    requires p < |l.cells| && l'.cells == l.cells[..p] + l.cells[p + 1..]
    ensures l'.Values() == l.Values()[..p] + l.Values()[p + 1..]
  {
  }

  /** Removing: the rest keeps its order, and the removed element has no
      successor any more. */
  lemma RemoveUnlinks<T>(l: List<T>, p: nat)
    requires l.Valid() && p < |l.cells|
    ensures var l' := l.Remove(l.cells[p].handle);
            && l'.Valid()
            && l'.Values() == l.Values()[..p] + l.Values()[p + 1..]
            && l'.Next(l.cells[p].handle) == None
  {
    WalkOn(l, p);
    var l' := l.Remove(l.cells[p].handle);
    CutKeeps(l, l', p);
    CutValues(l, l', p);
  }

  lemma PushBackAppends<T>(l: List<T>, v: T)
    requires l.Valid()
    ensures l.PushBack(v).Valid() && l.PushBack(v).Values() == l.Values() + [v]
  {
  }
}
