/** The aggregator's objects: a symbol with its chain of windows, updated in
    place, proved against the value-level chain. */
module Aggregation {
  import opened Basics
  import opened Quotes
  import opened GoList
  import opened Windows
  import opened WindowContents

  // ---------------------------------------------------------------------
  // The walk over a pending list inside `detach`

  /** The loop as it stands: the element is removed, then asked for its
      successor, of which a removed element has none. */
  method DrainLoop(list: List<Quote>, seen: map<Id, Quote>, index: seq<Quote>, start: int, end: int)
    returns (list': List<Quote>, index': seq<Quote>)
    requires list.Valid()
    ensures list'.Valid() && list'.Values() == DrainFirst(list.Values(), start, end).rest
    ensures index' == index + Known(DrainFirst(list.Values(), start, end).moved, seen.Keys, false)
  {
    list', index' := list, index;
    ghost var p, s := 0, list.Values();
    var e := list'.Front();
    while e != None
      invariant p <= |s|
      invariant e.Some? ==> p < |s| && e.value == list.cells[p].handle && list' == list && index' == index
      invariant e.Some? ==> forall i | 0 <= i < p :: !Within(s[i], start, end)
      invariant e.None? ==> list'.Valid() && list'.Values() == DrainFirst(s, start, end).rest
      invariant e.None? ==> index' == index + Known(DrainFirst(s, start, end).moved, seen.Keys, false)
      decreases e.Some?, |s| - p
    {
      WalkOn(list, p);
      var q := list'.Read(e.value);
      assert q == s[p];
      if start <= q.time && q.time < end {
        if q.Id() !in seen {
          index' := index' + [q];
        }
        RemoveUnlinks(list, p);
        list' := list'.Remove(e.value);
        FirstIs(s, start, end, p);
        KnownOne(q, seen.Keys);
      }
      e := list'.Next(e.value);
      p := p + 1;
    }
  }

  lemma FirstIs(s: seq<Quote>, lo: int, hi: int, p: nat)
    requires p < |s| && Within(s[p], lo, hi) && forall i | 0 <= i < p :: !Within(s[i], lo, hi)
    ensures DrainFirst(s, lo, hi) == Drained([s[p]], s[..p] + s[p + 1..])
  {
  }

  lemma KnownOne(q: Quote, ids: set<Id>)
    ensures Known([q], ids, false) == if q.Id() in ids then [] else [q]
  {
    assert [q][..0] == [];
  }

  /** The walk has passed the quotes `done` of `all`, left the cells `kept` in
      the list, stands at `e` and has the cells `todo` before it. */
  ghost predicate Walk(l: List<Quote>, e: Option<nat>, all: seq<Quote>, done: seq<Quote>,
                       kept: seq<Cell<Quote>>, todo: seq<Cell<Quote>>) {
    && l.Valid() && l.cells == kept + todo
    && e == (if todo == [] then None else Some(todo[0].handle))
    && done + ValuesOf(todo) == all
  }

  /** The quotes passed are sorted into those left in the list and those moved
      to the index. */
  ghost predicate Sorted(done: seq<Quote>, kept: seq<Cell<Quote>>, index: seq<Quote>, index': seq<Quote>,
                         start: int, end: int, ids: set<Id>) {
    && ValuesOf(kept) == Select(done, start, end, false)
    && index' == index + Known(Select(done, start, end, true), ids, false)
  }

  /** The same loop with the successor fetched before the removal. */
  method DrainLoopSaveNext(list: List<Quote>, seen: map<Id, Quote>, index: seq<Quote>, start: int, end: int)
    returns (list': List<Quote>, index': seq<Quote>)
    requires list.Valid()
    ensures list'.Valid() && list'.Values() == DrainAll(list.Values(), start, end).rest
    ensures index' == index + Known(DrainAll(list.Values(), start, end).moved, seen.Keys, false)
  {
    list', index' := list, index;
    ghost var all, done, kept, todo := list.Values(), [], [], list.cells;
    var e := list'.Front();
    WalkBegins(list, index, start, end, seen.Keys);
    while e != None
      invariant Walk(list', e, all, done, kept, todo)
      invariant Sorted(done, kept, index, index', start, end, seen.Keys)
      decreases |todo|
    {
      WalkStep(list', e.value, all, done, kept, todo);
      SortStep(done, kept, index, index', start, end, seen.Keys, todo[0]);
      var q := list'.Read(e.value);
      var next := list'.Next(e.value);
      if start <= q.time && q.time < end {
        if q.Id() !in seen {
          index' := index' + [q];
        }
        list' := list'.Remove(e.value);
      } else {
        kept := kept + [todo[0]];
      }
      e := next;
      done := done + [q];
      todo := todo[1..];
    }
    WalkEnds(list', all, done, kept, todo, index, index', start, end, seen.Keys);
  }

  lemma SortStep(done: seq<Quote>, kept: seq<Cell<Quote>>, index: seq<Quote>, index': seq<Quote>,
                 start: int, end: int, ids: set<Id>, c: Cell<Quote>)
    requires Sorted(done, kept, index, index', start, end, ids)
    ensures var q := c.value;
            if !Within(q, start, end) then Sorted(done + [q], kept + [c], index, index', start, end, ids)
            else if q.Id() in ids then Sorted(done + [q], kept, index, index', start, end, ids)
            else Sorted(done + [q], kept, index, index' + [q], start, end, ids)
  {
    SelectMore(done, c.value, start, end, ids);
    ValuesMore(kept, c);
  }

  lemma WalkBegins(l: List<Quote>, index: seq<Quote>, start: int, end: int, ids: set<Id>)
    requires l.Valid()
    ensures Walk(l, l.Front(), l.Values(), [], [], l.cells) && Sorted([], [], index, index, start, end, ids)
  {
    assert ValuesOf(l.cells) == l.Values();
  }

  lemma WalkEnds(l: List<Quote>, all: seq<Quote>, done: seq<Quote>, kept: seq<Cell<Quote>>, todo: seq<Cell<Quote>>,
                 index: seq<Quote>, index': seq<Quote>, start: int, end: int, ids: set<Id>)
    requires Walk(l, None, all, done, kept, todo) && Sorted(done, kept, index, index', start, end, ids)
    ensures l.Valid() && l.Values() == DrainAll(all, start, end).rest
    ensures index' == index + Known(DrainAll(all, start, end).moved, ids, false)
  {
    assert todo == [] && l.cells == kept && done == all;
    assert l.Values() == ValuesOf(kept);
  }

  /** One step of the walk, whether the element is removed or left behind. */
  lemma WalkStep(l: List<Quote>, e: nat, all: seq<Quote>, done: seq<Quote>,
                 kept: seq<Cell<Quote>>, todo: seq<Cell<Quote>>)
    requires Walk(l, Some(e), all, done, kept, todo)
    ensures todo != [] && l.Has(e) && l.Read(e) == todo[0].value
    ensures Walk(l.Remove(e), l.Next(e), all, done + [todo[0].value], kept, todo[1..])
    ensures Walk(l, l.Next(e), all, done + [todo[0].value], kept + [todo[0]], todo[1..])
  {
    WalkKept(l, kept, todo);
    PassOne(done, todo);
  }

  ghost function ValuesOf(cells: seq<Cell<Quote>>): seq<Quote> {
    seq(|cells|, i requires 0 <= i < |cells| => cells[i].value)
  }

  lemma ValuesMore(cells: seq<Cell<Quote>>, c: Cell<Quote>)
    ensures ValuesOf(cells + [c]) == ValuesOf(cells) + [c.value]
  {
  }

  lemma PassOne(done: seq<Quote>, todo: seq<Cell<Quote>>)
    requires todo != []
    ensures (done + [todo[0].value]) + ValuesOf(todo[1..]) == done + ValuesOf(todo)
  {
  }

  /** One step of the walk, with `kept` left behind. */
  lemma WalkKept(l: List<Quote>, kept: seq<Cell<Quote>>, todo: seq<Cell<Quote>>)
    requires todo != [] && l.Valid() && l.cells == kept + todo
    ensures var e := todo[0].handle;
            && l.Has(e) && l.Read(e) == todo[0].value
            && l.Next(e) == (if |todo| > 1 then Some(todo[1].handle) else None)
            && l.Remove(e).Valid() && l.Remove(e).cells == kept + todo[1..]
    ensures (kept + [todo[0]]) + todo[1..] == l.cells
  {
    SplitConcat(kept, todo);
    WalkOn(l, |kept|);
    RemoveUnlinks(l, |kept|);
  }

  lemma SelectMore(s: seq<Quote>, q: Quote, lo: int, hi: int, ids: set<Id>)
    ensures var due := Within(q, lo, hi);
            && Select(s + [q], lo, hi, false) == Select(s, lo, hi, false) + (if due then [] else [q])
            && Known(Select(s + [q], lo, hi, true), ids, false)
               == Known(Select(s, lo, hi, true), ids, false) + (if due && q.Id() !in ids then [q] else [])
  {
    InitOfAppend(s, q);
    var moved := Select(s, lo, hi, true);
    InitOfAppend(moved, q);
  }

  // ---------------------------------------------------------------------
  // PeriodNode

  class PeriodNode {
    var start: int
    var end: int
    var tradeMap: map<Id, Quote>
    var tradeIndex: seq<Quote>
    var incMap: map<Id, Quote>
    var incIndex: seq<Quote>
    var snapshotMap: map<Id, Quote>
    var snapshotIndex: seq<Quote>

    function View(): Node
      reads this
    {
      Node(start, end, Trio(Lane(tradeMap, tradeIndex), Lane(incMap, incIndex), Lane(snapshotMap, snapshotIndex)))
    }

    /** `NewPeriodNode`, with the bounds its callers set next. */
    constructor (start: int, period: int)
      ensures View() == NewNode(start, period)
    {
      this.start, this.end := start, start + period;
      tradeMap, tradeIndex := map[], [];
      incMap, incIndex := map[], [];
      snapshotMap, snapshotIndex := map[], [];
    }
  }

  // ---------------------------------------------------------------------
  // SymbolDef

  type Pending = l: List<Quote> | l.Valid() witness Empty()

  class SymbolDef {
    const cfg: Config
    var linked: seq<PeriodNode>
    var pendingTrade: Pending
    var pendingInc: Pending
    var pendingSnapshot: Pending

    ghost predicate Valid()
      reads this
    {
      && cfg.drain.RemoveThenNext?
      && |linked| <= 2
      && (|linked| == 2 ==> linked[0] != linked[1])
    }

    ghost function Nodes(): (ns: seq<Node>)
      requires |linked| <= 2
      reads this, linked
      ensures |ns| == |linked| && forall i | 0 <= i < |ns| :: ns[i] == linked[i].View()
    {
      if |linked| == 0 then []
      else if |linked| == 1 then [linked[0].View()]
      else [linked[0].View(), linked[1].View()]
    }

    /** The symbol's state as a value. */
    ghost function View(): Chain
      requires |linked| <= 2
      reads this, linked
    {
      Chain(Nodes(), Trio(pendingTrade.Values(), pendingInc.Values(), pendingSnapshot.Values()))
    }

    constructor (cfg: Config)
      requires cfg.drain.RemoveThenNext?
      ensures Valid() && View() == EMPTY_CHAIN && this.cfg == cfg
    {
      this.cfg := cfg;
      linked := [];
      pendingTrade, pendingInc, pendingSnapshot := Empty(), Empty(), Empty();
    }

    method PutTrade(trade: Quote)
      requires Valid() && trade.QuoteTrade?
      modifies this`pendingTrade, linked
      ensures Valid() && View() == Put(cfg, old(View()), trade)
    {
      if |linked| == 0 {
        return;
      }
      if |linked| == 1 {
        var back := linked[0];
        if trade.time < back.start || trade.time >= back.end {
          return;
        }
        if trade.Id() in back.tradeMap {
          return;
        }
        back.tradeMap := back.tradeMap[trade.Id() := trade];
        back.tradeIndex := back.tradeIndex + [trade];
      } else {
        var front, back := linked[0], linked[|linked| - 1];
        if trade.time < front.start - cfg.period {
          return;
        }
        if trade.time >= back.end + PENDING_SPAN {
          return;
        }
        if trade.time < front.end {
          if trade.Id() in front.tradeMap {
            return;
          }
          front.tradeMap := front.tradeMap[trade.Id() := trade];
          front.tradeIndex := front.tradeIndex + [trade];
          return;
        }
        if trade.time >= back.start && trade.time < back.end {
          if trade.Id() in back.tradeMap {
            return;
          }
          back.tradeMap := back.tradeMap[trade.Id() := trade];
          back.tradeIndex := back.tradeIndex + [trade];
          return;
        }
        PushBackAppends(pendingTrade, trade);
        pendingTrade := pendingTrade.PushBack(trade);
      }
    }

    method PutInc(inc: Quote)
      requires Valid() && inc.QuoteOrbIncr?
      modifies this`pendingInc, linked
      ensures Valid() && View() == Put(cfg, old(View()), inc)
    {
      if |linked| == 0 {
        return;
      }
      if |linked| == 1 {
        var back := linked[0];
        if inc.time < back.start || inc.time >= back.end {
          return;
        }
        if inc.Id() in back.incMap {
          return;
        }
        back.incMap := back.incMap[inc.Id() := inc];
        back.incIndex := back.incIndex + [inc];
      } else {
        var front, back := linked[0], linked[|linked| - 1];
        if inc.time < front.start - cfg.period {
          return;
        }
        if inc.time >= back.end + PENDING_SPAN {
          return;
        }
        if inc.time < front.end {
          if inc.Id() in front.incMap {
            return;
          }
          front.incMap := front.incMap[inc.Id() := inc];
          front.incIndex := front.incIndex + [inc];
          return;
        }
        if inc.time >= back.start && inc.time < back.end {
          if inc.Id() in back.incMap {
            return;
          }
          back.incMap := back.incMap[inc.Id() := inc];
          back.incIndex := back.incIndex + [inc];
          return;
        }
        PushBackAppends(pendingInc, inc);
        pendingInc := pendingInc.PushBack(inc);
      }
    }

    method PutSnapshot(snap: Quote)
      requires Valid() && snap.QuoteSnapShot?
      modifies this`pendingSnapshot, linked
      ensures Valid() && View() == Put(cfg, old(View()), snap)
    {
      if |linked| == 0 {
        return;
      }
      if |linked| == 1 {
        var back := linked[0];
        if snap.time < back.start || snap.time >= back.end {
          return;
        }
        if snap.Id() in back.snapshotMap {
          return;
        }
        back.snapshotMap := back.snapshotMap[snap.Id() := snap];
        back.snapshotIndex := back.snapshotIndex + [snap];
      } else {
        var front, back := linked[0], linked[|linked| - 1];
        if snap.time < front.start - cfg.period {
          return;
        }
        if snap.time >= back.end + PENDING_SPAN {
          return;
        }
        if snap.time < front.end {
          if snap.Id() in front.tradeMap {
            return;
          }
          front.snapshotMap := front.snapshotMap[snap.Id() := snap];
          front.snapshotIndex := front.snapshotIndex + [snap];
          return;
        }
        if snap.time >= back.start && snap.time < back.end {
          if snap.Id() in back.snapshotMap {
            return;
          }
          back.snapshotMap := back.snapshotMap[snap.Id() := snap];
          back.snapshotIndex := back.snapshotIndex + [snap];
          return;
        }
        PushBackAppends(pendingSnapshot, snap);
        pendingSnapshot := pendingSnapshot.PushBack(snap);
      }
    }

    /** `detach`: the front window goes, a new back window comes, and what is
        pending for the window that goes is drained into it. */
    method DetachFront() returns (pn: PeriodNode)
      requires Valid() && |linked| == 2
      modifies this, linked
      ensures Valid() && |linked| == 2 && linked[0] == old(linked[1]) && fresh(linked[1])
      ensures pn == old(linked[0]) && pn !in linked
      ensures View() == Detach(cfg, old(View())).chain && pn.View() == Detach(cfg, old(View())).out
    {
      pn := linked[0];
      linked := linked[1..];
      var node := new PeriodNode(linked[0].end, cfg.period);
      linked := linked + [node];
      DrainInto(pn);
    }

    /** The three drain loops of `detach`. */
    method DrainInto(pn: PeriodNode)
      requires Valid() && pn !in linked
      modifies this`pendingTrade, this`pendingInc, this`pendingSnapshot
      modifies pn`tradeIndex, pn`incIndex, pn`snapshotIndex
      ensures Valid()
      ensures var n := old(pn.View());
              var t, i, s := DrainFirst(old(pendingTrade.Values()), n.start, n.end),
                             DrainFirst(old(pendingInc.Values()), n.start, n.end),
                             DrainFirst(old(pendingSnapshot.Values()), n.start, n.end);
              && pendingTrade.Values() == t.rest && pendingInc.Values() == i.rest && pendingSnapshot.Values() == s.rest
              && pn.View() == n.(lanes := Trio(Absorb(n.lanes.trade, t.moved),
                                               Absorb(n.lanes.increment, i.moved),
                                               Absorb(n.lanes.snapshot, s.moved)))
    {
      pendingTrade, pn.tradeIndex := DrainLoop(pendingTrade, pn.tradeMap, pn.tradeIndex, pn.start, pn.end);
      pendingInc, pn.incIndex := DrainLoop(pendingInc, pn.incMap, pn.incIndex, pn.start, pn.end);
      pendingSnapshot, pn.snapshotIndex :=
        DrainLoop(pendingSnapshot, pn.snapshotMap, pn.snapshotIndex, pn.start, pn.end);
    }

    /** A new window at the end of a chain that has room for one. */
    method PushNode(start: int)
      requires Valid() && |linked| < 2
      modifies this`linked
      ensures Valid() && |linked| == |old(linked)| + 1
      ensures linked[..|old(linked)|] == old(linked) && fresh(linked[|old(linked)|])
      ensures View() == old(View()).(nodes := old(View()).nodes + [NewNode(start, cfg.period)])
    {
      var node := new PeriodNode(start, cfg.period);
      linked := linked + [node];
    }

    /** `timeItr`. The node it returns is no longer linked, so nothing updates
        it afterwards. */
    method TimeIterate(now: int, bornTs: int) returns (pn: PeriodNode?)
      requires Valid()
      modifies this, linked
      ensures Valid() && forall n | n in linked :: n in old(linked) || fresh(n)
      ensures var t := TimeItr(cfg, old(View()), now, bornTs);
              && View() == t.chain
              && (pn == null <==> t.out == None)
              && (pn != null ==> pn !in linked && pn.View() == t.out.value)
    {
      if |linked| == 0 {
        PushNode(bornTs);
        return null;
      }
      if |linked| == 1 {
        PushNode(linked[0].end);
      }
      assert View() == Extend(cfg, old(View()));
      if now > linked[0].end + cfg.detachTime {
        pn := DetachFront();
        return;
      }
      return null;
    }
  }
}
