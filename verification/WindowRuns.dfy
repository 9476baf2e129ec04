/** What every run of puts and ticks on one symbol keeps. */
module WindowRuns {
  import opened Basics
  import opened Quotes
  import opened GoList
  import opened Windows

  // ---------------------------------------------------------------------
  // Runs compose.

  lemma {:induction false} RunFromAppend(cfg: Config, h: History, a: seq<Event>, b: seq<Event>)
    requires |h.chain.nodes| <= 2
    ensures RunFrom(cfg, RunFrom(cfg, h, a), b) == RunFrom(cfg, h, a + b)
  {
    if b == [] {
      ConcatNothing(a);
    } else {
      RunFromAppend(cfg, h, a, b[..|b| - 1]);
      InitOfConcat(a, b);
    }
  }

  // ---------------------------------------------------------------------
  // What one event does to the sequence of all windows.

  lemma PutShape(cfg: Config, h: History, q: Quote)
    requires |h.chain.nodes| <= 2
    ensures var h', r := Step(cfg, h, PutQuote(q)), Route(cfg, h.chain, q);
            && h'.emitted == h.emitted
            && h'.All() == if r.InNode? then h.All()[|h.emitted| + r.at := h.chain.nodes[r.at].Store(q)] else h.All()
  {
  }

  /** All windows once `timeItr` has made sure that two are linked. */
  ghost function Extended(cfg: Config, h: History): seq<Node> {
    h.emitted + Extend(cfg, h.chain).nodes
  }

  ghost predicate Fires(cfg: Config, c: Chain, now: int) {
    c.nodes != [] && now > c.nodes[0].end + cfg.detachTime
  }

  lemma TickShape(cfg: Config, h: History, now: int, born: int)
    requires |h.chain.nodes| <= 2
    ensures var h' := Step(cfg, h, Tick(now, born));
            if h.chain.nodes == [] then
              h'.emitted == h.emitted && h'.All() == h.All() + [NewNode(born, cfg.period)]
            else if !Fires(cfg, h.chain, now) then
              h'.emitted == h.emitted && h'.All() == Extended(cfg, h)
            else
              var x, d := Extended(cfg, h), Detach(cfg, Extend(cfg, h.chain));
              && h'.emitted == h.emitted + [d.out]
              && h'.All() == x[|h.emitted| := d.out] + [NewNode(x[|x| - 1].end, cfg.period)]
  {
    if h.chain.nodes != [] {
      var c := Extend(cfg, h.chain);
      if Fires(cfg, h.chain, now) {
        var d := Detach(cfg, c);
        var x := Extended(cfg, h);
        assert x == h.emitted + [c.nodes[0], c.nodes[1]];
        assert x[|h.emitted| := d.out] == h.emitted + [d.out, c.nodes[1]];
        assert h.emitted + [d.out, c.nodes[1]] + [NewNode(c.nodes[1].end, cfg.period)]
            == h.emitted + [d.out] + [c.nodes[1], NewNode(c.nodes[1].end, cfg.period)];
      }
    }
  }

  lemma TickDetaches(cfg: Config, h: History, now: int, born: int)
    requires |h.chain.nodes| == 2 && Fires(cfg, h.chain, now)
    ensures var h', d := Step(cfg, h, Tick(now, born)), Detach(cfg, h.chain);
            h'.chain == d.chain && h'.emitted == h.emitted + [d.out]
  {
  }

  lemma ExtendedShape(cfg: Config, h: History)
    requires 1 <= |h.chain.nodes| <= 2
    ensures |h.chain.nodes| == 1 ==>
              Extended(cfg, h) == h.All() + [NewNode(h.All()[|h.All()| - 1].end, cfg.period)]
    ensures |h.chain.nodes| == 2 ==> Extended(cfg, h) == h.All()
  {
  }

  // ---------------------------------------------------------------------
  // Tiling

  ghost predicate Adjacent(period: int, a: seq<Node>) {
    && (forall i | 0 <= i < |a| :: a[i].end == a[i].start + period)
    && (forall i, j | 0 <= i < j < |a| && j == i + 1 :: a[j].start == a[i].end)
  }

  /** The windows ever created, emitted ones first, follow one another without
      gap or overlap. */
  ghost predicate Tiled(cfg: Config, h: History) {
    && |h.chain.nodes| <= 2
    && (|h.chain.nodes| < 2 ==> h.emitted == [] && h.chain.pending == NOTHING)
    && Adjacent(cfg.period, h.All())
  }

  lemma AdjacentAppend(period: int, a: seq<Node>)
    requires Adjacent(period, a) && a != []
    ensures Adjacent(period, a + [NewNode(a[|a| - 1].end, period)])
  {
  }

  lemma ExtendedTiled(cfg: Config, h: History)
    requires Tiled(cfg, h) && h.chain.nodes != []
    ensures Adjacent(cfg.period, Extended(cfg, h))
    ensures Extended(cfg, h)[|h.emitted|] == h.chain.nodes[0]
  {
    ExtendedShape(cfg, h);
    AdjacentAppend(cfg.period, h.All());
  }

  lemma AdjacentUpdate(period: int, a: seq<Node>, i: nat, n: Node)
    requires Adjacent(period, a) && i < |a| && n.start == a[i].start && n.end == a[i].end
    ensures Adjacent(period, a[i := n])
  {
  }

  lemma TiledPut(cfg: Config, h: History, q: Quote)
    requires Tiled(cfg, h)
    ensures Tiled(cfg, Step(cfg, h, PutQuote(q)))
  {
    PutShape(cfg, h, q);
    var r := Route(cfg, h.chain, q);
    if r.InNode? {
      var n := h.chain.nodes[r.at];
      assert h.All()[|h.emitted| + r.at] == n;
      AdjacentUpdate(cfg.period, h.All(), |h.emitted| + r.at, n.Store(q));
    }
  }

  lemma TiledStep(cfg: Config, h: History, e: Event)
    requires Tiled(cfg, h)
    ensures Tiled(cfg, Step(cfg, h, e))
  {
    match e
    case PutQuote(q) => TiledPut(cfg, h, q);
    case Tick(now, born) =>
      TickShape(cfg, h, now, born);
      if h.chain.nodes != [] {
        ExtendedTiled(cfg, h);
        if Fires(cfg, h.chain, now) {
          TiledFiring(cfg, h);
        }
      }
  }

  lemma TiledFiring(cfg: Config, h: History)
    requires Tiled(cfg, h) && h.chain.nodes != []
    ensures var x, out := Extended(cfg, h), Detach(cfg, Extend(cfg, h.chain)).out;
            Adjacent(cfg.period, x[|h.emitted| := out] + [NewNode(x[|x| - 1].end, cfg.period)])
  {
    ExtendedTiled(cfg, h);
    var x, out := Extended(cfg, h), Detach(cfg, Extend(cfg, h.chain)).out;
    var y := x[|h.emitted| := out];
    assert Adjacent(cfg.period, y);
    AdjacentAppend(cfg.period, y);
  }

  lemma {:induction false} TiledRun(cfg: Config, es: seq<Event>)
    ensures Tiled(cfg, Run(cfg, es))
  {
    if es != [] {
      TiledRun(cfg, es[..|es| - 1]);
      TiledStep(cfg, Run(cfg, es[..|es| - 1]), es[|es| - 1]);
    }
  }

  /** The born time of the first tick: the only one a chain ever uses. */
  function FirstBorn(es: seq<Event>): Option<int> {
    if es == [] then None
    else
      match FirstBorn(es[..|es| - 1])
      case Some(b) => Some(b)
      case None => if es[|es| - 1].Tick? then Some(es[|es| - 1].born) else None
  }

  lemma {:induction false} BornRun(cfg: Config, es: seq<Event>)
    ensures FirstBorn(es) == None <==> Run(cfg, es).chain.nodes == []
    ensures FirstBorn(es).Some? ==> Run(cfg, es).All()[0].start == FirstBorn(es).value
  {
    if es != [] {
      var h, e := Run(cfg, es[..|es| - 1]), es[|es| - 1];
      BornRun(cfg, es[..|es| - 1]);
      TiledRun(cfg, es[..|es| - 1]);
      TiledRun(cfg, es);
      if e.Tick? {
        TickShape(cfg, h, e.now, e.born);
      } else {
        PutShape(cfg, h, e.q);
      }
      if h.chain.nodes != [] {
        StepGrows(cfg, h, e);
        assert Grows(h.All()[0], Run(cfg, es).All()[0]);
      }
    }
  }

  /** Where the k-th window of a symbol born at `born` starts. */
  function StartOf(cfg: Config, born: int, k: int): int {
    born + k * cfg.period
  }

  lemma NextStart(cfg: Config, born: int, k: int)
    ensures StartOf(cfg, born, k + 1) == StartOf(cfg, born, k) + cfg.period
  {
    OneMore(k, cfg.period);
  }

  lemma {:induction false} TiledStarts(cfg: Config, h: History, i: nat)
    requires Tiled(cfg, h) && i < |h.All()|
    ensures h.All()[i].start == StartOf(cfg, h.All()[0].start, i)
  {
    if i > 0 {
      TiledStarts(cfg, h, i - 1);
      OneMore(i - 1, cfg.period);
    }
  }

  /** Tiling: whatever the clock readings were, the k-th window ever created
      (emitted windows come first, in the order they were returned, then the one
      or two still linked) is exactly [born + k * PERIOD, born + (k + 1) * PERIOD). */
  lemma Tiling(cfg: Config, es: seq<Event>)
    ensures FirstBorn(es) == None ==> Run(cfg, es) == START
    ensures FirstBorn(es).Some? ==>
              var h, born := Run(cfg, es), FirstBorn(es).value;
              && 1 <= |h.chain.nodes| <= 2
              && (h.emitted != [] ==> |h.chain.nodes| == 2)
              && (forall k | 0 <= k < |h.All()| ::
                    && h.All()[k].start == StartOf(cfg, born, k)
                    && h.All()[k].end == StartOf(cfg, born, k) + cfg.period)
  {
    if FirstBorn(es) == None {
      NothingBeforeBirth(cfg, es);
    } else {
      TiledRun(cfg, es);
      BornRun(cfg, es);
      var h := Run(cfg, es);
      forall k | 0 <= k < |h.All()| ensures h.All()[k].start == StartOf(cfg, FirstBorn(es).value, k) {
        TiledStarts(cfg, h, k);
      }
    }
  }

  function TickCount(es: seq<Event>): nat {
    if es == [] then 0 else TickCount(es[..|es| - 1]) + if es[|es| - 1].Tick? then 1 else 0
  }

  /** How many windows are linked depends on the number of ticks alone: none
      before the first, one after it, two from the second on. */
  lemma {:induction false} LinkedAfter(cfg: Config, es: seq<Event>)
    ensures |Run(cfg, es).chain.nodes| == if TickCount(es) < 2 then TickCount(es) else 2
  {
    if es != [] {
      LinkedAfter(cfg, es[..|es| - 1]);
      LinkedStep(cfg, Run(cfg, es[..|es| - 1]), es[|es| - 1]);
    }
  }

  lemma LinkedStep(cfg: Config, h: History, e: Event)
    requires |h.chain.nodes| <= 2
    ensures |Step(cfg, h, e).chain.nodes|
         == if e.Tick? && |h.chain.nodes| < 2 then |h.chain.nodes| + 1 else |h.chain.nodes|
  {
  }

  lemma {:induction false} NothingBeforeBirth(cfg: Config, es: seq<Event>)
    requires FirstBorn(es) == None
    ensures Run(cfg, es) == START
  {
    if es != [] {
      NothingBeforeBirth(cfg, es[..|es| - 1]);
    }
  }

  // ---------------------------------------------------------------------
  // Growth: windows only gain data, and none once emitted.

  ghost predicate Grows(n: Node, n': Node) {
    && n'.start == n.start && n'.end == n.end
    && forall k: Kind :: n.Index(k) <= n'.Index(k)
  }

  ghost predicate HistoryGrows(h: History, h': History) {
    && h.emitted <= h'.emitted
    && |h.All()| <= |h'.All()|
    && forall i | 0 <= i < |h.All()| :: Grows(h.All()[i], h'.All()[i])
  }

  lemma StepGrows(cfg: Config, h: History, e: Event)
    requires |h.chain.nodes| <= 2
    ensures HistoryGrows(h, Step(cfg, h, e))
  {
    match e
    case PutQuote(q) =>
      PutShape(cfg, h, q);
    case Tick(now, born) =>
      TickShape(cfg, h, now, born);
      if Fires(cfg, h.chain, now) {
        assert Grows(h.chain.nodes[0], Detach(cfg, Extend(cfg, h.chain)).out);
        assert h.All()[|h.emitted|] == h.chain.nodes[0];
      }
  }

  lemma {:induction false} RunGrows(cfg: Config, h: History, es: seq<Event>)
    requires |h.chain.nodes| <= 2
    ensures HistoryGrows(h, RunFrom(cfg, h, es))
  {
    if es != [] {
      var m := RunFrom(cfg, h, es[..|es| - 1]);
      RunGrows(cfg, h, es[..|es| - 1]);
      StepGrows(cfg, m, es[|es| - 1]);
      var h' := RunFrom(cfg, h, es);
      forall i | 0 <= i < |h.All()| ensures Grows(h.All()[i], h'.All()[i]) {
        assert Grows(h.All()[i], m.All()[i]) && Grows(m.All()[i], h'.All()[i]);
      }
    }
  }

  /** A quote stored straight into the front (i = 0) or back (i = 1) window is
      in the node that the next, or next but one, detach returns, however many
      puts and ticks come in between. */
  lemma StoredIsEmitted(cfg: Config, h: History, q: Quote, es: seq<Event>)
    requires |h.chain.nodes| <= 2
    requires Route(cfg, h.chain, q).InNode?
    ensures var i := Route(cfg, h.chain, q).at;
            var h' := RunFrom(cfg, Step(cfg, h, PutQuote(q)), es);
            |h'.emitted| > |h.emitted| + i ==> q in h'.emitted[|h.emitted| + i].Index(q.Kind())
  {
    var i := Route(cfg, h.chain, q).at;
    var s := Step(cfg, h, PutQuote(q));
    var h' := RunFrom(cfg, s, es);
    StoredAt(cfg, h, q);
    RunGrows(cfg, s, es);
    GrowsHolds(s.All()[|h.emitted| + i], h'.All()[|h.emitted| + i], q);
    if |h'.emitted| > |h.emitted| + i {
      assert h'.All()[|h.emitted| + i] == h'.emitted[|h.emitted| + i];
    }
  }

  lemma StoredAt(cfg: Config, h: History, q: Quote)
    requires |h.chain.nodes| <= 2 && Route(cfg, h.chain, q).InNode?
    ensures var s, at := Step(cfg, h, PutQuote(q)), |h.emitted| + Route(cfg, h.chain, q).at;
            s.emitted == h.emitted && at < |s.All()| && q in s.All()[at].Index(q.Kind())
  {
    var i := Route(cfg, h.chain, q).at;
    var s := Step(cfg, h, PutQuote(q));
    assert s.All()[|h.emitted| + i] == s.chain.nodes[i] == h.chain.nodes[i].Store(q);
    var index := h.chain.nodes[i].Index(q.Kind());
    assert s.chain.nodes[i].Index(q.Kind()) == index + [q];
  }

  lemma GrowsHolds(n: Node, n': Node, q: Quote)
    requires Grows(n, n') && q in n.Index(q.Kind())
    ensures q in n'.Index(q.Kind())
  {
    var s, s' := n.Index(q.Kind()), n'.Index(q.Kind());
    assert s <= s';
    var j :| 0 <= j < |s| && s[j] == q;
    assert s'[j] == q;
  }
}
