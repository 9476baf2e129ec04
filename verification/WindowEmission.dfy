/** How often, and in which windows, one quote can be emitted. */
module WindowEmission {
  import opened Basics
  import opened Quotes
  import opened GoList
  import opened Windows
  import opened WindowRuns
  import opened WindowContents

  /** How many quotes of `s` have this id and this time. */
  function Hits(s: seq<Quote>, id: Id, time: int): nat {
    if s == [] then 0
    else Hits(s[..|s| - 1], id, time) + if s[|s| - 1].Id() == id && s[|s| - 1].time == time then 1 else 0
  }

  /** The same over all windows of a sequence. */
  function TotalHits(ns: seq<Node>, k: Kind, id: Id, time: int): nat {
    if ns == [] then 0
    else TotalHits(ns[..|ns| - 1], k, id, time) + Hits(ns[|ns| - 1].Index(k), id, time)
  }

  lemma {:induction false} HitsBounds(s: seq<Quote>, id: Id, time: int)
    ensures DistinctIds(s) ==> Hits(s, id, time) <= 1
    ensures Hits(s, id, time) == 0 <==> forall q | q in s :: q.Id() != id || q.time != time
  {
    if s != [] {
      var t, last := s[..|s| - 1], s[|s| - 1];
      HitsBounds(t, id, time);
      assert s == t + [last];
      if DistinctIds(s) && last.Id() == id {
        assert forall q | q in t :: q.Id() != id;
      }
    }
  }

  /** The period a time falls into, counted from `born`. */
  function PeriodOf(cfg: Config, born: int, time: int): int
    requires cfg.period > 0
  {
    (time - born) / cfg.period
  }

  lemma PeriodOfUnique(cfg: Config, born: int, time: int, k: int)
    requires cfg.period > 0
    ensures PeriodOf(cfg, born, time) == k <==> StartOf(cfg, born, k) <= time < StartOf(cfg, born, k + 1)
  {
    QuotientIs(time - born, cfg.period, k);
    NextStart(cfg, born, k);
  }

  /** In an emitted window a quote of this id and time occurs at most once, and
      only if the window is that of its period or the next one. */
  lemma OncePerWindow(cfg: Config, es: seq<Event>, k: Kind, id: Id, time: int, i: nat)
    requires cfg.period > 0 && i < |Run(cfg, es).emitted| && FirstBorn(es).Some?
    ensures var hits := Hits(Run(cfg, es).emitted[i].Index(k), id, time);
            && (cfg.drain.RemoveThenNext? && k != Snapshot ==> hits <= 1)
            && (hits > 0 ==> PeriodOf(cfg, FirstBorn(es).value, time) in {i - 1, i})
  {
    var h, born := Run(cfg, es), FirstBorn(es).value;
    Tiling(cfg, es);
    ContentsRun(cfg, es, k);
    var n := h.emitted[i];
    assert n == h.All()[i];
    assert LaneOk(cfg, n, k, cfg.period, false);
    HitsBounds(n.Index(k), id, time);
    if Hits(n.Index(k), id, time) > 0 {
      NextStart(cfg, born, i - 1);
      NextStart(cfg, born, i);
      PeriodOfUnique(cfg, born, time, i - 1);
      PeriodOfUnique(cfg, born, time, i);
    }
  }

  /** A trade or increment of a given id and time, whose time falls into the
      j-th period, is emitted at most once in window j, at most once in window
      j + 1, and nowhere else, however often and in whatever order it is
      delivered, over any run. */
  lemma AtMostTwice(cfg: Config, es: seq<Event>, k: Kind, id: Id, time: int)
    requires cfg.period > 0 && cfg.drain.RemoveThenNext? && k != Snapshot && FirstBorn(es).Some?
    ensures var ns, j := Run(cfg, es).emitted, PeriodOf(cfg, FirstBorn(es).value, time);
            && TotalHits(ns, k, id, time) <= 2
            && (forall i | 0 <= i < |ns| :: Hits(ns[i].Index(k), id, time) <= if i == j || i == j + 1 then 1 else 0)
  {
    var ns, j := Run(cfg, es).emitted, PeriodOf(cfg, FirstBorn(es).value, time);
    forall i | 0 <= i < |ns|
      ensures Hits(ns[i].Index(k), id, time) <= if i == j || i == j + 1 then 1 else 0
    {
      OncePerWindow(cfg, es, k, id, time, i);
    }
    SumUp(ns, k, id, time, j);
  }

  lemma {:induction false} SumUp(ns: seq<Node>, k: Kind, id: Id, time: int, j: int)
    requires forall i | 0 <= i < |ns| :: Hits(ns[i].Index(k), id, time) <= if i == j || i == j + 1 then 1 else 0
    ensures TotalHits(ns, k, id, time) <= (if j < |ns| then 1 else 0) + (if j + 1 < |ns| then 1 else 0)
  {
    if ns != [] {
      SumUp(ns[..|ns| - 1], k, id, time, j);
    }
  }

  // ---------------------------------------------------------------------
  // What counts as the same quote

  lemma SeenByKey(s: seq<Quote>, q: Quote)
    ensures q.Id() in Ids(s) <==> exists x :: x in s && SameKey(x, q)
  {
    forall x | x in s ensures x.Id() == q.Id() <==> SameKey(x, q) {
      KeyByFields(x, q);
    }
  }

  /** Two quotes of one kind that one window would each take. Once the first is
      there the second is refused if it has the same trade id, or for increments
      and snapshots the same time, and is taken as before otherwise; only in the
      front window of two are snapshots always taken again. */
  lemma RepeatsRefused(cfg: Config, c: Chain, t: Quote, u: Quote)
    requires t.Kind() == u.Kind() && Route(cfg, c, t).InNode? && Route(cfg, c, u) == Route(cfg, c, t)
    ensures var same := if t.QuoteTrade? then t.tradeId == u.tradeId else t.time == u.time;
            var unchecked := t.QuoteSnapShot? && |c.nodes| > 1 && Route(cfg, c, t).at == 0;
            Route(cfg, Put(cfg, c, t), u) == if same && !unchecked then Dropped else Route(cfg, c, u)
  {
    KeyByFields(t, u);
    var at := Route(cfg, c, t).at;
    StoreOwn(c.nodes[at], t);
    if t.QuoteSnapShot? {
      StoreOther(c.nodes[at], t, Trade);
    }
  }

  // ---------------------------------------------------------------------
  // Which window a put chooses

  /** Which window takes a quote, told by periods instead of time comparisons.
      With two windows linked, of periods f and f + 1: a quote of an older
      period than f - 1 is dropped, one of period f - 1 or f goes to the front,
      of period f + 1 to the back, and a later one waits, unless it is ten
      seconds past the back. Besides, a quote is refused only if the window's
      index has one of the same trade id, or of the same time if it is no trade. */
  lemma RouteByPeriod(cfg: Config, es: seq<Event>, q: Quote)
    requires cfg.period > 0 && FirstBorn(es).Some? && |Run(cfg, es).chain.nodes| == 2
    ensures var h, k := Run(cfg, es), q.Kind();
            var f, j := |h.emitted|, PeriodOf(cfg, FirstBorn(es).value, q.time);
            var front, back := h.chain.nodes[0], h.chain.nodes[1];
            Route(cfg, h.chain, q) ==
            if j < f - 1 || q.time >= back.end + 10_000 then Dropped
            else if j <= f then
              if exists x :: x in front.Index(FrontDedupKind(k)) && SameKey(x, q) then Dropped else InNode(0)
            else if j == f + 1 then
              if exists x :: x in back.Index(k) && SameKey(x, q) then Dropped else InNode(1)
            else Parked
  {
    SeenByKey(Run(cfg, es).chain.nodes[0].Index(FrontDedupKind(q.Kind())), q);
    SeenByKey(Run(cfg, es).chain.nodes[1].Index(q.Kind()), q);
    FrontAndBack(cfg, es);
    MapAndIndexAgree(cfg, es, q.Kind());
    MapAndIndexAgree(cfg, es, FrontDedupKind(q.Kind()));
    RouteOf(cfg, Run(cfg, es).chain, FirstBorn(es).value, |Run(cfg, es).emitted|, q);
  }

  lemma RouteOf(cfg: Config, c: Chain, born: int, f: int, q: Quote)
    requires cfg.period > 0 && |c.nodes| == 2
    requires c.nodes[0].start - cfg.period == StartOf(cfg, born, f - 1)
    requires c.nodes[0].end == c.nodes[1].start == StartOf(cfg, born, f + 1)
    requires c.nodes[1].end == StartOf(cfg, born, f + 2)
    ensures var j, k, front, back := PeriodOf(cfg, born, q.time), q.Kind(), c.nodes[0], c.nodes[1];
            Route(cfg, c, q) ==
            if j < f - 1 || q.time >= back.end + PENDING_SPAN then Dropped
            else if j <= f then if q.Id() in front.Seen(FrontDedupKind(k)) then Dropped else InNode(0)
            else if j == f + 1 then if q.Id() in back.Seen(k) then Dropped else InNode(1)
            else Parked
  {
    PeriodSide(cfg, born, q.time, f - 1);
    PeriodSide(cfg, born, q.time, f + 1);
    PeriodSide(cfg, born, q.time, f + 2);
  }

  /** The bounds of two linked windows. */
  lemma FrontAndBack(cfg: Config, es: seq<Event>)
    requires FirstBorn(es).Some? && |Run(cfg, es).chain.nodes| == 2
    ensures var c, born, f := Run(cfg, es).chain, FirstBorn(es).value, |Run(cfg, es).emitted|;
            && c.nodes[0].start - cfg.period == StartOf(cfg, born, f - 1)
            && c.nodes[0].end == c.nodes[1].start == StartOf(cfg, born, f + 1)
            && c.nodes[1].end == StartOf(cfg, born, f + 2)
  {
    var h, born := Run(cfg, es), FirstBorn(es).value;
    var f := |h.emitted|;
    Tiling(cfg, es);
    assert h.chain.nodes[0] == h.All()[f] && h.chain.nodes[1] == h.All()[f + 1];
    NextStart(cfg, born, f - 1);
    NextStart(cfg, born, f);
    NextStart(cfg, born, f + 1);
  }

  lemma PeriodSide(cfg: Config, born: int, time: int, k: int)
    requires cfg.period > 0
    ensures PeriodOf(cfg, born, time) < k <==> time < StartOf(cfg, born, k)
  {
    QuotientBelow(time - born, cfg.period, k);
  }

  /** Which quotes a put takes while one window is linked, for all three kinds:
      those of the window's own time that it does not have yet. All others are
      dropped, early ones too. */
  lemma RouteToOne(cfg: Config, es: seq<Event>, q: Quote)
    requires cfg.period > 0 && FirstBorn(es).Some? && |Run(cfg, es).chain.nodes| == 1
    ensures var c, born := Run(cfg, es).chain, FirstBorn(es).value;
            Route(cfg, c, q) ==
            if born <= q.time < born + cfg.period && !exists x :: x in c.nodes[0].Index(q.Kind()) && SameKey(x, q)
            then InNode(0) else Dropped
  {
    Tiling(cfg, es);
    MapAndIndexAgree(cfg, es, q.Kind());
    var h := Run(cfg, es);
    assert h.All()[0] == h.chain.nodes[0];
    SeenByKey(h.chain.nodes[0].Index(q.Kind()), q);
  }

  /** A quote enters a pending list exactly if two windows are linked and its time
      is from the end of the back window to ten seconds later. */
  lemma ParkedTimes(cfg: Config, es: seq<Event>, q: Quote)
    ensures var c := Run(cfg, es).chain;
            && (Route(cfg, c, q).Parked? ==>
                  |c.nodes| == 2 && c.nodes[1].end <= q.time < c.nodes[1].end + 10_000)
            && (cfg.period > 0 && |c.nodes| == 2 && c.nodes[1].end <= q.time < c.nodes[1].end + 10_000 ==>
                  Route(cfg, c, q).Parked?)
  {
    TiledRun(cfg, es);
    var h := Run(cfg, es);
    if |h.chain.nodes| == 2 {
      assert h.All()[|h.emitted|] == h.chain.nodes[0] && h.All()[|h.emitted| + 1] == h.chain.nodes[1];
    }
  }

  // ---------------------------------------------------------------------
  // Snapshots

  lemma DistinctAppend(s: seq<Quote>, q: Quote)
    ensures DistinctIds(s + [q]) <==> DistinctIds(s) && q.Id() !in Ids(s)
  {
    var t := s + [q];
    assert forall i | 0 <= i < |s| :: t[i] == s[i] && s[i] in s;
    if q.Id() in Ids(s) {
      var i :| 0 <= i < |s| && s[i].Id() == q.Id();
      assert t[i].Id() == t[|s|].Id();
    }
    if DistinctIds(t) {
      assert forall i, j | 0 <= i < j < |s| :: t[i].Id() != t[j].Id();
    }
  }

  lemma FrontSnapshotPut(cfg: Config, es: seq<Event>, q: Quote)
    requires |Run(cfg, es).chain.nodes| == 2 && q.QuoteSnapShot? && cfg.period > 0
    requires var front := Run(cfg, es).chain.nodes[0]; front.start - cfg.period <= q.time < front.end
    ensures var front, s := Run(cfg, es).chain.nodes[0], Run(cfg, es).chain.nodes[0].Index(Snapshot);
            Put(cfg, Run(cfg, es).chain, q).nodes[0].Index(Snapshot)
            == if q.Id() in Ids(front.Index(Trade)) then s else s + [q]
  {
    var h := Run(cfg, es);
    TiledRun(cfg, es);
    MapAndIndexAgree(cfg, es, Trade);
    assert h.All()[|h.emitted|] == h.chain.nodes[0] && h.All()[|h.emitted| + 1] == h.chain.nodes[1];
  }

  /** Snapshots that fall to the front window are checked against the ids of
      trades. After such a put the window's snapshot index is free of repeated
      ids if and only if it was before and the id is either new there or equal
      to the id of some trade of the window. */
  lemma SnapshotPutExact(cfg: Config, es: seq<Event>, q: Quote)
    requires cfg.period > 0 && |Run(cfg, es).chain.nodes| == 2 && q.QuoteSnapShot?
    requires var front := Run(cfg, es).chain.nodes[0]; front.start - cfg.period <= q.time < front.end
    ensures var front := Run(cfg, es).chain.nodes[0];
            DistinctIds(Put(cfg, Run(cfg, es).chain, q).nodes[0].Index(Snapshot)) <==>
            && DistinctIds(front.Index(Snapshot))
            && (q.Id() !in Ids(front.Index(Snapshot)) || q.Id() in Ids(front.Index(Trade)))
  {
    FrontSnapshotPut(cfg, es, q);
    DistinctAppend(Run(cfg, es).chain.nodes[0].Index(Snapshot), q);
  }

  /** The event puts a snapshot into the front of two windows although that
      window's snapshot map has its id. */
  ghost predicate Reenters(cfg: Config, h: History, e: Event) {
    && e.PutQuote? && e.q.QuoteSnapShot? && |h.chain.nodes| == 2
    && Route(cfg, h.chain, e.q) == InNode(0) && e.q.Id() in h.chain.nodes[0].Seen(Snapshot)
  }

  ghost predicate NeverReenters(cfg: Config, es: seq<Event>) {
    es == [] ||
    (NeverReenters(cfg, es[..|es| - 1]) && !Reenters(cfg, Run(cfg, es[..|es| - 1]), es[|es| - 1]))
  }

  /** No window, emitted or linked, has two snapshots of one id. */
  ghost predicate NoRepeats(ns: seq<Node>) {
    forall i | 0 <= i < |ns| :: DistinctIds(ns[i].Index(Snapshot))
  }

  lemma RepeatsStore(n: Node, q: Quote)
    requires n.Seen(Snapshot) == Ids(n.Index(Snapshot)) && DistinctIds(n.Index(Snapshot))
    ensures DistinctIds(n.Store(q).Index(Snapshot)) <==> !(q.QuoteSnapShot? && q.Id() in n.Seen(Snapshot))
  {
    if q.QuoteSnapShot? {
      StoreOwn(n, q);
      DistinctAppend(n.Index(Snapshot), q);
    } else {
      StoreOther(n, q, Snapshot);
    }
  }

  lemma RepeatsAt(ns: seq<Node>, i: nat, n: Node)
    requires i < |ns| && NoRepeats(ns)
    ensures NoRepeats(ns[i := n]) <==> DistinctIds(n.Index(Snapshot))
  {
    assert ns[i := n][i] == n;
  }

  lemma RepeatsPut(cfg: Config, h: History, q: Quote)
    requires |h.chain.nodes| <= 2 && ContentsOk(cfg, h, Snapshot) && NoRepeats(h.All())
    ensures NoRepeats(Step(cfg, h, PutQuote(q)).All()) <==> !Reenters(cfg, h, PutQuote(q))
  {
    PutShape(cfg, h, q);
    var r, c := Route(cfg, h.chain, q), h.chain;
    if r.InNode? {
      var n := c.nodes[r.at];
      assert h.All()[|h.emitted| + r.at] == n;
      assert LaneOk(cfg, n, Snapshot, Lateness(cfg, c, r.at), true);
      RepeatsStore(n, q);
      RepeatsAt(h.All(), |h.emitted| + r.at, n.Store(q));
    }
  }

  lemma RepeatsDetach(cfg: Config, c: Chain)
    requires |c.nodes| == 2 && cfg.drain.RemoveThenNext?
    requires c.nodes[0].Seen(Snapshot) == Ids(c.nodes[0].Index(Snapshot)) && DistinctIds(c.nodes[0].Index(Snapshot))
    ensures DistinctIds(Detach(cfg, c).out.Index(Snapshot))
  {
    var pn, r := c.nodes[0], DrainedOf(cfg, c, Snapshot);
    DetachLane(cfg, c, Snapshot);
    DrainFacts(cfg.drain, c.pending.Get(Snapshot), pn.start, pn.end);
    AbsorbFirst(pn.Index(Snapshot), r.moved, pn.Seen(Snapshot));
  }

  lemma RepeatsUpdate(ns: seq<Node>, i: nat, n: Node, start: int, period: int)
    requires i < |ns| && NoRepeats(ns) && DistinctIds(n.Index(Snapshot))
    ensures NoRepeats(ns[i := n] + [NewNode(start, period)]) && NoRepeats(ns + [NewNode(start, period)])
  {
  }

  lemma RepeatsTick(cfg: Config, h: History, now: int, born: int)
    requires |h.chain.nodes| <= 2 && ContentsOk(cfg, h, Snapshot) && NoRepeats(h.All())
    requires cfg.drain.RemoveThenNext? && cfg.period >= 0
    ensures NoRepeats(Step(cfg, h, Tick(now, born)).All())
  {
    TickShape(cfg, h, now, born);
    if h.chain.nodes != [] {
      var c, x := Extend(cfg, h.chain), Extended(cfg, h);
      ExtendedShape(cfg, h);
      ExtendContents(cfg, h, Snapshot);
      assert h.All()[|h.emitted|] == h.chain.nodes[0];
      RepeatsUpdate(h.All(), |h.emitted|, h.chain.nodes[0], h.All()[|h.All()| - 1].end, cfg.period);
      assert NoRepeats(x);
      if Fires(cfg, h.chain, now) {
        RepeatsDetach(cfg, c);
        RepeatsUpdate(x, |h.emitted|, Detach(cfg, c).out, x[|x| - 1].end, cfg.period);
      }
    }
  }

  lemma RepeatsStay(cfg: Config, h: History, e: Event)
    requires |h.chain.nodes| <= 2 && !NoRepeats(h.All())
    ensures !NoRepeats(Step(cfg, h, e).All())
  {
    StepGrows(cfg, h, e);
    var h' := Step(cfg, h, e);
    var i :| 0 <= i < |h.All()| && !DistinctIds(h.All()[i].Index(Snapshot));
    var s, s' := h.All()[i].Index(Snapshot), h'.All()[i].Index(Snapshot);
    assert Grows(h.All()[i], h'.All()[i]) && s <= s';
    var x, y :| 0 <= x < y < |s| && s[x].Id() == s[y].Id();
    assert s'[x].Id() == s'[y].Id();
  }

  /** Over whole runs of the code as it stands: no window, emitted or linked,
      repeats a snapshot id if and only if no put brought the front window a
      snapshot that its snapshot map had already, which is what looking among
      trade ids lets through. Back windows, ticks and drains never do harm. */
  lemma {:induction false} SnapshotDedupExact(cfg: Config, es: seq<Event>)
    requires cfg.period >= 0 && cfg.drain.RemoveThenNext?
    ensures NoRepeats(Run(cfg, es).All()) <==> NeverReenters(cfg, es)
  {
    if es != [] {
      var before, e := es[..|es| - 1], es[|es| - 1];
      var h := Run(cfg, before);
      SnapshotDedupExact(cfg, before);
      ContentsRun(cfg, before, Snapshot);
      if !NoRepeats(h.All()) {
        RepeatsStay(cfg, h, e);
      } else if e.PutQuote? {
        RepeatsPut(cfg, h, e.q);
      } else {
        RepeatsTick(cfg, h, e.now, e.born);
      }
    }
  }

  // ---------------------------------------------------------------------
  // The bound of two is reached.

  lemma RunOne(cfg: Config, es: seq<Event>, e: Event)
    ensures Run(cfg, es + [e]) == Step(cfg, Run(cfg, es), e)
  {
    InitOfAppend(es, e);
  }

  /** Two empty windows, the front one starting at `start`, and nothing
      pending. */
  ghost predicate Blank(cfg: Config, h: History, start: int) {
    && h.chain.nodes == [NewNode(start, cfg.period), NewNode(start + cfg.period, cfg.period)]
    && h.chain.pending == NOTHING
  }

  /** Two ticks that link the first two windows and close none. */
  function Opening(cfg: Config, born: int): seq<Event> {
    [Tick(born + cfg.period + cfg.detachTime, born), Tick(born + cfg.period + cfg.detachTime, born)]
  }

  /** A quote, and a tick just late enough to close the front window. */
  function Delivery(cfg: Config, start: int, q: Quote): seq<Event> {
    [PutQuote(q), Tick(start + cfg.period + cfg.detachTime + 1, start)]
  }

  lemma OpenBlank(cfg: Config, born: int)
    requires cfg.period > 0
    ensures Blank(cfg, Run(cfg, Opening(cfg, born)), born)
    ensures Run(cfg, Opening(cfg, born)).emitted == []
    ensures FirstBorn(Opening(cfg, born)) == Some(born)
  {
    var e := Tick(born + cfg.period + cfg.detachTime, born);
    RunOne(cfg, [], e);
    RunOne(cfg, [e], e);
    assert [] + [e] == [e] && [e] + [e] == Opening(cfg, born);
    assert FirstBorn([e]) == Some(born);
    assert Opening(cfg, born)[..1] == [e];
  }

  lemma DetachNoneWaiting(cfg: Config, c: Chain)
    requires |c.nodes| == 2 && c.pending == NOTHING
    ensures var d := Detach(cfg, c);
            && (forall k: Kind :: d.out.Index(k) == c.nodes[0].Index(k))
            && d.chain == Chain([c.nodes[1], NewNode(c.nodes[1].end, cfg.period)], NOTHING)
  {
    forall k: Kind
      ensures DrainedOf(cfg, c, k) == Drained([], []) && Detach(cfg, c).out.Index(k) == c.nodes[0].Index(k)
    {
      DetachLane(cfg, c, k);
      ConcatNothing(c.nodes[0].Index(k));
    }
    assert DrainedOf(cfg, c, Trade) == DrainedOf(cfg, c, Increment) == DrainedOf(cfg, c, Snapshot) == Drained([], []);
  }

  lemma TakeFront(cfg: Config, h: History, start: int, q: Quote)
    requires Blank(cfg, h, start) && start - cfg.period <= q.time < start + cfg.period && cfg.period > 0
    ensures var s := Step(cfg, h, PutQuote(q));
            && s.emitted == h.emitted && s.chain == Chain([h.chain.nodes[0].Store(q), h.chain.nodes[1]], NOTHING)
  {
    assert Route(cfg, h.chain, q) == InNode(0);
  }

  /** One quote that the front takes, and the tick that closes the front. */
  lemma TakeAndClose(cfg: Config, h: History, start: int, q: Quote, now: int, born: int)
    requires Blank(cfg, h, start) && start - cfg.period <= q.time < start + cfg.period && cfg.period > 0
    requires now > start + cfg.period + cfg.detachTime
    ensures var h' := Step(cfg, Step(cfg, h, PutQuote(q)), Tick(now, born));
            && Blank(cfg, h', start + cfg.period)
            && |h'.emitted| == |h.emitted| + 1 && h.emitted <= h'.emitted
            && h'.emitted[|h.emitted|].Index(q.Kind()) == [q]
  {
    var s := Step(cfg, h, PutQuote(q));
    TakeFront(cfg, h, start, q);
    StoreOwn(h.chain.nodes[0], q);
    DetachNoneWaiting(cfg, s.chain);
    TickDetaches(cfg, s, now, born);
    BlankNext(cfg, Step(cfg, s, Tick(now, born)), start, h.chain.nodes[1]);
  }

  lemma BlankNext(cfg: Config, h: History, start: int, n: Node)
    requires n == NewNode(start + cfg.period, cfg.period)
    requires h.chain == Chain([n, NewNode(n.end, cfg.period)], NOTHING)
    ensures Blank(cfg, h, start + cfg.period)
  {
  }

  lemma RunTakeAndClose(cfg: Config, es: seq<Event>, start: int, q: Quote)
    requires Blank(cfg, Run(cfg, es), start) && start - cfg.period <= q.time < start + cfg.period && cfg.period > 0
    ensures var h, h' := Run(cfg, es), Run(cfg, es + Delivery(cfg, start, q));
            && Blank(cfg, h', start + cfg.period)
            && |h'.emitted| == |h.emitted| + 1 && h.emitted <= h'.emitted
            && h'.emitted[|h.emitted|].Index(q.Kind()) == [q]
  {
    var tick := Delivery(cfg, start, q)[1];
    RunOne(cfg, es, PutQuote(q));
    RunOne(cfg, es + [PutQuote(q)], tick);
    assert es + [PutQuote(q)] + [tick] == es + Delivery(cfg, start, q);
    TakeAndClose(cfg, Run(cfg, es), start, q, tick.now, start);
  }

  lemma RunTakeTwice(cfg: Config, es: seq<Event>, start: int, q: Quote)
    requires cfg.period > 0 && q.time == start
    requires Blank(cfg, Run(cfg, es), start) && Run(cfg, es).emitted == []
    ensures var es' := es + Delivery(cfg, start, q) + Delivery(cfg, start + cfg.period, q);
            TotalHits(Run(cfg, es').emitted, q.Kind(), q.Id(), q.time) == 2
  {
    RunTakeAndClose(cfg, es, start, q);
    var once := es + Delivery(cfg, start, q);
    RunTakeAndClose(cfg, once, start + cfg.period, q);
    CountTwo(Run(cfg, once + Delivery(cfg, start + cfg.period, q)).emitted, q);
  }

  /** Twice is really reached, for every quote and all settings: delivered again
      after its window has closed, the quote is taken by the next window too. */
  lemma TwiceIsReached(cfg: Config, q: Quote) returns (es: seq<Event>)
    requires cfg.period > 0
    ensures FirstBorn(es).Some? && PeriodOf(cfg, FirstBorn(es).value, q.time) == 0
    ensures TotalHits(Run(cfg, es).emitted, q.Kind(), q.Id(), q.time) == 2
  {
    var a, b, c := Opening(cfg, q.time), Delivery(cfg, q.time, q), Delivery(cfg, q.time + cfg.period, q);
    es := a + b + c;
    OpenBlank(cfg, q.time);
    RunTakeTwice(cfg, a, q.time, q);
    FirstBornStays(a, b + c);
    assert es == a + (b + c);
  }

  lemma CountTwo(ns: seq<Node>, q: Quote)
    requires |ns| == 2 && ns[0].Index(q.Kind()) == [q] && ns[1].Index(q.Kind()) == [q]
    ensures TotalHits(ns, q.Kind(), q.Id(), q.time) == 2
  {
    assert Hits([q], q.Id(), q.time) == 1 by {
      assert [q][..0] == [];
    }
    var one := ns[..1];
    assert one[..0] == [];
    assert TotalHits(one, q.Kind(), q.Id(), q.time) == 1;
  }

  lemma {:induction false} FirstBornStays(a: seq<Event>, b: seq<Event>)
    requires FirstBorn(a).Some?
    ensures FirstBorn(a + b) == FirstBorn(a)
  {
    if b == [] {
      ConcatNothing(a);
    } else {
      FirstBornStays(a, b[..|b| - 1]);
      InitOfConcat(a, b);
    }
  }

  // ---------------------------------------------------------------------
  // Snapshots have no such bound.

  function Copies(q: Quote, n: nat): seq<Quote> {
    if n == 0 then [] else Copies(q, n - 1) + [q]
  }

  lemma {:induction false} CopiesFacts(q: Quote, n: nat)
    ensures |Copies(q, n)| == n && forall i | 0 <= i < n :: Copies(q, n)[i] == q
    ensures Hits(Copies(q, n), q.Id(), q.time) == n
  {
    if n > 0 {
      CopiesFacts(q, n - 1);
      assert Copies(q, n)[..n - 1] == Copies(q, n - 1);
    }
  }

  /** Two windows of which the front one holds copies of a snapshot, and nothing
      else. */
  ghost predicate Filled(cfg: Config, h: History, q: Quote, n: nat) {
    && |h.chain.nodes| == 2 && h.emitted == [] && h.chain.pending == NOTHING
    && h.chain.nodes[0].start == q.time && h.chain.nodes[0].end == q.time + cfg.period
    && h.chain.nodes[0].Index(Snapshot) == Copies(q, n)
    && h.chain.nodes[0].Seen(Trade) == {}
    && h.chain.nodes[1] == NewNode(q.time + cfg.period, cfg.period)
  }

  lemma FillMore(cfg: Config, h: History, q: Quote, n: nat)
    requires cfg.period > 0 && q.QuoteSnapShot? && Filled(cfg, h, q, n)
    ensures Filled(cfg, Step(cfg, h, PutQuote(q)), q, n + 1)
  {
    assert Route(cfg, h.chain, q) == InNode(0);
    var front := h.chain.nodes[0];
    StoreOwn(front, q);
    StoreOther(front, q, Trade);
    assert Step(cfg, h, PutQuote(q)).chain.nodes == h.chain.nodes[0 := front.Store(q)];
  }

  lemma {:induction false} FillFront(cfg: Config, q: Quote, n: nat) returns (es: seq<Event>)
    requires cfg.period > 0 && q.QuoteSnapShot?
    ensures Filled(cfg, Run(cfg, es), q, n)
  {
    if n == 0 {
      es := Opening(cfg, q.time);
      OpenBlank(cfg, q.time);
    } else {
      var before := FillFront(cfg, q, n - 1);
      FillMore(cfg, Run(cfg, before), q, n - 1);
      RunOne(cfg, before, PutQuote(q));
      es := before + [PutQuote(q)];
    }
  }

  /** A snapshot that is delivered `n` times to the front window is emitted `n`
      times in one window. */
  lemma SnapshotsUnbounded(cfg: Config, q: Quote, n: nat) returns (es: seq<Event>)
    requires cfg.period > 0 && q.QuoteSnapShot?
    ensures |Run(cfg, es).emitted| == 1
    ensures Hits(Run(cfg, es).emitted[0].Index(Snapshot), q.Id(), q.time) == n
  {
    var fill := FillFront(cfg, q, n);
    var tick := Tick(q.time + cfg.period + cfg.detachTime + 1, q.time);
    es := fill + [tick];
    RunOne(cfg, fill, tick);
    var h := Run(cfg, fill);
    DetachLane(cfg, h.chain, Snapshot);
    TickShape(cfg, h, tick.now, tick.born);
    CopiesFacts(q, n);
    assert Copies(q, n) + [] == Copies(q, n);
  }
}
