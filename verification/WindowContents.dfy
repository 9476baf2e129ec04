/** Where quotes end up: placement, deduplication and conservation over every
    run of puts and ticks on one symbol. */
module WindowContents {
  import opened Basics
  import opened Quotes
  import opened GoList
  import opened Windows
  import opened WindowRuns

  // ---------------------------------------------------------------------
  // Sequences of quotes

  ghost function Ids(s: seq<Quote>): set<Id> {
    set q | q in s :: q.Id()
  }

  ghost predicate DistinctIds(s: seq<Quote>) {
    forall i, j | 0 <= i < j < |s| :: s[i].Id() != s[j].Id()
  }

  ghost predicate OfKind(s: seq<Quote>, k: Kind) {
    forall q | q in s :: q.Kind() == k
  }

  ghost predicate PlacedIn(s: seq<Quote>, lo: int, hi: int) {
    forall q | q in s :: lo <= q.time < hi
  }

  lemma IdsAppend(s: seq<Quote>, q: Quote)
    ensures Ids(s + [q]) == Ids(s) + {q.Id()}
  {
    assert forall x | x in s + [q] :: x in s || x == q;
    assert forall x | x in s :: x in s + [q];
    assert q in s + [q];
  }

  lemma {:induction false} KnownFacts(s: seq<Quote>, ids: set<Id>, known: bool)
    ensures forall q :: q in Known(s, ids, known) <==> q in s && (q.Id() in ids) == known
    ensures multiset(Known(s, ids, true)) + multiset(Known(s, ids, false)) == multiset(s)
  {
    if s != [] {
      KnownFacts(s[..|s| - 1], ids, known);
      InitAndLast(s);
    }
  }

  lemma {:induction false} SelectFacts(s: seq<Quote>, lo: int, hi: int, inside: bool)
    ensures forall q :: q in Select(s, lo, hi, inside) <==> q in s && Within(q, lo, hi) == inside
    ensures multiset(Select(s, lo, hi, true)) + multiset(Select(s, lo, hi, false)) == multiset(s)
  {
    if s != [] {
      SelectFacts(s[..|s| - 1], lo, hi, inside);
      InitAndLast(s);
    }
  }

  /** Either walk only moves quotes of the window, and loses none. */
  lemma DrainFacts(d: Drain, s: seq<Quote>, lo: int, hi: int)
    ensures var r := DrainWith(d, s, lo, hi);
            && multiset(r.moved) + multiset(r.rest) == multiset(s)
            && (forall q | q in r.moved :: q in s && Within(q, lo, hi))
            && (forall q | q in r.rest :: q in s)
            && (d.RemoveThenNext? ==> |r.moved| <= 1)
  {
    match d
    case RemoveThenNext =>
      var i := FirstWithin(s, lo, hi);
      if i < |s| {
        assert s == s[..i] + [s[i]] + s[i + 1..];
      }
    case SaveNext =>
      SelectFacts(s, lo, hi, true);
      SelectFacts(s, lo, hi, false);
  }

  // ---------------------------------------------------------------------
  // Lanes

  /** What holds of one kind of data in one window. `late` is how much earlier
      than the window a quote in it may be. Snapshots are not deduplicated
      reliably, and save-next draining could add duplicates. */
  ghost predicate LaneOk(cfg: Config, n: Node, k: Kind, late: int, linked: bool) {
    && OfKind(n.Index(k), k)
    && PlacedIn(n.Index(k), n.start - late, n.end)
    && (linked ==> n.Seen(k) == Ids(n.Index(k)))
    && (k != Snapshot && (linked || cfg.drain.RemoveThenNext?) ==> DistinctIds(n.Index(k)))
  }

  /** Late quotes are admitted to the front window of two only. */
  function Lateness(cfg: Config, c: Chain, i: nat): int {
    if i == 0 && |c.nodes| == 2 then cfg.period else 0
  }

  ghost predicate ContentsOk(cfg: Config, h: History, k: Kind) {
    && |h.chain.nodes| <= 2
    && (forall i | 0 <= i < |h.emitted| :: LaneOk(cfg, h.emitted[i], k, cfg.period, false))
    && (forall i | 0 <= i < |h.chain.nodes| :: LaneOk(cfg, h.chain.nodes[i], k, Lateness(cfg, h.chain, i), true))
    && OfKind(h.chain.pending.Get(k), k)
  }

  lemma StoreOther(n: Node, q: Quote, k: Kind)
    requires q.Kind() != k
    ensures n.Store(q).lanes.Get(k) == n.lanes.Get(k)
  {
  }

  lemma StoreOwn(n: Node, q: Quote)
    ensures n.Store(q).Index(q.Kind()) == n.Index(q.Kind()) + [q]
    ensures n.Store(q).Seen(q.Kind()) == n.Seen(q.Kind()) + {q.Id()}
  {
  }

  lemma DistinctMore(s: seq<Quote>, q: Quote)
    requires DistinctIds(s) && q.Id() !in Ids(s)
    ensures DistinctIds(s + [q])
  {
    assert forall x | x in s :: x.Id() in Ids(s);
  }

  lemma StoreLane(cfg: Config, n: Node, q: Quote, k: Kind, late: int)
    requires LaneOk(cfg, n, k, late, true)
    requires q.Kind() == k ==> n.start - late <= q.time < n.end && (k != Snapshot ==> q.Id() !in n.Seen(k))
    ensures LaneOk(cfg, n.Store(q), k, late, true)
  {
    if q.Kind() == k {
      StoreOwn(n, q);
      IdsAppend(n.Index(k), q);
      if k != Snapshot {
        DistinctMore(n.Index(k), q);
      }
    } else {
      StoreOther(n, q, k);
    }
  }

  lemma PutContents(cfg: Config, h: History, q: Quote, k: Kind)
    requires ContentsOk(cfg, h, k)
    ensures ContentsOk(cfg, Step(cfg, h, PutQuote(q)), k)
  {
    var r, c := Route(cfg, h.chain, q), h.chain;
    var h' := Step(cfg, h, PutQuote(q));
    match r
    case Dropped =>
    case InNode(i) =>
      StoreLane(cfg, c.nodes[i], q, k, Lateness(cfg, c, i));
      assert h'.chain == c.(nodes := c.nodes[i := c.nodes[i].Store(q)]);
    case Parked =>
      assert h'.chain.nodes == c.nodes;
      if q.Kind() == k {
        assert h'.chain.pending.Get(k) == c.pending.Get(k) + [q];
      } else {
        assert h'.chain.pending.Get(k) == c.pending.Get(k);
      }
  }

  /** `detach`, one kind at a time. */
  lemma DetachLane(cfg: Config, c: Chain, k: Kind)
    requires |c.nodes| == 2
    ensures var d, r, pn := Detach(cfg, c), DrainedOf(cfg, c, k), c.nodes[0];
            && d.out.start == pn.start && d.out.end == pn.end
            && d.out.Index(k) == pn.Index(k) + Known(r.moved, pn.Seen(k), false)
            && d.chain.nodes == [c.nodes[1], NewNode(c.nodes[1].end, cfg.period)]
            && d.chain.pending.Get(k) == r.rest
            && d.discarded.Get(k) == Known(r.moved, pn.Seen(k), true)
  {
  }

  lemma NewLane(cfg: Config, start: int, k: Kind, late: int)
    ensures LaneOk(cfg, NewNode(start, cfg.period), k, late, true)
  {
  }

  lemma DistinctConcat(a: seq<Quote>, b: seq<Quote>)
    requires forall x, y | x in a && y in b :: x.Id() != y.Id()
    ensures DistinctIds(a + b) <==> DistinctIds(a) && DistinctIds(b)
  {
    var c := a + b;
    assert forall i | 0 <= i < |a| :: c[i] == a[i];
    assert forall j | 0 <= j < |b| :: c[|a| + j] == b[j];
    if DistinctIds(c) {
      forall i, j | 0 <= i < j < |b| ensures b[i].Id() != b[j].Id() {
        assert c[|a| + i].Id() != c[|a| + j].Id();
      }
    }
  }

  /** What the loop as it stands adds to an index is one new id at most. */
  lemma AbsorbFirst(s: seq<Quote>, moved: seq<Quote>, seen: set<Id>)
    requires |moved| <= 1 && seen == Ids(s) && DistinctIds(s)
    ensures DistinctIds(s + Known(moved, seen, false))
  {
    var added := Known(moved, seen, false);
    KnownFacts(moved, seen, false);
    assert |added| <= 1 by {
      assert moved != [] ==> Known(moved[..0], seen, false) == [];
    }
    assert forall x | x in s :: x.Id() in Ids(s);
    DistinctConcat(s, added);
  }

  lemma DetachedLane(cfg: Config, c: Chain, k: Kind)
    requires |c.nodes| == 2 && LaneOk(cfg, c.nodes[0], k, cfg.period, true) && cfg.period >= 0
    requires OfKind(c.pending.Get(k), k)
    ensures LaneOk(cfg, Detach(cfg, c).out, k, cfg.period, false)
    ensures OfKind(Detach(cfg, c).chain.pending.Get(k), k)
  {
    DetachLane(cfg, c, k);
    var pn, r := c.nodes[0], DrainedOf(cfg, c, k);
    DrainFacts(cfg.drain, c.pending.Get(k), pn.start, pn.end);
    KnownFacts(r.moved, pn.Seen(k), false);
    if cfg.drain.RemoveThenNext? && k != Snapshot {
      AbsorbFirst(pn.Index(k), r.moved, pn.Seen(k));
    }
  }

  /** The two windows that are linked once `timeItr` has seen to it. */
  lemma ExtendContents(cfg: Config, h: History, k: Kind)
    requires ContentsOk(cfg, h, k) && h.chain.nodes != [] && cfg.period >= 0
    ensures var c := Extend(cfg, h.chain);
            && |c.nodes| == 2 && c.pending == h.chain.pending
            && LaneOk(cfg, c.nodes[0], k, cfg.period, true) && LaneOk(cfg, c.nodes[1], k, 0, true)
  {
    NewLane(cfg, h.chain.nodes[0].end, k, 0);
    assert LaneOk(cfg, h.chain.nodes[0], k, Lateness(cfg, h.chain, 0), true);
  }

  lemma FiringContents(cfg: Config, h: History, now: int, born: int, k: Kind)
    requires ContentsOk(cfg, h, k) && cfg.period >= 0 && Fires(cfg, h.chain, now)
    ensures ContentsOk(cfg, Step(cfg, h, Tick(now, born)), k)
  {
    var c := Extend(cfg, h.chain);
    var d := Detach(cfg, c);
    ExtendContents(cfg, h, k);
    DetachLane(cfg, c, k);
    DetachedLane(cfg, c, k);
    NewLane(cfg, c.nodes[1].end, k, 0);
    WiderLane(cfg, c.nodes[1], k);
    var h' := Step(cfg, h, Tick(now, born));
    assert h'.chain == d.chain && h'.emitted == h.emitted + [d.out];
  }

  lemma WiderLane(cfg: Config, n: Node, k: Kind)
    requires LaneOk(cfg, n, k, 0, true) && cfg.period >= 0
    ensures LaneOk(cfg, n, k, cfg.period, true)
  {
  }

  lemma TickContents(cfg: Config, h: History, now: int, born: int, k: Kind)
    requires ContentsOk(cfg, h, k) && cfg.period >= 0
    ensures ContentsOk(cfg, Step(cfg, h, Tick(now, born)), k)
  {
    if h.chain.nodes == [] {
      NewLane(cfg, born, k, 0);
    } else if Fires(cfg, h.chain, now) {
      FiringContents(cfg, h, now, born, k);
    } else {
      ExtendContents(cfg, h, k);
      var h' := Step(cfg, h, Tick(now, born));
      assert h'.chain == Extend(cfg, h.chain) && h'.emitted == h.emitted;
    }
  }

  lemma {:induction false} ContentsRun(cfg: Config, es: seq<Event>, k: Kind)
    requires cfg.period >= 0
    ensures ContentsOk(cfg, Run(cfg, es), k)
  {
    if es != [] {
      var h := Run(cfg, es[..|es| - 1]);
      ContentsRun(cfg, es[..|es| - 1], k);
      match es[|es| - 1]
      case PutQuote(q) => PutContents(cfg, h, q, k);
      case Tick(now, born) => TickContents(cfg, h, now, born, k);
    }
  }

  /** Map and index agree in every linked window, for all three kinds; trades
      and increments carry no id twice there, and, with the drain loop as it
      stands, not in an emitted window either, although the drain never enters
      what it moves into the map. */
  lemma MapAndIndexAgree(cfg: Config, es: seq<Event>, k: Kind)
    requires cfg.period >= 0
    ensures var h := Run(cfg, es);
            && (forall n | n in h.chain.nodes ::
                  n.Seen(k) == Ids(n.Index(k)) && (k != Snapshot ==> DistinctIds(n.Index(k))))
            && (forall n | n in h.emitted ::
                  k != Snapshot && cfg.drain.RemoveThenNext? ==> DistinctIds(n.Index(k)))
  {
    ContentsRun(cfg, es, k);
  }

  /** Two increments of one emitted window never share a time: their ids are
      the times. */
  lemma IncrementTimesDistinct(cfg: Config, es: seq<Event>, n: Node, i: nat, j: nat)
    requires cfg.period >= 0 && cfg.drain.RemoveThenNext?
    requires n in Run(cfg, es).emitted && i < j < |n.Index(Increment)|
    ensures n.Index(Increment)[i].time != n.Index(Increment)[j].time
  {
    ContentsRun(cfg, es, Increment);
    var s := n.Index(Increment);
    assert s[i] in s && s[j] in s;
  }

  /** Nor do two trades of one emitted window share a trade id. */
  lemma TradeIdsDistinct(cfg: Config, es: seq<Event>, n: Node, i: nat, j: nat)
    requires cfg.period >= 0 && cfg.drain.RemoveThenNext?
    requires n in Run(cfg, es).emitted && i < j < |n.Index(Trade)|
    ensures n.Index(Trade)[i].QuoteTrade? && n.Index(Trade)[j].QuoteTrade?
    ensures n.Index(Trade)[i].tradeId != n.Index(Trade)[j].tradeId
  {
    ContentsRun(cfg, es, Trade);
    var s := n.Index(Trade);
    assert s[i] in s && s[j] in s;
    assert s[i].Kind() == Trade && s[j].Kind() == Trade;
    KeyByFields(s[i], s[j]);
  }

  /** Placement: emitted windows hold quotes of their own and of the previous
      period only, never later ones; the back window holds its own only. So no
      quote is emitted in a window earlier than its own. */
  lemma Placement(cfg: Config, es: seq<Event>, k: Kind)
    requires cfg.period >= 0
    ensures var h := Run(cfg, es);
            && (forall n | n in h.emitted :: PlacedIn(n.Index(k), n.start - cfg.period, n.end))
            && (forall n | n in h.chain.nodes :: PlacedIn(n.Index(k), n.start - cfg.period, n.end))
            && (h.chain.nodes != [] ==>
                  var back := h.chain.nodes[|h.chain.nodes| - 1];
                  PlacedIn(back.Index(k), back.start, back.end))
  {
    ContentsRun(cfg, es, k);
  }

  // ---------------------------------------------------------------------
  // Conservation

  /** The quotes of kind `k` in a sequence of windows. */
  ghost function Held(ns: seq<Node>, k: Kind): multiset<Quote> {
    if ns == [] then multiset{} else Held(ns[..|ns| - 1], k) + multiset(ns[|ns| - 1].Index(k))
  }

  lemma {:induction false} HeldConcat(a: seq<Node>, b: seq<Node>, k: Kind)
    ensures Held(a + b, k) == Held(a, k) + Held(b, k)
  {
    if b == [] {
      ConcatNothing(a);
    } else {
      HeldConcat(a, b[..|b| - 1], k);
      InitOfConcat(a, b);
    }
  }

  lemma HeldOne(n: Node, k: Kind)
    ensures Held([n], k) == multiset(n.Index(k))
  {
    assert [n][..0] == [];
  }

  lemma {:induction false} HeldUpdate(a: seq<Node>, i: nat, n: Node, k: Kind)
    requires i < |a|
    ensures Held(a[i := n], k) + multiset(a[i].Index(k)) == Held(a, k) + multiset(n.Index(k))
  {
    assert a == a[..i] + [a[i]] + a[i + 1..];
    assert a[i := n] == a[..i] + [n] + a[i + 1..];
    HeldConcat(a[..i] + [a[i]], a[i + 1..], k);
    HeldConcat(a[..i] + [n], a[i + 1..], k);
    HeldConcat(a[..i], [a[i]], k);
    HeldConcat(a[..i], [n], k);
    HeldOne(a[i], k);
    HeldOne(n, k);
  }

  lemma HeldNew(a: seq<Node>, start: int, period: int, k: Kind)
    ensures Held(a + [NewNode(start, period)], k) == Held(a, k)
  {
    HeldConcat(a, [NewNode(start, period)], k);
    HeldOne(NewNode(start, period), k);
  }

  ghost predicate Conserved(h: History, k: Kind) {
    h.accepted.Get(k) == Held(h.All(), k) + multiset(h.chain.pending.Get(k)) + h.discarded.Get(k)
  }

  function One(q: Quote, here: bool): multiset<Quote> {
    if here then multiset{q} else multiset{}
  }

  /** What a put does to the books of one kind. */
  lemma PutBooks(cfg: Config, h: History, q: Quote, k: Kind)
    requires |h.chain.nodes| <= 2
    ensures var h', r := Step(cfg, h, PutQuote(q)), Route(cfg, h.chain, q);
            && h'.accepted.Get(k) == h.accepted.Get(k) + One(q, !r.Dropped? && q.Kind() == k)
            && multiset(h'.chain.pending.Get(k))
               == multiset(h.chain.pending.Get(k)) + One(q, r.Parked? && q.Kind() == k)
            && h'.discarded == h.discarded
  {
  }

  lemma StoreHeld(n: Node, q: Quote, k: Kind)
    ensures multiset(n.Store(q).Index(k)) == multiset(n.Index(k)) + One(q, q.Kind() == k)
  {
  }

  lemma Cancel(a: multiset<Quote>, b: multiset<Quote>, m: multiset<Quote>, o: multiset<Quote>)
    requires a + m == b + (m + o)
    ensures a == b + o
  {
    forall q ensures a[q] == b[q] + o[q] {
      assert (a + m)[q] == (b + (m + o))[q];
    }
  }

  lemma HeldStore(a: seq<Node>, i: nat, q: Quote, k: Kind)
    requires i < |a|
    ensures Held(a[i := a[i].Store(q)], k) == Held(a, k) + One(q, q.Kind() == k)
  {
    StoreHeld(a[i], q, k);
    HeldUpdate(a, i, a[i].Store(q), k);
    Cancel(Held(a[i := a[i].Store(q)], k), Held(a, k), multiset(a[i].Index(k)), One(q, q.Kind() == k));
  }

  lemma NoneHere(m: multiset<Quote>, q: Quote)
    ensures m + One(q, false) == m
  {
  }

  lemma PutHeld(cfg: Config, h: History, q: Quote, k: Kind)
    requires |h.chain.nodes| <= 2
    ensures Held(Step(cfg, h, PutQuote(q)).All(), k)
         == Held(h.All(), k) + One(q, Route(cfg, h.chain, q).InNode? && q.Kind() == k)
  {
    PutShape(cfg, h, q);
    var r, all := Route(cfg, h.chain, q), h.All();
    if r.InNode? {
      var at := |h.emitted| + r.at;
      assert all[at] == h.chain.nodes[r.at];
      assert Step(cfg, h, PutQuote(q)).All() == all[at := all[at].Store(q)];
      HeldStore(all, at, q, k);
    } else {
      assert Step(cfg, h, PutQuote(q)).All() == all;
      NoneHere(Held(all, k), q);
    }
  }

  lemma PutConserves(cfg: Config, h: History, q: Quote, k: Kind)
    requires |h.chain.nodes| <= 2 && Conserved(h, k)
    ensures Conserved(Step(cfg, h, PutQuote(q)), k)
  {
    PutBooks(cfg, h, q, k);
    PutHeld(cfg, h, q, k);
  }

  /** What a tick does to the books of one kind. */
  lemma TickBooks(cfg: Config, h: History, now: int, born: int, k: Kind)
    requires |h.chain.nodes| <= 2
    ensures var h' := Step(cfg, h, Tick(now, born));
            && h'.accepted == h.accepted
            && (Fires(cfg, h.chain, now) ==>
                  var d := Detach(cfg, Extend(cfg, h.chain));
                  && h'.chain.pending == d.chain.pending
                  && h'.discarded.Get(k) == h.discarded.Get(k) + multiset(d.discarded.Get(k)))
            && (!Fires(cfg, h.chain, now) ==>
                  h'.chain.pending == h.chain.pending && h'.discarded.Get(k) == h.discarded.Get(k))
  {
    if !Fires(cfg, h.chain, now) {
      var h' := Step(cfg, h, Tick(now, born));
      assert h'.discarded == Discard(h.discarded, NOTHING);
      assert h.discarded.Get(k) + multiset([]) == h.discarded.Get(k);
    }
  }

  lemma FiringConserves(cfg: Config, h: History, k: Kind)
    requires 1 <= |h.chain.nodes| <= 2
    ensures var x, c := Extended(cfg, h), Extend(cfg, h.chain);
            var d := Detach(cfg, c);
            Held(x[|h.emitted| := d.out] + [NewNode(x[|x| - 1].end, cfg.period)], k)
              + multiset(d.chain.pending.Get(k)) + multiset(d.discarded.Get(k))
            == Held(x, k) + multiset(c.pending.Get(k))
  {
    var x, c := Extended(cfg, h), Extend(cfg, h.chain);
    var d, r, pn := Detach(cfg, c), DrainedOf(cfg, c, k), c.nodes[0];
    assert x[|h.emitted|] == pn;
    DetachLane(cfg, c, k);
    DrainFacts(cfg.drain, c.pending.Get(k), pn.start, pn.end);
    KnownFacts(r.moved, pn.Seen(k), true);
    HeldUpdate(x, |h.emitted|, d.out, k);
    HeldNew(x[|h.emitted| := d.out], x[|x| - 1].end, cfg.period, k);
    Balance(Held(x[|h.emitted| := d.out], k), Held(x, k), multiset(pn.Index(k)),
            multiset(Known(r.moved, pn.Seen(k), false)), multiset(d.discarded.Get(k)), multiset(r.rest));
  }

  lemma Balance(after: multiset<Quote>, before: multiset<Quote>, index: multiset<Quote>,
                added: multiset<Quote>, thrown: multiset<Quote>, rest: multiset<Quote>)
    requires after + index == before + (index + added)
    ensures after + rest + thrown == before + ((added + thrown) + rest)
  {
    Cancel(after, before, index, added);
  }

  lemma TickConserves(cfg: Config, h: History, now: int, born: int, k: Kind)
    requires |h.chain.nodes| <= 2 && Conserved(h, k)
    ensures Conserved(Step(cfg, h, Tick(now, born)), k)
  {
    TickShape(cfg, h, now, born);
    TickBooks(cfg, h, now, born, k);
    if h.chain.nodes == [] {
      HeldNew(h.All(), born, cfg.period, k);
    } else {
      ExtendedShape(cfg, h);
      HeldNew(h.All(), h.All()[|h.All()| - 1].end, cfg.period, k);
      assert Held(Extended(cfg, h), k) == Held(h.All(), k);
      if Fires(cfg, h.chain, now) {
        FiringConserves(cfg, h, k);
      }
    }
  }

  /** Conservation: at every moment of every run, the quotes of a kind that
      were accepted are, with multiplicity, those in emitted windows, in linked
      windows and pending, plus those a drain threw away as duplicates. */
  lemma Conservation(cfg: Config, es: seq<Event>, k: Kind)
    ensures var h := Run(cfg, es);
            h.accepted.Get(k) == Held(h.emitted, k) + Held(h.chain.nodes, k)
                                 + multiset(h.chain.pending.Get(k)) + h.discarded.Get(k)
  {
    ConservedRun(cfg, es, k);
    HeldConcat(Run(cfg, es).emitted, Run(cfg, es).chain.nodes, k);
  }

  lemma {:induction false} ConservedRun(cfg: Config, es: seq<Event>, k: Kind)
    ensures Conserved(Run(cfg, es), k)
  {
    if es != [] {
      var h := Run(cfg, es[..|es| - 1]);
      ConservedRun(cfg, es[..|es| - 1], k);
      match es[|es| - 1]
      case PutQuote(q) => PutConserves(cfg, h, q, k);
      case Tick(now, born) => TickConserves(cfg, h, now, born, k);
    }
  }

  lemma DiscardTwin(cfg: Config, c: Chain, k: Kind, q: Quote)
    requires |c.nodes| == 2 && c.nodes[0].Seen(k) == Ids(c.nodes[0].Index(k))
    requires q in Detach(cfg, c).discarded.Get(k)
    ensures var out := Detach(cfg, c).out;
            q.Id() in Ids(out.Index(k)) && out.start <= q.time < out.end
  {
    var pn, r := c.nodes[0], DrainedOf(cfg, c, k);
    DetachLane(cfg, c, k);
    DrainFacts(cfg.drain, c.pending.Get(k), pn.start, pn.end);
    KnownFacts(r.moved, pn.Seen(k), true);
    assert forall x | x in pn.Index(k) :: x in Detach(cfg, c).out.Index(k);
  }

  /** What a drain throws away is no loss: the emitted window it was drained
      for already has a quote with the same id. */
  lemma {:induction false} DiscardedHasTwin(cfg: Config, es: seq<Event>, k: Kind, q: Quote) returns (i: nat)
    requires cfg.period >= 0
    requires q in Run(cfg, es).discarded.Get(k)
    ensures var ns := Run(cfg, es).emitted;
            i < |ns| && q.Id() in Ids(ns[i].Index(k)) && ns[i].start <= q.time < ns[i].end
  {
    var h, e := Run(cfg, es[..|es| - 1]), es[|es| - 1];
    if q in h.discarded.Get(k) {
      i := DiscardedHasTwin(cfg, es[..|es| - 1], k, q);
      StepGrows(cfg, h, e);
    } else {
      assert e.Tick?;
      ContentsRun(cfg, es[..|es| - 1], k);
      TickBooks(cfg, h, e.now, e.born, k);
      TickShape(cfg, h, e.now, e.born);
      assert LaneOk(cfg, h.chain.nodes[0], k, Lateness(cfg, h.chain, 0), true);
      DiscardTwin(cfg, Extend(cfg, h.chain), k, q);
      i := |h.emitted|;
    }
  }
}
