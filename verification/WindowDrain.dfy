/** What the two ways of walking a pending list achieve, in one detach and over
    whole runs. */
module WindowDrain {
  import opened Basics
  import opened Quotes
  import opened GoList
  import opened Windows
  import opened WindowRuns
  import opened WindowContents
  import opened WindowEmission

  // ---------------------------------------------------------------------
  // One walk

  lemma {:induction false} SelectConcat(a: seq<Quote>, b: seq<Quote>, lo: int, hi: int, inside: bool)
    ensures Select(a + b, lo, hi, inside) == Select(a, lo, hi, inside) + Select(b, lo, hi, inside)
  {
    if b == [] {
      ConcatNothing(a);
    } else {
      SelectConcat(a, b[..|b| - 1], lo, hi, inside);
      InitOfConcat(a, b);
    }
  }

  lemma {:induction false} SelectUniform(s: seq<Quote>, lo: int, hi: int, all: bool)
    requires forall q | q in s :: Within(q, lo, hi) == all
    ensures Select(s, lo, hi, all) == s && Select(s, lo, hi, !all) == []
  {
    if s != [] {
      SelectUniform(s[..|s| - 1], lo, hi, all);
      InitAndLast(s);
    }
  }

  lemma SelectAround(a: seq<Quote>, x: Quote, b: seq<Quote>, lo: int, hi: int, inside: bool)
    requires Within(x, lo, hi) && forall q | q in a :: !Within(q, lo, hi)
    ensures Select(a + ([x] + b), lo, hi, inside) == (if inside then [x] else a) + Select(b, lo, hi, inside)
    ensures Select(a + b, lo, hi, inside) == (if inside then [] else a) + Select(b, lo, hi, inside)
  {
    SelectUniform(a, lo, hi, false);
    SelectConcat(a, b, lo, hi, inside);
    SelectUniform([x], lo, hi, true);
    SelectConcat([x], b, lo, hi, inside);
    SelectConcat(a, [x] + b, lo, hi, inside);
  }

  /** Around the first quote of the window. */
  lemma SplitAtFirst(s: seq<Quote>, lo: int, hi: int)
    ensures var i := FirstWithin(s, lo, hi);
            && (i == |s| ==> Select(s, lo, hi, true) == [] && Select(s, lo, hi, false) == s)
            && (i < |s| ==>
                  && Select(s, lo, hi, true) == [s[i]] + Select(s[i + 1..], lo, hi, true)
                  && Select(s, lo, hi, false) == s[..i] + Select(s[i + 1..], lo, hi, false)
                  && Select(s[..i] + s[i + 1..], lo, hi, true) == Select(s[i + 1..], lo, hi, true))
  {
    var i := FirstWithin(s, lo, hi);
    if i == |s| {
      SelectUniform(s, lo, hi, false);
    } else {
      var a, b := s[..i], s[i + 1..];
      assert s == a + ([s[i]] + b);
      SelectAround(a, s[i], b, lo, hi, true);
      SelectAround(a, s[i], b, lo, hi, false);
    }
  }

  /** The pending quotes of the window that is about to be detached. */
  function Due(s: seq<Quote>, lo: int, hi: int): seq<Quote> {
    Select(s, lo, hi, true)
  }

  /** The walk leaves no quote of the window behind if and only if it fetches
      the successor before removing, or at most one quote was due. */
  lemma DrainLeavesNone(d: Drain, s: seq<Quote>, lo: int, hi: int)
    ensures (forall q | q in DrainWith(d, s, lo, hi).rest :: !Within(q, lo, hi))
            <==> d.SaveNext? || |Due(s, lo, hi)| <= 1
  {
    var r := DrainWith(d, s, lo, hi).rest;
    SelectFacts(r, lo, hi, true);
    match d
    case SaveNext => SelectFacts(s, lo, hi, false);
    case RemoveThenNext =>
      SplitAtFirst(s, lo, hi);
      SelectFacts(s, lo, hi, true);
      assert |Due(s, lo, hi)| <= 1 <==> Select(r, lo, hi, true) == [];
      if Select(r, lo, hi, true) != [] {
        assert Select(r, lo, hi, true)[0] in Select(r, lo, hi, true);
      }
  }

  lemma NoneDue(s: seq<Quote>, lo: int, hi: int)
    ensures Due(s, lo, hi) == [] <==> Select(s, lo, hi, false) == s
  {
    SelectFacts(s, lo, hi, true);
    SelectFacts(s, lo, hi, false);
    if Due(s, lo, hi) == [] {
      assert forall q | q in s && Within(q, lo, hi) :: q in Due(s, lo, hi);
      SelectUniform(s, lo, hi, false);
    } else {
      assert Due(s, lo, hi)[0] in Due(s, lo, hi);
    }
  }

  /** The loop as it stands takes the first quote due and no other; so it does
      what the save-next loop does exactly when at most one quote is due. */
  lemma WalksAgree(s: seq<Quote>, lo: int, hi: int)
    ensures var due, taken := Due(s, lo, hi), DrainFirst(s, lo, hi).moved;
            taken == due[..if due == [] then 0 else 1]
    ensures DrainFirst(s, lo, hi) == DrainAll(s, lo, hi) <==> |Due(s, lo, hi)| <= 1
  {
    SplitAtFirst(s, lo, hi);
    var i := FirstWithin(s, lo, hi);
    if i < |s| {
      NoneDue(s[i + 1..], lo, hi);
    }
  }

  /** What the drained window would hold under either walk: its index stays
      free of repeated ids if and only if the moved quotes that are new to the
      map differ in id among themselves. With one moved quote that is always so;
      a save-next walk can break it, as nothing deduplicates pending lists. */
  lemma AbsorbDistinct(lane: Lane, moved: seq<Quote>)
    requires lane.seen.Keys == Ids(lane.index) && DistinctIds(lane.index)
    ensures DistinctIds(Absorb(lane, moved).index) <==> DistinctIds(Known(moved, lane.seen.Keys, false))
  {
    KnownFacts(moved, lane.seen.Keys, false);
    assert forall x | x in lane.index :: x.Id() in Ids(lane.index);
    DistinctConcat(lane.index, Known(moved, lane.seen.Keys, false));
  }

  // ---------------------------------------------------------------------
  // Runs: quotes left behind

  /** No pending quote is older than the front window. */
  ghost predicate NoneStale(h: History, k: Kind) {
    h.chain.nodes != [] ==> forall q | q in h.chain.pending.Get(k) :: q.time >= h.chain.nodes[0].start
  }

  /** The event detaches a window for which the loop as it stands finds two or
      more pending quotes. */
  ghost predicate Overfull(cfg: Config, h: History, e: Event, k: Kind) {
    && cfg.drain.RemoveThenNext?
    && e.Tick? && Fires(cfg, h.chain, e.now)
    && |Due(h.chain.pending.Get(k), h.chain.nodes[0].start, h.chain.nodes[0].end)| >= 2
  }

  lemma FrontMoves(cfg: Config, h: History, e: Event)
    requires Tiled(cfg, h) && h.chain.nodes != []
    ensures var h' := Step(cfg, h, e);
            && h'.chain.nodes != []
            && h'.chain.nodes[0].start
               == if e.Tick? && Fires(cfg, h.chain, e.now) then h.chain.nodes[0].end else h.chain.nodes[0].start
    ensures h.chain.nodes[0].end == h.chain.nodes[0].start + cfg.period
    ensures |h.chain.nodes| == 2 ==> h.chain.nodes[1].start == h.chain.nodes[0].end
    ensures |h.chain.nodes| == 2 ==> h.chain.nodes[1].end == h.chain.nodes[1].start + cfg.period
  {
    assert h.All()[|h.emitted|] == h.chain.nodes[0];
    if |h.chain.nodes| == 2 {
      assert h.All()[|h.emitted| + 1] == h.chain.nodes[1];
    }
  }

  lemma PendingAfter(cfg: Config, h: History, e: Event, k: Kind)
    requires Tiled(cfg, h) && h.chain.nodes != []
    ensures var h', s := Step(cfg, h, e), h.chain.pending.Get(k);
            h'.chain.pending.Get(k) ==
            if e.PutQuote? then
              (if Route(cfg, h.chain, e.q).Parked? && e.q.Kind() == k then s + [e.q] else s)
            else if Fires(cfg, h.chain, e.now) then
              DrainWith(cfg.drain, s, h.chain.nodes[0].start, h.chain.nodes[0].end).rest
            else s
  {
    if e.Tick? {
      TickBooks(cfg, h, e.now, e.born, k);
      if Fires(cfg, h.chain, e.now) {
        DetachLane(cfg, Extend(cfg, h.chain), k);
      }
    }
  }

  /** One event keeps a chain free of stale quotes exactly unless it is an
      overfull detach. */
  lemma StaleStep(cfg: Config, h: History, e: Event, k: Kind)
    requires cfg.period > 0 && Tiled(cfg, h) && NoneStale(h, k)
    ensures NoneStale(Step(cfg, h, e), k) <==> !Overfull(cfg, h, e, k)
  {
    if h.chain.nodes == [] {
      assert Step(cfg, h, e).chain.pending == NOTHING;
    } else {
      var s, lo, hi := h.chain.pending.Get(k), h.chain.nodes[0].start, h.chain.nodes[0].end;
      FrontMoves(cfg, h, e);
      PendingAfter(cfg, h, e, k);
      if e.Tick? && Fires(cfg, h.chain, e.now) {
        DrainFacts(cfg.drain, s, lo, hi);
        DrainLeavesNone(cfg.drain, s, lo, hi);
      }
    }
  }

  lemma StaleStays(cfg: Config, h: History, e: Event, k: Kind, q: Quote)
    requires cfg.period > 0 && Tiled(cfg, h)
    requires h.chain.nodes != [] && q.time < h.chain.nodes[0].start
    ensures var h' := Step(cfg, h, e);
            && h'.chain.nodes != [] && q.time < h'.chain.nodes[0].start
            && multiset(h'.chain.pending.Get(k))[q] == multiset(h.chain.pending.Get(k))[q]
  {
    FrontMoves(cfg, h, e);
    PendingAfter(cfg, h, e, k);
    if e.Tick? {
      var s, lo, hi := h.chain.pending.Get(k), h.chain.nodes[0].start, h.chain.nodes[0].end;
      DrainFacts(cfg.drain, s, lo, hi);
      var r := DrainWith(cfg.drain, s, lo, hi);
      assert multiset(s)[q] == (multiset(r.moved) + multiset(r.rest))[q];
      assert q !in r.moved;
    }
  }

  /** A quote older than the front window stays pending for good: whatever
      follows, the number of its pending copies never changes again. */
  lemma {:induction false} StaleForever(cfg: Config, h: History, es: seq<Event>, k: Kind, q: Quote)
    requires cfg.period > 0 && Tiled(cfg, h)
    requires h.chain.nodes != [] && q.time < h.chain.nodes[0].start
    ensures var h' := RunFrom(cfg, h, es);
            && Tiled(cfg, h')
            && h'.chain.nodes != [] && q.time < h'.chain.nodes[0].start
            && multiset(h'.chain.pending.Get(k))[q] == multiset(h.chain.pending.Get(k))[q]
  {
    if es != [] {
      var m, e := RunFrom(cfg, h, es[..|es| - 1]), es[|es| - 1];
      StaleForever(cfg, h, es[..|es| - 1], k, q);
      StaleStays(cfg, m, e, k, q);
      TiledStep(cfg, m, e);
    }
  }

  /** No detach of the run was overfull. */
  ghost predicate NeverOverfull(cfg: Config, es: seq<Event>, k: Kind) {
    es == [] ||
    (NeverOverfull(cfg, es[..|es| - 1], k) && !Overfull(cfg, Run(cfg, es[..|es| - 1]), es[|es| - 1], k))
  }

  /** Over whole runs: no pending quote has been left behind if and only if no
      detach so far was overfull. In particular the save-next loop never leaves
      one behind. */
  lemma {:induction false} StaleExactly(cfg: Config, es: seq<Event>, k: Kind)
    requires cfg.period > 0
    ensures NoneStale(Run(cfg, es), k) <==> NeverOverfull(cfg, es, k)
    ensures cfg.drain.SaveNext? ==> NoneStale(Run(cfg, es), k)
  {
    if es != [] {
      var before, e := es[..|es| - 1], es[|es| - 1];
      var h := Run(cfg, before);
      StaleExactly(cfg, before, k);
      TiledRun(cfg, before);
      if NoneStale(h, k) {
        StaleStep(cfg, h, e, k);
      } else {
        var q :| q in h.chain.pending.Get(k) && q.time < h.chain.nodes[0].start;
        StaleStays(cfg, h, e, k, q);
        assert multiset(Run(cfg, es).chain.pending.Get(k))[q] > 0;
      }
    }
  }

  // ---------------------------------------------------------------------
  // Fetching the successor first is not enough

  /** Pending lists are not deduplicated: a quote that waits, delivered again,
      waits twice. */
  lemma ParksTwice(cfg: Config, c: Chain, q: Quote)
    requires Route(cfg, c, q).Parked?
    ensures var c' := Put(cfg, Put(cfg, c, q), q);
            c'.nodes == c.nodes && c'.pending.Get(q.Kind()) == c.pending.Get(q.Kind()) + [q, q]
  {
    assert Put(cfg, c, q).nodes == c.nodes;
  }

  /** How many of `n` waiting copies of one quote a drain moves. */
  function MovedOf(d: Drain, n: nat): nat {
    if d.SaveNext? || n == 0 then n else 1
  }

  lemma CopiesFirst(q: Quote, n: nat, lo: int, hi: int)
    requires n > 0 && Within(q, lo, hi)
    ensures DrainFirst(Copies(q, n), lo, hi) == Drained([q], Copies(q, n - 1))
  {
    var s := Copies(q, n);
    CopiesFacts(q, n);
    CopiesFacts(q, n - 1);
    assert FirstWithin(s, lo, hi) == 0;
    assert s[..0] + s[1..] == Copies(q, n - 1);
  }

  lemma CopiesNotDue(d: Drain, q: Quote, n: nat, lo: int, hi: int)
    requires !Within(q, lo, hi)
    ensures DrainWith(d, Copies(q, n), lo, hi) == Drained([], Copies(q, n))
  {
    CopiesFacts(q, n);
    SelectUniform(Copies(q, n), lo, hi, false);
  }

  lemma CopiesAll(q: Quote, n: nat, lo: int, hi: int)
    requires Within(q, lo, hi)
    ensures DrainAll(Copies(q, n), lo, hi) == Drained(Copies(q, n), [])
  {
    CopiesFacts(q, n);
    SelectUniform(Copies(q, n), lo, hi, true);
  }

  lemma OneCopy(q: Quote)
    ensures Copies(q, 0) == [] && Copies(q, 1) == [q]
  {
    assert Copies(q, 0) == [];
  }

  /** A drain moves the first of the waiting copies, or all, or none if they
      are not due. */
  lemma DrainCopies(d: Drain, q: Quote, n: nat, lo: int, hi: int) returns (m: nat)
    ensures m == if Within(q, lo, hi) then MovedOf(d, n) else 0
    ensures m <= n && DrainWith(d, Copies(q, n), lo, hi) == Drained(Copies(q, m), Copies(q, n - m))
  {
    OneCopy(q);
    if !Within(q, lo, hi) {
      m := 0;
      CopiesNotDue(d, q, n, lo, hi);
    } else if d.SaveNext? {
      m := n;
      CopiesAll(q, n, lo, hi);
    } else if n == 0 {
      m := 0;
    } else {
      m := 1;
      CopiesFirst(q, n, lo, hi);
    }
  }

  lemma {:induction false} NoneKnown(s: seq<Quote>)
    ensures Known(s, {}, false) == s
  {
    if s != [] {
      NoneKnown(s[..|s| - 1]);
      InitAndLast(s);
    }
  }

  ghost predicate TwoEmpty(cfg: Config, c: Chain, start: int) {
    && |c.nodes| == 2 && c.nodes[0] == NewNode(start, cfg.period)
    && c.nodes[1] == NewNode(start + cfg.period, cfg.period)
  }

  /** Two empty windows, and quotes `s` of kind `k` waiting. */
  ghost predicate Queued(cfg: Config, h: History, start: int, k: Kind, s: seq<Quote>) {
    TwoEmpty(cfg, h.chain, start) && h.chain.pending == NOTHING.Set(k, s)
  }

  lemma {:induction false} QueueUp(cfg: Config, start: int, q: Quote, n: nat) returns (es: seq<Event>)
    requires cfg.period > 0 && q.time == start + 2 * cfg.period
    ensures Queued(cfg, Run(cfg, es), start, q.Kind(), Copies(q, n))
  {
    if n == 0 {
      es := Opening(cfg, start);
      OpenBlank(cfg, start);
    } else {
      es := QueueUp(cfg, start, q, n - 1);
      assert Route(cfg, Run(cfg, es).chain, q) == Parked;
      RunOne(cfg, es, PutQuote(q));
      es := es + [PutQuote(q)];
    }
  }

  /** Lists with nothing in them stay so. */
  lemma OthersEmpty(cfg: Config, c: Chain, k: Kind)
    requires |c.nodes| == 2 && c.pending == NOTHING.Set(k, c.pending.Get(k))
    ensures Detach(cfg, c).chain.pending == NOTHING.Set(k, DrainedOf(cfg, c, k).rest)
  {
  }

  lemma NewIsEmpty(start: int, period: int, k: Kind)
    ensures NewNode(start, period).Seen(k) == {} && NewNode(start, period).Index(k) == []
  {
  }

  /** Detaching an empty window while quotes of one kind wait. */
  lemma DetachEmpty(cfg: Config, c: Chain, start: int, k: Kind)
    requires TwoEmpty(cfg, c, start) && c.pending == NOTHING.Set(k, c.pending.Get(k))
    ensures var d, r := Detach(cfg, c), DrainedOf(cfg, c, k);
            && d.chain.pending == NOTHING.Set(k, r.rest) && d.out.Index(k) == r.moved
            && TwoEmpty(cfg, d.chain, start + cfg.period)
  {
    var r := DrainedOf(cfg, c, k);
    DetachLane(cfg, c, k);
    OthersEmpty(cfg, c, k);
    NoneKnown(r.moved);
    NewIsEmpty(start, cfg.period, k);
    ConcatNothing(r.moved);
  }

  lemma DrainedIs(cfg: Config, c: Chain, start: int, k: Kind, s: seq<Quote>)
    requires TwoEmpty(cfg, c, start) && c.pending == NOTHING.Set(k, s)
    ensures c.pending.Get(k) == s && DrainedOf(cfg, c, k) == DrainWith(cfg.drain, s, start, start + cfg.period)
  {
  }

  lemma CloseStep(cfg: Config, h: History, start: int, k: Kind, s: seq<Quote>, now: int, r: Drained)
    requires cfg.period > 0 && Queued(cfg, h, start, k, s) && now > start + cfg.period + cfg.detachTime
    requires r == DrainWith(cfg.drain, s, start, start + cfg.period)
    ensures var h' := Step(cfg, h, Tick(now, start));
            && Queued(cfg, h', start + cfg.period, k, r.rest)
            && |h'.emitted| == |h.emitted| + 1 && h'.emitted[|h.emitted|].Index(k) == r.moved
  {
    DrainedIs(cfg, h.chain, start, k, s);
    DetachEmpty(cfg, h.chain, start, k);
    TickDetaches(cfg, h, now, start);
  }

  /** A tick just late enough to close the front window. */
  lemma CloseNext(cfg: Config, es: seq<Event>, start: int, k: Kind, s: seq<Quote>, moved: seq<Quote>, rest: seq<Quote>)
    returns (es': seq<Event>)
    requires cfg.period > 0 && Queued(cfg, Run(cfg, es), start, k, s)
    requires DrainWith(cfg.drain, s, start, start + cfg.period) == Drained(moved, rest)
    ensures Queued(cfg, Run(cfg, es'), start + cfg.period, k, rest)
    ensures |Run(cfg, es').emitted| > 0 && Run(cfg, es').emitted[|Run(cfg, es').emitted| - 1].Index(k) == moved
  {
    var now := start + cfg.period + cfg.detachTime + 1;
    CloseStep(cfg, Run(cfg, es), start, k, s, now, Drained(moved, rest));
    RunOne(cfg, es, Tick(now, start));
    es' := es + [Tick(now, start)];
  }

  /** Quotes that are not due wait on. */
  lemma PassOver(cfg: Config, es: seq<Event>, start: int, q: Quote, n: nat) returns (es': seq<Event>)
    requires cfg.period > 0 && q.time >= start + cfg.period
    requires Queued(cfg, Run(cfg, es), start, q.Kind(), Copies(q, n))
    ensures Queued(cfg, Run(cfg, es'), start + cfg.period, q.Kind(), Copies(q, n))
  {
    CopiesNotDue(cfg.drain, q, n, start, start + cfg.period);
    es' := CloseNext(cfg, es, start, q.Kind(), Copies(q, n), [], Copies(q, n));
  }

  /** The quote's window is the next to close. */
  lemma QueueDue(cfg: Config, q: Quote, n: nat) returns (es: seq<Event>)
    requires cfg.period > 0
    ensures Queued(cfg, Run(cfg, es), q.time, q.Kind(), Copies(q, n))
  {
    var start := q.time - 2 * cfg.period;
    es := QueueUp(cfg, start, q, n);
    es := PassOver(cfg, es, start, q, n);
    es := PassOver(cfg, es, start + cfg.period, q, n);
    assert start + cfg.period + cfg.period == q.time;
  }

  lemma DrainDue(cfg: Config, q: Quote, n: nat) returns (m: nat)
    requires cfg.period > 0
    ensures m == MovedOf(cfg.drain, n) && m <= n
    ensures DrainWith(cfg.drain, Copies(q, n), q.time, q.time + cfg.period) == Drained(Copies(q, m), Copies(q, n - m))
  {
    m := DrainCopies(cfg.drain, q, n, q.time, q.time + cfg.period);
  }

  /** The window of a quote has just been closed: `moved` came out with it, and
      `rest` still waits. */
  ghost predicate Left(cfg: Config, h: History, q: Quote, moved: seq<Quote>, rest: seq<Quote>) {
    && h.emitted != [] && h.emitted[|h.emitted| - 1].Index(q.Kind()) == moved
    && h.chain.nodes != [] && h.chain.nodes[0].start == q.time + cfg.period
    && h.chain.pending.Get(q.Kind()) == rest
  }

  lemma CloseLeft(cfg: Config, h: History, q: Quote, s: seq<Quote>, now: int, r: Drained)
    requires cfg.period > 0 && Queued(cfg, h, q.time, q.Kind(), s)
    requires now > q.time + cfg.period + cfg.detachTime && r == DrainWith(cfg.drain, s, q.time, q.time + cfg.period)
    ensures Left(cfg, Step(cfg, h, Tick(now, q.time)), q, r.moved, r.rest)
  {
    CloseStep(cfg, h, q.time, q.Kind(), s, now, r);
  }

  lemma CloseDue(cfg: Config, q: Quote, n: nat, r: Drained) returns (es: seq<Event>)
    requires cfg.period > 0 && r == DrainWith(cfg.drain, Copies(q, n), q.time, q.time + cfg.period)
    ensures Left(cfg, Run(cfg, es), q, r.moved, r.rest)
  {
    var now := q.time + cfg.period + cfg.detachTime + 1;
    var before := QueueDue(cfg, q, n);
    CloseLeft(cfg, Run(cfg, before), q, Copies(q, n), now, r);
    RunOne(cfg, before, Tick(now, q.time));
    es := before + [Tick(now, q.time)];
  }

  lemma LeftIsStale(cfg: Config, h: History, q: Quote, moved: seq<Quote>, n: nat)
    requires cfg.period > 0 && n > 0 && Left(cfg, h, q, moved, Copies(q, n))
    ensures !NoneStale(h, q.Kind())
  {
    CopiesFacts(q, n);
    assert Copies(q, n)[0] == q;
  }

  /** Quotes are really left behind. For all settings and every quote there is a
      run that delivers the quote `n` times too early and then closes its window:
      the loop as it stands emits it once and leaves the other copies pending for
      good; the save-next loop would leave none, but emit the quote `n` times in
      one window. */
  lemma LeftBehind(cfg: Config, q: Quote, n: nat) returns (es: seq<Event>, m: nat)
    requires cfg.period > 0
    ensures m == (if cfg.drain.SaveNext? || n == 0 then n else 1)
    ensures Left(cfg, Run(cfg, es), q, Copies(q, m), Copies(q, n - m))
    ensures n > m ==> !NoneStale(Run(cfg, es), q.Kind())
  {
    m := DrainDue(cfg, q, n);
    es := CloseDue(cfg, q, n, Drained(Copies(q, m), Copies(q, n - m)));
    if n > m {
      LeftIsStale(cfg, Run(cfg, es), q, Copies(q, m), n - m);
    }
  }

  lemma CopiesForever(cfg: Config, h: History, q: Quote, n: nat, more: seq<Event>)
    requires cfg.period > 0 && Tiled(cfg, h) && h.chain.nodes != [] && q.time < h.chain.nodes[0].start
    requires h.chain.pending.Get(q.Kind()) == Copies(q, n)
    ensures multiset(RunFrom(cfg, h, more).chain.pending.Get(q.Kind()))[q] == n
  {
    CopiesCount(q, n);
    StaleForever(cfg, h, more, q.Kind(), q);
  }

  /** And they stay: whatever follows, the copies left behind go on waiting. */
  lemma LeftForGood(cfg: Config, q: Quote, n: nat) returns (es: seq<Event>)
    requires cfg.period > 0 && cfg.drain.RemoveThenNext? && n >= 1
    ensures forall more ::
              multiset(RunFrom(cfg, Run(cfg, es), more).chain.pending.Get(q.Kind()))[q] == n - 1
  {
    var m;
    es, m := LeftBehind(cfg, q, n);
    TiledRun(cfg, es);
    forall more: seq<Event>
      ensures multiset(RunFrom(cfg, Run(cfg, es), more).chain.pending.Get(q.Kind()))[q] == n - 1
    {
      CopiesForever(cfg, Run(cfg, es), q, n - 1, more);
    }
  }

  lemma {:induction false} CopiesCount(q: Quote, n: nat)
    ensures multiset(Copies(q, n))[q] == n
  {
    if n > 0 {
      CopiesCount(q, n - 1);
    }
  }
}
