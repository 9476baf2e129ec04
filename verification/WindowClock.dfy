/** When windows are returned: the clock side of `timeItr`. */
module WindowClock {
  import opened Basics
  import opened Quotes
  import opened GoList
  import opened Windows
  import opened WindowRuns

  /** The least whole number of periods that reaches `x`, and 0 below. */
  function Ceiling(x: int, period: int): nat
    requires period > 0
  {
    if x <= 0 then 0 else (x + period - 1) / period
  }

  /** `n` periods fall short of `x` exactly when `n` is below the ceiling. */
  lemma CeilingMeaning(x: int, period: int, n: nat)
    requires period > 0
    ensures n * period < x <==> n < Ceiling(x, period)
  {
    if x <= 0 {
      Monotone(0, n, period);
    } else {
      QuotientBelow(x + period - 1, period, n + 1);
      OneMore(n, period);
    }
  }

  /** Ticks that all read the same clock. */
  predicate Frozen(es: seq<Event>, now: int) {
    forall i | 0 <= i < |es| :: es[i].Tick? && es[i].now == now
  }

  /** How many windows are overdue at `now`. */
  function Overdue(cfg: Config, h: History, now: int): nat
    requires cfg.period > 0 && h.chain.nodes != []
  {
    Ceiling(now - cfg.detachTime - h.chain.nodes[0].end, cfg.period)
  }

  /** `out` periods after `end` the clock is past the detach time exactly when
      fewer windows than overdue are out. */
  lemma OverdueMeaning(cfg: Config, end: int, now: int, out: nat)
    requires cfg.period > 0
    ensures now > StartOf(cfg, end, out) + cfg.detachTime
            <==> out < Ceiling(now - cfg.detachTime - end, cfg.period)
  {
    CeilingMeaning(now - cfg.detachTime - end, cfg.period, out);
  }

  /** What `n` ticks at `now` make of `h`: one window is returned by each until
      the overdue ones are out, and none after that. */
  ghost predicate CaughtUp(cfg: Config, h: History, h': History, n: nat, now: int)
    requires cfg.period > 0 && h.chain.nodes != []
  {
    && Tiled(cfg, h') && h'.chain.nodes != []
    && |h'.emitted| == |h.emitted| + (if n <= Overdue(cfg, h, now) then n else Overdue(cfg, h, now))
    && h'.chain.nodes[0].end == StartOf(cfg, h.chain.nodes[0].end, |h'.emitted| - |h.emitted|)
  }

  lemma CatchUpStep(cfg: Config, h: History, m: History, n: nat, now: int, born: int)
    requires cfg.period > 0 && h.chain.nodes != [] && CaughtUp(cfg, h, m, n, now)
    ensures CaughtUp(cfg, h, Step(cfg, m, Tick(now, born)), n + 1, now)
  {
    var out := |m.emitted| - |h.emitted|;
    OverdueMeaning(cfg, h.chain.nodes[0].end, now, out);
    NextStart(cfg, h.chain.nodes[0].end, out);
    TickAdvances(cfg, m, now, born);
  }

  /** Catching up: with the clock standing at `now`, each of the next ticks
      returns one window until the overdue ones are out, and none after that. */
  lemma {:induction false} CatchUp(cfg: Config, h: History, es: seq<Event>, now: int)
    requires cfg.period > 0 && Tiled(cfg, h) && h.chain.nodes != [] && Frozen(es, now)
    ensures CaughtUp(cfg, h, RunFrom(cfg, h, es), |es|, now)
  {
    if es != [] {
      CatchUp(cfg, h, es[..|es| - 1], now);
      CatchUpStep(cfg, h, RunFrom(cfg, h, es[..|es| - 1]), |es| - 1, now, es[|es| - 1].born);
      assert es[|es| - 1] == Tick(now, es[|es| - 1].born);
    }
  }

  /** A tick returns a window, the front one, exactly when the clock is past
      its end by more than the detach time. */
  lemma TickAdvances(cfg: Config, h: History, now: int, born: int)
    requires Tiled(cfg, h) && h.chain.nodes != []
    ensures var h', front := Step(cfg, h, Tick(now, born)), h.chain.nodes[0];
            && Tiled(cfg, h') && h'.chain.nodes != []
            && (now > front.end + cfg.detachTime ==>
                  && |h'.emitted| == |h.emitted| + 1 && h.emitted <= h'.emitted
                  && h'.emitted[|h.emitted|].start == front.start && h'.emitted[|h.emitted|].end == front.end
                  && h'.chain.nodes[0].end == front.end + cfg.period)
            && (now <= front.end + cfg.detachTime ==>
                  h'.emitted == h.emitted && h'.chain.nodes[0] == front)
  {
    var h' := Step(cfg, h, Tick(now, born));
    TickShape(cfg, h, now, born);
    TiledStep(cfg, h, Tick(now, born));
    assert h.All()[|h.emitted|] == h.chain.nodes[0];
    assert h'.All()[|h'.emitted|] == h'.chain.nodes[0];
    if Fires(cfg, h.chain, now) {
      assert h'.All()[|h.emitted|] == h'.emitted[|h.emitted|];
    }
  }

  lemma EmitsNow(cfg: Config, h: History, e: Event)
    requires Tiled(cfg, h) && |Step(cfg, h, e).emitted| > |h.emitted|
    ensures e.Tick? && |Step(cfg, h, e).emitted| == |h.emitted| + 1
    ensures e.now > Step(cfg, h, e).emitted[|h.emitted|].end + cfg.detachTime
  {
    assert e.Tick? && h.chain.nodes != [];
    TickAdvances(cfg, h, e.now, e.born);
  }

  lemma EmitsLast(cfg: Config, es: seq<Event>)
    requires es != [] && |Run(cfg, es).emitted| > |Run(cfg, es[..|es| - 1]).emitted|
    ensures var n, e := |Run(cfg, es[..|es| - 1]).emitted|, es[|es| - 1];
            && e.Tick? && |Run(cfg, es).emitted| == n + 1 && e.now > Run(cfg, es).emitted[n].end + cfg.detachTime
  {
    TiledRun(cfg, es[..|es| - 1]);
    EmitsNow(cfg, Run(cfg, es[..|es| - 1]), es[|es| - 1]);
  }

  /** The prefix after which the i-th window is out. */
  lemma {:induction false} OutAfter(cfg: Config, es: seq<Event>, i: nat) returns (m: nat)
    requires i < |Run(cfg, es).emitted|
    ensures m < |es| && |Run(cfg, es[..m]).emitted| <= i < |Run(cfg, es[..m + 1]).emitted|
  {
    if i < |Run(cfg, es[..|es| - 1]).emitted| {
      m := OutAfter(cfg, es[..|es| - 1], i);
      PrefixOfInit(es, m);
      PrefixOfInit(es, m + 1);
    } else {
      m := |es| - 1;
      WholePrefix(es);
    }
  }

  lemma EmittedStays(cfg: Config, es: seq<Event>, m: nat, i: nat)
    requires m <= |es| && i < |Run(cfg, es[..m]).emitted|
    ensures i < |Run(cfg, es).emitted| && Run(cfg, es).emitted[i] == Run(cfg, es[..m]).emitted[i]
  {
    assert es[..m] + es[m..] == es;
    RunFromAppend(cfg, START, es[..m], es[m..]);
    RunGrows(cfg, Run(cfg, es[..m]), es[m..]);
  }

  /** No window is ever returned at a tick that reads a clock at or before the
      window's end plus the detach time. */
  lemma NeverEarly(cfg: Config, es: seq<Event>, i: nat) returns (m: nat)
    requires i < |Run(cfg, es).emitted|
    ensures m < |es| && es[m].Tick?
    ensures |Run(cfg, es[..m]).emitted| == i && |Run(cfg, es[..m + 1]).emitted| == i + 1
    ensures es[m].now > Run(cfg, es).emitted[i].end + cfg.detachTime
  {
    m := OutAfter(cfg, es, i);
    PrefixOfNext(es, m);
    EmitsLast(cfg, es[..m + 1]);
    EmittedStays(cfg, es, m + 1, i);
  }

  /** A stored quote does come out: once the clock is past the end of the window
      that took it by more than the detach time, as many ticks as the window has
      places to go (one from the front, two from the back) return it. */
  lemma StoredComesOut(cfg: Config, h: History, q: Quote, es: seq<Event>, now: int)
    requires cfg.period > 0 && Tiled(cfg, h) && Route(cfg, h.chain, q).InNode? && Frozen(es, now)
    requires var i := Route(cfg, h.chain, q).at;
             now > h.chain.nodes[i].end + cfg.detachTime && |es| >= i + 1
    ensures var i, h' := Route(cfg, h.chain, q).at, RunFrom(cfg, Step(cfg, h, PutQuote(q)), es);
            |h'.emitted| > |h.emitted| + i && q in h'.emitted[|h.emitted| + i].Index(q.Kind())
  {
    TiledStep(cfg, h, PutQuote(q));
    PutKeepsEnds(cfg, h, q);
    var s := Step(cfg, h, PutQuote(q));
    CatchUp(cfg, s, es, now);
    CaughtUpFar(cfg, s, RunFrom(cfg, s, es), |es|, now, Route(cfg, h.chain, q).at);
    StoredIsEmitted(cfg, h, q, es);
  }

  /** More than `i` ticks return more than `i` windows if the clock is late
      enough for that many. */
  lemma CaughtUpFar(cfg: Config, h: History, h': History, n: nat, now: int, i: nat)
    requires cfg.period > 0 && h.chain.nodes != [] && CaughtUp(cfg, h, h', n, now) && n >= i + 1
    requires now > StartOf(cfg, h.chain.nodes[0].end, i) + cfg.detachTime
    ensures |h'.emitted| > |h.emitted| + i
  {
    OverdueMeaning(cfg, h.chain.nodes[0].end, now, i);
  }

  lemma PutKeepsEnds(cfg: Config, h: History, q: Quote)
    requires Tiled(cfg, h) && h.chain.nodes != []
    ensures var s := Step(cfg, h, PutQuote(q));
            && s.emitted == h.emitted && s.chain.nodes != [] && s.chain.nodes[0].end == h.chain.nodes[0].end
    ensures forall i | 0 <= i < |h.chain.nodes| :: h.chain.nodes[i].end == StartOf(cfg, h.chain.nodes[0].end, i)
  {
    assert h.All()[|h.emitted|] == h.chain.nodes[0];
    if |h.chain.nodes| == 2 {
      assert h.All()[|h.emitted| + 1] == h.chain.nodes[1];
    }
  }
}
