/** All symbols move together, and what that means for published messages. */
module Lockstep {
  import opened Basics
  import opened Quotes
  import opened GoList
  import opened Windows
  import opened Collector

  // ---------------------------------------------------------------------
  // The bounds of a chain

  datatype Span = Span(start: int, end: int)

  ghost function Shape(c: Chain): seq<Span> {
    seq(|c.nodes|, i requires 0 <= i < |c.nodes| => Span(c.nodes[i].start, c.nodes[i].end))
  }

  function Widen(cfg: Config, sh: seq<Span>): seq<Span> {
    if |sh| == 1 then [sh[0], Span(sh[0].end, sh[0].end + cfg.period)] else sh
  }

  /** Bounds after a tick. */
  function Advance(cfg: Config, sh: seq<Span>, now: int, born: int): seq<Span>
    requires |sh| <= 2
  {
    if |sh| == 0 then [Span(born, born + cfg.period)]
    else if Closes(cfg, sh, now) then
      var w := Widen(cfg, sh);
      [w[1], Span(w[1].end, w[1].end + cfg.period)]
    else Widen(cfg, sh)
  }

  predicate Closes(cfg: Config, sh: seq<Span>, now: int) {
    |sh| > 0 && now > sh[0].end + cfg.detachTime
  }

  lemma TickKeepsStep(cfg: Config, c: Chain, now: int, born: int)
    requires |c.nodes| <= 2
    ensures var t := TimeItr(cfg, c, now, born);
            && |t.chain.nodes| <= 2
            && Shape(t.chain) == Advance(cfg, Shape(c), now, born)
            && (t.out.Some? <==> Closes(cfg, Shape(c), now))
            && (t.out.Some? ==> t.out.value.start == Shape(c)[0].start && t.out.value.end == Shape(c)[0].end)
  {
  }

  lemma PutKeepsShape(cfg: Config, c: Chain, q: Quote)
    ensures Shape(Put(cfg, c, q)) == Shape(c)
  {
  }

  /** Adjacent windows of one period each, on the grid of the origin. */
  ghost predicate OnGrid(cfg: Config, sh: seq<Span>)
    requires cfg.period > 0
  {
    && |sh| <= 2
    && (forall i | 0 <= i < |sh| :: sh[i].end == sh[i].start + cfg.period)
    && (|sh| == 2 ==> sh[1].start == sh[0].end)
    && (sh != [] ==> Aligned(cfg, sh[0].start))
  }

  /** Where the k-th period since the origin starts. */
  function GridPoint(cfg: Config, k: int): int {
    k * cfg.period + ORIGIN_UTC_TIME * 1000
  }

  ghost predicate Aligned(cfg: Config, t: int) {
    exists k :: t == GridPoint(cfg, k)
  }

  lemma BirthAligned(cfg: Config, sec: int)
    requires cfg.period > 0
    ensures Aligned(cfg, AlignedBirth(cfg, sec))
  {
    assert AlignedBirth(cfg, sec) == GridPoint(cfg, PeriodNow(cfg, sec));
  }

  /** The born time is where the period of the clock reading begins: at or before
      it, by less than a period; before the origin, where division truncates
      upward, where that period ends. It is whole periods from the beginning of
      the year 2024. */
  lemma BirthAround(cfg: Config, sec: int)
    requires cfg.period > 0
    ensures sec >= ORIGIN_UTC_TIME ==> AlignedBirth(cfg, sec) <= sec * 1000 < AlignedBirth(cfg, sec) + cfg.period
    ensures sec <= ORIGIN_UTC_TIME ==> AlignedBirth(cfg, sec) - cfg.period < sec * 1000 <= AlignedBirth(cfg, sec)
    ensures exists k :: AlignedBirth(cfg, sec) == 1_704_067_200_000 + k * cfg.period
  {
    assert AlignedBirth(cfg, sec) == 1_704_067_200_000 + PeriodNow(cfg, sec) * cfg.period;
    var x, p := (sec - ORIGIN_UTC_TIME) * 1000, cfg.period;
    QuotientIs(x, p, x / p);
    QuotientIs(-x, p, (-x) / p);
    assert x < 0 ==> PeriodNow(cfg, sec) * p == -((-x) / p * p);
  }

  lemma GridNext(cfg: Config, k: int)
    ensures GridPoint(cfg, k + 1) == GridPoint(cfg, k) + cfg.period
  {
    OneMore(k, cfg.period);
  }

  lemma NextAligned(cfg: Config, t: int)
    requires Aligned(cfg, t)
    ensures Aligned(cfg, t + cfg.period)
  {
    var k :| t == GridPoint(cfg, k);
    GridNext(cfg, k);
    assert t + cfg.period == GridPoint(cfg, k + 1);
  }

  /** Two grid points are the same or at least a period apart. */
  lemma GridGap(cfg: Config, t: int, u: int)
    requires cfg.period > 0 && Aligned(cfg, t) && Aligned(cfg, u)
    ensures t == u || t + cfg.period <= u || u + cfg.period <= t
  {
    var i :| t == GridPoint(cfg, i);
    var j :| u == GridPoint(cfg, j);
    if i < j {
      Monotone(i + 1, j, cfg.period);
      GridNext(cfg, i);
    } else if j < i {
      Monotone(j + 1, i, cfg.period);
      GridNext(cfg, j);
    }
  }

  lemma AdvanceOnGrid(cfg: Config, sh: seq<Span>, now: int, born: int)
    requires cfg.period > 0 && OnGrid(cfg, sh) && Aligned(cfg, born)
    ensures OnGrid(cfg, Advance(cfg, sh, now, born))
    ensures Advance(cfg, sh, now, born) != []
    ensures sh != [] ==> Advance(cfg, sh, now, born)[0].start
                         == if Closes(cfg, sh, now) then sh[0].end else sh[0].start
  {
    if sh != [] {
      NextAligned(cfg, sh[0].start);
    }
  }

  // ---------------------------------------------------------------------
  // The invariant. `common` is the bounds every symbol had when the current
  // pass began, or has now if no pass is under way.

  ghost predicate ShapesAgree(cfg: Config, s: System, common: seq<Span>)
    requires cfg.period > 0
  {
    && OnGrid(cfg, common)
    && match s.phase
       case Idle => forall name | name in s.symbols :: Shape(s.symbols[name]) == common
       case Passing(now, sec, born, todo, ts, infos) =>
         && todo <= s.symbols.Keys
         && Aligned(cfg, born) && (common != [] ==> born == common[0].start)
         && (forall name | name in s.symbols ::
               Shape(s.symbols[name]) == if name in todo then common else Advance(cfg, common, now, born))
  }

  ghost function Symbols(infos: seq<SymbolInfo>): set<string> {
    set i | i in infos :: i.symbol
  }

  /** Infos of one window, at most one for each symbol. */
  ghost predicate OneWindow(infos: seq<SymbolInfo>, start: int, end: int) {
    && (forall i | 0 <= i < |infos| :: infos[i].node.start == start && infos[i].node.end == end)
    && (forall i, j | 0 <= i < j < |infos| :: infos[i].symbol != infos[j].symbol)
  }

  /** The message being built holds data of the closing window only; if empty
      quotes are not skipped it has one info for each symbol visited. */
  ghost predicate DraftOk(st: Settings, s: System, common: seq<Span>) {
    match s.phase
    case Idle => true
    case Passing(now, sec, born, todo, ts, infos) =>
      && Symbols(infos) <= s.symbols.Keys - todo
      && (infos != [] ==> Closes(st.cfg, common, now))
      && (Closes(st.cfg, common, now) ==>
            && OneWindow(infos, common[0].start, common[0].end)
            && (todo < s.symbols.Keys ==> ts == common[0].start)
            && (!st.skipEmptyQuote ==> Symbols(infos) == s.symbols.Keys - todo))
  }

  lemma AgreeStep(st: Settings, s: System, a: Action, common: seq<Span>) returns (common': seq<Span>)
    requires st.cfg.period > 0 && Enabled(s, a) && ShapesAgree(st.cfg, s, common) && DraftOk(st, s, common)
    ensures ShapesAgree(st.cfg, Apply(st, s, a), common') && DraftOk(st, Apply(st, s, a), common')
    ensures common' == if a.Finish? && s.symbols != map[] then Advance(st.cfg, common, s.phase.now, s.phase.born)
                       else if a.Begin? && a.friend == None then []
                       else common
  {
    common' := common;
    match a
    case Begin(now, sec, friend) =>
      BirthAligned(st.cfg, sec);
      if friend == None {
        common' := [];
      }
    case Visit(name) =>
      TickKeepsStep(st.cfg, s.symbols[name], s.phase.now, s.phase.born);
      DraftVisit(st, s, name, common);
    case Finish =>
      AdvanceOnGrid(st.cfg, common, s.phase.now, s.phase.born);
      if s.symbols != map[] {
        common' := Advance(st.cfg, common, s.phase.now, s.phase.born);
      }
    case Deliver(name, q) =>
      if name in s.symbols {
        PutKeepsShape(st.cfg, s.symbols[name], q);
      }
  }

  lemma InfosGrow(infos: seq<SymbolInfo>, info: SymbolInfo)
    ensures Symbols(infos + [info]) == Symbols(infos) + {info.symbol}
    ensures forall start, end |
              OneWindow(infos, start, end) && info.symbol !in Symbols(infos)
              && info.node.start == start && info.node.end == end :: OneWindow(infos + [info], start, end)
  {
    assert forall i | i in infos + [info] :: i in infos || i == info;
    assert forall i | i in infos :: i in infos + [info];
    assert info in infos + [info];
    assert forall i | 0 <= i < |infos| :: infos[i].symbol in Symbols(infos);
  }

  lemma DraftVisit(st: Settings, s: System, name: string, common: seq<Span>)
    requires st.cfg.period > 0 && Enabled(s, Visit(name)) && ShapesAgree(st.cfg, s, common) && DraftOk(st, s, common)
    ensures DraftOk(st, Apply(st, s, Visit(name)), common)
  {
    var p, c := s.phase, s.symbols[name];
    var t := TimeItr(st.cfg, c, p.now, p.born);
    TickKeepsStep(st.cfg, c, p.now, p.born);
    var done := s.symbols.Keys - p.todo;
    assert s.symbols.Keys - (p.todo - {name}) == done + {name};
    assert p.todo - {name} < s.symbols.Keys by {
      assert name !in p.todo - {name};
    }
    if t.out.Some? {
      InfosGrow(p.infos, SymbolInfo(name, t.out.value));
      assert name !in Symbols(p.infos);
    }
    assert Apply(st, s, Visit(name)).symbols.Keys == s.symbols.Keys;
    assert Apply(st, s, Visit(name)).phase == Contribute(st, p, name, t.out);
  }

  // ---------------------------------------------------------------------
  // Published messages

  ghost predicate MessageOk(st: Settings, s: System, p: Published)
    requires st.cfg.period > 0
  {
    && p.msg.infos != []
    && OneWindow(p.msg.infos, p.msg.ts, p.msg.ts + st.cfg.period)
    && Aligned(st.cfg, p.msg.ts)
    && p.now > p.msg.ts + st.cfg.period + st.cfg.detachTime
    && p.msg.period == PeriodNow(st.cfg, p.sec) - 1
    && Symbols(p.msg.infos) <= s.symbols.Keys
    && (!st.skipEmptyQuote ==> Symbols(p.msg.infos) == s.symbols.Keys)
  }

  /** The timestamps of what was published. */
  ghost function Stamps(sent: seq<Published>): seq<int> {
    seq(|sent|, i requires 0 <= i < |sent| => sent[i].msg.ts)
  }

  /** At least a period apart, and if `gapless` exactly that. */
  ghost predicate InOrder(ts: seq<int>, period: int, gapless: bool) {
    && (forall i, j | 0 <= i < j < |ts| :: ts[i] + period <= ts[j])
    && (gapless ==> forall i, j | 0 <= i < j < |ts| && j == i + 1 :: ts[i] + period == ts[j])
  }

  lemma InOrderAppend(ts: seq<int>, t: int, period: int, gapless: bool)
    requires InOrder(ts, period, gapless) && period > 0
    requires ts != [] ==> ts[|ts| - 1] + period <= t && (gapless ==> ts[|ts| - 1] + period == t)
    ensures InOrder(ts + [t], period, gapless)
  {
    forall i | 0 <= i < |ts| ensures ts[i] + period <= t {
      assert i < |ts| - 1 ==> ts[i] + period <= ts[|ts| - 1];
    }
  }

  /** Published windows come in order, all before the current front window; if
      empty quotes are not skipped, without gaps. */
  ghost predicate SentOk(st: Settings, s: System, common: seq<Span>)
    requires st.cfg.period > 0
  {
    && (forall i | 0 <= i < |s.sent| :: MessageOk(st, s, s.sent[i]))
    && InOrder(Stamps(s.sent), st.cfg.period, !st.skipEmptyQuote)
    && (s.sent != [] ==>
          && s.symbols != map[] && common != []
          && s.sent[|s.sent| - 1].msg.ts + st.cfg.period <= common[0].start
          && (!st.skipEmptyQuote ==> s.sent[|s.sent| - 1].msg.ts + st.cfg.period == common[0].start))
  }

  ghost predicate Inv(st: Settings, s: System, common: seq<Span>)
    requires st.cfg.period > 0
  {
    TwoAtMost(s) && ShapesAgree(st.cfg, s, common) && DraftOk(st, s, common) && SentOk(st, s, common)
  }

  /** Nothing is published, and the common front does not move. */
  lemma SentKept(st: Settings, s: System, common: seq<Span>, s': System, common': seq<Span>)
    requires st.cfg.period > 0 && SentOk(st, s, common)
    requires s'.sent == s.sent && s'.symbols.Keys == s.symbols.Keys
    requires s.sent != [] ==> common != [] && common' != []
    requires s.sent != [] ==> common'[0].start >= common[0].start
    requires s.sent != [] && !st.skipEmptyQuote ==> common'[0].start == common[0].start
    ensures SentOk(st, s', common')
  {
    forall i | 0 <= i < |s.sent| ensures MessageOk(st, s', s.sent[i]) {
      assert MessageOk(st, s, s.sent[i]);
    }
  }

  /** The message a pass ends with. */
  function Draft(st: Settings, p: Phase): Published
    requires p.Passing? && st.cfg.period > 0
  {
    Published(PeriodMessage(p.ts, PeriodNow(st.cfg, p.sec) - 1, p.infos), p.now, p.sec)
  }

  lemma FinishIs(st: Settings, s: System)
    requires st.cfg.period > 0 && Enabled(s, Finish)
    ensures Apply(st, s, Finish)
         == s.(phase := Idle, sent := if s.phase.infos == [] then s.sent else s.sent + [Draft(st, s.phase)])
  {
  }

  lemma FinishSent(st: Settings, s: System, common: seq<Span>)
    requires st.cfg.period > 0 && Enabled(s, Finish) && Inv(st, s, common) && s.symbols != map[]
    ensures SentOk(st, Apply(st, s, Finish), Advance(st.cfg, common, s.phase.now, s.phase.born))
  {
    var s', p := Apply(st, s, Finish), s.phase;
    var common' := Advance(st.cfg, common, p.now, p.born);
    AdvanceOnGrid(st.cfg, common, p.now, p.born);
    FinishIs(st, s);
    if p.infos == [] {
      assert Symbols(p.infos) == {};
      SentKept(st, s, common, s', common');
    } else {
      DraftIsMessage(st, s, common);
      SentAppend(st, s, common, Draft(st, p), common');
    }
  }

  lemma SentAppend(st: Settings, s: System, common: seq<Span>, m: Published, common': seq<Span>)
    requires st.cfg.period > 0 && SentOk(st, s, common) && MessageOk(st, s, m) && s.symbols != map[]
    requires common != [] && m.msg.ts == common[0].start
    requires common' != [] && common'[0].start == m.msg.ts + st.cfg.period
    ensures SentOk(st, s.(phase := Idle, sent := s.sent + [m]), common')
  {
    var s' := s.(phase := Idle, sent := s.sent + [m]);
    forall i | 0 <= i < |s'.sent| ensures MessageOk(st, s', s'.sent[i]) {
      assert MessageOk(st, s, s'.sent[i]);
    }
    InOrderAppend(Stamps(s.sent), m.msg.ts, st.cfg.period, !st.skipEmptyQuote);
    assert Stamps(s'.sent) == Stamps(s.sent) + [m.msg.ts];
  }

  lemma SentStep(st: Settings, s: System, a: Action, common: seq<Span>, common': seq<Span>)
    requires st.cfg.period > 0 && Enabled(s, a) && Inv(st, s, common)
    requires common' == if a.Finish? && s.symbols != map[] then Advance(st.cfg, common, s.phase.now, s.phase.born)
                        else if a.Begin? && a.friend == None then []
                        else common
    ensures SentOk(st, Apply(st, s, a), common')
  {
    if a.Finish? && s.symbols != map[] {
      FinishSent(st, s, common);
    } else {
      assert a.Begin? && a.friend == None ==> s.sent == [] || s.symbols.Keys == {};
      if a.Finish? && s.phase.infos != [] {
        DraftIsMessage(st, s, common);
      }
      assert Apply(st, s, a).symbols.Keys == s.symbols.Keys;
      SentKept(st, s, common, Apply(st, s, a), common');
    }
  }

  lemma DraftIsMessage(st: Settings, s: System, common: seq<Span>)
    requires st.cfg.period > 0 && Enabled(s, Finish) && Inv(st, s, common) && s.phase.infos != []
    ensures var p, m := s.phase, Draft(st, s.phase);
            && MessageOk(st, s, m) && s.symbols != map[]
            && Closes(st.cfg, common, p.now) && m.msg.ts == common[0].start && common[0].end == m.msg.ts + st.cfg.period
  {
    var p := s.phase;
    assert p.infos[0].symbol in Symbols(p.infos);
    assert p.todo < s.symbols.Keys;
  }

  lemma TwoStep(st: Settings, s: System, a: Action)
    requires st.cfg.period > 0 && Enabled(s, a)
    ensures TwoAtMost(Apply(st, s, a))
  {
  }

  /** Every state of every run satisfies the invariant for some common bounds. */
  lemma {:induction false} RunInv(st: Settings, ss: seq<System>, n: nat) returns (common: seq<Span>)
    requires Behaviour(st, ss) && n < |ss|
    ensures Inv(st, ss[n], common)
  {
    if n == 0 {
      common := [];
    } else {
      var before := RunInv(st, ss, n - 1);
      assert Next(st, ss[n - 1], ss[n - 1 + 1]);
      var a :| Enabled(ss[n - 1], a) && ss[n] == Apply(st, ss[n - 1], a);
      common := AgreeStep(st, ss[n - 1], a, before);
      SentStep(st, ss[n - 1], a, before, common);
      TwoStep(st, ss[n - 1], a);
    }
  }

  // ---------------------------------------------------------------------
  // Main results

  /** Lockstep: between passes all symbols have windows with the same bounds,
      and at most two; during a pass the visited ones agree among themselves and
      so do the others, whatever order the symbols are visited in and whatever
      is put into them meanwhile. */
  lemma InLockstep(st: Settings, ss: seq<System>, n: nat, x: string, y: string)
    requires Behaviour(st, ss) && n < |ss| && x in ss[n].symbols && y in ss[n].symbols
    requires ss[n].phase.Passing? ==> (x in ss[n].phase.todo <==> y in ss[n].phase.todo)
    ensures Shape(ss[n].symbols[x]) == Shape(ss[n].symbols[y]) && |ss[n].symbols[x].nodes| <= 2
  {
    var common := RunInv(st, ss, n);
  }

  // The order of a pass

  function Visits(names: seq<string>): seq<Action> {
    if names == [] then [] else Visits(names[..|names| - 1]) + [Visit(names[|names| - 1])]
  }

  ghost predicate Distinct(names: seq<string>) {
    forall i, j | 0 <= i < j < |names| :: names[i] != names[j]
  }

  /** What a visit adds to the message being built. */
  function Share(st: Settings, s: System, name: string): seq<SymbolInfo>
    requires s.phase.Passing? && name in s.symbols && |s.symbols[name].nodes| <= 2
  {
    match TimeItr(st.cfg, s.symbols[name], s.phase.now, s.phase.born).out
    case None => []
    case Some(n) => if st.skipEmptyQuote && SymbolInfo(name, n).IsEmpty() then [] else [SymbolInfo(name, n)]
  }

  /** How often `info` is in the share of one of `names`. */
  ghost function Shared(st: Settings, s: System, names: set<string>, info: SymbolInfo): nat
    requires s.phase.Passing? && TwoAtMost(s)
  {
    if info.symbol in names && info.symbol in s.symbols && Share(st, s, info.symbol) == [info] then 1 else 0
  }

  /** What visiting the symbols `names` makes of the chains and the message
      under way, told without an order. */
  ghost predicate ChainsVisited(st: Settings, s: System, names: set<string>, s': System)
    requires s.phase.Passing? && TwoAtMost(s)
  {
    && s'.symbols.Keys == s.symbols.Keys
    && forall n | n in s.symbols ::
         s'.symbols[n] == if n in names then TimeItr(st.cfg, s.symbols[n], s.phase.now, s.phase.born).chain
                          else s.symbols[n]
  }

  ghost predicate DraftVisited(st: Settings, s: System, names: set<string>, s': System, common: seq<Span>)
    requires s.phase.Passing?
  {
    && s'.phase.Passing? && s'.sent == s.sent
    && s'.phase == s.phase.(todo := s.phase.todo - names, infos := s'.phase.infos,
                            ts := if names != {} && Closes(st.cfg, common, s.phase.now) then common[0].start
                                  else s.phase.ts)
  }

  ghost predicate InfosVisited(st: Settings, s: System, names: set<string>, s': System)
    requires s.phase.Passing? && TwoAtMost(s) && s'.phase.Passing?
  {
    forall info :: multiset(s'.phase.infos)[info] == multiset(s.phase.infos)[info] + Shared(st, s, names, info)
  }

  ghost predicate VisitedAll(st: Settings, s: System, names: set<string>, s': System, common: seq<Span>)
    requires s.phase.Passing? && TwoAtMost(s)
  {
    && TwoAtMost(s') && ChainsVisited(st, s, names, s') && DraftVisited(st, s, names, s', common)
    && InfosVisited(st, s, names, s')
  }

  /** A visit to a symbol that is as it was when the pass was in state `s`. */
  lemma VisitApplies(st: Settings, s: System, m: System, name: string)
    requires st.cfg.period > 0 && s.phase.Passing? && TwoAtMost(s) && m.phase.Passing? && TwoAtMost(m)
    requires name in s.symbols && name in m.symbols && m.symbols[name] == s.symbols[name] && name in m.phase.todo
    requires m.phase.now == s.phase.now && m.phase.born == s.phase.born
    ensures Enabled(m, Visit(name))
    ensures var s', t := Apply(st, m, Visit(name)), TimeItr(st.cfg, s.symbols[name], s.phase.now, s.phase.born);
            && s'.symbols == m.symbols[name := t.chain] && s'.sent == m.sent
            && s'.phase == m.phase.(todo := m.phase.todo - {name}, infos := m.phase.infos + Share(st, s, name),
                                    ts := if t.out.Some? then t.out.value.start else m.phase.ts)
  {
  }

  lemma ShareAdds(st: Settings, s: System, names: set<string>, name: string, infos: seq<SymbolInfo>, info: SymbolInfo)
    requires s.phase.Passing? && TwoAtMost(s) && name in s.symbols && name !in names
    requires multiset(infos)[info] == multiset(s.phase.infos)[info] + Shared(st, s, names, info)
    ensures multiset(infos + Share(st, s, name))[info]
         == multiset(s.phase.infos)[info] + Shared(st, s, names + {name}, info)
  {
  }

  lemma VisitOneMore(st: Settings, s: System, names: set<string>, m: System, name: string, common: seq<Span>)
    requires st.cfg.period > 0 && s.phase.Passing? && TwoAtMost(s) && ShapesAgree(st.cfg, s, common)
    requires VisitedAll(st, s, names, m, common) && name in s.phase.todo && name !in names
    ensures Enabled(m, Visit(name)) && VisitedAll(st, s, names + {name}, Apply(st, m, Visit(name)), common)
  {
    VisitApplies(st, s, m, name);
    TickKeepsStep(st.cfg, s.symbols[name], s.phase.now, s.phase.born);
    var s' := Apply(st, m, Visit(name));
    TwoStep(st, m, Visit(name));
    assert ChainsVisited(st, s, names + {name}, s');
    assert s.phase.todo - (names + {name}) == s.phase.todo - names - {name};
    assert DraftVisited(st, s, names + {name}, s', common);
    forall info
      ensures multiset(s'.phase.infos)[info] == multiset(s.phase.infos)[info] + Shared(st, s, names + {name}, info)
    {
      ShareAdds(st, s, names, name, m.phase.infos, info);
    }
  }

  lemma VisitedSame(st: Settings, s: System, names: set<string>, a: System, b: System, common: seq<Span>)
    requires s.phase.Passing? && TwoAtMost(s)
    requires VisitedAll(st, s, names, a, common) && VisitedAll(st, s, names, b, common)
    ensures a.symbols == b.symbols && a.sent == b.sent && b.phase == a.phase.(infos := b.phase.infos)
    ensures multiset(a.phase.infos) == multiset(b.phase.infos)
  {
  }

  lemma {:induction false} VisitMany(st: Settings, s: System, names: seq<string>, common: seq<Span>)
    requires st.cfg.period > 0 && s.phase.Passing? && TwoAtMost(s) && ShapesAgree(st.cfg, s, common)
    requires Distinct(names) && forall n | n in names :: n in s.phase.todo
    ensures Perform(st, s, Visits(names)).Some?
    ensures VisitedAll(st, s, (set n | n in names), Perform(st, s, Visits(names)).value, common)
  {
    var all := set n | n in names;
    if names == [] {
      assert all == {};
    } else {
      var before, last := names[..|names| - 1], names[|names| - 1];
      var done := set n | n in before;
      assert forall n | n in before :: n in names;
      assert names == before + [last];
      assert all == done + {last};
      VisitMany(st, s, before, common);
      VisitOneMore(st, s, done, Perform(st, s, Visits(before)).value, last, common);
      PerformMore(st, s, Visits(before), Visit(last));
    }
  }

  /** The order of a pass does not matter: from any state inside a pass, visiting
      the same symbols in two different orders gives the same chains, the same
      symbols left to visit, the same timestamp and the same infos. */
  lemma VisitsCommute(st: Settings, ss: seq<System>, n: nat, xs: seq<string>, ys: seq<string>)
    requires Behaviour(st, ss) && n < |ss| && ss[n].phase.Passing?
    requires Distinct(xs) && Distinct(ys) && (forall x :: x in xs <==> x in ys)
    requires forall x | x in xs :: x in ss[n].phase.todo
    ensures Perform(st, ss[n], Visits(xs)).Some? && Perform(st, ss[n], Visits(ys)).Some?
    ensures var a, b := Perform(st, ss[n], Visits(xs)).value, Perform(st, ss[n], Visits(ys)).value;
            && a.phase.Passing? && b.phase == a.phase.(infos := b.phase.infos)
            && a.symbols == b.symbols && a.sent == b.sent
            && multiset(a.phase.infos) == multiset(b.phase.infos)
  {
    var common := RunInv(st, ss, n);
    VisitMany(st, ss[n], xs, common);
    VisitMany(st, ss[n], ys, common);
    var names := set x | x in xs;
    assert names == set x | x in ys;
    VisitedSame(st, ss[n], names, Perform(st, ss[n], Visits(xs)).value, Perform(st, ss[n], Visits(ys)).value, common);
  }

  /** Each published message carries data of one window only, which is over by
      more than the detach time, and no symbol twice; the windows of successive
      messages come strictly in order. If empty quotes are not skipped, every
      symbol is in every message and no window is left out. */
  lemma MessagesInOrder(st: Settings, ss: seq<System>, n: nat)
    requires Behaviour(st, ss) && n < |ss|
    ensures var s := ss[n];
            && (forall i | 0 <= i < |s.sent| ::
                  var p := s.sent[i];
                  && p.msg.infos != []
                  && OneWindow(p.msg.infos, p.msg.ts, p.msg.ts + st.cfg.period)
                  && p.now > p.msg.ts + st.cfg.period + st.cfg.detachTime
                  && (!st.skipEmptyQuote ==> Symbols(p.msg.infos) == s.symbols.Keys))
            && InOrder(Stamps(s.sent), st.cfg.period, !st.skipEmptyQuote)
  {
    var common := RunInv(st, ss, n);
    forall i | 0 <= i < |ss[n].sent| ensures MessageOk(st, ss[n], ss[n].sent[i]) {
    }
  }

  /** Two aggregators with the same period, started at any times and with any
      clocks, publish windows that are identical or disjoint. */
  lemma AgreeOrDisjoint(st: Settings, ss: seq<System>, n: nat, st': Settings, ss': seq<System>, n': nat, i: nat, j: nat)
    requires Behaviour(st, ss) && n < |ss| && i < |ss[n].sent|
    requires Behaviour(st', ss') && n' < |ss'| && j < |ss'[n'].sent|
    requires st.cfg.period == st'.cfg.period
    ensures var t, u := ss[n].sent[i].msg.ts, ss'[n'].sent[j].msg.ts;
            t == u || t + st.cfg.period <= u || u + st.cfg.period <= t
  {
    var common := RunInv(st, ss, n);
    var common' := RunInv(st', ss', n');
    assert MessageOk(st, ss[n], ss[n].sent[i]) && MessageOk(st', ss'[n'], ss'[n'].sent[j]);
    var k :| ss'[n'].sent[j].msg.ts == GridPoint(st'.cfg, k);
    assert GridPoint(st'.cfg, k) == GridPoint(st.cfg, k);
    GridGap(st.cfg, ss[n].sent[i].msg.ts, ss'[n'].sent[j].msg.ts);
  }

  /** The period a message is labelled with is the period of its window if and
      only if the second-granular clock reading of the pass lies in the period
      right after the window (for windows not before the origin). */
  lemma LabelExact(st: Settings, ss: seq<System>, n: nat, i: nat)
    requires Behaviour(st, ss) && n < |ss| && i < |ss[n].sent|
    requires ss[n].sent[i].msg.ts >= ORIGIN_UTC_TIME * 1000
    ensures var p := ss[n].sent[i];
            p.msg.ts == GridPoint(st.cfg, p.msg.period)
            <==> p.msg.ts + st.cfg.period <= p.sec * 1000 < p.msg.ts + 2 * st.cfg.period
  {
    var common := RunInv(st, ss, n);
    var p := ss[n].sent[i];
    assert MessageOk(st, ss[n], p);
    var k :| p.msg.ts == GridPoint(st.cfg, k);
    LabelArithmetic(st.cfg, k, p.sec);
    GridUnique(st.cfg, k, p.msg.period);
  }

  lemma GridUnique(cfg: Config, i: int, j: int)
    requires cfg.period > 0
    ensures GridPoint(cfg, i) == GridPoint(cfg, j) <==> i == j
  {
    if i < j {
      Monotone(i + 1, j, cfg.period);
      GridNext(cfg, i);
    } else if j < i {
      Monotone(j + 1, i, cfg.period);
      GridNext(cfg, j);
    }
  }

  lemma LabelArithmetic(cfg: Config, k: int, sec: int)
    requires cfg.period > 0 && GridPoint(cfg, k) >= ORIGIN_UTC_TIME * 1000
    ensures k == PeriodNow(cfg, sec) - 1
            <==> GridPoint(cfg, k) + cfg.period <= sec * 1000 < GridPoint(cfg, k) + 2 * cfg.period
  {
    var x, p := (sec - ORIGIN_UTC_TIME) * 1000, cfg.period;
    GridNext(cfg, k);
    QuotientIs(x, p, k + 1);
    assert k * p >= 0;
    assert k >= 0;
    if x < 0 {
      QuotientIs(-x, p, (-x) / p);
      assert (-x) / p >= 0;
    }
  }

  /** With a detach time of at least 999 ms, a second-granular reading that is
      not earlier than the millisecond one, and a pass that runs before the end
      of the next period, the label is right in spite of the truncation. */
  lemma LabelRight(st: Settings, ss: seq<System>, n: nat, i: nat)
    requires Behaviour(st, ss) && n < |ss| && i < |ss[n].sent|
    requires ss[n].sent[i].msg.ts >= ORIGIN_UTC_TIME * 1000
    requires st.cfg.detachTime >= 999
    requires ss[n].sent[i].now <= ss[n].sent[i].sec * 1000 + 999
    requires ss[n].sent[i].sec * 1000 < ss[n].sent[i].msg.ts + 2 * st.cfg.period
    ensures ss[n].sent[i].msg.ts == GridPoint(st.cfg, ss[n].sent[i].msg.period)
  {
    LabelExact(st, ss, n, i);
    MessagesInOrder(st, ss, n);
  }

  // ---------------------------------------------------------------------
  // Empty windows

  ghost predicate HoldsSome(n: Node) {
    exists k: Kind :: n.Index(k) != []
  }

  lemma EmptyHoldsNone(name: string, n: Node)
    ensures SymbolInfo(name, n).IsEmpty() <==> !HoldsSome(n)
  {
    assert n.Index(Trade) != [] || n.Index(Increment) != [] || n.Index(Snapshot) != [] ==> HoldsSome(n);
  }

  ghost predicate AllHoldSome(infos: seq<SymbolInfo>) {
    forall i | 0 <= i < |infos| :: HoldsSome(infos[i].node)
  }

  ghost predicate NoneEmpty(s: System) {
    && (s.phase.Passing? ==> AllHoldSome(s.phase.infos))
    && forall i | 0 <= i < |s.sent| :: AllHoldSome(s.sent[i].msg.infos)
  }

  lemma NoneEmptyStep(st: Settings, s: System, a: Action)
    requires st.cfg.period > 0 && st.skipEmptyQuote && Enabled(s, a) && NoneEmpty(s)
    ensures NoneEmpty(Apply(st, s, a))
  {
    if a.Visit? {
      var t := TimeItr(st.cfg, s.symbols[a.name], s.phase.now, s.phase.born);
      if t.out.Some? {
        EmptyHoldsNone(a.name, t.out.value);
      }
    }
  }

  /** If empty quotes are skipped, every info of every published message has some
      quote, trade, increment or snapshot. */
  lemma {:induction false} EmptyNeverSent(st: Settings, ss: seq<System>, n: nat)
    requires Behaviour(st, ss) && n < |ss| && st.skipEmptyQuote
    ensures NoneEmpty(ss[n])
  {
    if n > 0 {
      EmptyNeverSent(st, ss, n - 1);
      assert Next(st, ss[n - 1], ss[n - 1 + 1]);
      var a :| Enabled(ss[n - 1], a) && ss[n] == Apply(st, ss[n - 1], a);
      NoneEmptyStep(st, ss[n - 1], a);
    }
  }

  /** Nor is a message sent in a pass that closes no window with a quote in it. */
  lemma QuietPass(st: Settings, ss: seq<System>, n: nat, names: seq<string>)
    requires Behaviour(st, ss) && n < |ss| && st.skipEmptyQuote
    requires ss[n].phase.Passing? && ss[n].phase.infos == []
    requires Distinct(names) && forall x :: x in names <==> x in ss[n].phase.todo
    requires forall x | x in names && x in ss[n].symbols && |ss[n].symbols[x].nodes| <= 2 ::
               var out := TimeItr(st.cfg, ss[n].symbols[x], ss[n].phase.now, ss[n].phase.born).out;
               out.Some? ==> !HoldsSome(out.value)
    ensures var end := Perform(st, ss[n], Visits(names) + [Finish]);
            end.Some? && end.value.sent == ss[n].sent
  {
    var s := ss[n];
    var common := RunInv(st, ss, n);
    VisitMany(st, s, names, common);
    var m := Perform(st, s, Visits(names)).value;
    forall info ensures multiset(m.phase.infos)[info] == 0 {
      if info.symbol in names && info.symbol in s.symbols {
        QuietShare(st, s, info.symbol);
      }
    }
    NoneCounted(m.phase.infos);
    PerformMore(st, s, Visits(names), Finish);
  }

  lemma NoneCounted(infos: seq<SymbolInfo>)
    requires forall info :: multiset(infos)[info] == 0
    ensures infos == []
  {
    assert multiset(infos) == multiset{};
    assert |infos| == |multiset(infos)|;
  }

  lemma QuietShare(st: Settings, s: System, name: string)
    requires s.phase.Passing? && name in s.symbols && |s.symbols[name].nodes| <= 2 && st.skipEmptyQuote
    requires var out := TimeItr(st.cfg, s.symbols[name], s.phase.now, s.phase.born).out;
             out.Some? ==> !HoldsSome(out.value)
    ensures Share(st, s, name) == []
  {
    var out := TimeItr(st.cfg, s.symbols[name], s.phase.now, s.phase.born).out;
    if out.Some? {
      EmptyHoldsNone(name, out.value);
    }
  }

  // ---------------------------------------------------------------------
  // A wrong label

  function OneSymbol(name: string, c: Chain, p: Phase, sent: seq<Published>): System {
    System(map[name := c], p, sent)
  }

  /** A pass over one symbol. */
  function Pass(name: string, now: int, sec: int, friend: Option<string>): seq<Action> {
    [Begin(now, sec, friend), Visit(name), Finish]
  }

  lemma Perform3(st: Settings, s: System, a: Action, b: Action, c: Action)
    requires st.cfg.period > 0 && Enabled(s, a) && Enabled(Apply(st, s, a), b)
    requires Enabled(Apply(st, Apply(st, s, a), b), c)
    ensures Perform(st, s, [a, b, c]) == Some(Apply(st, Apply(st, Apply(st, s, a), b), c))
  {
    assert Perform(st, s, []) == Some(s);
    PerformMore(st, s, [], a);
    PerformMore(st, s, [a], b);
    PerformMore(st, s, [a, b], c);
    assert [] + [a] == [a] && [a] + [b] == [a, b] && [a, b] + [c] == [a, b, c];
  }

  lemma {:induction false} PerformAppend(st: Settings, s: System, a: seq<Action>, b: seq<Action>)
    requires st.cfg.period > 0 && Perform(st, s, a).Some?
    ensures Perform(st, s, a + b) == Perform(st, Perform(st, s, a).value, b)
  {
    if b == [] {
      ConcatNothing(a);
    } else {
      PerformAppend(st, s, a, b[..|b| - 1]);
      InitOfConcat(a, b);
    }
  }

  /** The first pass of a symbol gives it its first window. */
  lemma FirstPass(st: Settings, name: string, sec: int)
    requires st.cfg.period > 0
    ensures var born := AlignedBirth(st.cfg, sec);
            Perform(st, OneSymbol(name, EMPTY_CHAIN, Idle, []), Pass(name, sec * 1000, sec, None))
            == Some(OneSymbol(name, Chain([NewNode(born, st.cfg.period)], NOTHING), Idle, []))
  {
    var born := AlignedBirth(st.cfg, sec);
    var s := OneSymbol(name, EMPTY_CHAIN, Idle, []);
    var c := Chain([NewNode(born, st.cfg.period)], NOTHING);
    var s1 := OneSymbol(name, EMPTY_CHAIN, Passing(sec * 1000, sec, born, {name}, 0, []), []);
    var s2 := OneSymbol(name, c, Passing(sec * 1000, sec, born, {}, 0, []), []);
    assert s.symbols.Keys == {name};
    assert Apply(st, s, Begin(sec * 1000, sec, None)) == s1;
    assert TimeItr(st.cfg, EMPTY_CHAIN, sec * 1000, born) == Ticked(c, None, NOTHING);
    assert s1.symbols[name := c] == s2.symbols;
    assert {name} - {name} == {};
    assert Apply(st, s1, Visit(name)) == s2;
    Perform3(st, s, Begin(sec * 1000, sec, None), Visit(name), Finish);
  }

  /** A pass that finds a window over publishes it, with the label its clock
      gives. */
  lemma LatePass(st: Settings, name: string, n: Node, sec: int)
    requires st.cfg.period > 0 && sec * 1000 > n.end + st.cfg.detachTime
    requires n.Index(Trade) != []
    ensures var s := OneSymbol(name, Chain([n], NOTHING), Idle, []);
            var r := Perform(st, s, Pass(name, sec * 1000, sec, Some(name)));
            && r.Some? && |r.value.sent| == 1 && r.value.sent[0].sec == sec
            && r.value.sent[0].msg.ts == n.start && r.value.sent[0].msg.period == PeriodNow(st.cfg, sec) - 1
  {
    var now := sec * 1000;
    var c := Chain([n], NOTHING);
    var s := OneSymbol(name, c, Idle, []);
    var s1 := OneSymbol(name, c, Passing(now, sec, n.start, {name}, 0, []), []);
    assert s.symbols.Keys == {name};
    assert Apply(st, s, Begin(now, sec, Some(name))) == s1;
    var t := TimeItr(st.cfg, c, now, n.start);
    assert t.out.Some? && t.out.value.start == n.start && n.Index(Trade) <= t.out.value.Index(Trade);
    var s2 := Apply(st, s1, Visit(name));
    assert s2.phase.infos == [] + [SymbolInfo(name, t.out.value)];
    Perform3(st, s, Begin(now, sec, Some(name)), Visit(name), Finish);
  }

  /** The label does go wrong: whatever the settings and the symbol, if the pass
      that closes the first window comes two periods after its start or later, the
      message is labelled with a period that is not its window's. */
  lemma LabelGoesWrong(st: Settings, name: string, sec: int) returns (ss: seq<System>)
    requires st.cfg.period > 0
    requires (sec - ORIGIN_UTC_TIME) * 1000 >= 2 * st.cfg.period
    requires (sec - ORIGIN_UTC_TIME) * 1000 > st.cfg.period + st.cfg.detachTime
    ensures Behaviour(st, ss) && |ss[|ss| - 1].sent| == 1
    ensures var m := ss[|ss| - 1].sent[0].msg;
            m.ts == GridPoint(st.cfg, 0) && m.ts != GridPoint(st.cfg, m.period)
  {
    var born := ORIGIN_UTC_TIME * 1000;
    var q := QuoteTrade(born, 1, 0);
    var empty, n := NewNode(born, st.cfg.period), NewNode(born, st.cfg.period).Store(q);
    var s0 := OneSymbol(name, EMPTY_CHAIN, Idle, []);
    assert AlignedBirth(st.cfg, ORIGIN_UTC_TIME) == born;
    var a, b := Pass(name, born, ORIGIN_UTC_TIME, None), Pass(name, sec * 1000, sec, Some(name));
    FirstPass(st, name, ORIGIN_UTC_TIME);
    var s3 := OneSymbol(name, Chain([empty], NOTHING), Idle, []);
    var s4 := OneSymbol(name, Chain([n], NOTHING), Idle, []);
    assert Put(st.cfg, Chain([empty], NOTHING), q) == Chain([n], NOTHING);
    assert Apply(st, s3, Deliver(name, q)) == s4 by {
      assert s3.symbols[name := Chain([n], NOTHING)] == s4.symbols;
    }
    PerformMore(st, s0, a, Deliver(name, q));
    assert n.Index(Trade) == [q];
    LatePass(st, name, n, sec);
    PerformAppend(st, s0, a + [Deliver(name, q)], b);
    ss := Trace(st, s0, a + [Deliver(name, q)] + b);
    LabelExact(st, ss, |ss| - 1, 0);
  }
}
