/** The controller's timed collection as a state machine over all symbols. A
    pass visits every symbol once, in any order, with one clock reading; quotes
    may be put into any symbol between any two steps. */
module Collector {
  import opened Basics
  import opened Quotes
  import opened GoList
  import opened Windows

  /** The fixed origin of the window grid, in seconds since the epoch. */
  const ORIGIN_UTC_TIME := 1704067200

  /** Division of the source language: truncation toward zero. */
  function TruncDiv(a: int, b: int): int
    requires b > 0
  {
    if a >= 0 then a / b else -((-a) / b)
  }

  /** The number of the period that a clock reading in seconds falls into. */
  function PeriodNow(cfg: Config, sec: int): int
    requires cfg.period > 0
  {
    TruncDiv((sec - ORIGIN_UTC_TIME) * 1000, cfg.period)
  }

  function AlignedBirth(cfg: Config, sec: int): int
    requires cfg.period > 0
  {
    PeriodNow(cfg, sec) * cfg.period + ORIGIN_UTC_TIME * 1000
  }

  datatype Settings = Settings(cfg: Config, skipEmptyQuote: bool)

  /** A symbol's share of a message: the detached window it was filled from. */
  datatype SymbolInfo = SymbolInfo(symbol: string, node: Node) {
    predicate IsEmpty() {
      node.Index(Trade) == [] && node.Index(Increment) == [] && node.Index(Snapshot) == []
    }
  }

  datatype PeriodMessage = PeriodMessage(ts: int, period: int, infos: seq<SymbolInfo>)

  /** A published message with the two clock readings of its pass: `now` in
      milliseconds, and `sec`, read after it, in seconds. */
  datatype Published = Published(msg: PeriodMessage, now: int, sec: int)

  datatype Phase =
    | Idle
    | Passing(now: int, sec: int, born: int, todo: set<string>, ts: int, infos: seq<SymbolInfo>)

  datatype System = System(symbols: map<string, Chain>, phase: Phase, sent: seq<Published>)

  datatype Action =
    | Begin(now: int, sec: int, friend: Option<string>)
    | Visit(name: string)
    | Finish
    | Deliver(name: string, q: Quote)

  predicate TwoAtMost(s: System) {
    forall name | name in s.symbols :: |s.symbols[name].nodes| <= 2
  }

  /** `Begin` takes its born time from any symbol that has windows, and
      computes one only if there is no such symbol. */
  predicate Enabled(s: System, a: Action) {
    TwoAtMost(s) &&
    match a
    case Begin(_, _, friend) =>
      s.phase.Idle? &&
      (match friend
       case None => forall name | name in s.symbols :: s.symbols[name].nodes == []
       case Some(name) => name in s.symbols && s.symbols[name].nodes != [])
    case Visit(name) => s.phase.Passing? && name in s.phase.todo && name in s.symbols
    case Finish => s.phase.Passing? && s.phase.todo == {}
    case Deliver(_, _) => true
  }

  /** What a visited symbol contributes to the message being built. */
  function Contribute(st: Settings, p: Phase, name: string, out: Option<Node>): Phase
    requires p.Passing?
  {
    var p' := p.(todo := p.todo - {name});
    match out
    case None => p'
    case Some(n) =>
      var info := SymbolInfo(name, n);
      p'.(ts := n.start,
          infos := if st.skipEmptyQuote && info.IsEmpty() then p.infos else p.infos + [info])
  }

  function Apply(st: Settings, s: System, a: Action): System
    requires Enabled(s, a) && st.cfg.period > 0
  {
    match a
    case Begin(now, sec, friend) =>
      var born := match friend
        case None => AlignedBirth(st.cfg, sec)
        case Some(name) => s.symbols[name].nodes[0].start;
      s.(phase := Passing(now, sec, born, s.symbols.Keys, 0, []))
    case Visit(name) =>
      var t := TimeItr(st.cfg, s.symbols[name], s.phase.now, s.phase.born);
      s.(symbols := s.symbols[name := t.chain], phase := Contribute(st, s.phase, name, t.out))
    case Finish =>
      var p := s.phase;
      s.(phase := Idle,
         sent := if p.infos == [] then s.sent
                 else s.sent + [Published(PeriodMessage(p.ts, PeriodNow(st.cfg, p.sec) - 1, p.infos), p.now, p.sec)])
    case Deliver(name, q) =>
      if name in s.symbols then s.(symbols := s.symbols[name := Put(st.cfg, s.symbols[name], q)]) else s
  }

  /** The state after a sequence of actions; nothing if one is not enabled. */
  function Perform(st: Settings, s: System, acts: seq<Action>): Option<System>
    requires st.cfg.period > 0
  {
    if acts == [] then Some(s)
    else
      match Perform(st, s, acts[..|acts| - 1])
      case None => None
      case Some(m) => if Enabled(m, acts[|acts| - 1]) then Some(Apply(st, m, acts[|acts| - 1])) else None
  }

  lemma PerformMore(st: Settings, s: System, acts: seq<Action>, a: Action)
    requires st.cfg.period > 0 && Perform(st, s, acts).Some? && Enabled(Perform(st, s, acts).value, a)
    ensures Perform(st, s, acts + [a]) == Some(Apply(st, Perform(st, s, acts).value, a))
  {
    InitOfAppend(acts, a);
  }

  /** What `updateAggrSymbols` leaves: a fresh chain for every symbol. */
  ghost predicate Initial(s: System) {
    s.phase == Idle && s.sent == [] && forall name | name in s.symbols :: s.symbols[name] == EMPTY_CHAIN
  }

  ghost predicate Next(st: Settings, s: System, s': System)
    requires st.cfg.period > 0
  {
    exists a :: Enabled(s, a) && s' == Apply(st, s, a)
  }

  /** A finite run of the controller, in any interleaving. */
  ghost predicate Behaviour(st: Settings, ss: seq<System>) {
    && st.cfg.period > 0
    && ss != [] && Initial(ss[0])
    && forall i | 0 <= i < |ss| - 1 :: Next(st, ss[i], ss[i + 1])
  }

  /** A sequence of actions that can be performed is a behaviour. */
  lemma {:induction false} Trace(st: Settings, s: System, acts: seq<Action>) returns (ss: seq<System>)
    requires st.cfg.period > 0 && Initial(s) && Perform(st, s, acts).Some?
    ensures Behaviour(st, ss) && |ss| == |acts| + 1
    ensures ss[0] == s && ss[|acts|] == Perform(st, s, acts).value
  {
    if acts == [] {
      ss := [s];
    } else {
      var before, a := acts[..|acts| - 1], acts[|acts| - 1];
      var ss' := Trace(st, s, before);
      var last := Apply(st, ss'[|before|], a);
      assert Next(st, ss'[|before|], last);
      ss := ss' + [last];
      forall i | 0 <= i < |ss| - 1 ensures Next(st, ss[i], ss[i + 1]) {
        assert i < |ss'| - 1 ==> Next(st, ss'[i], ss'[i + 1]);
      }
    }
  }

  /** And a behaviour goes through a sequence of actions. */
  lemma {:induction false} ActionsOf(st: Settings, ss: seq<System>, n: nat) returns (acts: seq<Action>)
    requires Behaviour(st, ss) && n < |ss|
    ensures |acts| == n && Perform(st, ss[0], acts) == Some(ss[n])
  {
    if n == 0 {
      acts := [];
    } else {
      acts := ActionsOf(st, ss, n - 1);
      assert Next(st, ss[n - 1], ss[n - 1 + 1]);
      var a :| Enabled(ss[n - 1], a) && ss[n] == Apply(st, ss[n - 1], a);
      PerformMore(st, ss[0], acts, a);
      acts := acts + [a];
    }
  }
}
