/** One collection pass over the symbols' objects, proved to be a run of the
    controller's state machine. */
module Controller {
  import opened Quotes
  import opened GoList
  import opened Windows
  import opened Collector

  /** A pass that has visited all publishes what it collected, or nothing. */
  lemma PerformFinish(st: Settings, s0: System, acts: seq<Action>, s: System, pm: Option<PeriodMessage>)
    requires st.cfg.period > 0 && Perform(st, s0, acts) == Some(s) && Enabled(s, Finish)
    requires pm == if s.phase.infos == [] then None
                   else Some(PeriodMessage(s.phase.ts, PeriodNow(st.cfg, s.phase.sec) - 1, s.phase.infos))
    ensures Perform(st, s0, acts + [Finish])
         == Some(System(s.symbols, Idle,
                        s.sent + (match pm case None => [] case Some(m) => [Published(m, s.phase.now, s.phase.sec)])))
  {
    PerformMore(st, s0, acts, Finish);
    assert s.sent + [] == s.sent;
  }

  /** The controller's symbols, each as the value its object holds. */
  class Controller {
    const st: Settings
    var periodSymbols: map<string, Chain>

    ghost predicate Valid()
      reads this
    {
      st.cfg.period > 0 && TwoAtMost(During([], Idle))
    }

    /** The state of the machine, given what has been sent and the phase. */
    ghost function During(sent: seq<Published>, p: Phase): System
      reads this
    {
      System(periodSymbols, p, sent)
    }

    /** `updateAggrSymbols`: a fresh chain for every trading symbol. */
    constructor (st: Settings, tradingSymbols: set<string>)
      requires st.cfg.period > 0
      ensures Valid() && this.st == st && periodSymbols.Keys == tradingSymbols && Initial(During([], Idle))
    {
      this.st := st;
      periodSymbols := map name | name in tradingSymbols :: EMPTY_CHAIN;
    }

    /** The born time of this pass: that of any symbol that has windows, else
        the aligned clock. */
    method FindBirth(now: int, sec: int, ghost sent: seq<Published>) returns (bornTs: int, ghost begin: Action)
      requires Valid()
      ensures if forall x | x in periodSymbols :: periodSymbols[x].nodes == [] then bornTs == AlignedBirth(st.cfg, sec)
              else exists x :: x in periodSymbols && periodSymbols[x].nodes != []
                               && bornTs == periodSymbols[x].nodes[0].start
      ensures Enabled(During(sent, Idle), begin)
      ensures Apply(st, During(sent, Idle), begin)
           == During(sent, Passing(now, sec, bornTs, periodSymbols.Keys, 0, []))
    {
      bornTs := AlignedBirth(st.cfg, sec);
      begin := Begin(now, sec, None);
      var rest := periodSymbols.Keys;
      while rest != {}
        invariant rest <= periodSymbols.Keys && begin == Begin(now, sec, None) && bornTs == AlignedBirth(st.cfg, sec)
        invariant forall x | x in periodSymbols && x !in rest :: periodSymbols[x].nodes == []
        decreases rest
      {
        var name :| name in rest;
        if |periodSymbols[name].nodes| != 0 {
          bornTs := periodSymbols[name].nodes[0].start;
          begin := Begin(now, sec, Some(name));
          break;
        }
        rest := rest - {name};
      }
    }

    /** The body of the pass: steps one symbol and adds its share to the message
        under way. */
    method VisitSymbol(name: string, now: int, sec: int, bornTs: int, ghost todo: set<string>,
                       ts: int, infos: seq<SymbolInfo>, ghost sent: seq<Published>)
      returns (ts': int, infos': seq<SymbolInfo>)
      requires Valid() && name in todo && todo <= periodSymbols.Keys
      modifies this
      ensures Valid() && periodSymbols.Keys == old(periodSymbols.Keys)
      ensures var s := old(During(sent, Passing(now, sec, bornTs, todo, ts, infos)));
              Enabled(s, Visit(name))
              && Apply(st, s, Visit(name)) == During(sent, Passing(now, sec, bornTs, todo - {name}, ts', infos'))
    {
      ts', infos' := ts, infos;
      var t := TimeItr(st.cfg, periodSymbols[name], now, bornTs);
      periodSymbols := periodSymbols[name := t.chain];
      if t.out != None {
        var info := SymbolInfo(name, t.out.value);
        ts' := info.node.start;
        if !(st.skipEmptyQuote && info.IsEmpty()) {
          infos' := infos + [info];
        }
      }
    }

    /** One round of `timedPeriodCollect`: `now` is its millisecond reading of
        the clock, `sec` the later one in seconds. The round is a run of the
        state machine that visits the symbols in some order; `pm` is the message
        that run publishes, if any. */
    method Collect(now: int, sec: int, ghost sent: seq<Published>)
      returns (pm: Option<PeriodMessage>, ghost acts: seq<Action>)
      requires Valid()
      modifies this
      ensures Valid() && periodSymbols.Keys == old(periodSymbols.Keys)
      ensures Perform(st, old(During(sent, Idle)), acts)
           == Some(During(sent + (match pm case None => [] case Some(m) => [Published(m, now, sec)]), Idle))
    {
      ghost var start := During(sent, Idle);
      var bornTs, begin := FindBirth(now, sec, sent);
      PerformMore(st, start, [], begin);
      acts := [] + [begin];

      var ts, infos, todo := 0, [], periodSymbols.Keys;
      while todo != {}
        invariant Valid() && periodSymbols.Keys == old(periodSymbols.Keys) && todo <= periodSymbols.Keys
        invariant Perform(st, start, acts) == Some(During(sent, Passing(now, sec, bornTs, todo, ts, infos)))
        decreases todo
      {
        var name :| name in todo;
        PerformMore(st, start, acts, Visit(name));
        ts, infos := VisitSymbol(name, now, sec, bornTs, todo, ts, infos, sent);
        todo := todo - {name};
        acts := acts + [Visit(name)];
      }
      pm := if infos == [] then None else Some(PeriodMessage(ts, PeriodNow(st.cfg, sec) - 1, infos));
      PerformFinish(st, start, acts, During(sent, Passing(now, sec, bornTs, todo, ts, infos)), pm);
      acts := acts + [Finish];
    }
  }
}
