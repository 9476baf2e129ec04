/** From a symbol's own run to what is published about it. */
module Publication {
  import opened Basics
  import opened Quotes
  import opened GoList
  import opened Windows
  import opened WindowRuns
  import opened WindowContents
  import opened WindowEmission
  import opened Collector
  import Handoff
  import HandoffResults
  import Lockstep

  /** The windows that a sequence of infos carries for one symbol. */
  function NodesOf(infos: seq<SymbolInfo>, name: string): seq<Node> {
    if infos == [] then []
    else
      var ns, last := NodesOf(infos[..|infos| - 1], name), infos[|infos| - 1];
      if last.symbol == name then ns + [last.node] else ns
  }

  /** The infos of all published messages, in order. */
  function SentInfos(sent: seq<Published>): seq<SymbolInfo> {
    if sent == [] then [] else SentInfos(sent[..|sent| - 1]) + sent[|sent| - 1].msg.infos
  }

  /** Published infos, then those of the message being built. */
  function AllInfos(s: System): seq<SymbolInfo> {
    SentInfos(s.sent) + if s.phase.Passing? then s.phase.infos else []
  }

  /** The windows of a symbol that a message may carry. */
  function Kept(st: Settings, name: string, ns: seq<Node>): seq<Node> {
    if ns == [] then []
    else
      var t, n := Kept(st, name, ns[..|ns| - 1]), ns[|ns| - 1];
      if st.skipEmptyQuote && SymbolInfo(name, n).IsEmpty() then t else t + [n]
  }

  lemma {:induction false} NodesOfConcat(a: seq<SymbolInfo>, b: seq<SymbolInfo>, name: string)
    ensures NodesOf(a + b, name) == NodesOf(a, name) + NodesOf(b, name)
  {
    if b == [] {
      ConcatNothing(a);
    } else {
      NodesOfConcat(a, b[..|b| - 1], name);
      InitOfConcat(a, b);
    }
  }

  lemma KeptMore(st: Settings, name: string, ns: seq<Node>, n: Node)
    ensures Kept(st, name, ns + [n])
         == Kept(st, name, ns) + (if st.skipEmptyQuote && SymbolInfo(name, n).IsEmpty() then [] else [n])
  {
    InitOfAppend(ns, n);
  }

  lemma NodesOfMore(infos: seq<SymbolInfo>, info: SymbolInfo, name: string)
    ensures NodesOf(infos + [info], name) == NodesOf(infos, name) + (if info.symbol == name then [info.node] else [])
  {
    InitOfAppend(infos, info);
  }

  /** What a step adds to the infos. */
  lemma InfosStep(st: Settings, s: System, a: Action)
    requires Enabled(s, a) && st.cfg.period > 0
    ensures AllInfos(Apply(st, s, a)) == AllInfos(s) + Added(st, s, a)
  {
    var s' := Apply(st, s, a);
    if a.Finish? && s.phase.infos != [] {
      assert s'.sent[..|s'.sent| - 1] == s.sent;
    } else if a.Visit? {
      assert s'.sent == s.sent && s'.phase.infos == s.phase.infos + Added(st, s, a);
    }
  }

  function Added(st: Settings, s: System, a: Action): seq<SymbolInfo>
    requires Enabled(s, a)
  {
    if a.Visit? then Lockstep.Share(st, s, a.name) else []
  }

  /** The event of a symbol's own run that a step of the controller is, if any. */
  function Projected(s: System, a: Action, name: string): seq<Event>
    requires Enabled(s, a)
  {
    match a
    case Visit(n) => if n == name then [Tick(s.phase.now, s.phase.born)] else []
    case Deliver(n, q) => if n == name then [PutQuote(q)] else []
    case _ => []
  }

  /** The window that a step detaches from a symbol, if any. */
  function Emits(st: Settings, s: System, a: Action, name: string): seq<Node>
    requires Enabled(s, a)
  {
    if a.Visit? && a.name == name then
      match TimeItr(st.cfg, s.symbols[name], s.phase.now, s.phase.born).out
      case None => []
      case Some(n) => [n]
    else []
  }

  lemma HistoryStep(st: Settings, s: System, a: Action, name: string, h: History)
    requires Enabled(s, a) && st.cfg.period > 0 && name in s.symbols && h.chain == s.symbols[name]
    ensures var s', h' := Apply(st, s, a), RunFrom(st.cfg, h, Projected(s, a, name));
            && s'.symbols.Keys == s.symbols.Keys
            && h'.chain == s'.symbols[name]
            && h'.emitted == h.emitted + Emits(st, s, a, name)
  {
    var ev := Projected(s, a, name);
    if ev != [] {
      assert ev[..0] == [];
      assert RunFrom(st.cfg, h, ev) == Step(st.cfg, h, ev[0]);
    }
  }

  lemma AddedNode(st: Settings, infos: seq<SymbolInfo>, n: Node, other: string, name: string, ns: seq<Node>)
    requires NodesOf(infos, name) == Kept(st, name, ns)
    ensures var skip := st.skipEmptyQuote && SymbolInfo(other, n).IsEmpty();
            NodesOf(infos + (if skip then [] else [SymbolInfo(other, n)]), name)
            == Kept(st, name, ns + (if other == name then [n] else []))
  {
    ConcatNothing(infos);
    ConcatNothing(ns);
    NodesOfMore(infos, SymbolInfo(other, n), name);
    KeptMore(st, name, ns, n);
  }

  lemma AddedNodes(st: Settings, s: System, a: Action, name: string, infos: seq<SymbolInfo>, ns: seq<Node>)
    requires Enabled(s, a) && NodesOf(infos, name) == Kept(st, name, ns)
    ensures NodesOf(infos + Added(st, s, a), name) == Kept(st, name, ns + Emits(st, s, a, name))
  {
    ConcatNothing(infos);
    ConcatNothing(ns);
    if a.Visit? {
      var t := TimeItr(st.cfg, s.symbols[a.name], s.phase.now, s.phase.born);
      if t.out.Some? {
        AddedNode(st, infos, t.out.value, a.name, name, ns);
      }
    }
  }

  /** The events of one symbol's own run, in a sequence of actions from `s`: the
      quotes delivered to it, and a tick for each visit with the clock and born
      time of the pass. */
  function EventsOf(st: Settings, s: System, acts: seq<Action>, name: string): seq<Event>
    requires st.cfg.period > 0 && Perform(st, s, acts).Some?
  {
    if acts == [] then []
    else
      var before := acts[..|acts| - 1];
      EventsOf(st, s, before, name) + Projected(Perform(st, s, before).value, acts[|acts| - 1], name)
  }

  /** A symbol inside any run of the controller goes through its own run of the
      quotes delivered to it and the visits paid to it, and the windows published
      for it, with those in the message being built, are exactly the windows that
      run emitted, in order, less the empty ones if those are skipped. */
  lemma {:induction false} Projection(st: Settings, s: System, acts: seq<Action>, name: string)
    requires st.cfg.period > 0 && Initial(s) && Perform(st, s, acts).Some? && name in s.symbols
    ensures var s', h := Perform(st, s, acts).value, Run(st.cfg, EventsOf(st, s, acts, name));
            && name in s'.symbols && h.chain == s'.symbols[name]
            && NodesOf(AllInfos(s'), name) == Kept(st, name, h.emitted)
  {
    if acts != [] {
      var before, a := acts[..|acts| - 1], acts[|acts| - 1];
      Projection(st, s, before, name);
      var m, es := Perform(st, s, before).value, EventsOf(st, s, before, name);
      var h, ev := Run(st.cfg, es), Projected(m, a, name);
      InfosStep(st, m, a);
      HistoryStep(st, m, a, name, h);
      AddedNodes(st, m, a, name, AllInfos(m), h.emitted);
      RunFromAppend(st.cfg, START, es, ev);
    }
  }

  lemma {:induction false} KeptContains(st: Settings, name: string, ns: seq<Node>, n: Node)
    ensures n in Kept(st, name, ns) <==> n in ns && (st.skipEmptyQuote ==> Lockstep.HoldsSome(n))
  {
    if ns != [] {
      var t, last := ns[..|ns| - 1], ns[|ns| - 1];
      KeptContains(st, name, t, n);
      Lockstep.EmptyHoldsNone(name, last);
      InitAndLast(ns);
    }
  }

  lemma {:induction false} KeptAll(st: Settings, name: string, ns: seq<Node>)
    requires !st.skipEmptyQuote
    ensures Kept(st, name, ns) == ns
  {
    if ns != [] {
      KeptAll(st, name, ns[..|ns| - 1]);
      InitAndLast(ns);
    }
  }

  /** Which windows of a symbol are published: all that its run emitted; or, if
      empty quotes are skipped, all that have some quote, and no other. */
  lemma PublishedExactly(st: Settings, s: System, acts: seq<Action>, name: string, n: Node)
    requires st.cfg.period > 0 && Initial(s) && Perform(st, s, acts).Some? && name in s.symbols
    ensures var published := NodesOf(AllInfos(Perform(st, s, acts).value), name);
            var emitted := Run(st.cfg, EventsOf(st, s, acts, name)).emitted;
            && (!st.skipEmptyQuote ==> published == emitted)
            && (st.skipEmptyQuote ==> (n in published <==> n in emitted && exists k: Kind :: n.Index(k) != []))
  {
    var ns := Run(st.cfg, EventsOf(st, s, acts, name)).emitted;
    Projection(st, s, acts, name);
    KeptContains(st, name, ns, n);
    if !st.skipEmptyQuote {
      KeptAll(st, name, ns);
    }
  }

  // ---------------------------------------------------------------------
  // The first window

  /** The clock reading of the first pass. */
  function FirstReading(acts: seq<Action>): Option<int> {
    if acts == [] then None
    else
      match FirstReading(acts[..|acts| - 1])
      case Some(sec) => Some(sec)
      case None => if acts[|acts| - 1].Begin? then Some(acts[|acts| - 1].sec) else None
  }

  lemma FirstBornMore(es: seq<Event>, e: Event)
    ensures FirstBorn(es + [e])
         == if FirstBorn(es).Some? then FirstBorn(es) else if e.Tick? then Some(e.born) else None
  {
    InitOfAppend(es, e);
  }

  /** While the first pass is not over every symbol is without windows or born at
      `born`; after it all are born then. */
  ghost predicate BornBy(s: System, first: Option<int>) {
    match first
    case None => s.phase == Idle && forall x | x in s.symbols :: s.symbols[x].nodes == []
    case Some(born) =>
      if s.phase.Passing? then
        && (forall x | x in s.symbols && s.symbols[x].nodes == [] :: x in s.phase.todo)
        && ((exists x :: x in s.symbols && s.symbols[x].nodes == []) ==> s.phase.born == born)
      else forall x | x in s.symbols :: s.symbols[x].nodes != []
  }

  lemma BornByStep(st: Settings, s: System, a: Action, first: Option<int>) returns (first': Option<int>)
    requires st.cfg.period > 0 && Enabled(s, a) && BornBy(s, first)
    ensures first' == if first.Some? then first
                      else if a.Begin? then Some(AlignedBirth(st.cfg, a.sec)) else None
    ensures BornBy(Apply(st, s, a), first')
    ensures a.Visit? && s.symbols[a.name].nodes == [] ==> first == Some(s.phase.born)
  {
    first' := if first.Some? then first
              else if a.Begin? then Some(AlignedBirth(st.cfg, a.sec)) else None;
    if a.Deliver? && a.name in s.symbols {
      Lockstep.PutKeepsShape(st.cfg, s.symbols[a.name], a.q);
      assert |Put(st.cfg, s.symbols[a.name], a.q).nodes| == |s.symbols[a.name].nodes|;
    } else if a.Visit? {
      Lockstep.TickKeepsStep(st.cfg, s.symbols[a.name], s.phase.now, s.phase.born);
    }
  }

  function BirthOf(st: Settings, acts: seq<Action>): Option<int>
    requires st.cfg.period > 0
  {
    match FirstReading(acts)
    case None => None
    case Some(sec) => Some(AlignedBirth(st.cfg, sec))
  }

  lemma {:induction false} BornByRun(st: Settings, s: System, acts: seq<Action>, name: string)
    requires st.cfg.period > 0 && Initial(s) && Perform(st, s, acts).Some? && name in s.symbols
    ensures BornBy(Perform(st, s, acts).value, BirthOf(st, acts))
    ensures FirstBorn(EventsOf(st, s, acts, name)) in {None, BirthOf(st, acts)}
  {
    if acts != [] {
      var before, a := acts[..|acts| - 1], acts[|acts| - 1];
      BornByRun(st, s, before, name);
      var m, es := Perform(st, s, before).value, EventsOf(st, s, before, name);
      var first := BornByStep(st, m, a, BirthOf(st, before));
      Projection(st, s, before, name);
      BornRun(st.cfg, es);
      var ev := Projected(m, a, name);
      if ev == [] {
        ConcatNothing(es);
      } else {
        FirstBornMore(es, ev[0]);
        assert es + ev == es + [ev[0]];
      }
    }
  }

  /** The first window a symbol ever has contains the second of the first pass, if
      that is not before the origin; so its k-th window is the k-th period from
      then on. */
  lemma FirstWindow(st: Settings, s: System, acts: seq<Action>, name: string)
    requires st.cfg.period > 0 && Initial(s) && Perform(st, s, acts).Some? && name in s.symbols
    requires Run(st.cfg, EventsOf(st, s, acts, name)).All() != []
    ensures FirstReading(acts).Some?
    ensures var first, sec := Run(st.cfg, EventsOf(st, s, acts, name)).All()[0], FirstReading(acts).value;
            && first.start == AlignedBirth(st.cfg, sec) && first.end == first.start + st.cfg.period
            && (sec >= ORIGIN_UTC_TIME ==> first.start <= sec * 1000 < first.end)
  {
    var es := EventsOf(st, s, acts, name);
    BornByRun(st, s, acts, name);
    Tiling(st.cfg, es);
    BornRun(st.cfg, es);
    Lockstep.BirthAround(st.cfg, FirstReading(acts).value);
  }

  /** The quotes of kind `k` that were delivered to a symbol. */
  function DeliveredTo(acts: seq<Action>, name: string, k: Kind): multiset<Quote> {
    if acts == [] then multiset{}
    else
      var t, a := DeliveredTo(acts[..|acts| - 1], name, k), acts[|acts| - 1];
      if a.Deliver? && a.name == name && a.q.Kind() == k then t + multiset{a.q} else t
  }

  /** The quotes of kind `k` that a run of puts and ticks dropped on arrival. */
  function RefusedOf(cfg: Config, es: seq<Event>, k: Kind): multiset<Quote> {
    if es == [] then multiset{}
    else
      var t, e := RefusedOf(cfg, es[..|es| - 1], k), es[|es| - 1];
      if e.PutQuote? && e.q.Kind() == k && Route(cfg, Run(cfg, es[..|es| - 1]).chain, e.q).Dropped?
      then t + multiset{e.q} else t
  }

  /** A quote that is put is accepted or refused. */
  lemma SplitMore(cfg: Config, es: seq<Event>, e: Event, k: Kind)
    ensures Run(cfg, es + [e]).accepted.Get(k) + RefusedOf(cfg, es + [e], k)
         == Run(cfg, es).accepted.Get(k) + RefusedOf(cfg, es, k) + PutIn([e], k)
  {
    RunOne(cfg, es, e);
    InitOfAppend(es, e);
    SplitStep(cfg, Run(cfg, es), e, k);
  }

  lemma SplitStep(cfg: Config, h: History, e: Event, k: Kind)
    requires |h.chain.nodes| <= 2
    ensures Step(cfg, h, e).accepted.Get(k)
         == if e.PutQuote? && e.q.Kind() == k && !Route(cfg, h.chain, e.q).Dropped?
            then h.accepted.Get(k) + multiset{e.q} else h.accepted.Get(k)
  {
  }

  /** The quotes of kind `k` put by at most one event. */
  function PutIn(ev: seq<Event>, k: Kind): multiset<Quote> {
    if |ev| == 1 && ev[0].PutQuote? && ev[0].q.Kind() == k then multiset{ev[0].q} else multiset{}
  }

  lemma DeliveredMore(acts: seq<Action>, s: System, a: Action, name: string, k: Kind)
    requires Enabled(s, a)
    ensures DeliveredTo(acts + [a], name, k) == DeliveredTo(acts, name, k) + PutIn(Projected(s, a, name), k)
  {
    InitOfAppend(acts, a);
  }

  lemma SplitsStep(cfg: Config, es: seq<Event>, ev: seq<Event>, k: Kind)
    requires |ev| <= 1
    ensures Run(cfg, es + ev).accepted.Get(k) + RefusedOf(cfg, es + ev, k)
         == Run(cfg, es).accepted.Get(k) + RefusedOf(cfg, es, k) + PutIn(ev, k)
  {
    if ev == [] {
      assert es + ev == es;
    } else {
      SplitMore(cfg, es, ev[0], k);
      assert ev == [ev[0]];
    }
  }

  ghost predicate Splits(cfg: Config, delivered: multiset<Quote>, es: seq<Event>, k: Kind) {
    delivered == Run(cfg, es).accepted.Get(k) + RefusedOf(cfg, es, k)
  }

  lemma SplitsMore(cfg: Config, acts: seq<Action>, s: System, a: Action, name: string, es: seq<Event>, k: Kind)
    requires Enabled(s, a) && Splits(cfg, DeliveredTo(acts, name, k), es, k)
    ensures Splits(cfg, DeliveredTo(acts + [a], name, k), es + Projected(s, a, name), k)
  {
    DeliveredMore(acts, s, a, name, k);
    SplitsStep(cfg, es, Projected(s, a, name), k);
  }

  /** Every quote delivered is accepted or refused. */
  lemma {:induction false} DeliveredSplits(st: Settings, s: System, acts: seq<Action>, name: string, k: Kind)
    requires st.cfg.period > 0 && Perform(st, s, acts).Some?
    ensures Splits(st.cfg, DeliveredTo(acts, name, k), EventsOf(st, s, acts, name), k)
  {
    if acts != [] {
      var before, a := acts[..|acts| - 1], acts[|acts| - 1];
      DeliveredSplits(st, s, before, name, k);
      SplitsMore(st.cfg, before, Perform(st, s, before).value, a, name, EventsOf(st, s, before, name), k);
      InitAndLast(acts);
    }
  }

  lemma {:induction false} KeptHeld(st: Settings, name: string, ns: seq<Node>, k: Kind)
    ensures Held(Kept(st, name, ns), k) == Held(ns, k)
  {
    if ns != [] {
      var t, n := ns[..|ns| - 1], ns[|ns| - 1];
      KeptHeld(st, name, t, k);
      var kt := Kept(st, name, t);
      InitOfAppend(kt, n);
      if SymbolInfo(name, n).IsEmpty() {
        assert n.Index(k) == [];
      }
    }
  }

  /** Conservation for the whole controller: in every interleaving of passes and
      deliveries, the quotes delivered to a symbol are, with multiplicity, those
      published for it or in the message being built, those in its windows and
      pending, those refused on arrival, and those its drains threw away. */
  lemma DeliveredIsAccounted(st: Settings, s: System, acts: seq<Action>, name: string, k: Kind)
    requires st.cfg.period > 0 && Initial(s) && Perform(st, s, acts).Some? && name in s.symbols
    ensures var s', es := Perform(st, s, acts).value, EventsOf(st, s, acts, name);
            && name in s'.symbols
            && DeliveredTo(acts, name, k)
               == Held(NodesOf(AllInfos(s'), name), k) + Held(s'.symbols[name].nodes, k)
                  + multiset(s'.symbols[name].pending.Get(k))
                  + Run(st.cfg, es).discarded.Get(k) + RefusedOf(st.cfg, es, k)
  {
    var es := EventsOf(st, s, acts, name);
    Projection(st, s, acts, name);
    DeliveredSplits(st, s, acts, name, k);
    Conservation(st.cfg, es, k);
    KeptHeld(st, name, Run(st.cfg, es).emitted, k);
  }

  lemma {:induction false} KeptHits(st: Settings, name: string, ns: seq<Node>, k: Kind, id: Id, time: int)
    ensures TotalHits(Kept(st, name, ns), k, id, time) == TotalHits(ns, k, id, time)
  {
    if ns != [] {
      var t, n := ns[..|ns| - 1], ns[|ns| - 1];
      KeptHits(st, name, t, k, id, time);
      var kt := Kept(st, name, t);
      InitOfAppend(kt, n);
      if SymbolInfo(name, n).IsEmpty() {
        assert n.Index(k) == [];
      }
    }
  }

  /** Over all messages published in any run of the controller, a trade or
      increment of a given id and time appears at most twice for its symbol. */
  lemma PublishedAtMostTwice(st: Settings, ss: seq<System>, n: nat, name: string, k: Kind, id: Id, time: int)
    requires Behaviour(st, ss) && n < |ss| && name in ss[0].symbols
    requires st.cfg.drain.RemoveThenNext? && k != Snapshot
    ensures TotalHits(NodesOf(SentInfos(ss[n].sent), name), k, id, time) <= 2
  {
    var acts := ActionsOf(st, ss, n);
    Projection(st, ss[0], acts, name);
    var es := EventsOf(st, ss[0], acts, name);
    var h := Run(st.cfg, es);
    KeptHits(st, name, h.emitted, k, id, time);
    Tiling(st.cfg, es);
    if FirstBorn(es).Some? {
      AtMostTwice(st.cfg, es, k, id, time);
    }
    var draft := if ss[n].phase.Passing? then ss[n].phase.infos else [];
    NodesOfConcat(SentInfos(ss[n].sent), draft, name);
    HitsConcat(NodesOf(SentInfos(ss[n].sent), name), NodesOf(draft, name), k, id, time);
  }

  lemma {:induction false} HitsConcat(a: seq<Node>, b: seq<Node>, k: Kind, id: Id, time: int)
    ensures TotalHits(a + b, k, id, time) == TotalHits(a, k, id, time) + TotalHits(b, k, id, time)
  {
    if b == [] {
      ConcatNothing(a);
    } else {
      HitsConcat(a, b[..|b| - 1], k, id, time);
      InitOfConcat(a, b);
    }
  }

  /** The published messages as the websocket server enqueues them. */
  ghost function Enqueued(sent: seq<Published>): seq<Handoff.Msg> {
    seq(|sent|, i requires 0 <= i < |sent| => Handoff.Msg(sent[i].msg.ts, sent[i].msg.period))
  }

  /** What the controller publishes has rising timestamps, which is what the
      replay of cached messages relies on. */
  lemma PublishedRising(st: Settings, ss: seq<System>, n: nat)
    requires Behaviour(st, ss) && n < |ss|
    ensures HandoffResults.Rising(Enqueued(ss[n].sent))
  {
    Lockstep.MessagesInOrder(st, ss, n);
    var ts := Lockstep.Stamps(ss[n].sent);
    assert forall i | 0 <= i < |ts| :: ts[i] == Enqueued(ss[n].sent)[i].ts;
  }
}
