/** The per-symbol window chain as values: what `put_*`, `timeItr` and
    `detach` do to it, and the history a run of them leaves behind. */
module Windows {
  import opened Quotes
  import opened GoList

  /** How `detach` walks a pending list. `RemoveThenNext` is the code as it
      stands; `SaveNext` fetches the successor before removing. */
  datatype Drain = RemoveThenNext | SaveNext

  datatype Config = Config(period: int, detachTime: int, drain: Drain)

  /** How far past the back window an early quote may lie, in milliseconds. */
  const PENDING_SPAN := 10 * 1000

  /** One kind of data in one window: the dedup map and the index that is
      published. */
  datatype Lane = Lane(seen: map<Id, Quote>, index: seq<Quote>) {
    function Add(q: Quote): Lane {
      Lane(seen[q.Id() := q], index + [q])
    }
  }

  datatype Node = Node(start: int, end: int, lanes: Trio<Lane>) {
    function Index(k: Kind): seq<Quote> { lanes.Get(k).index }

    function Seen(k: Kind): set<Id> { lanes.Get(k).seen.Keys }

    function Store(q: Quote): Node {
      this.(lanes := lanes.Set(q.Kind(), lanes.Get(q.Kind()).Add(q)))
    }
  }

  function NewNode(start: int, period: int): Node {
    var lane := Lane(map[], []);
    Node(start, start + period, Trio(lane, lane, lane))
  }

  /** `linked` and the three pending lists of a symbol. */
  datatype Chain = Chain(nodes: seq<Node>, pending: Trio<seq<Quote>>)

  const EMPTY_CHAIN := Chain([], Trio([], [], []))

  // ---------------------------------------------------------------------
  // put_trade, put_inc, put_snapshot

  datatype Place = Dropped | InNode(at: nat) | Parked

  /** The map the front branch consults: `put_snapshot` looks among the ids of
      trades. */
  function FrontDedupKind(k: Kind): Kind {
    if k == Snapshot then Trade else k
  }

  function Route(cfg: Config, c: Chain, q: Quote): (p: Place)
    ensures p.InNode? ==> p.at < |c.nodes|
  {
    var k := q.Kind();
    if |c.nodes| == 0 then Dropped
    else if |c.nodes| == 1 then
      var back := c.nodes[0];
      if q.time < back.start || q.time >= back.end then Dropped
      else if q.Id() in back.Seen(k) then Dropped
      else InNode(0)
    else
      var front, back := c.nodes[0], c.nodes[|c.nodes| - 1];
      if q.time < front.start - cfg.period then Dropped
      else if q.time >= back.end + PENDING_SPAN then Dropped
      else if q.time < front.end then
        if q.Id() in front.Seen(FrontDedupKind(k)) then Dropped else InNode(0)
      else if back.start <= q.time < back.end then
        if q.Id() in back.Seen(k) then Dropped else InNode(|c.nodes| - 1)
      else Parked
  }

  function Put(cfg: Config, c: Chain, q: Quote): Chain {
    match Route(cfg, c, q)
    case Dropped => c
    case InNode(i) => c.(nodes := c.nodes[i := c.nodes[i].Store(q)])
    case Parked => c.(pending := c.pending.Set(q.Kind(), c.pending.Get(q.Kind()) + [q]))
  }

  // ---------------------------------------------------------------------
  // detach

  predicate Within(q: Quote, lo: int, hi: int) {
    lo <= q.time < hi
  }

  /** Position of the first quote in [lo, hi); `|s|` when there is none. */
  function FirstWithin(s: seq<Quote>, lo: int, hi: int): (i: nat)
    ensures i <= |s|
    ensures i < |s| ==> Within(s[i], lo, hi)
    ensures forall k | 0 <= k < i :: !Within(s[k], lo, hi)
  {
    if s == [] || Within(s[0], lo, hi) then 0 else 1 + FirstWithin(s[1..], lo, hi)
  }

  /** The quotes of `s` that lie in [lo, hi), in order, and those that do not. */
  function Select(s: seq<Quote>, lo: int, hi: int, inside: bool): seq<Quote> {
    if s == [] then []
    else
      var t := Select(s[..|s| - 1], lo, hi, inside);
      if Within(s[|s| - 1], lo, hi) == inside then t + [s[|s| - 1]] else t
  }

  /** What a walk over a pending list removed, and what it left. */
  datatype Drained = Drained(moved: seq<Quote>, rest: seq<Quote>)

  function DrainFirst(s: seq<Quote>, lo: int, hi: int): Drained {
    var i := FirstWithin(s, lo, hi);
    if i == |s| then Drained([], s) else Drained([s[i]], s[..i] + s[i + 1..])
  }

  function DrainAll(s: seq<Quote>, lo: int, hi: int): Drained {
    Drained(Select(s, lo, hi, true), Select(s, lo, hi, false))
  }

  function DrainWith(d: Drain, s: seq<Quote>, lo: int, hi: int): Drained {
    match d
    case RemoveThenNext => DrainFirst(s, lo, hi)
    case SaveNext => DrainAll(s, lo, hi)
  }

  /** The quotes of `s` whose id is among `ids`, or is not, in order. */
  function Known(s: seq<Quote>, ids: set<Id>, known: bool): seq<Quote> {
    if s == [] then []
    else
      var t := Known(s[..|s| - 1], ids, known);
      if (s[|s| - 1].Id() in ids) == known then t + [s[|s| - 1]] else t
  }

  /** Moved quotes go to the index unless the map has their id; the map itself
      is not touched. */
  function Absorb(lane: Lane, moved: seq<Quote>): Lane {
    lane.(index := lane.index + Known(moved, lane.seen.Keys, false))
  }

  /** A detached window, what remains, and the drained quotes thrown away as
      duplicates. */
  datatype Detached = Detached(out: Node, chain: Chain, discarded: Trio<seq<Quote>>)

  function DrainedOf(cfg: Config, c: Chain, k: Kind): Drained
    requires |c.nodes| > 0
  {
    DrainWith(cfg.drain, c.pending.Get(k), c.nodes[0].start, c.nodes[0].end)
  }

  function Detach(cfg: Config, c: Chain): (d: Detached)
    requires |c.nodes| == 2
  {
    var pn, pnx := c.nodes[0], c.nodes[1];
    var t, i, s := DrainedOf(cfg, c, Trade), DrainedOf(cfg, c, Increment), DrainedOf(cfg, c, Snapshot);
    Detached(
      pn.(lanes := Trio(Absorb(pn.lanes.trade, t.moved),
                        Absorb(pn.lanes.increment, i.moved),
                        Absorb(pn.lanes.snapshot, s.moved))),
      Chain([pnx, NewNode(pnx.end, cfg.period)], Trio(t.rest, i.rest, s.rest)),
      Trio(Known(t.moved, pn.Seen(Trade), true),
           Known(i.moved, pn.Seen(Increment), true),
           Known(s.moved, pn.Seen(Snapshot), true)))
  }

  // ---------------------------------------------------------------------
  // timeItr

  datatype Ticked = Ticked(chain: Chain, out: Option<Node>, discarded: Trio<seq<Quote>>)

  const NOTHING: Trio<seq<Quote>> := Trio([], [], [])

  /** The chain after `timeItr` has made sure there are two windows. */
  function Extend(cfg: Config, c: Chain): Chain {
    if |c.nodes| == 1 then
      c.(nodes := [c.nodes[0], NewNode(c.nodes[0].end, cfg.period)])
    else c
  }

  function TimeItr(cfg: Config, c: Chain, now: int, born: int): Ticked
    requires |c.nodes| <= 2
  {
    if |c.nodes| == 0 then Ticked(c.(nodes := [NewNode(born, cfg.period)]), None, NOTHING)
    else
      var c' := Extend(cfg, c);
      if now > c'.nodes[0].end + cfg.detachTime then
        var d := Detach(cfg, c');
        Ticked(d.chain, Some(d.out), d.discarded)
      else Ticked(c', None, NOTHING)
  }

  // ---------------------------------------------------------------------
  // Runs of puts and ticks

  datatype Event = PutQuote(q: Quote) | Tick(now: int, born: int)

  /** A chain together with everything that happened to it. `accepted` counts
      the quotes that were not dropped on arrival. */
  datatype History = History(chain: Chain,
                             emitted: seq<Node>,
                             accepted: Trio<multiset<Quote>>,
                             discarded: Trio<multiset<Quote>>) {
    /** Every window there ever was, oldest first. */
    function All(): seq<Node> { emitted + chain.nodes }
  }

  const START := History(EMPTY_CHAIN, [],
                         Trio(multiset{}, multiset{}, multiset{}),
                         Trio(multiset{}, multiset{}, multiset{}))

  function Accept(a: Trio<multiset<Quote>>, q: Quote): Trio<multiset<Quote>> {
    a.Set(q.Kind(), a.Get(q.Kind()) + multiset{q})
  }

  function Discard(a: Trio<multiset<Quote>>, d: Trio<seq<Quote>>): Trio<multiset<Quote>> {
    Trio(a.trade + multiset(d.trade),
         a.increment + multiset(d.increment),
         a.snapshot + multiset(d.snapshot))
  }

  function Step(cfg: Config, h: History, e: Event): (h': History)
    requires |h.chain.nodes| <= 2
    ensures |h'.chain.nodes| <= 2
  {
    match e
    case PutQuote(q) =>
      h.(chain := Put(cfg, h.chain, q),
         accepted := if Route(cfg, h.chain, q).Dropped? then h.accepted else Accept(h.accepted, q))
    case Tick(now, born) =>
      var t := TimeItr(cfg, h.chain, now, born);
      h.(chain := t.chain,
         emitted := h.emitted + (match t.out case None => [] case Some(n) => [n]),
         discarded := Discard(h.discarded, t.discarded))
  }

  function RunFrom(cfg: Config, h: History, es: seq<Event>): (h': History)
    requires |h.chain.nodes| <= 2
    ensures |h'.chain.nodes| <= 2
  {
    if es == [] then h
    else Step(cfg, RunFrom(cfg, h, es[..|es| - 1]), es[|es| - 1])
  }

  function Run(cfg: Config, es: seq<Event>): History {
    RunFrom(cfg, START, es)
  }
}
