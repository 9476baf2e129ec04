/** The exchange rate limiter: counters charged one after the other by
    `Consume`, and reset by the clock. */
module RateLimit {
  import opened Basics
  import opened GoList

  datatype LimitConfig = LimitConfig(interval: int, count: int, limit: int, current: int) {
    function Charge(n: int): LimitConfig { this.(count := count + n) }
  }

  /** The counters for orders and for request weight, by unit of time. */
  datatype Limits = Limits(order: map<string, LimitConfig>, weight: map<string, LimitConfig>)

  datatype Verdict = Accepted | WeightMinute | WeightSecond | OrderMinute | OrderSecond

  datatype Outcome = Outcome(limits: Limits, verdict: Verdict)

  /** A counter that is absent refuses nothing. */
  predicate Refuses(m: map<string, LimitConfig>, unit: string, n: int) {
    unit in m && m[unit].count + n > m[unit].limit
  }

  function Charged(m: map<string, LimitConfig>, unit: string, n: int): map<string, LimitConfig> {
    if unit in m then m[unit := m[unit].Charge(n)] else m
  }

  /** Charges made before a refusal stay. The per-second order check uses the
      per-second weight counter, and order checks ask for room for one. */
  function Consumed(l: Limits, weight: int, orders: int): Outcome {
    if weight > 0 && Refuses(l.weight, "MINUTE", weight) then Outcome(l, WeightMinute)
    else
      var l1 := if weight > 0 then l.(weight := Charged(l.weight, "MINUTE", weight)) else l;
      if weight > 0 && Refuses(l1.weight, "SECOND", weight) then Outcome(l1, WeightSecond)
      else
        var l2 := if weight > 0 then l1.(weight := Charged(l1.weight, "SECOND", weight)) else l1;
        if orders > 0 && Refuses(l2.order, "MINUTE", 1) then Outcome(l2, OrderMinute)
        else
          var l3 := if orders > 0 then l2.(order := Charged(l2.order, "MINUTE", orders)) else l2;
          if orders > 0 && Refuses(l3.weight, "SECOND", 1) then Outcome(l3, OrderSecond)
          else
            Outcome(if orders > 0 then l3.(weight := Charged(l3.weight, "SECOND", orders)) else l3, Accepted)
  }

  /** The reset of one counter; nothing when it divides by zero. */
  function ResetOne(m: map<string, LimitConfig>, unit: string, seconds: int, now: nat)
    : Option<map<string, LimitConfig>>
  {
    if unit !in m then Some(m)
    else
      var tv := m[unit];
      var interval := tv.interval * seconds;
      if interval == 0 then None
      else Some(m[unit := tv.(count := if now % interval == 0 then 0 else tv.count,
                              current := now / interval * interval)])
  }

  /** Counters after a turn, and whether it came to its end. */
  datatype Turn<T> = Turn(counters: T, ok: bool)

  function ResetAll(m: map<string, LimitConfig>, now: nat): Turn<map<string, LimitConfig>> {
    match ResetOne(m, "SECOND", 1, now)
    case None => Turn(m, false)
    case Some(m1) =>
      match ResetOne(m1, "MINUTE", 60, now)
      case None => Turn(m1, false)
      case Some(m2) => Turn(m2, "HOUR" !in m2)
  }

  /** One turn of the clock loop at second `now` of the day. It panics half way
      on a counter with a zero interval, and on hourly limits. */
  function Reset(l: Limits, now: nat): Turn<Limits> {
    var o := ResetAll(l.order, now);
    if !o.ok then Turn(l.(order := o.counters), false)
    else
      var w := ResetAll(l.weight, now);
      Turn(Limits(o.counters, w.counters), w.ok)
  }

  class RateLimitManager {
    var orderIntervals: map<string, LimitConfig>
    var reqWeightIntervals: map<string, LimitConfig>

    function View(): Limits
      reads this
    {
      Limits(orderIntervals, reqWeightIntervals)
    }

    constructor ()
      ensures View() == Limits(map[], map[])
    {
      orderIntervals, reqWeightIntervals := map[], map[];
    }

    method Consume(weight: int, limit: int) returns (v: Verdict)
      modifies this
      ensures Outcome(View(), v) == Consumed(old(View()), weight, limit)
    {
      if weight > 0 {
        if "MINUTE" in reqWeightIntervals {
          var tv := reqWeightIntervals["MINUTE"];
          if tv.count + weight > tv.limit {
            return WeightMinute;
          }
          reqWeightIntervals := reqWeightIntervals["MINUTE" := tv.(count := tv.count + weight)];
        }
        if "SECOND" in reqWeightIntervals {
          var tv := reqWeightIntervals["SECOND"];
          if tv.count + weight > tv.limit {
            return WeightSecond;
          }
          reqWeightIntervals := reqWeightIntervals["SECOND" := tv.(count := tv.count + weight)];
        }
      }
      if limit > 0 {
        if "MINUTE" in orderIntervals {
          var tv := orderIntervals["MINUTE"];
          if tv.count + 1 > tv.limit {
            return OrderMinute;
          }
          orderIntervals := orderIntervals["MINUTE" := tv.(count := tv.count + limit)];
        }
        if "SECOND" in reqWeightIntervals {
          var tv := reqWeightIntervals["SECOND"];
          if tv.count + 1 > tv.limit {
            return OrderSecond;
          }
          reqWeightIntervals := reqWeightIntervals["SECOND" := tv.(count := tv.count + limit)];
        }
      }
      return Accepted;
    }

    /** One turn of the loop in `Open`; false if it panics, which leaves the
        counters as they are at that moment. */
    method TurnClock(now: nat) returns (ok: bool)
      modifies this
      ensures Turn(View(), ok) == Reset(old(View()), now)
    {
      if "SECOND" in orderIntervals {
        var tv := orderIntervals["SECOND"];
        var intv := tv.interval * 1;
        if intv == 0 {
          return false;
        }
        if now % intv == 0 {
          tv := tv.(count := 0);
        }
        orderIntervals := orderIntervals["SECOND" := tv.(current := now / intv * intv)];
      }
      if "MINUTE" in orderIntervals {
        var tv := orderIntervals["MINUTE"];
        var intv := tv.interval * 60;
        if intv == 0 {
          return false;
        }
        if now % intv == 0 {
          tv := tv.(count := 0);
        }
        orderIntervals := orderIntervals["MINUTE" := tv.(current := now / intv * intv)];
      }
      if "HOUR" in orderIntervals {
        return false;
      }
      if "SECOND" in reqWeightIntervals {
        var tv := reqWeightIntervals["SECOND"];
        var intv := tv.interval * 1;
        if intv == 0 {
          return false;
        }
        if now % intv == 0 {
          tv := tv.(count := 0);
        }
        reqWeightIntervals := reqWeightIntervals["SECOND" := tv.(current := now / intv * intv)];
      }
      if "MINUTE" in reqWeightIntervals {
        var tv := reqWeightIntervals["MINUTE"];
        var intv := tv.interval * 60;
        if intv == 0 {
          return false;
        }
        if now % intv == 0 {
          tv := tv.(count := 0);
        }
        reqWeightIntervals := reqWeightIntervals["MINUTE" := tv.(current := now / intv * intv)];
      }
      if "HOUR" in reqWeightIntervals {
        return false;
      }
      return true;
    }
  }

  // ---------------------------------------------------------------------
  // Runs

  datatype Event = Call(weight: int, orders: int) | Clock(now: nat)

  /** The limits with the minute's weight so far: since the last reset, of calls
      that were accepted and of calls that were refused after the minute counter
      was charged; and since the start, of the former and of both. */
  datatype Book = Book(limits: Limits, accepted: int, wasted: int, granted: int, charged: int)

  function Positive(n: int): nat { if n > 0 then n else 0 }

  /** The next state of the books; nothing if the clock loop panics. */
  function Enter(b: Book, e: Event): Option<Book> {
    match e
    case Call(w, n) =>
      var o := Consumed(b.limits, w, n);
      Some(match o.verdict
           case Accepted =>
             Book(o.limits, b.accepted + Positive(w), b.wasted, b.granted + Positive(w), b.charged + Positive(w))
           case WeightMinute => b.(limits := o.limits)
           case _ => b.(limits := o.limits, wasted := b.wasted + Positive(w), charged := b.charged + Positive(w)))
    case Clock(now) =>
      var t := Reset(b.limits, now);
      if !t.ok then None
      else if "MINUTE" in b.limits.weight && now % (b.limits.weight["MINUTE"].interval * 60) == 0 then
        Some(b.(limits := t.counters, accepted := 0, wasted := 0))
      else Some(b.(limits := t.counters))
  }

  function Keep(b: Book, es: seq<Event>): Option<Book> {
    if es == [] then Some(b)
    else
      match Keep(b, es[..|es| - 1])
      case None => None
      case Some(m) => Enter(m, es[|es| - 1])
  }

  /** Counters as the exchange's limits set them up. */
  ghost predicate Fresh(b: Book) {
    && b.accepted == b.wasted == b.granted == b.charged == 0
    && (forall u | u in b.limits.order :: b.limits.order[u].count == 0)
    && (forall u | u in b.limits.weight :: b.limits.weight[u].count == 0)
  }

  ghost predicate Bounded(m: map<string, LimitConfig>, unit: string, over: int) {
    unit in m ==> m[unit].count <= Positive(m[unit].limit + over)
  }

  /** `most` bounds the orders of one call. */
  ghost predicate Balanced(b: Book, most: int) {
    && b.accepted >= 0 && b.wasted >= 0
    && ("MINUTE" in b.limits.weight ==> b.limits.weight["MINUTE"].count == b.accepted + b.wasted)
    && Bounded(b.limits.weight, "MINUTE", 0)
    && Bounded(b.limits.weight, "SECOND", most - 1)
    && Bounded(b.limits.order, "MINUTE", most - 1)
    && ("SECOND" in b.limits.order ==> b.limits.order["SECOND"].count == 0)
  }

  lemma CallBalanced(b: Book, weight: int, orders: int, most: int)
    requires Balanced(b, most) && most >= 1 && orders <= most
    ensures Balanced(Enter(b, Call(weight, orders)).value, most)
  {
  }

  lemma ClockBalanced(b: Book, now: nat, most: int)
    requires Balanced(b, most) && Enter(b, Clock(now)).Some?
    ensures Balanced(Enter(b, Clock(now)).value, most)
  {
  }

  /** Over any run, in any mix of calls and clock turns: the minute's weight
      counter is the weight of the calls accepted since its last reset plus that
      of calls refused by a later check, and never exceeds its limit; the
      counters that orders are charged to exceed theirs by less than the orders
      of one call; and the per-second order counter is never charged at all. */
  lemma {:induction false} RateAccounting(b: Book, es: seq<Event>, most: int)
    requires Fresh(b) && most >= 1 && Keep(b, es).Some?
    requires forall e | e in es && e.Call? :: e.orders <= most
    ensures Balanced(Keep(b, es).value, most)
  {
    if es != [] {
      var before := es[..|es| - 1];
      assert forall e | e in before :: e in es;
      RateAccounting(b, before, most);
      match es[|es| - 1]
      case Call(weight, orders) =>
        assert Call(weight, orders) in es;
        CallBalanced(Keep(b, before).value, weight, orders, most);
      case Clock(now) => ClockBalanced(Keep(b, before).value, now, most);
    }
  }

  /** Room for `n` more on a counter that may be absent. */
  predicate Room(m: map<string, LimitConfig>, unit: string, n: int) {
    unit in m ==> m[unit].count + n <= m[unit].limit
  }

  /** When a call is accepted, in terms of the counters before it: the weight
      must fit the weight counters, there must be room for one more order in the
      minute's, and room for the weight and one more in the second's weight. */
  lemma AcceptedExactly(l: Limits, weight: int, orders: int)
    ensures Consumed(l, weight, orders).verdict == Accepted <==>
            && (weight > 0 ==> Room(l.weight, "MINUTE", weight) && Room(l.weight, "SECOND", weight))
            && (orders > 0 ==> Room(l.order, "MINUTE", 1) && Room(l.weight, "SECOND", Positive(weight) + 1))
  {
  }

  /** And why a call is refused, in the order in which the counters are asked. */
  lemma VerdictExactly(l: Limits, weight: int, orders: int)
    ensures var v := Consumed(l, weight, orders).verdict;
            var minute := weight > 0 ==> Room(l.weight, "MINUTE", weight);
            var second := weight > 0 ==> Room(l.weight, "SECOND", weight);
            var order := orders > 0 ==> Room(l.order, "MINUTE", 1);
            var last := orders > 0 ==> Room(l.weight, "SECOND", Positive(weight) + 1);
            && (v == WeightMinute <==> !minute)
            && (v == WeightSecond <==> minute && !second)
            && (v == OrderMinute <==> minute && second && !order)
            && (v == OrderSecond <==> minute && second && order && !last)
            && (v == Accepted <==> minute && second && order && last)
  {
  }

  /** What a call of this verdict is charged: each check that passes charges its
      counter at once, and the last one charges orders as weight. */
  function OrderCharge(v: Verdict, unit: string, orders: int): nat {
    if unit == "MINUTE" && v in {OrderSecond, Accepted} then Positive(orders) else 0
  }

  function WeightCharge(v: Verdict, unit: string, weight: int, orders: int): nat {
    if unit == "MINUTE" then if v == WeightMinute then 0 else Positive(weight)
    else if unit == "SECOND" then
      if v in {WeightMinute, WeightSecond} then 0
      else Positive(weight) + if v == Accepted then Positive(orders) else 0
    else 0
  }

  /** Every counter after a call, accepted or refused, by the counters before. */
  lemma OrdersCharged(l: Limits, weight: int, orders: int, u: string)
    ensures var o := Consumed(l, weight, orders);
            && o.limits.order.Keys == l.order.Keys
            && (u in l.order ==>
                  o.limits.order[u] == l.order[u].(count := l.order[u].count + OrderCharge(o.verdict, u, orders)))
  {
  }

  lemma WeightCharged(l: Limits, weight: int, orders: int, u: string)
    ensures var o := Consumed(l, weight, orders);
            && o.limits.weight.Keys == l.weight.Keys
            && (u in l.weight ==>
                  o.limits.weight[u]
                  == l.weight[u].(count := l.weight[u].count + WeightCharge(o.verdict, u, weight, orders)))
  {
  }

  // ---------------------------------------------------------------------
  // What a turn of the clock does

  function SecondsOf(unit: string): int {
    if unit == "MINUTE" then 60 else 1
  }

  ghost predicate TurnedOver(m: map<string, LimitConfig>, m': map<string, LimitConfig>, now: nat) {
    && m'.Keys == m.Keys
    && forall u | u in m ::
         var p := m[u].interval * SecondsOf(u);
         && m'[u].interval == m[u].interval && m'[u].limit == m[u].limit
         && if u in {"SECOND", "MINUTE"} && p != 0 then
              && m'[u].count == (if now % p == 0 then 0 else m[u].count)
              && m'[u].current == now - now % p
            else m'[u] == m[u]
  }

  predicate CanTurn(m: map<string, LimitConfig>) {
    "HOUR" !in m && forall u | u in m && u in {"SECOND", "MINUTE"} :: m[u].interval != 0
  }

  /** The current interval began a whole number of intervals ago. */
  lemma ResetFacts(m: map<string, LimitConfig>, unit: string, seconds: int, now: nat)
    requires seconds > 0
    ensures ResetOne(m, unit, seconds, now)
         == if unit !in m then Some(m)
            else if m[unit].interval == 0 then None
            else
              var tv, p := m[unit], m[unit].interval * seconds;
              Some(m[unit := tv.(count := if now % p == 0 then 0 else tv.count, current := now - now % p)])
  {
    if unit in m && m[unit].interval != 0 {
      var p := m[unit].interval * seconds;
      assert p != 0 && now == now / p * p + now % p;
    }
  }

  lemma TurnOne(m: map<string, LimitConfig>, now: nat)
    ensures ResetAll(m, now).ok <==> CanTurn(m)
    ensures ResetAll(m, now).ok ==> TurnedOver(m, ResetAll(m, now).counters, now)
  {
    ResetFacts(m, "SECOND", 1, now);
    var m1 := ResetOne(m, "SECOND", 1, now);
    if m1.Some? {
      ResetFacts(m1.value, "MINUTE", 60, now);
    }
  }

  /** A turn of the clock comes to its end unless there is an hourly limit or a
      zero interval. Then the counters whose interval begins at `now` are zero,
      all others as before, and each interval's begin is noted. */
  lemma TurnExactly(l: Limits, now: nat)
    ensures Reset(l, now).ok <==> CanTurn(l.order) && CanTurn(l.weight)
    ensures Reset(l, now).ok ==>
              var l' := Reset(l, now).counters;
              TurnedOver(l.order, l'.order, now) && TurnedOver(l.weight, l'.weight, now)
  {
    TurnOne(l.order, now);
    TurnOne(l.weight, now);
  }

  // ---------------------------------------------------------------------
  // Every counter over runs

  /** The clock turn resets a counter of this configuration. */
  predicate Resets(tv: LimitConfig, unit: string, now: nat) {
    unit in {"SECOND", "MINUTE"} && tv.interval != 0 && now % (tv.interval * SecondsOf(unit)) == 0
  }

  /** All that calls were charged on the counter `unit` of orders, or of weight,
      since its last reset. */
  function SinceReset(b: Book, es: seq<Event>, unit: string, ofOrders: bool): int
    requires Keep(b, es).Some?
  {
    if es == [] then 0
    else
      var before := es[..|es| - 1];
      var sum, l := SinceReset(b, before, unit, ofOrders), Keep(b, before).value.limits;
      match es[|es| - 1]
      case Call(w, n) =>
        var v := Consumed(l, w, n).verdict;
        sum + if ofOrders then OrderCharge(v, unit, n) else WeightCharge(v, unit, w, n)
      case Clock(now) =>
        var m := if ofOrders then l.order else l.weight;
        if unit in m && Resets(m[unit], unit, now) then 0 else sum
  }

  ghost predicate CountsSince(b: Book, es: seq<Event>)
    requires Keep(b, es).Some?
  {
    var l := Keep(b, es).value.limits;
    && (forall u | u in l.order :: l.order[u].count == SinceReset(b, es, u, true))
    && (forall u | u in l.weight :: l.weight[u].count == SinceReset(b, es, u, false))
  }

  lemma CountsCall(b: Book, es: seq<Event>, w: int, n: int)
    requires Keep(b, es).Some? && CountsSince(b, es)
    ensures Keep(b, es + [Call(w, n)]).Some? && CountsSince(b, es + [Call(w, n)])
  {
    var l, es' := Keep(b, es).value.limits, es + [Call(w, n)];
    InitOfAppend(es, Call(w, n));
    OrdersCharged(l, w, n, "MINUTE");
    WeightCharged(l, w, n, "MINUTE");
    var l' := Keep(b, es').value.limits;
    forall u | u in l'.order ensures l'.order[u].count == SinceReset(b, es', u, true) {
      OrdersCharged(l, w, n, u);
    }
    forall u | u in l'.weight ensures l'.weight[u].count == SinceReset(b, es', u, false) {
      WeightCharged(l, w, n, u);
    }
  }

  lemma CountsClock(b: Book, es: seq<Event>, now: nat)
    requires Keep(b, es + [Clock(now)]).Some? && Keep(b, es).Some? && CountsSince(b, es)
    ensures CountsSince(b, es + [Clock(now)])
  {
    InitOfAppend(es, Clock(now));
    TurnExactly(Keep(b, es).value.limits, now);
  }

  /** Over any run, in any mix of calls and clock turns, every counter is exactly
      what calls have been charged on it since its last reset: weight, and on the
      per-second weight counter also the orders of accepted calls. */
  lemma {:induction false} CountersExactly(b: Book, es: seq<Event>)
    requires Fresh(b) && Keep(b, es).Some?
    ensures CountsSince(b, es)
  {
    if es != [] {
      var before, e := es[..|es| - 1], es[|es| - 1];
      CountersExactly(b, before);
      InitAndLast(es);
      match e
      case Call(w, n) => CountsCall(b, before, w, n);
      case Clock(now) => CountsClock(b, before, now);
    }
  }

  // ---------------------------------------------------------------------
  // When the weight limit holds over a stretch of time

  /** A clock turn that resets the minute's weight although some is charged. */
  ghost predicate Forgets(b: Book, e: Event) {
    && e.Clock? && "MINUTE" in b.limits.weight && b.limits.weight["MINUTE"].interval != 0
    && e.now % (b.limits.weight["MINUTE"].interval * 60) == 0 && b.limits.weight["MINUTE"].count != 0
  }

  ghost function Forgettings(b: Book, es: seq<Event>): nat
    requires Keep(b, es).Some?
  {
    if es == [] then 0
    else
      var before := es[..|es| - 1];
      Forgettings(b, before) + if Forgets(Keep(b, before).value, es[|es| - 1]) then 1 else 0
  }

  /** The minute's weight counter is there and zero, and the books start. */
  ghost predicate Opened(b: Book) {
    "MINUTE" in b.limits.weight && b.limits.weight["MINUTE"].count == b.granted == b.charged == 0
  }

  /** What a stretch with `forgotten` forgetful resets keeps. */
  ghost predicate Ledger(b: Book, limit: int, forgotten: nat) {
    && "MINUTE" in b.limits.weight && b.limits.weight["MINUTE"].limit == limit
    && var count := b.limits.weight["MINUTE"].count;
       && 0 <= count <= Positive(limit) && 0 <= b.granted <= b.charged
       && count <= b.charged <= count + forgotten * Positive(limit)
       && (forgotten > 0 ==> count < b.charged)
  }

  lemma LedgerCall(b: Book, limit: int, forgotten: nat, w: int, n: int)
    requires Ledger(b, limit, forgotten)
    ensures Ledger(Enter(b, Call(w, n)).value, limit, forgotten)
  {
  }

  lemma LedgerClock(b: Book, limit: int, forgotten: nat, now: nat)
    requires Ledger(b, limit, forgotten) && Enter(b, Clock(now)).Some?
    ensures Ledger(Enter(b, Clock(now)).value, limit, forgotten + if Forgets(b, Clock(now)) then 1 else 0)
  {
    TurnExactly(b.limits, now);
    OneMore(forgotten, Positive(limit));
  }

  lemma {:induction false} LedgerRun(b: Book, es: seq<Event>)
    requires Opened(b) && Keep(b, es).Some?
    ensures Ledger(Keep(b, es).value, b.limits.weight["MINUTE"].limit, Forgettings(b, es))
  {
    if es != [] {
      var before, limit := es[..|es| - 1], b.limits.weight["MINUTE"].limit;
      LedgerRun(b, before);
      match es[|es| - 1]
      case Call(w, n) => LedgerCall(Keep(b, before).value, limit, Forgettings(b, before), w, n);
      case Clock(now) => LedgerClock(Keep(b, before).value, limit, Forgettings(b, before), now);
    }
  }

  lemma LedgerMeans(b: Book, limit: int, n: nat)
    requires Ledger(b, limit, n)
    ensures b.limits.weight["MINUTE"].count == b.charged <==> n == 0
    ensures n == 0 ==> b.granted <= b.charged <= Positive(limit)
    ensures b.granted <= b.charged <= (n + 1) * Positive(limit)
  {
    OneMore(n, Positive(limit));
  }

  /** When the limit holds over a stretch of time that begins with the counter at
      zero. The counter is all the weight charged in the stretch if and only if
      no clock turn in it reset a counter that was not zero; and then the weight
      of all calls accepted in the stretch is within the limit. In general it is
      within the limit times one more than the number of such turns. */
  lemma WeightExactly(b: Book, es: seq<Event>)
    requires Opened(b) && Keep(b, es).Some?
    ensures var b', limit := Keep(b, es).value, Positive(b.limits.weight["MINUTE"].limit);
            && "MINUTE" in b'.limits.weight
            && (b'.limits.weight["MINUTE"].count == b'.charged <==> Forgettings(b, es) == 0)
            && (Forgettings(b, es) == 0 ==> b'.granted <= b'.charged <= limit)
            && b'.granted <= b'.charged <= (Forgettings(b, es) + 1) * limit
  {
    LedgerRun(b, es);
    LedgerMeans(Keep(b, es).value, b.limits.weight["MINUTE"].limit, Forgettings(b, es));
  }

  lemma EnterMore(b: Book, es: seq<Event>, e: Event)
    requires Keep(b, es).Some?
    ensures Keep(b, es + [e]) == Enter(Keep(b, es).value, e)
  {
    InitOfAppend(es, e);
  }

  lemma ForgetMore(b: Book, es: seq<Event>, e: Event)
    requires Keep(b, es).Some? && Enter(Keep(b, es).value, e).Some?
    ensures Keep(b, es + [e]) == Enter(Keep(b, es).value, e)
    ensures Forgettings(b, es + [e]) == Forgettings(b, es) + if Forgets(Keep(b, es).value, e) then 1 else 0
  {
    EnterMore(b, es, e);
    InitOfAppend(es, e);
  }

  /** The minute's weight counter alone, full. */
  ghost predicate Full(b: Book, tv: LimitConfig, granted: int) {
    && b.granted == granted && b.limits.order == map[] && b.limits.weight.Keys == {"MINUTE"}
    && var tv' := b.limits.weight["MINUTE"];
       tv'.interval == tv.interval && tv'.limit == tv'.count == tv.limit
  }

  lemma RefillOnce(b: Book, tv: LimitConfig, granted: int, now: nat)
    requires Full(b, tv, granted) && tv.limit > 0 && tv.interval > 0 && now % (tv.interval * 60) == 0
    ensures var b1 := Enter(b, Clock(now));
            && b1.Some? && Enter(b1.value, Call(tv.limit, 0)).Some?
            && Full(Enter(b1.value, Call(tv.limit, 0)).value, tv, granted + tv.limit)
  {
    TurnExactly(b.limits, now);
    var b1 := Enter(b, Clock(now)).value;
    assert b1.limits.weight.Keys == {"MINUTE"} && b1.limits.weight["MINUTE"].count == 0;
    assert b1.limits.order.Keys == {};
  }

  /** Such turns do occur, and the bound is reached: the clock loop turns many
      times in the second that resets, and each turn clears. So within one second
      the whole minute's weight can be had any number of times. */
  lemma {:induction false} ManyInOneSecond(tv: LimitConfig, now: nat, n: nat) returns (es: seq<Event>)
    requires tv.count == 0 && tv.limit > 0 && tv.interval > 0 && now % (tv.interval * 60) == 0
    ensures forall e | e in es :: e.Clock? ==> e.now == now
    ensures var b := Book(Limits(map[], map["MINUTE" := tv]), 0, 0, 0, 0);
            && Opened(b) && Keep(b, es).Some? && Forgettings(b, es) == n
            && Full(Keep(b, es).value, tv, (n + 1) * tv.limit)
  {
    var b := Book(Limits(map[], map["MINUTE" := tv]), 0, 0, 0, 0);
    if n == 0 {
      ForgetMore(b, [], Call(tv.limit, 0));
      es := [] + [Call(tv.limit, 0)];
    } else {
      var before := ManyInOneSecond(tv, now, n - 1);
      var m := Keep(b, before).value;
      RefillOnce(m, tv, n * tv.limit, now);
      ForgetMore(b, before, Clock(now));
      ForgetMore(b, before + [Clock(now)], Call(tv.limit, 0));
      es := before + [Clock(now)] + [Call(tv.limit, 0)];
      OneMore(n, tv.limit);
    }
  }

  // ---------------------------------------------------------------------
  // When the order limit holds

  ghost predicate OrdersWithin(l: Limits) {
    "MINUTE" in l.order ==> 0 <= l.order["MINUTE"].count <= Positive(l.order["MINUTE"].limit)
  }

  /** A call that passes all checks up to the minute's orders, which asks for room
      for one, but has more orders than there is room for. */
  ghost predicate Overshoots(l: Limits, weight: int, orders: int) {
    && (weight > 0 ==> Room(l.weight, "MINUTE", weight) && Room(l.weight, "SECOND", weight))
    && orders > 0 && Room(l.order, "MINUTE", 1) && !Room(l.order, "MINUTE", orders)
  }

  ghost predicate AlwaysWithin(b: Book, es: seq<Event>)
    requires Keep(b, es).Some?
  {
    (es == [] || AlwaysWithin(b, es[..|es| - 1])) && OrdersWithin(Keep(b, es).value.limits)
  }

  ghost predicate NeverOvershoots(b: Book, es: seq<Event>)
    requires Keep(b, es).Some?
  {
    es == [] ||
    (var before, e := es[..|es| - 1], es[|es| - 1];
     NeverOvershoots(b, before)
     && (e.Call? ==> !Overshoots(Keep(b, before).value.limits, e.weight, e.orders)))
  }

  lemma OrdersCall(b: Book, weight: int, orders: int)
    requires OrdersWithin(b.limits)
    ensures OrdersWithin(Enter(b, Call(weight, orders)).value.limits) <==> !Overshoots(b.limits, weight, orders)
  {
  }

  lemma OrdersClock(b: Book, now: nat)
    requires OrdersWithin(b.limits) && Enter(b, Clock(now)).Some?
    ensures OrdersWithin(Enter(b, Clock(now)).value.limits)
  {
    TurnExactly(b.limits, now);
  }

  /** Over any run: the minute's orders stay within their limit all the time if
      and only if no call that passed the checks had more orders than there was
      room for. */
  lemma {:induction false} OrdersExactly(b: Book, es: seq<Event>)
    requires Fresh(b) && Keep(b, es).Some?
    ensures AlwaysWithin(b, es) <==> NeverOvershoots(b, es)
  {
    if es != [] {
      var before := es[..|es| - 1];
      OrdersExactly(b, before);
      if AlwaysWithin(b, before) {
        match es[|es| - 1]
        case Call(weight, orders) => OrdersCall(Keep(b, before).value, weight, orders);
        case Clock(now) => OrdersClock(Keep(b, before).value, now);
      }
    }
  }

  /** Such an overshoot is possible: with room for one order, a call with any
      number is accepted. */
  lemma Overshoot(l: Limits, orders: int)
    requires orders >= 1 && "MINUTE" in l.order && l.order["MINUTE"].count == l.order["MINUTE"].limit - 1
    requires "SECOND" !in l.weight
    ensures var o := Consumed(l, 0, orders);
            o.verdict == Accepted && o.limits.order["MINUTE"].count == l.order["MINUTE"].limit + orders - 1
  {
  }

  /** The per-second order limit has no say: whatever that counter is, the
      verdict is the same. */
  lemma OrderSecondIgnored(l: Limits, tv: LimitConfig, weight: int, orders: int)
    ensures var o, o' := Consumed(l, weight, orders), Consumed(l.(order := l.order["SECOND" := tv]), weight, orders);
            o'.verdict == o.verdict && o'.limits.weight == o.limits.weight
  {
  }
}
