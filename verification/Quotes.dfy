/** Market data quotes as the aggregator sees them, and the string ids it
    deduplicates by. */
module Quotes {

  /** The three kinds of data a window collects. */
  datatype Kind = Trade | Increment | Snapshot

  /** A quote. `body` stands for every field the aggregator only copies. */
  datatype Quote =
    | QuoteTrade(time: int, tradeId: int, body: int)
    | QuoteOrbIncr(time: int, body: int)
    | QuoteSnapShot(time: int, body: int)
  {
    function Kind(): Kind {
      match this
      case QuoteTrade(_, _, _) => Trade
      case QuoteOrbIncr(_, _) => Increment
      case QuoteSnapShot(_, _) => Snapshot
    }

    /** Trades are identified by trade id, the other kinds by their time. */
    function Id(): Id {
      match this
      case QuoteTrade(_, tradeId, _) => Formatted(tradeId)
      case QuoteOrbIncr(time, _) => Formatted(time)
      case QuoteSnapShot(time, _) => Formatted(time)
    }
  }

  /** The key a quote has in the maps of a window: a number in base 10. Keys are
      equal exactly when their texts are, by `TextInjective`. */
  datatype Id = Formatted(number: int) {
    function Text(): string { FormatInt(number) }
  }

  /** One value for each kind of data. */
  datatype Trio<T> = Trio(trade: T, increment: T, snapshot: T) {
    function Get(k: Kind): T {
      match k
      case Trade => trade
      case Increment => increment
      case Snapshot => snapshot
    }

    function Set(k: Kind, v: T): Trio<T> {
      match k
      case Trade => this.(trade := v)
      case Increment => this.(increment := v)
      case Snapshot => this.(snapshot := v)
    }
  }

  // ---------------------------------------------------------------------
  // Base-10 formatting of integers, which turns numeric ids into map keys.

  function Digit(d: nat): char
    requires d < 10
  {
    ('0' as int + d) as char
  }

  function Digits(n: nat): (s: string) {
    if n < 10 then [Digit(n)] else Digits(n / 10) + [Digit(n % 10)]
  }

  function FormatInt(n: int): string {
    if n < 0 then "-" + Digits(-n) else Digits(n)
  }

  /** The number a string of digits denotes. */
  function Value(s: string): int {
    if s == "" then 0
    else 10 * Value(s[..|s| - 1]) + (s[|s| - 1] as int - '0' as int)
  }

  lemma {:induction false} DigitsRoundTrip(n: nat)
    ensures Value(Digits(n)) == n
    ensures Digits(n) != "" && Digits(n)[0] != '-'
  {
    if n < 10 {
      assert Digits(n)[..0] == "";
    } else {
      DigitsRoundTrip(n / 10);
      var s := Digits(n);
      assert s[..|s| - 1] == Digits(n / 10);
      assert s[0] == Digits(n / 10)[0];
    }
  }

  lemma FormatIntInjective(a: int, b: int)
    ensures FormatInt(a) == FormatInt(b) <==> a == b
  {
    if FormatInt(a) == FormatInt(b) {
      DigitsRoundTrip(if a < 0 then -a else a);
      DigitsRoundTrip(if b < 0 then -b else b);
      if a < 0 && b < 0 {
        assert FormatInt(a)[1..] == Digits(-a) && FormatInt(b)[1..] == Digits(-b);
      }
    }
  }

  /** Distinct numbers have distinct texts, so a map keyed by the text is a map
      keyed by the number. */
  lemma TextInjective(a: Id, b: Id)
    ensures a.Text() == b.Text() <==> a == b
  {
    FormatIntInjective(a.number, b.number);
  }

  /** What makes two quotes the same to the maps, by their fields: trades are told
      apart by trade id, increments and snapshots by time. */
  ghost predicate SameKey(x: Quote, q: Quote) {
    (if x.QuoteTrade? then x.tradeId else x.time) == (if q.QuoteTrade? then q.tradeId else q.time)
  }

  /** Two quotes have the same key text exactly when those fields agree. */
  lemma KeyByFields(x: Quote, q: Quote)
    ensures x.Id().Text() == q.Id().Text() <==> SameKey(x, q)
    ensures x.Id() == q.Id() <==> SameKey(x, q)
  {
    TextInjective(x.Id(), q.Id());
  }
}
