/** The handoff's guarantees, and exactly what it loses and repeats. */
module HandoffResults {
  import opened Basics
  import opened GoList
  import opened Handoff
  import opened HandoffProofs

  /** What the two repairs add. */
  ghost predicate RepairOk(cfg: Config, s: State) {
    match cfg.protocol
    case AsWritten => true
    case StoreUnderLock =>
      && !s.replayer.Unlocked? && |s.late| <= 1
      && (s.reader.Loaded? && !s.reader.ready ==> s.late == [])
    case CheckUnderLock =>
      && !s.replayer.Unlocked? && s.late == []
      && (s.reader.Loaded? ==> s.reader.ready)
  }

  /** Without a replay nothing is ever parked. */
  ghost predicate DirectOk(s: State) {
    s.start == 0 ==>
      s.replayer.Finished? && s.flushed == [] && s.late == [] && (s.reader.Loaded? ==> s.reader.ready)
  }

  ghost predicate Inv(cfg: Config, s: State) {
    CacheOk(cfg, s) && StreamOk(s) && CopyOk(cfg, s) && PhaseOk(s) && RepairOk(cfg, s) && DirectOk(s)
  }

  lemma DirectStep(cfg: Config, s: State, a: Action)
    requires Enabled(cfg, s, a) && PhaseOk(s) && DirectOk(s)
    ensures DirectOk(Apply(cfg, s, a))
  {
  }

  lemma RepairStep(cfg: Config, s: State, a: Action)
    requires Enabled(cfg, s, a) && PhaseOk(s) && RepairOk(cfg, s)
    ensures RepairOk(cfg, Apply(cfg, s, a))
  {
  }

  lemma {:induction false} PerformInv(cfg: Config, start: int, acts: seq<Action>)
    requires Perform(cfg, Init(start), acts).Some?
    ensures Inv(cfg, Perform(cfg, Init(start), acts).value)
    ensures Perform(cfg, Init(start), acts).value.start == start
  {
    if acts != [] {
      var before, a := acts[..|acts| - 1], acts[|acts| - 1];
      PerformInv(cfg, start, before);
      var s := Perform(cfg, Init(start), before).value;
      CacheStep(cfg, s, a);
      StreamStep(cfg, s, a);
      CopyStep(cfg, s, a);
      PhaseStep(cfg, s, a);
      RepairStep(cfg, s, a);
      DirectStep(cfg, s, a);
    }
  }

  lemma ReachedInv(cfg: Config, s: State)
    requires Reached(cfg, s)
    ensures Inv(cfg, s)
  {
    var start, acts :| Perform(cfg, Init(start), acts) == Some(s);
    PerformInv(cfg, start, acts);
  }

  // ---------------------------------------------------------------------
  // Order

  ghost predicate PastFlush(s: State) {
    s.replayer.Unlocked? || s.replayer.Finished?
  }

  /** In every interleaving: up to the flush, a prefix of the copied and then
      the parked messages has entered the channel, and everything read live is
      parked. From then on exactly the copied, the flushed and the forwarded
      messages have entered, in that order; what was read live is the flushed,
      the late and the forwarded ones; and the late ones are what is parked. */
  lemma HandoffOrder(cfg: Config, s: State)
    requires Reached(cfg, s)
    ensures s.entered == s.left + s.output
    ensures if PastFlush(s) then
              && s.entered == s.copied + s.flushed + s.direct
              && s.read == s.flushed + s.late + s.direct + InHand(s)
              && s.parked == s.late
            else
              s.entered <= s.copied + s.parked && s.read == s.parked + InHand(s)
  {
    ReachedInv(cfg, s);
    match s.replayer
    case Pushing(i) => PrefixOf(s.copied, s.parked, i, 0);
    case Flushing(j) => PrefixOf(s.copied, s.parked, |s.copied|, j);
    case _ => assert s.direct == [] ==> s.copied + s.flushed + s.direct == s.copied + s.flushed;
  }

  lemma PrefixOf(x: seq<Msg>, y: seq<Msg>, i: nat, j: nat)
    requires i <= |x| && j <= |y| && (i == |x| || j == 0)
    ensures x[..i] + y[..j] <= x + y
    ensures x[..i] + [] == x[..i] && x[..|x|] == x
  {
  }

  /** Storing the flag under the lock still loses one message, the one whose
      flag was loaded before and which is parked after; never more. Checking the
      flag under the lock as well loses none. */
  lemma Repairs(cfg: Config, s: State)
    requires Reached(cfg, s)
    ensures cfg.protocol.StoreUnderLock? ==> |s.late| <= 1
    ensures cfg.protocol.CheckUnderLock? ==> s.late == []
  {
    ReachedInv(cfg, s);
  }

  /** With both repairs, what enters the channel is the copied messages and then
      everything read live but the message in hand. */
  lemma RepairedOrder(cfg: Config, s: State)
    requires Reached(cfg, s) && cfg.protocol.CheckUnderLock? && s.replayer.Finished?
    ensures |InHand(s)| <= |s.read| && s.read == s.read[..|s.read| - |InHand(s)|] + InHand(s)
    ensures s.entered == s.copied + s.read[..|s.read| - |InHand(s)|]
  {
    HandoffOrder(cfg, s);
    Repairs(cfg, s);
    WithoutLate(s.copied, s.flushed, s.direct, InHand(s), s.read, s.entered);
  }

  lemma WithoutLate(copied: seq<Msg>, w: seq<Msg>, x: seq<Msg>, hand: seq<Msg>, read: seq<Msg>, entered: seq<Msg>)
    requires read == w + [] + x + hand && entered == copied + w + x
    ensures |hand| <= |read| && read[..|read| - |hand|] == w + x && read == read[..|read| - |hand|] + hand
    ensures entered == copied + read[..|read| - |hand|]
  {
    assert w + [] == w && copied + w + x == copied + (w + x);
    var both := w + x;
    assert read == both + hand;
    assert read[..|both|] == both;
  }

  /** A client with a start of zero gets the live stream as it is. */
  lemma DirectOrder(cfg: Config, s: State)
    requires Reached(cfg, s) && s.start == 0
    ensures s.entered + InHand(s) == s.read
    ensures s.since <= Upto(s) <= |s.hist| && s.read + s.live == s.hist[s.since..Upto(s)]
  {
    ReachedInv(cfg, s);
    assert [] + [] + s.direct == s.direct;
  }

  // ---------------------------------------------------------------------
  // The cache and the replay

  /** The cache always holds exactly the last messages enqueued, up to its
      bound. */
  lemma CacheIsLast(cfg: Config, s: State)
    requires Reached(cfg, s)
    ensures s.queue == Last(s.hist, cfg.cap)
  {
    ReachedInv(cfg, s);
  }

  lemma {:induction false} SinceLength(q: seq<Msg>, start: int)
    ensures |Since(q, start)| <= |q|
  {
    if q != [] {
      SinceLength(q[..|q| - 1], start);
    }
  }

  /** Replaying never blocks: as long as copied messages are left to push, there
      is room in the channel. */
  lemma ReplayNeverBlocks(cfg: Config, s: State)
    requires Reached(cfg, s)
    requires s.replayer.Pushing? && s.replayer.next < |s.copied|
    ensures Enabled(cfg, s, PushCopied)
  {
    ReachedInv(cfg, s);
    SinceLength(Last(s.hist[..s.copyAt], cfg.cap), s.start);
  }

  /** Timestamps rise, as the controller's publishing guarantees. */
  ghost predicate Rising(h: seq<Msg>) {
    forall i, j | 0 <= i < j < |h| :: h[i].ts < h[j].ts
  }

  /** The scan for messages not before `start` finds a suffix. */
  lemma {:induction false} SinceIsSuffix(q: seq<Msg>, start: int) returns (k: nat)
    requires Rising(q)
    ensures k <= |q| && Since(q, start) == q[k..]
    ensures forall i | 0 <= i < |q| :: k <= i <==> start <= q[i].ts
  {
    if q == [] {
      k := 0;
    } else {
      var t := q[..|q| - 1];
      k := SinceIsSuffix(t, start);
      assert forall i | 0 <= i < |t| :: t[i] == q[i];
      if start <= q[|q| - 1].ts {
        assert q[k..] == t[k..] + [q[|q| - 1]];
      } else {
        assert k == |t|;
        k := |q|;
      }
    }
  }

  lemma TailRises(h: seq<Msg>, g: nat)
    requires Rising(h) && g <= |h|
    ensures Rising(h[g..])
  {
    var t := h[g..];
    forall i, j | 0 <= i < j < |t| ensures t[i].ts < t[j].ts {
      assert t[i] == h[g + i] && t[j] == h[g + j];
    }
  }

  lemma SinceTail(h: seq<Msg>, g: nat, start: int) returns (lo: nat)
    requires Rising(h) && g <= |h|
    ensures g <= lo <= |h| && Since(h[g..], start) == h[lo..]
    ensures forall k | g <= k < |h| :: lo <= k <==> start <= h[k].ts
  {
    var t := h[g..];
    TailRises(h, g);
    var k := SinceIsSuffix(t, start);
    lo := g + k;
    assert t[k..] == h[lo..];
    forall i | g <= i < |h| ensures lo <= i <==> start <= h[i].ts {
      assert h[i] == t[i - g];
    }
  }

  /** What the scan finds in a cache of the last `cap` messages is a stretch. */
  lemma SinceLast(h: seq<Msg>, cap: nat, start: int) returns (lo: nat)
    requires Rising(h)
    ensures lo <= |h| && Since(Last(h, cap), start) == h[lo..]
    ensures forall k | 0 <= k < |h| :: lo <= k <==> |h| - cap <= k && start <= h[k].ts
  {
    var gone := if |h| <= cap then 0 else |h| - cap;
    assert h[0..] == h && Last(h, cap) == h[gone..];
    lo := SinceTail(h, gone, start);
  }

  /** The copied messages are a stretch of the history that ends at the copy:
      those that were still cached and not before `start`. */
  lemma CopiedStretch(cfg: Config, s: State) returns (lo: nat)
    requires CopyOk(cfg, s) && Rising(s.hist) && s.start != 0 && !s.replayer.Waiting?
    ensures lo <= s.copyAt <= |s.hist| && s.copied == s.hist[lo..s.copyAt]
    ensures forall k | 0 <= k < s.copyAt :: lo <= k <==> s.copyAt - cfg.cap <= k && s.start <= s.hist[k].ts
  {
    var past := s.hist[..s.copyAt];
    lo := SinceLast(past, cfg.cap, s.start);
    assert past[lo..] == s.hist[lo..s.copyAt];
    assert forall k | 0 <= k < s.copyAt :: past[k] == s.hist[k];
  }

  // ---------------------------------------------------------------------
  // The account of a finished handoff

  lemma FlushedInv(cfg: Config, s: State)
    requires Reached(cfg, s) && PastFlush(s) && s.start != 0
    ensures StreamOk(s) && AfterFlush(s) && CopyOk(cfg, s) && s.since <= s.copyAt
  {
    ReachedInv(cfg, s);
  }

  /** Once the flush is over, what has entered the channel is three stretches
      of the history of all messages: [lo, copyAt) replayed; [since, a) parked
      and flushed; [b, c) forwarded. The late ones are the stretch [a, b)
      between, and the main loop has dealt with the live stream up to c. */
  lemma Account(cfg: Config, s: State) returns (lo: nat, a: nat, b: nat, c: nat)
    requires Reached(cfg, s) && Rising(s.hist) && s.start != 0 && PastFlush(s)
    ensures lo <= s.copyAt <= |s.hist| && s.since <= a <= b <= c <= Upto(s) <= |s.hist|
    ensures s.since <= s.copyAt && c == s.since + |s.read| - |InHand(s)|
    ensures forall k | 0 <= k < s.copyAt :: lo <= k <==> s.copyAt - cfg.cap <= k && s.start <= s.hist[k].ts
    ensures s.copied == s.hist[lo..s.copyAt]
    ensures s.flushed == s.hist[s.since..a] && s.late == s.hist[a..b] && s.direct == s.hist[b..c]
    ensures s.entered == s.hist[lo..s.copyAt] + s.hist[s.since..a] + s.hist[b..c]
  {
    FlushedInv(cfg, s);
    lo := CopiedStretch(cfg, s);
    a, b, c := LiveStretches(s);
  }

  lemma LiveStretches(s: State) returns (a: nat, b: nat, c: nat)
    requires StreamOk(s) && AfterFlush(s)
    ensures s.since <= a <= b <= c <= Upto(s) <= |s.hist| && c == s.since + |s.read| - |InHand(s)|
    ensures s.flushed == s.hist[s.since..a] && s.late == s.hist[a..b] && s.direct == s.hist[b..c]
    ensures s.entered == s.copied + s.hist[s.since..a] + s.hist[b..c]
  {
    a := s.since + |s.flushed|;
    b := a + |s.late|;
    c := b + |s.direct|;
    assert s.flushed + s.late + s.direct + (InHand(s) + s.live) == s.read + s.live;
    StretchesOf(s.hist, s.since, Upto(s), s.flushed, s.late, s.direct, InHand(s) + s.live);
  }

  lemma Cut(h: seq<Msg>, lo: nat, hi: nat, w: seq<Msg>, rest: seq<Msg>)
    requires lo <= hi <= |h| && h[lo..hi] == w + rest
    ensures lo + |w| + |rest| == hi && h[lo..lo + |w|] == w && h[lo + |w|..hi] == rest
  {
    var t := h[lo..hi];
    assert t[..|w|] == w && t[|w|..] == rest;
  }

  /** Cutting one stretch into four. */
  lemma StretchesOf(h: seq<Msg>, lo: nat, hi: nat, w: seq<Msg>, x: seq<Msg>, y: seq<Msg>, z: seq<Msg>)
    requires lo <= hi <= |h| && h[lo..hi] == w + x + y + z
    ensures var a, b, c := lo + |w|, lo + |w| + |x|, lo + |w| + |x| + |y|;
            c + |z| == hi && h[lo..a] == w && h[a..b] == x && h[b..c] == y
  {
    assert w + x + y + z == w + (x + (y + z));
    Cut(h, lo, hi, w, x + (y + z));
    Cut(h, lo + |w|, hi, x, y + z);
    Cut(h, lo + |w| + |x|, hi, y, z);
  }

  lemma {:induction false} CountStretch(h: seq<Msg>, lo: nat, hi: nat, k: nat)
    requires Rising(h) && lo <= hi <= |h| && k < |h|
    ensures multiset(h[lo..hi])[h[k]] == if lo <= k < hi then 1 else 0
    decreases hi - lo
  {
    if lo == hi {
      assert h[lo..hi] == [];
    } else {
      CountStretch(h, lo, hi - 1, k);
      assert h[lo..hi] == h[lo..hi - 1] + [h[hi - 1]];
      assert h[hi - 1] == h[k] ==> hi - 1 == k;
    }
  }

  /** How often each message was given to the client, exactly: once for being in
      the replayed stretch, once for being in the live stream and not late. So
      the messages given twice are those enqueued between registration and copy,
      not before `start` and not late; and a message of the live stream that the
      main loop has dealt with is lost if and only if it is late and was not in
      the copy. */
  lemma DeliveredExactly(cfg: Config, s: State, k: nat) returns (a: nat, b: nat, c: nat)
    requires Reached(cfg, s) && Rising(s.hist) && s.start != 0 && PastFlush(s) && k < |s.hist|
    ensures a <= b <= c <= |s.hist| && s.late == s.hist[a..b] && c == s.since + |s.read| - |InHand(s)|
    ensures var replayed := s.copyAt - cfg.cap <= k < s.copyAt && s.start <= s.hist[k].ts;
            var dealtWith, late := s.since <= k < c, a <= k < b;
            && multiset(s.entered)[s.hist[k]]
               == (if replayed then 1 else 0) + (if dealtWith && !late then 1 else 0)
            && (dealtWith ==> (s.hist[k] !in s.entered <==> late && !replayed))
  {
    var lo;
    lo, a, b, c := Account(cfg, s);
    CountStretch(s.hist, lo, s.copyAt, k);
    CountStretch(s.hist, s.since, a, k);
    CountStretch(s.hist, b, c, k);
  }

  // ---------------------------------------------------------------------
  // Late is lost for good.

  lemma {:induction false} PerformAppend(cfg: Config, s: State, a: seq<Action>, b: seq<Action>)
    requires Perform(cfg, s, a).Some?
    ensures Perform(cfg, s, a + b) == Perform(cfg, Perform(cfg, s, a).value, b)
  {
    if b == [] {
      ConcatNothing(a);
    } else {
      PerformAppend(cfg, s, a, b[..|b| - 1]);
      InitOfConcat(a, b);
    }
  }

  /** What never changes again once the parked messages have been flushed. */
  ghost predicate Settled(s: State, s': State) {
    && PastFlush(s') && s'.start == s.start
    && s'.copied == s.copied && s'.flushed == s.flushed
    && s.late <= s'.late && s.direct <= s'.direct && s.hist <= s'.hist
  }

  lemma SettledStep(cfg: Config, s: State, m: State, a: Action)
    requires PastFlush(s) && Settled(s, m) && PhaseOk(m) && Enabled(cfg, m, a)
    ensures Settled(s, Apply(cfg, m, a))
  {
  }

  lemma ReachedMore(cfg: Config, s: State, acts: seq<Action>)
    requires Reached(cfg, s) && Perform(cfg, s, acts).Some?
    ensures Reached(cfg, Perform(cfg, s, acts).value)
  {
    var start, before :| Perform(cfg, Init(start), before) == Some(s);
    PerformAppend(cfg, Init(start), before, acts);
  }

  lemma {:induction false} StaysSettled(cfg: Config, s: State, acts: seq<Action>)
    requires PhaseOk(s) && PastFlush(s) && Perform(cfg, s, acts).Some?
    ensures PhaseOk(Perform(cfg, s, acts).value) && Settled(s, Perform(cfg, s, acts).value)
  {
    if acts != [] {
      var before, a := acts[..|acts| - 1], acts[|acts| - 1];
      StaysSettled(cfg, s, before);
      var m := Perform(cfg, s, before).value;
      SettledStep(cfg, s, m, a);
      PhaseStep(cfg, m, a);
    }
  }

  /** Whatever happens after the flush: late messages stay late, the replay and
      the flush are what they were, and only forwarding adds to the channel. */
  lemma LateForever(cfg: Config, s: State, acts: seq<Action>)
    requires Reached(cfg, s) && PastFlush(s) && Perform(cfg, s, acts).Some?
    ensures var s' := Perform(cfg, s, acts).value;
            && Reached(cfg, s') && Settled(s, s')
            && s'.entered == s.copied + s.flushed + s'.direct
            && s.late <= s'.parked
  {
    ReachedInv(cfg, s);
    StaysSettled(cfg, s, acts);
    ReachedMore(cfg, s, acts);
  }

  /** The message enters the channel in no continuation with rising timestamps. */
  ghost predicate LostForGood(cfg: Config, s: State, m: Msg) {
    forall acts | Perform(cfg, s, acts).Some? && Rising(Perform(cfg, s, acts).value.hist) ::
      m !in Perform(cfg, s, acts).value.entered
  }

  lemma OutsideStretch(h: seq<Msg>, lo: nat, hi: nat, k: nat)
    requires Rising(h) && lo <= hi <= |h| && k < |h| && !(lo <= k < hi)
    ensures h[k] !in h[lo..hi]
  {
    CountStretch(h, lo, hi, k);
  }

  lemma NotInThree(x: seq<Msg>, y: seq<Msg>, z: seq<Msg>, m: Msg)
    requires m !in x && m !in y && m !in z
    ensures m !in x + y + z
  {
  }

  lemma GapNotEntered(h: seq<Msg>, lo: nat, copyAt: nat, since: nat, a: nat, b: nat, c: nat, m: Msg)
    requires Rising(h) && lo <= copyAt <= |h| && since <= a <= b <= c <= |h|
    requires m in h[a..b] && m !in h[lo..copyAt]
    ensures m !in h[lo..copyAt] + h[since..a] + h[b..c]
  {
    var i :| 0 <= i < |h[a..b]| && h[a..b][i] == m;
    var k := a + i;
    assert h[k] == m;
    OutsideStretch(h, since, a, k);
    OutsideStretch(h, b, c, k);
    NotInThree(h[lo..copyAt], h[since..a], h[b..c], m);
  }

  lemma LateNotEntered(cfg: Config, s: State, m: Msg)
    requires Reached(cfg, s) && Rising(s.hist) && s.start != 0 && PastFlush(s)
    requires m in s.late && m !in s.copied
    ensures m !in s.entered
  {
    var lo, a, b, c := Account(cfg, s);
    GapNotEntered(s.hist, lo, s.copyAt, s.since, a, b, c, m);
  }

  /** A late message that was not replayed never reaches the client. */
  lemma LateIsLost(cfg: Config, s: State, m: Msg)
    requires Reached(cfg, s) && s.start != 0 && PastFlush(s)
    requires m in s.late && m !in s.copied
    ensures LostForGood(cfg, s, m)
  {
    forall acts | Perform(cfg, s, acts).Some? && Rising(Perform(cfg, s, acts).value.hist)
      ensures m !in Perform(cfg, s, acts).value.entered
    {
      LateForever(cfg, s, acts);
      LateNotEntered(cfg, Perform(cfg, s, acts).value, m);
    }
  }

  // ---------------------------------------------------------------------
  // How much can be late

  lemma PerformOne(cfg: Config, s: State, acts: seq<Action>, m: State, a: Action)
    requires Perform(cfg, s, acts) == Some(m) && Enabled(cfg, m, a)
    ensures Perform(cfg, s, acts + [a]) == Some(Apply(cfg, m, a))
  {
    InitOfAppend(acts, a);
  }

  lemma Perform2(cfg: Config, s: State, a: Action, b: Action)
    requires Enabled(cfg, s, a) && Enabled(cfg, Apply(cfg, s, a), b)
    ensures Perform(cfg, s, [a, b]) == Some(Apply(cfg, Apply(cfg, s, a), b))
  {
    PerformOne(cfg, s, [], s, a);
    assert [] + [a] == [a] && [a] + [b] == [a, b];
    PerformOne(cfg, s, [a], Apply(cfg, s, a), b);
  }

  lemma Perform4(cfg: Config, s: State, a: Action, b: Action, c: Action, d: Action)
    requires Enabled(cfg, s, a) && Enabled(cfg, Apply(cfg, s, a), b)
    requires Enabled(cfg, Apply(cfg, Apply(cfg, s, a), b), c)
    requires Enabled(cfg, Apply(cfg, Apply(cfg, Apply(cfg, s, a), b), c), d)
    ensures Perform(cfg, s, [a, b, c, d]) == Some(Apply(cfg, Apply(cfg, Apply(cfg, Apply(cfg, s, a), b), c), d))
  {
    Perform2(cfg, s, a, b);
    Perform2(cfg, Apply(cfg, Apply(cfg, s, a), b), c, d);
    PerformAppend(cfg, s, [a, b], [c, d]);
    assert [a, b] + [c, d] == [a, b, c, d];
  }

  /** The moment between the flush and the store of the flag, with nothing
      replayed and every message so far late. */
  ghost predicate InGap(s: State, start: int) {
    && s.replayer.Unlocked? && !s.ready && s.reader.Selecting? && s.live == [] && s.member.Registered?
    && s.start == start && s.copied == [] && s.late == s.hist == Ticks(start, |s.hist|)
  }

  /** `n` messages, one a millisecond. */
  function Ticks(start: int, n: nat): seq<Msg> {
    seq(n, i => Msg(start + i, 0))
  }

  /** One more message is read and parked in the gap. */
  lemma LateMore(cfg: Config, s: State, start: int) returns (s': State, acts: seq<Action>)
    requires cfg.protocol.AsWritten? && cfg.liveCap > 0 && InGap(s, start)
    ensures Perform(cfg, s, acts) == Some(s')
    ensures InGap(s', start) && |s'.late| == |s.late| + 1
  {
    var m := Msg(start + |s.hist|, 0);
    Perform4(cfg, s, Enqueue(m), Receive, Load, Park);
    s' := Apply(cfg, Apply(cfg, Apply(cfg, Apply(cfg, s, Enqueue(m)), Receive), Load), Park);
    acts := [Enqueue(m), Receive, Load, Park];
    assert Ticks(start, |s.hist| + 1) == Ticks(start, |s.hist|) + [m];
  }

  lemma {:induction false} GapReached(cfg: Config, start: int, n: nat) returns (acts: seq<Action>, s: State)
    requires cfg.protocol.AsWritten? && cfg.liveCap > 0 && start != 0
    ensures Perform(cfg, Init(start), acts) == Some(s) && InGap(s, start) && |s.late| == n
  {
    if n == 0 {
      acts := [Register, Copy, Lock, Unlock];
      Perform4(cfg, Init(start), Register, Copy, Lock, Unlock);
      s := Perform(cfg, Init(start), acts).value;
    } else {
      var before, m := GapReached(cfg, start, n - 1);
      var more;
      s, more := LateMore(cfg, m, start);
      PerformAppend(cfg, Init(start), before, more);
      acts := before + more;
    }
  }

  /** As written, there is no bound on what is lost: between the flush and the
      store of the flag any number of messages not before `start` can be read and
      parked, and none of them reaches the client in any continuation. */
  lemma LossUnbounded(cfg: Config, start: int, n: nat) returns (acts: seq<Action>, s: State)
    requires cfg.protocol.AsWritten? && cfg.liveCap > 0 && start != 0
    ensures Perform(cfg, Init(start), acts) == Some(s) && s.hist == Ticks(start, n) && Rising(s.hist)
    ensures forall m | m in s.hist :: LostForGood(cfg, s, m)
  {
    acts, s := GapReached(cfg, start, n);
    assert Reached(cfg, s);
    forall m | m in s.hist ensures LostForGood(cfg, s, m) {
      LateIsLost(cfg, s, m);
    }
  }

  /** The replay of nothing is under way, and the first message is in hand. */
  ghost predicate FirstInHand(s: State, start: int, m: Msg) {
    && s.replayer == Pushing(0) && !s.ready && s.reader == Holding(m) && s.start == start
    && s.copied == s.parked == s.late == [] && s.hist == [m]
  }

  lemma TakeFirst(cfg: Config, start: int) returns (acts: seq<Action>, s: State)
    requires cfg.liveCap > 0 && start != 0
    ensures Perform(cfg, Init(start), acts) == Some(s) && FirstInHand(s, start, Msg(start, 0))
  {
    var e := Enqueue(Msg(start, 0));
    acts := [Register, Copy, e, Receive];
    Perform4(cfg, Init(start), Register, Copy, e, Receive);
    s := Apply(cfg, Apply(cfg, Apply(cfg, Apply(cfg, Init(start), Register), Copy), e), Receive);
  }

  lemma ParkFirst(cfg: Config, s: State, start: int, m: Msg) returns (s': State)
    requires cfg.protocol.StoreUnderLock? && FirstInHand(s, start, m)
    ensures Perform(cfg, s, [Load, Lock, Unlock, Park]) == Some(s')
    ensures s'.late == s'.hist == [m] && s'.copied == [] && s'.start == start && PastFlush(s')
  {
    Perform4(cfg, s, Load, Lock, Unlock, Park);
    s' := Apply(cfg, Apply(cfg, Apply(cfg, Apply(cfg, s, Load), Lock), Unlock), Park);
  }

  /** With the flag stored under the lock one message can still be lost. */
  lemma OneStillLost(cfg: Config, start: int) returns (acts: seq<Action>, s: State)
    requires cfg.protocol.StoreUnderLock? && cfg.liveCap > 0 && start != 0
    ensures Perform(cfg, Init(start), acts) == Some(s) && s.hist == [Msg(start, 0)]
    ensures LostForGood(cfg, s, Msg(start, 0))
  {
    var a, m := TakeFirst(cfg, start);
    s := ParkFirst(cfg, m, start, Msg(start, 0));
    acts := a + [Load, Lock, Unlock, Park];
    PerformAppend(cfg, Init(start), a, [Load, Lock, Unlock, Park]);
    LateIsLost(cfg, s, Msg(start, 0));
  }

  // ---------------------------------------------------------------------
  // Which clients get a replay

  lemma WrapZero(x: int) returns (k: int)
    ensures Wrap64(x) == 0 <==> x % 0x1_0000_0000_0000_0000 == 0
    ensures Wrap64(x) == x - k * 0x1_0000_0000_0000_0000
  {
    k := (x + 0x8000_0000_0000_0000) / 0x1_0000_0000_0000_0000;
  }

  /** A client is served without replay if and only if the seconds it asks for,
      in milliseconds, are the server's clock, up to a multiple of 2^64. */
  lemma ReplayExactly(now: int, seconds: int)
    requires Int64(now) && Int64(seconds)
    ensures Init(ClientStart(now, seconds)).ready
            <==> (now - seconds * 1000) % 0x1_0000_0000_0000_0000 == 0
    ensures Int64(seconds * 1000) && Int64(now - seconds * 1000) ==>
              (Init(ClientStart(now, seconds)).ready <==> now == seconds * 1000)
  {
    var k := WrapZero(seconds * 1000);
    var j := WrapZero(now - Wrap64(seconds * 1000));
    WholeTurns(now - seconds * 1000, k);
  }

  lemma WholeTurns(x: int, k: int)
    ensures (x + k * 0x1_0000_0000_0000_0000) % 0x1_0000_0000_0000_0000 == x % 0x1_0000_0000_0000_0000
  {
  }

  /** So a client that asks for the last 0 seconds is replayed to, from the
      present on; and with it, too, any number of messages can be lost. */
  lemma ZeroSecondsReplay(cfg: Config, now: int, n: nat) returns (acts: seq<Action>, s: State)
    requires Int64(now) && now != 0 && cfg.protocol.AsWritten? && cfg.liveCap > 0
    ensures ClientStart(now, 0) == now && Init(ClientStart(now, 0)).replayer == Waiting
    ensures Perform(cfg, Init(ClientStart(now, 0)), acts) == Some(s) && |s.hist| == n
    ensures forall m | m in s.hist :: LostForGood(cfg, s, m)
  {
    assert ClientStart(now, 0) == now;
    acts, s := LossUnbounded(cfg, now, n);
  }

  lemma {:induction false} SinceMember(queue: seq<Msg>, start: int, m: Msg)
    ensures m in Since(queue, start) <==> m in queue && start <= m.ts
  {
    if queue != [] {
      SinceMember(queue[..|queue| - 1], start, m);
      InitAndLast(queue);
    }
  }

  lemma Wrap64Same(x: int)
    requires Int64(x)
    ensures Wrap64(x) == x
  {
  }

  lemma CopiedMember(cfg: Config, s: State, m: Msg)
    requires Reached(cfg, s) && s.start != 0 && !s.replayer.Waiting?
    ensures s.copyAt <= |s.hist|
    ensures m in s.copied <==> m in Last(s.hist[..s.copyAt], cfg.cap) && s.start <= m.ts
  {
    ReachedInv(cfg, s);
    SinceMember(Last(s.hist[..s.copyAt], cfg.cap), s.start, m);
  }

  /** What a client gets replayed: of the cached messages exactly those that are
      not older than the seconds it asked for. */
  lemma ReplayReaches(cfg: Config, now: int, seconds: int, s: State, m: Msg)
    requires Int64(seconds * 1000) && Int64(now - seconds * 1000) && now != seconds * 1000
    requires Reached(cfg, s) && s.start == ClientStart(now, seconds) && !s.replayer.Waiting?
    ensures s.copyAt <= |s.hist|
    ensures m in s.copied <==> m in Last(s.hist[..s.copyAt], cfg.cap) && now - m.ts <= seconds * 1000
  {
    Wrap64Same(seconds * 1000);
    Wrap64Same(now - seconds * 1000);
    CopiedMember(cfg, s, m);
  }

  lemma {:induction false} EnqueueAll(cfg: Config, start: int, h: seq<Msg>) returns (acts: seq<Action>)
    ensures Perform(cfg, Init(start), acts) == Some(Init(start).(hist := h, queue := Last(h, cfg.cap)))
  {
    if h == [] {
      acts := [];
    } else {
      var t, m := h[..|h| - 1], h[|h| - 1];
      acts := EnqueueAll(cfg, start, t);
      PushIsLast(t, m, cfg.cap);
      InitAndLast(h);
      PerformOne(cfg, Init(start), acts, Init(start).(hist := t, queue := Last(t, cfg.cap)), Enqueue(m));
      acts := acts + [Enqueue(m)];
    }
  }

  /** After the messages `h` the first `i` of the copied ones have been pushed, and
      nothing else has happened to the client. */
  ghost predicate Pushed(cfg: Config, s: State, h: seq<Msg>, copied: seq<Msg>, i: nat) {
    && i <= |copied| <= cfg.cap && s.replayer == Pushing(i) && s.copied == copied
    && s.entered == s.output == copied[..i] && s.parked == s.late == [] && s.hist == h
  }

  lemma PushOne(cfg: Config, s: State, h: seq<Msg>, copied: seq<Msg>, i: nat)
    requires Pushed(cfg, s, h, copied, i) && i < |copied|
    ensures Enabled(cfg, s, PushCopied) && Pushed(cfg, Apply(cfg, s, PushCopied), h, copied, i + 1)
  {
    PrefixMore(copied, i);
  }

  lemma {:induction false} PushAll(cfg: Config, s: State, h: seq<Msg>, copied: seq<Msg>, i: nat)
    returns (acts: seq<Action>, s': State)
    requires Pushed(cfg, s, h, copied, 0) && i <= |copied|
    ensures Perform(cfg, s, acts) == Some(s') && Pushed(cfg, s', h, copied, i)
  {
    if i == 0 {
      acts, s' := [], s;
    } else {
      var before, m := PushAll(cfg, s, h, copied, i - 1);
      PushOne(cfg, m, h, copied, i - 1);
      PerformOne(cfg, s, before, m, PushCopied);
      acts := before + [PushCopied];
      s' := Apply(cfg, m, PushCopied);
    }
  }

  lemma BeginReplay(cfg: Config, start: int, h: seq<Msg>) returns (acts: seq<Action>, s: State)
    requires start != 0
    ensures Perform(cfg, Init(start), acts) == Some(s) && Pushed(cfg, s, h, Since(Last(h, cfg.cap), start), 0)
  {
    SinceLength(Last(h, cfg.cap), start);
    var before := EnqueueAll(cfg, start, h);
    var s0 := Init(start).(hist := h, queue := Last(h, cfg.cap));
    Perform2(cfg, s0, Register, Copy);
    PerformAppend(cfg, Init(start), before, [Register, Copy]);
    acts := before + [Register, Copy];
    s := Apply(cfg, Apply(cfg, s0, Register), Copy);
  }

  lemma EndReplay(cfg: Config, s: State, h: seq<Msg>, copied: seq<Msg>) returns (acts: seq<Action>, s': State)
    requires Pushed(cfg, s, h, copied, |copied|)
    ensures Perform(cfg, s, acts) == Some(s')
    ensures s'.replayer.Finished? && s'.hist == h && s'.entered == copied && s'.late == []
  {
    WholePrefix(copied);
    Perform2(cfg, s, Lock, Unlock);
    acts := [Lock, Unlock];
    s' := Apply(cfg, Apply(cfg, s, Lock), Unlock);
    if cfg.protocol.AsWritten? {
      PerformOne(cfg, s, acts, s', StoreFlag);
      acts, s' := acts + [StoreFlag], Apply(cfg, s', StoreFlag);
    }
  }

  /** A client that comes while the server is quiet can get everything: whatever
      was enqueued before, there is a run that gives it exactly the cached messages
      not before its start, in order, and ends with the replay finished. */
  lemma QuietReplay(cfg: Config, start: int, h: seq<Msg>) returns (acts: seq<Action>, s: State)
    requires start != 0
    ensures Perform(cfg, Init(start), acts) == Some(s) && s.replayer.Finished? && s.hist == h
    ensures s.entered == Since(Last(h, cfg.cap), start) && s.late == []
  {
    var copied := Since(Last(h, cfg.cap), start);
    var a, s1 := BeginReplay(cfg, start, h);
    var b, s2 := PushAll(cfg, s1, h, copied, |copied|);
    var c;
    c, s := EndReplay(cfg, s2, h, copied);
    PerformAppend(cfg, Init(start), a, b);
    PerformAppend(cfg, Init(start), a + b, c);
    acts := a + b + c;
  }

  // ---------------------------------------------------------------------
  // When a client stands still

  lemma BoundsStep(cfg: Config, s: State, a: Action)
    requires Enabled(cfg, s, a) && |s.output| <= cfg.cap && |s.live| <= cfg.liveCap
    ensures |Apply(cfg, s, a).output| <= cfg.cap && |Apply(cfg, s, a).live| <= cfg.liveCap
  {
  }

  /** Neither channel ever holds more than its capacity. */
  lemma {:induction false} ChannelBounds(cfg: Config, start: int, acts: seq<Action>)
    requires Perform(cfg, Init(start), acts).Some?
    ensures var s := Perform(cfg, Init(start), acts).value;
            |s.output| <= cfg.cap && |s.live| <= cfg.liveCap
  {
    if acts != [] {
      var before := acts[..|acts| - 1];
      ChannelBounds(cfg, start, before);
      BoundsStep(cfg, Perform(cfg, Init(start), before).value, acts[|acts| - 1]);
    }
  }

  /** A step of the client itself, not of the server. */
  predicate Own(a: Action) {
    !a.Enqueue? && !a.Register? && !a.Remove?
  }

  ghost predicate StandsStill(cfg: Config, s: State) {
    forall a: Action | Own(a) :: !Enabled(cfg, s, a)
  }

  /** All is done that there was to do. */
  ghost predicate Idle(s: State) {
    s.replayer.Finished? && s.reader.Selecting? && s.live == [] && s.output == []
  }

  /** The main loop is about to forward a message, or to park one and waits for the
      lock, while the output channel that only it empties is full. */
  ghost predicate Blocked(cfg: Config, s: State) {
    && |s.output| == cfg.cap
    && if s.replayer.Finished? then s.reader.Loaded? && s.reader.ready
       else
         && s.replayer.Flushing? && s.replayer.next < |s.parked|
         && if cfg.protocol.CheckUnderLock? then s.reader.Holding? else s.reader.Loaded?
  }

  lemma StepAtHand(cfg: Config, s: State) returns (a: Action)
    requires Inv(cfg, s) && cfg.cap > 0 && |s.output| <= cfg.cap && !s.member.Outside?
    requires s.replayer.Pushing? && s.replayer.next < |s.copied| ==> |s.output| < cfg.cap
    requires !Idle(s) && !Blocked(cfg, s)
    ensures Own(a) && Enabled(cfg, s, a)
  {
    match s.replayer
    case Waiting => a := Copy;
    case Pushing(i) => a := if i < |s.copied| then PushCopied else Lock;
    case Unlocked => a := StoreFlag;
    case Flushing(j) =>
      a := if j == |s.parked| then Unlock
           else if |s.output| < cfg.cap then PushParked
           else if s.reader.Selecting? then TakeOut
           else Load;
    case Finished =>
      a := if s.reader.Holding? then Load
           else if s.reader.Loaded? then if s.reader.ready then Forward else Park
           else if s.live != [] then Receive
           else TakeOut;
  }

  /** When a client that has registered comes to a standstill: exactly when all is
      done, or when its main loop, the only reader of the output channel, waits
      for room in it, by itself or for the lock of a replay that waits for room. */
  lemma StandstillExactly(cfg: Config, s: State)
    requires Reached(cfg, s) && cfg.cap > 0 && !s.member.Outside?
    ensures StandsStill(cfg, s) <==> Idle(s) || Blocked(cfg, s)
  {
    ReachedInv(cfg, s);
    var start, acts :| Perform(cfg, Init(start), acts) == Some(s);
    ChannelBounds(cfg, start, acts);
    if s.replayer.Pushing? && s.replayer.next < |s.copied| {
      ReplayNeverBlocks(cfg, s);
    }
    if !Idle(s) && !Blocked(cfg, s) {
      var a := StepAtHand(cfg, s);
    }
  }

  /** A client without replay that has forwarded `n` messages and sent none. */
  ghost predicate Filling(s: State, n: nat) {
    && s.replayer.Finished? && s.ready && s.reader.Selecting? && s.live == [] && s.member.Registered?
    && |s.output| == n
  }

  lemma {:induction false} FillOutput(cfg: Config, n: nat) returns (acts: seq<Action>, s: State)
    requires n <= cfg.cap && cfg.liveCap > 0
    ensures Perform(cfg, Init(0), acts) == Some(s) && Filling(s, n)
  {
    if n == 0 {
      acts := [] + [Register];
      PerformOne(cfg, Init(0), [], Init(0), Register);
      s := Apply(cfg, Init(0), Register);
    } else {
      var before, m := FillOutput(cfg, n - 1);
      var e := Enqueue(Msg(n, 0));
      Perform4(cfg, m, e, Receive, Load, Forward);
      PerformAppend(cfg, Init(0), before, [e, Receive, Load, Forward]);
      acts := before + [e, Receive, Load, Forward];
      s := Perform(cfg, m, [e, Receive, Load, Forward]).value;
    }
  }

  /** The main loop holds a message it cannot forward, and `n` more wait for it. */
  ghost predicate Jammed(cfg: Config, s: State, n: nat) {
    && s.replayer.Finished? && s.reader.Loaded? && s.reader.ready && |s.output| == cfg.cap
    && s.member.Registered? && |s.live| == n
  }

  lemma {:induction false} FillLive(cfg: Config, n: nat) returns (acts: seq<Action>, s: State)
    requires n <= cfg.liveCap && cfg.liveCap > 0
    ensures Perform(cfg, Init(0), acts) == Some(s) && Jammed(cfg, s, n)
  {
    var e := Enqueue(Msg(cfg.cap + n + 1, 0));
    if n == 0 {
      var before, m := FillOutput(cfg, cfg.cap);
      var m1 := Apply(cfg, m, e);
      Perform2(cfg, m, e, Receive);
      PerformOne(cfg, m, [e, Receive], Apply(cfg, m1, Receive), Load);
      assert [e, Receive] + [Load] == [e, Receive, Load];
      PerformAppend(cfg, Init(0), before, [e, Receive, Load]);
      acts := before + [e, Receive, Load];
      s := Apply(cfg, Apply(cfg, m1, Receive), Load);
    } else {
      var before, m := FillLive(cfg, n - 1);
      PerformOne(cfg, Init(0), before, m, e);
      acts := before + [e];
      s := Apply(cfg, m, e);
    }
  }

  /** A standstill with work left is possible, and with it the server's: for all
      capacities there is a run after which the client can do nothing, and no
      message can be enqueued any more while it is registered. */
  lemma StandstillReached(cfg: Config) returns (acts: seq<Action>, s: State)
    requires cfg.cap > 0 && cfg.liveCap > 0
    ensures Perform(cfg, Init(0), acts) == Some(s) && s.member.Registered?
    ensures !Idle(s) && StandsStill(cfg, s)
    ensures forall a: Action :: Enabled(cfg, s, a) <==> a == Remove
  {
    acts, s := FillLive(cfg, cfg.liveCap);
    assert Reached(cfg, s);
    StandstillExactly(cfg, s);
    forall a: Action | Enabled(cfg, s, a) ensures a == Remove {
      assert !Own(a);
    }
  }
}
