/** What every interleaving of the handoff keeps. */
module HandoffProofs {
  import opened GoList
  import opened Handoff

  // ---------------------------------------------------------------------
  // The cache and the live stream

  /** The last `n` elements, or all if there are fewer. */
  function Last(h: seq<Msg>, n: nat): seq<Msg> {
    if |h| <= n then h else h[|h| - n..]
  }

  lemma PushIsLast(h: seq<Msg>, m: Msg, cap: nat)
    ensures Push(Last(h, cap), m, cap) == Last(h + [m], cap)
  {
  }

  /** How much of the history is meant for the client. */
  function Upto(s: State): nat {
    if s.member.Registered? then |s.hist| else s.until
  }

  ghost predicate CacheOk(cfg: Config, s: State) {
    s.queue == Last(s.hist, cfg.cap) && s.entered == s.left + s.output
  }

  ghost predicate StreamOk(s: State) {
    && (s.member.Outside? ==> s.read == [] && s.live == [] && s.until == s.since == 0)
    && s.since <= Upto(s) <= |s.hist|
    && s.read + s.live == s.hist[s.since..Upto(s)]
  }

  ghost predicate CopyOk(cfg: Config, s: State) {
    && (s.start == 0 ==> s.replayer.Finished?)
    && if s.replayer.Waiting? || s.start == 0 then s.copied == []
       else
         && !s.member.Outside?
         && s.since <= s.copyAt <= |s.hist|
         && s.copied == Since(Last(s.hist[..s.copyAt], cfg.cap), s.start)
  }

  lemma CacheStep(cfg: Config, s: State, a: Action)
    requires Enabled(cfg, s, a) && CacheOk(cfg, s)
    ensures CacheOk(cfg, Apply(cfg, s, a))
  {
    match a
    case Enqueue(m) => PushIsLast(s.hist, m, cfg.cap);
    case TakeOut => assert s.left + s.output == s.left + [s.output[0]] + s.output[1..];
    case _ =>
  }

  lemma StreamEnqueue(cfg: Config, s: State, m: Msg)
    requires Enabled(cfg, s, Enqueue(m)) && StreamOk(s)
    ensures StreamOk(Apply(cfg, s, Enqueue(m)))
  {
    if s.member.Registered? {
      assert (s.hist + [m])[s.since..] == s.hist[s.since..] + [m];
      assert (s.read + s.live) + [m] == s.read + (s.live + [m]);
    } else {
      assert (s.hist + [m])[s.since..s.until] == s.hist[s.since..s.until];
    }
  }

  lemma StreamStep(cfg: Config, s: State, a: Action)
    requires Enabled(cfg, s, a) && StreamOk(s)
    ensures StreamOk(Apply(cfg, s, a))
  {
    if a.Enqueue? {
      StreamEnqueue(cfg, s, a.m);
    } else if a.Receive? {
      assert s.read + s.live == (s.read + [s.live[0]]) + s.live[1..];
    } else if a.Register? || a.Remove? {
      assert s.hist[|s.hist|..] == [];
    } else {
      var s' := Apply(cfg, s, a);
      assert s'.hist == s.hist && s'.read == s.read && s'.live == s.live;
      assert s'.member == s.member && s'.since == s.since && s'.until == s.until;
    }
  }

  lemma CopyStep(cfg: Config, s: State, a: Action)
    requires Enabled(cfg, s, a) && CacheOk(cfg, s) && StreamOk(s) && CopyOk(cfg, s)
    ensures CopyOk(cfg, Apply(cfg, s, a))
  {
    if a.Enqueue? && s.copyAt <= |s.hist| {
      assert (s.hist + [a.m])[..s.copyAt] == s.hist[..s.copyAt];
    } else if a.Copy? {
      assert s.hist[..|s.hist|] == s.hist;
    }
  }

  // ---------------------------------------------------------------------
  // The phases of the handoff

  /** The live message the main loop has in hand. */
  function InHand(s: State): seq<Msg> {
    match s.reader
    case Selecting => []
    case Holding(m) => [m]
    case Loaded(m, _) => [m]
  }

  ghost predicate PhaseOk(s: State) {
    && (s.ready <==> s.replayer.Finished?)
    && (s.reader.Loaded? && s.reader.ready ==> s.ready)
    && match s.replayer
       case Waiting => s.entered == [] && BeforeFlush(s)
       case Pushing(i) => i <= |s.copied| && s.entered == s.copied[..i] && BeforeFlush(s)
       case Flushing(j) => j <= |s.parked| && s.entered == s.copied + s.parked[..j] && BeforeFlush(s)
       case Unlocked => s.direct == [] && AfterFlush(s)
       case Finished => (s.reader.Loaded? && !s.reader.ready ==> s.direct == []) && AfterFlush(s)
  }

  ghost predicate BeforeFlush(s: State) {
    s.flushed == [] && s.late == [] && s.direct == [] && s.read == s.parked + InHand(s)
  }

  ghost predicate AfterFlush(s: State) {
    && s.parked == s.late
    && s.entered == s.copied + s.flushed + s.direct
    && s.read == s.flushed + s.late + s.direct + InHand(s)
  }

  lemma ReplayerStep(cfg: Config, s: State, a: Action)
    requires Enabled(cfg, s, a) && PhaseOk(s)
    requires a.Copy? || a.PushCopied? || a.Lock? || a.PushParked? || a.Unlock? || a.StoreFlag?
    ensures PhaseOk(Apply(cfg, s, a))
  {
    if a.Copy? {
      assert [] == Apply(cfg, s, a).copied[..0];
    } else if a.PushCopied? {
      var i := s.replayer.next;
      assert s.copied[..i + 1] == s.copied[..i] + [s.copied[i]];
    } else if a.Lock? {
      assert s.copied[..|s.copied|] == s.copied + s.parked[..0];
    } else if a.PushParked? {
      var j := s.replayer.next;
      assert s.copied + s.parked[..j + 1] == s.copied + s.parked[..j] + [s.parked[j]];
    } else if a.Unlock? {
      assert s.parked[..|s.parked|] == s.parked;
      assert s.copied + s.parked + [] == s.copied + s.parked;
      assert s.parked + [] + [] + InHand(s) == s.parked + InHand(s);
    }
  }

  lemma ParkStep(s: State, m: Msg)
    requires PhaseOk(s) && InHand(s) == [m] && !s.replayer.Flushing?
    requires s.replayer.Finished? ==> s.direct == []
    ensures PhaseOk(DoPark(s, m))
  {
    var s' := DoPark(s, m);
    assert InHand(s') == [];
    if s.replayer.Unlocked? || s.replayer.Finished? {
      assert s.flushed + s.late + [] + [m] == s.flushed + (s.late + [m]) + [] + [];
    } else {
      assert s.parked + [m] == (s.parked + [m]) + [];
    }
  }

  lemma ReaderStep(cfg: Config, s: State, a: Action)
    requires Enabled(cfg, s, a) && PhaseOk(s)
    requires a.Receive? || a.Load? || a.Forward? || a.Park?
    ensures PhaseOk(Apply(cfg, s, a))
  {
    if a.Receive? {
      assert s.read + [s.live[0]] == s.read + InHand(s) + [s.live[0]];
    } else if a.Forward? {
      assert s.copied + s.flushed + s.direct + [s.reader.m] == s.copied + s.flushed + (s.direct + [s.reader.m]);
      assert s.flushed + s.late + s.direct + [s.reader.m] == s.flushed + s.late + (s.direct + [s.reader.m]) + [];
    } else if a.Park? || (cfg.protocol.CheckUnderLock? && !s.ready) {
      ParkStep(s, s.reader.m);
    }
  }

  lemma PhaseStep(cfg: Config, s: State, a: Action)
    requires Enabled(cfg, s, a) && PhaseOk(s)
    ensures PhaseOk(Apply(cfg, s, a))
  {
    match a
    case Enqueue(_) =>
    case Register =>
    case Remove =>
    case TakeOut =>
    case Receive => ReaderStep(cfg, s, a);
    case Load => ReaderStep(cfg, s, a);
    case Forward => ReaderStep(cfg, s, a);
    case Park => ReaderStep(cfg, s, a);
    case _ => ReplayerStep(cfg, s, a);
  }
}
