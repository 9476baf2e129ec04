/** How one websocket client is served: messages cached before it came are
    replayed by one thread, while its main loop parks what arrives live until
    the replay is over. Every step below is atomic; they interleave freely. */
module Handoff {
  import opened GoList

  /** What a message is to the server: its timestamp, and its contents. */
  datatype Msg = Msg(ts: int, body: int)

  /** The code as it stands, and two repairs: the flag stored before the lock is
      released, and the flag also loaded under the lock. */
  datatype Protocol = AsWritten | StoreUnderLock | CheckUnderLock

  /** `cap` bounds both the cache and a client's output channel. */
  datatype Config = Config(cap: nat, liveCap: nat, protocol: Protocol)

  datatype Member = Outside | Registered | Removed

  datatype Replayer =
    | Waiting             // before the copy
    | Pushing(next: nat)  // copied messages from `next` on are still to be pushed
    | Flushing(next: nat) // holds the lock; parked messages from `next` on still to be pushed
    | Unlocked            // has released the lock, has not stored the flag
    | Finished

  datatype Reader =
    | Selecting
    | Holding(m: Msg)             // received a live message
    | Loaded(m: Msg, ready: bool) // and loaded the flag

  datatype State = State(
    start: int,
    hist: seq<Msg>,      // all messages ever enqueued
    queue: seq<Msg>,     // the cache
    member: Member,
    live: seq<Msg>,      // msgLiveCh
    ready: bool,         // pre_sync_ok
    parked: seq<Msg>,    // accmsg
    output: seq<Msg>,    // msgCh
    replayer: Replayer,
    reader: Reader,
    // history
    since: nat,          // length of `hist` at registration
    until: nat,          // and at removal
    copyAt: nat,         // and when the cache was copied
    copied: seq<Msg>,    // what the replayer copied
    entered: seq<Msg>,   // all that ever entered msgCh
    left: seq<Msg>,      // all that ever left it
    read: seq<Msg>,      // all the main loop ever received live
    flushed: seq<Msg>,   // parked messages the replayer flushed
    late: seq<Msg>,      // messages parked after the flush
    direct: seq<Msg>)    // messages forwarded by the main loop itself

  /** Reduction of an integer to 64 bits with a sign. */
  function Wrap64(x: int): int {
    (x + 0x8000_0000_0000_0000) % 0x1_0000_0000_0000_0000 - 0x8000_0000_0000_0000
  }

  predicate Int64(x: int) {
    -0x8000_0000_0000_0000 <= x < 0x8000_0000_0000_0000
  }

  /** The start of a client that asks, at `now`, for the last `seconds`. */
  function ClientStart(now: int, seconds: int): int {
    Wrap64(now - Wrap64(seconds * 1000))
  }

  /** With a start of zero there is no replay and the flag is set at once. */
  function Init(start: int): State {
    State(start, [], [], Outside, [], start == 0, [], [],
          if start == 0 then Finished else Waiting, Selecting,
          0, 0, 0, [], [], [], [], [], [], [])
  }

  datatype Action =
    | Enqueue(m: Msg)
    | Register
    | Remove
    | Copy
    | PushCopied
    | Lock
    | PushParked
    | Unlock
    | StoreFlag
    | Receive
    | Load
    | Forward
    | Park
    | TakeOut

  /** `enqueue` on the cache: push, then drop the front if over the bound. */
  function Push(queue: seq<Msg>, m: Msg, cap: nat): seq<Msg> {
    var q := queue + [m];
    if |q| > cap then q[1..] else q
  }

  /** The messages of a cache that are not before `start`. */
  function Since(queue: seq<Msg>, start: int): seq<Msg> {
    if queue == [] then []
    else
      var t, m := Since(queue[..|queue| - 1], start), queue[|queue| - 1];
      if start <= m.ts then t + [m] else t
  }

  predicate Enabled(cfg: Config, s: State, a: Action) {
    match a
    case Enqueue(_) => s.member.Registered? ==> |s.live| < cfg.liveCap
    case Register => s.member.Outside?
    case Remove => s.member.Registered?
    case Copy => !s.member.Outside? && s.replayer.Waiting?
    case PushCopied => s.replayer.Pushing? && s.replayer.next < |s.copied| && |s.output| < cfg.cap
    case Lock => s.replayer.Pushing? && s.replayer.next == |s.copied|
    case PushParked => s.replayer.Flushing? && s.replayer.next < |s.parked| && |s.output| < cfg.cap
    case Unlock => s.replayer.Flushing? && s.replayer.next == |s.parked|
    case StoreFlag => s.replayer.Unlocked?
    case Receive => s.reader.Selecting? && s.live != []
    case Load => s.reader.Holding? && (cfg.protocol.CheckUnderLock? ==> !s.replayer.Flushing?)
    case Forward => s.reader.Loaded? && s.reader.ready && |s.output| < cfg.cap
    case Park => s.reader.Loaded? && !s.reader.ready && !s.replayer.Flushing?
    case TakeOut => s.reader.Selecting? && s.output != []
  }

  function DoPark(s: State, m: Msg): State {
    s.(parked := s.parked + [m],
       late := if s.replayer.Unlocked? || s.replayer.Finished? then s.late + [m] else s.late,
       reader := Selecting)
  }

  function Apply(cfg: Config, s: State, a: Action): State
    requires Enabled(cfg, s, a)
  {
    match a
    case Enqueue(m) =>
      s.(hist := s.hist + [m],
         queue := Push(s.queue, m, cfg.cap),
         live := if s.member.Registered? then s.live + [m] else s.live)
    case Register => s.(member := Registered, since := |s.hist|)
    case Remove => s.(member := Removed, until := |s.hist|)
    case Copy => s.(copied := Since(s.queue, s.start), copyAt := |s.hist|, replayer := Pushing(0))
    case PushCopied =>
      var m := s.copied[s.replayer.next];
      s.(output := s.output + [m], entered := s.entered + [m], replayer := Pushing(s.replayer.next + 1))
    case Lock => s.(replayer := Flushing(0))
    case PushParked =>
      var m := s.parked[s.replayer.next];
      s.(output := s.output + [m], entered := s.entered + [m], replayer := Flushing(s.replayer.next + 1))
    case Unlock =>
      var s' := s.(flushed := s.parked, parked := []);
      if cfg.protocol.AsWritten? then s'.(replayer := Unlocked) else s'.(replayer := Finished, ready := true)
    case StoreFlag => s.(replayer := Finished, ready := true)
    case Receive => s.(reader := Holding(s.live[0]), live := s.live[1..], read := s.read + [s.live[0]])
    case Load =>
      if cfg.protocol.CheckUnderLock? && !s.ready then DoPark(s, s.reader.m)
      else s.(reader := Loaded(s.reader.m, s.ready))
    case Forward =>
      var m := s.reader.m;
      s.(output := s.output + [m], entered := s.entered + [m], direct := s.direct + [m], reader := Selecting)
    case Park => DoPark(s, s.reader.m)
    case TakeOut => s.(left := s.left + [s.output[0]], output := s.output[1..])
  }

  /** The state after a sequence of actions; nothing if one is not enabled. */
  function Perform(cfg: Config, s: State, acts: seq<Action>): Option<State> {
    if acts == [] then Some(s)
    else
      match Perform(cfg, s, acts[..|acts| - 1])
      case None => None
      case Some(m) =>
        var a := acts[|acts| - 1];
        if Enabled(cfg, m, a) then Some(Apply(cfg, m, a)) else None
  }

  /** Some interleaving leads to this state. */
  ghost predicate Reached(cfg: Config, s: State) {
    exists start, acts :: Perform(cfg, Init(start), acts) == Some(s)
  }
}
