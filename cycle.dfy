/** The monitor loop of MicMuteService as specification functions: what one
    cycle raises and which device calls and delays it makes, and what a run
    of cycles does. The class in module Services is proved to do exactly this. */
module Cycle {
  import opened Oracle

  /** The status messages the service raises, by kind; Text gives the exact string. */
  datatype Notice =
    | ServiceRunning
    | ServiceStopped
    | MicrophoneDetected(name: string)
    | NoMicrophone
    | MicrophoneMuted
    | MuteFailed
    | Failure(msg: string)

  /** The string StatusChanged carries; the error reports are exactly the
      strings that start with "Error: ". */
  function Text(n: Notice): (s: string)
    ensures |s| >= 7
    ensures n.Failure? <==> s[..7] == "Error: "
  {
    var s := match n
      case ServiceRunning => "Service is running"
      case ServiceStopped => "Service is stopped"
      case MicrophoneDetected(name) => "Microphone detected: " + name
      case NoMicrophone => "No microphone detected"
      case MicrophoneMuted => "Microphone muted"
      case MuteFailed => "Failed to mute microphone"
      case Failure(msg) => "Error: " + msg;
    assert n.Failure? || s[0] != 'E';
    s
  }

  /** A notification: StatusChanged, MicrophoneDetectionChanged or MicrophoneMuteStateChanged. */
  datatype Event = Status(notice: Notice) | Detection(detected: bool) | MuteState(muted: bool)

  datatype DelayKind = InitialDelay | RetryDelay | IntervalDelay | ErrorBackoff

  /** One step of the loop as the device and the clock see it. */
  datatype Op =
    | Wait(kind: DelayKind, ms: int)  // an awaited Task.Delay
    | Poll(available: bool)           // MicrophoneManager.Initialize
    | ReadMute(muted: bool)           // MicrophoneManager.IsMicrophoneMuted
    | MuteCall(ok: bool)              // MicrophoneManager.MuteMicrophone

  /** The settings a cycle reads: _checkIntervalMs, _initialDelayMs, _retryAttempts. */
  datatype Config = Config(checkIntervalMs: int, initialDelayMs: int, retryAttempts: int)

  const RetryDelayMs := 100
  const ErrorBackoffMs := 2000

  function RunningNotice(running: bool): Notice
  {
    if running then ServiceRunning else ServiceStopped
  }

  function DetectionNotice(available: bool, name: string): Notice
  {
    if available then MicrophoneDetected(name) else NoMicrophone
  }

  function MuteNotice(muted: bool): Notice
  {
    if muted then MicrophoneMuted else MuteFailed
  }

  /** The state of a cycle's retry loop: device calls and delays so far,
      whether a call succeeded, whether a retry delay was cancelled, and the
      number of failed calls. */
  datatype RetryOutcome = RetryOutcome(ops: seq<Op>, success: bool, cancelled: bool, failures: nat)

  /** The retry loop of lines 97-106 after `n` passes, whatever its bound:
      each pass calls MuteMicrophone, and a failed call is followed by the
      100 ms retry delay, which is the cycle's delay number `n` (the initial
      delay is number 0); the loop stops at a success or a cancellation. */
  function Attempts(c: CycleInput, n: nat): (r: RetryOutcome)
    ensures r.success || r.cancelled || r.failures == n
    ensures r.cancelled ==> !r.success && 0 < r.failures && Cancels(c, r.failures)
    ensures r.failures + (if r.success then 1 else 0) <= n
  {
    if n == 0 then RetryOutcome([], false, false, 0)
    else
      var s := Attempts(c, n - 1);
      if s.success || s.cancelled then s
      else if MuteResult(c, n - 1) then RetryOutcome(s.ops + [MuteCall(true)], true, false, s.failures)
      else RetryOutcome(s.ops + [MuteCall(false), Wait(RetryDelay, RetryDelayMs)], false, Cancels(c, n), s.failures + 1)
  }

  /** The retry loop run to its end with the bound `_retryAttempts`. */
  function Retry(c: CycleInput, retries: int): (r: RetryOutcome)
    ensures r.failures + (if r.success then 1 else 0) <= (if retries > 0 then retries else 0)
    ensures retries <= 0 ==> r.ops == [] && !r.success && !r.cancelled
  {
    Attempts(c, if retries > 0 then retries else 0)
  }

  /** What a cycle, or a run of cycles, leaves behind: the notifications raised,
      the device calls and delays, the recorded availability (wasMicAvailable)
      and whether the loop ended by cancellation. */
  datatype Outcome = Outcome(events: seq<Event>, ops: seq<Op>, available: bool, cancelled: bool)

  /** The end of a cycle: after an error in the handler of a notification,
      the catch block reports it and awaits the 2000 ms backoff; otherwise the
      cycle awaits the check interval. Either delay is the cycle's `delay`-th. */
  function Finish(cfg: Config, c: CycleInput, events: seq<Event>, ops: seq<Op>, available: bool, threw: bool, delay: nat): (r: Outcome)
    requires threw ==> c.fault.Some?
    ensures r.cancelled <==> Cancels(c, delay)
    ensures |r.ops| == |ops| + 1 && |r.events| == |events| + (if threw then 1 else 0)
  {
    if threw then
      Outcome(events + [Status(Failure(c.fault.value.msg))], ops + [Wait(ErrorBackoff, ErrorBackoffMs)], available, Cancels(c, delay))
    else
      Outcome(events, ops + [Wait(IntervalDelay, cfg.checkIntervalMs)], available, Cancels(c, delay))
  }

  /** A notification and the status that describes it, the first being the
      cycle's `sent`-th: a handler that throws on the first ends the pair. */
  function Pair(c: CycleInput, first: Event, second: Event, sent: nat): seq<Event>
  {
    if HandlerThrows(c, sent) then [first] else [first, second]
  }

  /** The handler of one of the pair's two notifications throws. */
  predicate PairThrows(c: CycleInput, sent: nat)
  {
    HandlerThrows(c, sent) || HandlerThrows(c, sent + 1)
  }

  /** The detection notifications raised after polling availability. */
  function DetectionEvents(wasAvailable: bool, c: CycleInput): seq<Event>
  {
    if wasAvailable != c.available then Pair(c, Detection(c.available), Status(DetectionNotice(c.available, c.name)), 0)
    else []
  }

  /** The mute-state notifications raised after the second mute reading. */
  function MuteEvents(c: CycleInput, sent: nat): seq<Event>
  {
    if c.mutedBefore != c.mutedAfter then Pair(c, MuteState(c.mutedAfter), Status(MuteNotice(c.mutedAfter)), sent)
    else []
  }

  /** The part of a cycle that runs with a device present: notifications raised,
      device calls and delays, whether a handler threw, whether a retry delay
      was cancelled, and the number of the cycle's next delay. */
  datatype Stage = Stage(events: seq<Event>, ops: seq<Op>, threw: bool, cancelled: bool, delay: nat)

  /** Read wasMuted, make the mute attempts, read isMuted and report a change;
      `sent` notifications were raised earlier in the cycle. */
  function MuteStage(cfg: Config, c: CycleInput, sent: nat): (r: Stage)
    ensures |r.ops| > 0 && r.ops[0] == ReadMute(c.mutedBefore)
    ensures r.cancelled ==> r.events == [] && !r.threw
    ensures !r.cancelled ==> r.ops[|r.ops| - 1] == ReadMute(c.mutedAfter) && r.delay > 0
    ensures r.events != [] ==> c.mutedBefore != c.mutedAfter && r.events[0] == MuteState(c.mutedAfter)
    ensures r.threw ==> r.events != [] && c.fault.Some? && sent <= c.fault.value.at <= sent + 1
  {
    var retry := Retry(c, cfg.retryAttempts);
    var tried := [ReadMute(c.mutedBefore)] + retry.ops;
    if retry.cancelled then Stage([], tried, false, true, 0)
    else
      Stage(MuteEvents(c, sent), tried + [ReadMute(c.mutedAfter)],
            c.mutedBefore != c.mutedAfter && PairThrows(c, sent), false, 1 + retry.failures)
  }

  /** The start of a cycle: await the initial delay (the cycle's delay number 0),
      poll availability and report a change of it. */
  function DetectStage(cfg: Config, wasAvailable: bool, c: CycleInput): (r: Stage)
    ensures |r.ops| > 0 && r.ops[0] == Wait(InitialDelay, cfg.initialDelayMs)
    ensures r.cancelled <==> Cancels(c, 0)
    ensures r.cancelled ==> r.events == [] && !r.threw
    ensures r.events != [] ==> wasAvailable != c.available && r.events[0] == Detection(c.available)
    ensures r.threw ==> r.events != [] && c.fault.Some? && c.fault.value.at <= 1
  {
    var start := [Wait(InitialDelay, cfg.initialDelayMs)];
    if Cancels(c, 0) then Stage([], start, false, true, 0)
    else Stage(DetectionEvents(wasAvailable, c), start + [Poll(c.available)],
               wasAvailable != c.available && PairThrows(c, 0), false, 1)
  }

  /** One pass of the body of the monitor loop, starting with the recorded availability `wasAvailable`. */
  function CycleStep(cfg: Config, wasAvailable: bool, c: CycleInput): (r: Outcome)
    ensures |r.ops| > 0 && r.ops[0] == Wait(InitialDelay, cfg.initialDelayMs)
    ensures r.cancelled ==> c.cancelAt.Some?
  {
    var detect := DetectStage(cfg, wasAvailable, c);
    if detect.cancelled then Outcome([], detect.ops, wasAvailable, true)
    else if detect.threw || !c.available then Finish(cfg, c, detect.events, detect.ops, c.available, detect.threw, 1)
    else
      var muting := MuteStage(cfg, c, if wasAvailable != c.available then 2 else 0);
      var events, ops := detect.events + muting.events, detect.ops + muting.ops;
      if muting.cancelled then Outcome(events, ops, true, true)
      else Finish(cfg, c, events, ops, true, muting.threw, muting.delay)
  }

  /** `first` followed by `rest`: their notifications and device steps in
      order, ending as `rest` ends. */
  function Then(first: Outcome, rest: Outcome): Outcome
  {
    Outcome(first.events + rest.events, first.ops + rest.ops, rest.available, rest.cancelled)
  }

  /** The monitor loop after its first `n` cycles, the recorded availability
      starting false; once a cycle is cancelled nothing more happens. */
  function RunUpTo(cfg: Config, cycles: seq<CycleInput>, n: nat): (r: Outcome)
    requires n <= |cycles|
    ensures r.cancelled || |r.ops| >= n
    ensures r.cancelled ==> 0 < n && |r.ops| > 0
  {
    if n == 0 then Outcome([], [], false, false)
    else
      var before := RunUpTo(cfg, cycles, n - 1);
      if before.cancelled then before else Then(before, CycleStep(cfg, before.available, cycles[n - 1]))
  }

  /** The monitor loop over all of `cycles`. */
  function Run(cfg: Config, cycles: seq<CycleInput>): (r: Outcome)
    ensures r.cancelled || |r.ops| >= |cycles|
  {
    RunUpTo(cfg, cycles, |cycles|)
  }

  /** The monitoring task ends Canceled rather than run to completion: the
      loop's last step is the error backoff of lines 126-127, which sits in the
      catch block, so its OperationCanceledException leaves the method instead
      of reaching the `break`. */
  predicate TaskCanceled(r: Outcome)
    ensures TaskCanceled(r) ==> r.cancelled
  {
    r.cancelled && |r.ops| > 0 && r.ops[|r.ops| - 1] == Wait(ErrorBackoff, ErrorBackoffMs)
  }
}
