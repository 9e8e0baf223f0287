/** MicMuteService: the lifecycle flag, the settings and the monitor loop,
    with the notifications it raises kept as a trace. */
module Services {
  import opened Oracle
  import opened Cycle
  import opened CycleProps

  class MicMuteService {
    var isRunning: bool
    var checkIntervalMs: int
    var initialDelayMs: int
    var retryAttempts: int
    /** Every notification raised so far, in the order raised. */
    var trace: seq<Event>
    /** Every device call made and delay awaited so far by the monitor loop. */
    var ops: seq<Op>
    /** The status of `_monitoringTask`: whether the last monitor loop ended Canceled. */
    var taskCanceled: bool

    /** The settings keep positive values. */
    ghost predicate Valid()
      reads this`checkIntervalMs, this`initialDelayMs, this`retryAttempts
    {
      checkIntervalMs > 0 && initialDelayMs > 0 && retryAttempts > 0
    }

    function Settings(): Config
      reads this`checkIntervalMs, this`initialDelayMs, this`retryAttempts
    {
      Config(checkIntervalMs, initialDelayMs, retryAttempts)
    }

    constructor ()
      ensures Valid() && !isRunning
      ensures Settings() == Config(1000, 500, 3)
      ensures trace == [] && ops == [] && !taskCanceled
    {
      isRunning, taskCanceled := false, false;
      checkIntervalMs, initialDelayMs, retryAttempts := 1000, 500, 3;
      trace, ops := [], [];
    }

    /** The IsRunning setter: a status is raised only when the value changes. */
    method SetIsRunning(value: bool)
      modifies this`isRunning, this`trace
      ensures isRunning == value
      ensures trace == old(trace) + if old(isRunning) != value then [Status(RunningNotice(value))] else []
    {
      if isRunning != value {
        isRunning := value;
        OnStatusChanged(RunningNotice(value));
      }
    }

    /** Starting a running service does nothing; otherwise the monitor task is
        launched (the loop itself is MonitorMicrophone) and the service runs. */
    method Start()
      modifies this`isRunning, this`trace, this`taskCanceled
      ensures isRunning
      ensures old(isRunning) ==> trace == old(trace) && taskCanceled == old(taskCanceled)
      ensures !old(isRunning) ==> trace == old(trace) + [Status(ServiceRunning)] && !taskCanceled
    {
      if isRunning {
        return;
      }
      taskCanceled := false;
      SetIsRunning(true);
    }

    /** Stopping a stopped service does nothing; otherwise the loop is cancelled
        and awaited, so it raises nothing more, and the service stops. */
    method Stop()
      modifies this`isRunning, this`trace
      ensures !isRunning
      ensures !old(isRunning) ==> trace == old(trace)
      ensures old(isRunning) ==> trace == old(trace) + [Status(ServiceStopped)]
    {
      if !isRunning {
        return;
      }
      SetIsRunning(false);
    }

    /** Stop as the code has it (lines 61-63): when the monitoring task ended
        Canceled (see Cycle.TaskCanceled), waiting on it throws before IsRunning
        is cleared, so the service stays running and raises nothing. Stop above
        is the intended behaviour the rest of the model uses. */
    method StopAsWritten() returns (threw: bool)
      modifies this`isRunning, this`trace
      ensures threw <==> old(isRunning) && taskCanceled
      ensures threw ==> isRunning && trace == old(trace)
      ensures !threw ==> !isRunning
      ensures !threw && old(isRunning) ==> trace == old(trace) + [Status(ServiceStopped)]
      ensures !old(isRunning) ==> trace == old(trace)
    {
      if !isRunning {
        return false;
      }
      if taskCanceled {
        return true;
      }
      SetIsRunning(false);
      threw := false;
    }

    /** Each setting is replaced only by a positive argument. */
    method ConfigureSettings(checkIntervalMs: int, initialDelayMs: int, retryAttempts: int)
      modifies this`checkIntervalMs, this`initialDelayMs, this`retryAttempts
      ensures this.checkIntervalMs == if checkIntervalMs > 0 then checkIntervalMs else old(this.checkIntervalMs)
      ensures this.initialDelayMs == if initialDelayMs > 0 then initialDelayMs else old(this.initialDelayMs)
      ensures this.retryAttempts == if retryAttempts > 0 then retryAttempts else old(this.retryAttempts)
      ensures old(Valid()) ==> Valid()
    {
      if checkIntervalMs > 0 {
        this.checkIntervalMs := checkIntervalMs;
      }
      if initialDelayMs > 0 {
        this.initialDelayMs := initialDelayMs;
      }
      if retryAttempts > 0 {
        this.retryAttempts := retryAttempts;
      }
    }

    /** Raise StatusChanged; subscribers receive Text(status). */
    method OnStatusChanged(status: Notice)
      modifies this`trace
      ensures trace == old(trace) + [Status(status)]
    {
      trace := trace + [Status(status)];
    }

    method OnMicrophoneDetectionChanged(isDetected: bool)
      modifies this`trace
      ensures trace == old(trace) + [Detection(isDetected)]
    {
      trace := trace + [Detection(isDetected)];
    }

    method OnMicrophoneMuteStateChanged(isMuted: bool)
      modifies this`trace
      ensures trace == old(trace) + [MuteState(isMuted)]
    {
      trace := trace + [MuteState(isMuted)];
    }

    /** Task.Delay with the cancellation token: the cycle's `index`-th delay. */
    method Delay(c: CycleInput, kind: DelayKind, ms: int, index: nat) returns (cancelled: bool)
      modifies this`ops
      ensures ops == old(ops) + [Wait(kind, ms)]
      ensures cancelled == Cancels(c, index)
    {
      ops := ops + [Wait(kind, ms)];
      cancelled := Cancels(c, index);
    }

    /** MicrophoneManager.Initialize. */
    method Initialize(c: CycleInput) returns (available: bool)
      modifies this`ops
      ensures ops == old(ops) + [Poll(c.available)] && available == c.available
    {
      available := c.available;
      ops := ops + [Poll(available)];
    }

    /** MicrophoneManager.IsMicrophoneMuted, reading `muted` from the device. */
    method IsMicrophoneMuted(muted: bool) returns (r: bool)
      modifies this`ops
      ensures ops == old(ops) + [ReadMute(muted)] && r == muted
    {
      r := muted;
      ops := ops + [ReadMute(r)];
    }

    /** MicrophoneManager.MuteMicrophone, the cycle's `attempt`-th call. */
    method MuteMicrophone(c: CycleInput, attempt: nat) returns (ok: bool)
      modifies this`ops
      ensures ops == old(ops) + [MuteCall(MuteResult(c, attempt))] && ok == MuteResult(c, attempt)
    {
      ok := MuteResult(c, attempt);
      ops := ops + [MuteCall(ok)];
    }

    /** The retry loop of lines 97-106: up to _retryAttempts calls to
        MuteMicrophone, stopping at the first success, each failure followed
        by the 100 ms retry delay; `failures` counts those delays. */
    method MuteWithRetries(c: CycleInput) returns (muteSuccess: bool, cancelled: bool, failures: nat)
      requires Valid()
      modifies this`ops
      ensures var r := Retry(c, retryAttempts);
        ops == old(ops) + r.ops && muteSuccess == r.success && cancelled == r.cancelled && failures == r.failures
    {
      ghost var done: seq<Op> := [];
      muteSuccess, cancelled, failures := false, false, 0;
      var attempt: nat := 0;
      while attempt < retryAttempts && !muteSuccess && !cancelled
        invariant attempt <= retryAttempts
        invariant ops == old(ops) + done
        invariant Attempts(c, attempt) == RetryOutcome(done, muteSuccess, cancelled, failures)
      {
        ghost var ops0 := ops;
        muteSuccess := MuteMicrophone(c, attempt);
        AppendAssoc(old(ops), done, [MuteCall(muteSuccess)]);
        if muteSuccess {
          done := done + [MuteCall(true)];
        } else {
          // Brief delay before retry: the cycle's delay number 1 + attempt
          cancelled := Delay(c, RetryDelay, RetryDelayMs, 1 + attempt);
          AppendAssoc(ops0, [MuteCall(false)], [Wait(RetryDelay, RetryDelayMs)]);
          AppendAssoc(old(ops), done, [MuteCall(false), Wait(RetryDelay, RetryDelayMs)]);
          done := done + [MuteCall(false), Wait(RetryDelay, RetryDelayMs)];
          failures := failures + 1;
        }
        attempt := attempt + 1;
      }
      if attempt < retryAttempts {
        AttemptsSettled(c, attempt, retryAttempts);
      }
    }

    /** Raise StatusChanged, MicrophoneDetectionChanged or MicrophoneMuteStateChanged. */
    method Notify(e: Event)
      modifies this`trace
      ensures trace == old(trace) + [e]
    {
      match e
      case Status(notice) => OnStatusChanged(notice);
      case Detection(detected) => OnMicrophoneDetectionChanged(detected);
      case MuteState(muted) => OnMicrophoneMuteStateChanged(muted);
    }

    /** Raise a notification and the status that describes it, the first
        being the cycle's `sent`-th; a throwing handler ends the pair. */
    method NotifyPair(c: CycleInput, first: Event, second: Event, sent: nat) returns (threw: bool)
      modifies this`trace
      ensures trace == old(trace) + Pair(c, first, second, sent)
      ensures threw == PairThrows(c, sent)
    {
      Notify(first);
      threw := HandlerThrows(c, sent);
      if !threw {
        Notify(second);
        threw := HandlerThrows(c, sent + 1);
      }
    }

    /** Lines 96-114: with a device present, drive it toward muted and report
        a change of its mute flag; `sent` notifications were raised before. */
    method EnsureMuted(c: CycleInput, sent: nat) returns (threw: bool, cancelled: bool, delay: nat)
      requires Valid()
      modifies this`trace, this`ops
      ensures var s := MuteStage(Settings(), c, sent);
        && trace == old(trace) + s.events && ops == old(ops) + s.ops
        && threw == s.threw && cancelled == s.cancelled && delay == s.delay
    {
      var wasMuted := IsMicrophoneMuted(c.mutedBefore);
      ghost var retry := Retry(c, retryAttempts);
      var muteSuccess, failures;
      muteSuccess, cancelled, failures := MuteWithRetries(c);
      AppendAssoc(old(ops), [ReadMute(c.mutedBefore)], retry.ops);
      threw, delay := false, 0;
      if cancelled {
        return;
      }
      delay := 1 + failures;
      var isMuted := IsMicrophoneMuted(c.mutedAfter);
      AppendAssoc(old(ops), [ReadMute(c.mutedBefore)] + retry.ops, [ReadMute(c.mutedAfter)]);
      if wasMuted != isMuted {
        threw := NotifyPair(c, MuteState(isMuted), Status(MuteNotice(isMuted)), sent);
      }
    }

    /** Lines 76-91: the initial delay, polling availability and reporting a
        change of it; `wasMicAvailable` is the loop's recorded availability. */
    method DetectMicrophone(c: CycleInput, wasMicAvailable: bool) returns (isMicAvailable: bool, threw: bool, cancelled: bool)
      modifies this`trace, this`ops
      ensures var d := DetectStage(Settings(), wasMicAvailable, c);
        && trace == old(trace) + d.events && ops == old(ops) + d.ops
        && threw == d.threw && cancelled == d.cancelled
      ensures !cancelled ==> isMicAvailable == c.available
    {
      threw := false;
      isMicAvailable := wasMicAvailable;
      cancelled := Delay(c, InitialDelay, initialDelayMs, 0);
      if cancelled {
        return;
      }
      isMicAvailable := Initialize(c);
      AppendAssoc(old(ops), [Wait(InitialDelay, initialDelayMs)], [Poll(c.available)]);
      if wasMicAvailable != isMicAvailable {
        threw := NotifyPair(c, Detection(isMicAvailable), Status(DetectionNotice(isMicAvailable, c.name)), 0);
      }
    }

    /** One pass of the body of the monitor loop (lines 73-128), reading the
        current settings; `wasMicAvailable` is the loop's recorded availability. */
    method MonitorCycle(c: CycleInput, wasMicAvailable: bool) returns (micAvailable: bool, cancelled: bool, canceledTask: bool)
      requires Valid()
      modifies this`trace, this`ops
      ensures var r := CycleStep(Settings(), wasMicAvailable, c);
        && trace == old(trace) + r.events && ops == old(ops) + r.ops
        && micAvailable == r.available && cancelled == r.cancelled
        && canceledTask == TaskCanceled(r)
    {
      var isMicAvailable, threw;
      micAvailable, canceledTask := wasMicAvailable, false;
      isMicAvailable, threw, cancelled := DetectMicrophone(c, wasMicAvailable);
      if cancelled {
        return;
      }
      micAvailable := isMicAvailable;
      ghost var detect := DetectStage(Settings(), wasMicAvailable, c);
      ghost var events, steps := detect.events, detect.ops;
      var delay: nat := 1;
      if !threw && isMicAvailable {
        var sent := if wasMicAvailable != isMicAvailable then 2 else 0;
        ghost var muting := MuteStage(Settings(), c, sent);
        threw, cancelled, delay := EnsureMuted(c, sent);
        AppendAssoc(old(trace), events, muting.events);
        AppendAssoc(old(ops), steps, muting.ops);
        events, steps := events + muting.events, steps + muting.ops;
        if cancelled {
          MutingCancelledNotTask(Settings(), c, sent, events, detect.ops);
          return;
        }
      }
      cancelled := FinishCycle(c, threw, delay);
      FinishTaskCanceled(Settings(), c, events, steps, micAvailable, threw, delay);
      // only the backoff of the catch block lets the cancellation leave the loop
      canceledTask := threw && cancelled;
      FinishAfter(Settings(), c, old(trace), events, old(ops), steps, micAvailable, threw, delay);
    }

    /** The end of a cycle: the catch block's report and backoff, or the check interval. */
    method FinishCycle(c: CycleInput, threw: bool, delay: nat) returns (cancelled: bool)
      requires threw ==> c.fault.Some?
      modifies this`trace, this`ops
      ensures var r := Finish(Settings(), c, old(trace), old(ops), false, threw, delay);
        trace == r.events && ops == r.ops && cancelled == r.cancelled
    {
      if threw {
        OnStatusChanged(Failure(c.fault.value.msg));
        cancelled := Delay(c, ErrorBackoff, ErrorBackoffMs, delay);
      } else {
        cancelled := Delay(c, IntervalDelay, checkIntervalMs, delay);
      }
    }

    /** MonitorMicrophoneAsync: cycles until cancellation is observed, with the
        recorded availability starting false; `cycles` is what the successive
        cycles observe (the loop also ends when they are used up). */
    method MonitorMicrophone(cycles: seq<CycleInput>)
      requires Valid()
      modifies this`trace, this`ops, this`taskCanceled
      ensures var r := Run(Settings(), cycles);
        trace == old(trace) + r.events && ops == old(ops) + r.ops && taskCanceled == TaskCanceled(r)
    {
      var wasMicAvailable, cancelled, canceledTask := false, false, false;
      var i: nat := 0;
      ghost var cfg := Settings();
      while i < |cycles| && !cancelled
        invariant i <= |cycles| && Settings() == cfg
        invariant var r := RunUpTo(cfg, cycles, i);
          trace == old(trace) + r.events && ops == old(ops) + r.ops && wasMicAvailable == r.available && cancelled == r.cancelled
        invariant canceledTask == TaskCanceled(RunUpTo(cfg, cycles, i))
      {
        ghost var before := RunUpTo(cfg, cycles, i);
        wasMicAvailable, cancelled, canceledTask := MonitorCycle(cycles[i], wasMicAvailable);
        ghost var step := CycleStep(cfg, before.available, cycles[i]);
        ThenTaskCanceled(before, step);
        AppendAssoc(old(trace), before.events, step.events);
        AppendAssoc(old(ops), before.ops, step.ops);
        i := i + 1;
      }
      CancelledRunIsFinal(cfg, cycles, i);
      taskCanceled := canceledTask;
    }
  }

  /** Finishing after earlier notifications and steps is finishing, then prefixing them. */
  lemma FinishAfter(cfg: Config, c: CycleInput, trace: seq<Event>, events: seq<Event>, ops: seq<Op>, steps: seq<Op>,
                    available: bool, threw: bool, delay: nat)
    requires threw ==> c.fault.Some?
    ensures var r, s := Finish(cfg, c, trace + events, ops + steps, false, threw, delay), Finish(cfg, c, events, steps, available, threw, delay);
      r.events == trace + s.events && r.ops == ops + s.ops && r.cancelled == s.cancelled
  {
    AppendAssoc(ops, steps, [if threw then Wait(ErrorBackoff, ErrorBackoffMs) else Wait(IntervalDelay, cfg.checkIntervalMs)]);
    if threw {
      AppendAssoc(trace, events, [Status(Failure(c.fault.value.msg))]);
    }
  }

  lemma AppendAssoc<T>(a: seq<T>, b: seq<T>, c: seq<T>)
    ensures (a + b) + c == a + (b + c)
  {
  }

  /** A service that is started twice, runs its monitor loop over `cycles`,
      and is stopped twice: one running status, the loop's notifications,
      one stopped status, and nothing after Stop. */
  method RunSession(cycles: seq<CycleInput>) returns (service: MicMuteService)
    ensures fresh(service) && !service.isRunning && service.Valid()
    ensures service.trace == [Status(ServiceRunning)] + Run(Config(1000, 500, 3), cycles).events
                             + [Status(ServiceStopped)]
  {
    service := new MicMuteService();
    service.Start();
    service.Start();
    service.MonitorMicrophone(cycles);
    service.Stop();
    service.Stop();
  }

  /** RunSession with Stop as the code has it: when the loop ends by a
      cancellation its error backoff observed, Stop throws, no stopped status
      is raised and the service still counts as running, so a later Start
      does nothing although no loop runs. */
  method RunSessionAsWritten(cycles: seq<CycleInput>) returns (service: MicMuteService, threw: bool)
    ensures fresh(service) && service.Valid()
    ensures threw <==> TaskCanceled(Run(Config(1000, 500, 3), cycles))
    ensures threw ==> service.isRunning && service.trace == [Status(ServiceRunning)] + Run(Config(1000, 500, 3), cycles).events
    ensures !threw ==>
      && !service.isRunning
      && service.trace == [Status(ServiceRunning)] + Run(Config(1000, 500, 3), cycles).events + [Status(ServiceStopped)]
  {
    service := new MicMuteService();
    service.Start();
    service.MonitorMicrophone(cycles);
    threw := service.StopAsWritten();
  }
}
