/** Properties of the monitor loop, proved about the specification functions of module Cycle. */
module CycleProps {
  import opened Oracle
  import opened Cycle

  /** Once a mute call succeeds or a retry delay is cancelled, further passes change nothing. */
  lemma {:induction false} AttemptsSettled(c: CycleInput, n: nat, m: nat)
    requires n <= m
    requires Attempts(c, n).success || Attempts(c, n).cancelled
    ensures Attempts(c, m) == Attempts(c, n)
    decreases m
  {
    if m > n {
      AttemptsSettled(c, n, m - 1);
    }
  }

  /** `k` failed mute calls, each followed by its 100 ms retry delay. */
  function FailedTries(k: nat): seq<Op>
  {
    if k == 0 then [] else FailedTries(k - 1) + [MuteCall(false), Wait(RetryDelay, RetryDelayMs)]
  }

  /** No retry delay before the `k`-th mute call (delays 1 to k) is cancelled. */
  predicate Reaches(c: CycleInput, k: nat)
  {
    forall j :: 1 <= j <= k ==> !Cancels(c, j)
  }

  /** The retry loop after `n` passes: failed calls each followed by one retry
      delay, then possibly one successful call and nothing after it; no more
      than `n` calls; the failed calls are the first results, and the loop is
      cancelled exactly when the last retry delay was. */
  lemma {:induction false} AttemptsShape(c: CycleInput, n: nat)
    ensures var r := Attempts(c, n);
      && r.ops == FailedTries(r.failures) + (if r.success then [MuteCall(true)] else [])
      && r.failures + (if r.success then 1 else 0) <= n
      && (r.success ==> MuteResult(c, r.failures))
      && (forall k :: 0 <= k < r.failures ==> !MuteResult(c, k))
      && (forall k :: 1 <= k < r.failures ==> !Cancels(c, k))
      && (r.cancelled <==> 0 < r.failures && Cancels(c, r.failures))
  {
    if n > 0 {
      AttemptsShape(c, n - 1);
    }
  }

  /** The retry loop succeeds exactly when some call within the bound would
      succeed and no retry delay before it is cancelled. */
  lemma AttemptsSucceedIff(c: CycleInput, n: nat)
    ensures Attempts(c, n).success <==> exists k :: 0 <= k < n && MuteResult(c, k) && Reaches(c, k)
  {
    AttemptsShape(c, n);
    var r := Attempts(c, n);
    if r.success {
      assert MuteResult(c, r.failures) && Reaches(c, r.failures);
    }
  }

  /** The i-th step of `k` failed tries: a failed call at even positions, its retry delay at odd ones. */
  lemma {:induction false} FailedTriesAt(k: nat)
    ensures |FailedTries(k)| == 2 * k
    ensures forall i :: 0 <= i < 2 * k ==>
      FailedTries(k)[i] == if i % 2 == 0 then MuteCall(false) else Wait(RetryDelay, RetryDelayMs)
  {
    if k > 0 {
      FailedTriesAt(k - 1);
    }
  }

  /** The mute calls among `ops`. */
  function Calls(ops: seq<Op>): nat
  {
    if ops == [] then 0 else Calls(ops[..|ops| - 1]) + if ops[|ops| - 1].MuteCall? then 1 else 0
  }

  lemma CallsSnoc(ops: seq<Op>, op: Op)
    ensures Calls(ops + [op]) == Calls(ops) + if op.MuteCall? then 1 else 0
  {
    assert (ops + [op])[..|ops|] == ops;
  }

  lemma {:induction false} CallsOfFailedTries(k: nat)
    ensures Calls(FailedTries(k)) == k
  {
    if k > 0 {
      CallsOfFailedTries(k - 1);
      var f := FailedTries(k - 1);
      assert f + [MuteCall(false), Wait(RetryDelay, RetryDelayMs)] == (f + [MuteCall(false)]) + [Wait(RetryDelay, RetryDelayMs)];
      CallsSnoc(f, MuteCall(false));
      CallsSnoc(f + [MuteCall(false)], Wait(RetryDelay, RetryDelayMs));
    }
  }

  lemma {:induction false} CallsAppend(a: seq<Op>, b: seq<Op>)
    ensures Calls(a + b) == Calls(a) + Calls(b)
    decreases |b|
  {
    if b != [] {
      var init, last := b[..|b| - 1], b[|b| - 1];
      assert a + b == (a + init) + [last];
      assert b == init + [last];
      CallsAppend(a, init);
      CallsSnoc(a + init, last);
      CallsSnoc(init, last);
    } else {
      assert a + b == a;
    }
  }

  /** Lines 97-106 with bound `retries`: at most `retries` calls to
      MuteMicrophone, and none when the bound is not positive. */
  lemma RetryCallBound(c: CycleInput, retries: int)
    ensures Calls(Retry(c, retries).ops) <= if retries > 0 then retries else 0
  {
    var r := Retry(c, retries);
    AttemptsShape(c, if retries > 0 then retries else 0);
    CallsOfFailedTries(r.failures);
    if r.success {
      CallsSnoc(FailedTries(r.failures), MuteCall(true));
    } else {
      assert r.ops == FailedTries(r.failures);
    }
  }

  /** Lines 97-106: nothing follows a successful call, and every failed call
      is followed at once by the 100 ms retry delay. */
  lemma RetryCallOrder(c: CycleInput, retries: int)
    ensures var ops := Retry(c, retries).ops;
      && (forall i :: 0 <= i < |ops| && ops[i] == MuteCall(true) ==> i == |ops| - 1)
      && (forall i :: 0 <= i < |ops| && ops[i] == MuteCall(false) ==>
            i + 1 < |ops| && ops[i + 1] == Wait(RetryDelay, RetryDelayMs))
  {
    var r := Retry(c, retries);
    AttemptsShape(c, if retries > 0 then retries else 0);
    FailedTriesAt(r.failures);
  }

  /** Once the loop is cancelled, later cycles add nothing. */
  lemma {:induction false} CancelledRunIsFinal(cfg: Config, cycles: seq<CycleInput>, n: nat)
    requires n <= |cycles|
    requires n < |cycles| ==> RunUpTo(cfg, cycles, n).cancelled
    ensures Run(cfg, cycles) == RunUpTo(cfg, cycles, n)
  {
    CancelledPrefixIsFinal(cfg, cycles, n, |cycles|);
  }

  lemma {:induction false} CancelledPrefixIsFinal(cfg: Config, cycles: seq<CycleInput>, n: nat, m: nat)
    requires n <= m <= |cycles|
    requires n < m ==> RunUpTo(cfg, cycles, n).cancelled
    ensures RunUpTo(cfg, cycles, m) == RunUpTo(cfg, cycles, n)
    decreases m
  {
    if m > n {
      CancelledPrefixIsFinal(cfg, cycles, n, m - 1);
    }
  }

  /** The payloads of the MicrophoneDetectionChanged notifications among `events`, in order. */
  function Detections(events: seq<Event>): seq<bool>
  {
    if events == [] then []
    else (if events[0].Detection? then [events[0].detected] else []) + Detections(events[1..])
  }

  predicate NoDetection(events: seq<Event>)
  {
    forall i :: 0 <= i < |events| ==> !events[i].Detection?
  }

  lemma {:induction false} DetectionsAppend(a: seq<Event>, b: seq<Event>)
    ensures Detections(a + b) == Detections(a) + Detections(b)
  {
    if a == [] {
      assert a + b == b;
    } else {
      var head := if a[0].Detection? then [a[0].detected] else [];
      assert (a + b)[0] == a[0] && (a + b)[1..] == a[1..] + b;
      DetectionsAppend(a[1..], b);
      assert head + (Detections(a[1..]) + Detections(b)) == (head + Detections(a[1..])) + Detections(b);
    }
  }

  lemma {:induction false} NoDetectionIsEmpty(events: seq<Event>)
    requires NoDetection(events)
    ensures Detections(events) == []
  {
    if events != [] {
      NoDetectionIsEmpty(events[1..]);
    }
  }

  /** Appending notifications that are not detections leaves the detections as they were. */
  lemma AppendNoDetection(a: seq<Event>, b: seq<Event>)
    requires NoDetection(b)
    ensures Detections(a + b) == Detections(a)
  {
    DetectionsAppend(a, b);
    NoDetectionIsEmpty(b);
  }

  /** Lines 82-91: a cycle raises one detection notification, carrying the new
      availability, exactly when the availability it polls differs from the
      recorded one; the recorded availability becomes the polled one. */
  lemma CycleDetections(cfg: Config, wasAvailable: bool, c: CycleInput)
    ensures var r := CycleStep(cfg, wasAvailable, c);
      && Detections(r.events) == (if !Cancels(c, 0) && wasAvailable != c.available then [c.available] else [])
      && r.available == if Cancels(c, 0) then wasAvailable else c.available
  {
    var d := DetectStage(cfg, wasAvailable, c);
    if !Cancels(c, 0) {
      DetectStageDetections(cfg, wasAvailable, c);
      var error := if c.fault.Some? then [Status(Failure(c.fault.value.msg))] else [];
      AppendNoDetection(d.events, error);
      if !d.threw && c.available {
        MutingDetections(cfg, wasAvailable, c, error);
      }
    }
  }

  /** The detection payloads of the start of a cycle. */
  lemma DetectStageDetections(cfg: Config, wasAvailable: bool, c: CycleInput)
    requires !Cancels(c, 0)
    ensures Detections(DetectStage(cfg, wasAvailable, c).events) == if wasAvailable != c.available then [c.available] else []
  {
    if wasAvailable != c.available {
      var notice := Status(DetectionNotice(c.available, c.name));
      AppendNoDetection([Detection(c.available)], [notice]);
    }
  }

  /** The mute reports and the error status add no detection. */
  lemma MutingDetections(cfg: Config, wasAvailable: bool, c: CycleInput, error: seq<Event>)
    requires NoDetection(error)
    ensures var d := DetectStage(cfg, wasAvailable, c).events;
      var m := MuteStage(cfg, c, if wasAvailable != c.available then 2 else 0).events;
      && Detections(d + m) == Detections(d)
      && Detections((d + m) + error) == Detections(d)
  {
    var d := DetectStage(cfg, wasAvailable, c).events;
    var m := MuteStage(cfg, c, if wasAvailable != c.available then 2 else 0).events;
    AppendNoDetection(d, m);
    AppendNoDetection(d + m, error);
  }

  /** Detection payloads that start with true and alternate. */
  predicate Alternating(ds: seq<bool>)
  {
    && (|ds| > 0 ==> ds[0])
    && forall i :: 0 < i < |ds| ==> ds[i] != ds[i - 1]
  }

  /** The detection payloads of `r` alternate starting with true, and the last
      of them is its recorded availability (false when there is none). */
  predicate DetectionsFollow(r: Outcome)
  {
    var ds := Detections(r.events);
    && Alternating(ds)
    && if |ds| == 0 then !r.available else ds[|ds| - 1] == r.available
  }

  /** Over a run, with the recorded availability starting false (line 69), the
      detection payloads alternate starting with true, and the last of them is
      the recorded availability (false when there is none). */
  lemma {:induction false} RunDetections(cfg: Config, cycles: seq<CycleInput>, n: nat)
    requires n <= |cycles|
    ensures DetectionsFollow(RunUpTo(cfg, cycles, n))
  {
    if n > 0 {
      RunDetections(cfg, cycles, n - 1);
      var c := cycles[n - 1];
      var before := RunUpTo(cfg, cycles, n - 1);
      var changes := !before.cancelled && !Cancels(c, 0) && before.available != c.available;
      RunStepDetections(cfg, cycles, n);
      FollowStep(before, RunUpTo(cfg, cycles, n), if changes then [c.available] else []);
    }
  }

  /** A cycle that adds no detection and keeps the availability, or adds the
      new availability when it differs, keeps the detections following it. */
  lemma FollowStep(before: Outcome, r: Outcome, next: seq<bool>)
    requires DetectionsFollow(before)
    requires Detections(r.events) == Detections(before.events) + next
    requires (next == [] && r.available == before.available) || (next == [r.available] && r.available != before.available)
    ensures DetectionsFollow(r)
  {
    AlternatingStep(Detections(before.events), before.available, next, r.available);
  }

  /** The detections and the recorded availability after one more cycle. */
  lemma RunStepDetections(cfg: Config, cycles: seq<CycleInput>, n: nat)
    requires 0 < n <= |cycles|
    ensures var before := RunUpTo(cfg, cycles, n - 1);
      var r := RunUpTo(cfg, cycles, n);
      var c := cycles[n - 1];
      var changes := !before.cancelled && !Cancels(c, 0) && before.available != c.available;
      && Detections(r.events) == Detections(before.events) + (if changes then [c.available] else [])
      && r.available == (if changes then c.available else before.available)
  {
    var before := RunUpTo(cfg, cycles, n - 1);
    if !before.cancelled {
      var step := CycleStep(cfg, before.available, cycles[n - 1]);
      CycleDetections(cfg, before.available, cycles[n - 1]);
      DetectionsAppend(before.events, step.events);
    }
  }

  /** One cycle keeps the detections alternating: it adds none and keeps the
      availability, or adds the new availability when it differs. */
  lemma AlternatingStep(ds: seq<bool>, was: bool, next: seq<bool>, now: bool)
    requires Alternating(ds) && if |ds| == 0 then !was else ds[|ds| - 1] == was
    requires (next == [] && now == was) || (next == [now] && now != was)
    ensures Alternating(ds + next)
    ensures if |ds + next| == 0 then !now else (ds + next)[|ds + next| - 1] == now
  {
  }

  /** A device that is never present yields no detection notification at all. */
  lemma {:induction false} NeverAvailableNoDetections(cfg: Config, cycles: seq<CycleInput>, n: nat)
    requires n <= |cycles|
    requires forall k :: 0 <= k < n ==> !cycles[k].available
    ensures Detections(RunUpTo(cfg, cycles, n).events) == []
    ensures !RunUpTo(cfg, cycles, n).available
  {
    if n > 0 {
      NeverAvailableNoDetections(cfg, cycles, n - 1);
      RunStepDetections(cfg, cycles, n);
    }
  }

  /** The loop ends only through the cancellation token: a run that is
      cancelled had some cycle observe cancellation. */
  lemma {:induction false} CancelledByToken(cfg: Config, cycles: seq<CycleInput>, n: nat)
    requires n <= |cycles|
    requires RunUpTo(cfg, cycles, n).cancelled
    ensures exists k :: 0 <= k < n && cycles[k].cancelAt.Some?
  {
    var before := RunUpTo(cfg, cycles, n - 1);
    if before.cancelled {
      CancelledByToken(cfg, cycles, n - 1);
    } else {
      assert cycles[n - 1].cancelAt.Some?;
    }
  }

  /** Lines 94-115 are skipped when no device is present: such a cycle awaits
      the initial delay, polls, and awaits the check interval (or the error
      backoff when a detection handler threw), with no mute reading and no
      mute call; or it ends at the cancelled initial delay. */
  lemma UnavailableCycleOps(cfg: Config, wasAvailable: bool, c: CycleInput)
    requires !c.available
    ensures var ops := CycleStep(cfg, wasAvailable, c).ops;
      var start := Wait(InitialDelay, cfg.initialDelayMs);
      || ops == [start]
      || ops == [start, Poll(false), Wait(IntervalDelay, cfg.checkIntervalMs)]
      || ops == [start, Poll(false), Wait(ErrorBackoff, ErrorBackoffMs)]
  {
  }

  /** A cycle calls MuteMicrophone at most `_retryAttempts` times, and only
      when a device is present. */
  lemma CycleMuteCalls(cfg: Config, wasAvailable: bool, c: CycleInput)
    ensures var n := Calls(CycleStep(cfg, wasAvailable, c).ops);
      && n <= (if cfg.retryAttempts > 0 then cfg.retryAttempts else 0)
      && (n > 0 ==> c.available)
  {
    var r := CycleStep(cfg, wasAvailable, c);
    var detect := DetectStage(cfg, wasAvailable, c);
    var start := [Wait(InitialDelay, cfg.initialDelayMs)];
    CallsSnoc([], Wait(InitialDelay, cfg.initialDelayMs));
    if detect.cancelled {
      assert r.ops == [] + start;
    } else {
      CallsSnoc(start, Poll(c.available));
      var end := r.ops[|r.ops| - 1];
      if detect.threw || !c.available {
        assert r.ops == detect.ops + [end];
        CallsSnoc(detect.ops, end);
      } else {
        var muting := MuteStage(cfg, c, if wasAvailable != c.available then 2 else 0);
        MuteStageCalls(cfg, c, if wasAvailable != c.available then 2 else 0);
        RetryCallBound(c, cfg.retryAttempts);
        CallsAppend(detect.ops, muting.ops);
        if !muting.cancelled {
          assert r.ops == (detect.ops + muting.ops) + [end];
          CallsSnoc(detect.ops + muting.ops, end);
        }
      }
    }
  }

  /** The mute calls of the mute stage are those of its retry loop. */
  lemma MuteStageCalls(cfg: Config, c: CycleInput, sent: nat)
    ensures Calls(MuteStage(cfg, c, sent).ops) == Calls(Retry(c, cfg.retryAttempts).ops)
  {
    var retry := Retry(c, cfg.retryAttempts);
    var tried := [ReadMute(c.mutedBefore)] + retry.ops;
    CallsSnoc([], ReadMute(c.mutedBefore));
    CallsAppend([ReadMute(c.mutedBefore)], retry.ops);
    CallsSnoc(tried, ReadMute(c.mutedAfter));
  }

  /** Different notices are raised as different strings, so a trace of
      notices loses nothing of what StatusChanged carried. */
  lemma TextInjective(a: Notice, b: Notice)
    requires Text(a) == Text(b)
    ensures a == b
  {
    var s := Text(a);
    if a.Failure? || b.Failure? {
      assert a.Failure? && b.Failure?;
      assert a.msg == s[7..] == b.msg;
    } else if a.MicrophoneDetected? && b.MicrophoneDetected? {
      assert a.name == s[21..] == b.name;
    } else {
      assert s[0] == Text(b)[0] && s[11] == Text(b)[11];
    }
  }

  /** A retry loop that was cancelled ends with the retry delay that observed it. */
  lemma RetryCancelledEndsWithDelay(c: CycleInput, retries: int)
    requires Retry(c, retries).cancelled
    ensures var ops := Retry(c, retries).ops;
      |ops| > 0 && ops[|ops| - 1] == Wait(RetryDelay, RetryDelayMs)
  {
    var r := Retry(c, retries);
    AttemptsShape(c, if retries > 0 then retries else 0);
    FailedTriesAt(r.failures);
  }

  /** A run that goes on with a cycle that makes a step ends as that cycle does. */
  lemma ThenTaskCanceled(first: Outcome, rest: Outcome)
    requires |rest.ops| > 0
    ensures TaskCanceled(Then(first, rest)) == TaskCanceled(rest)
  {
    var ops := first.ops + rest.ops;
    assert ops[|ops| - 1] == rest.ops[|rest.ops| - 1];
  }

  /** The end of a cycle leaves the task Canceled exactly when it is the
      error backoff and that backoff observes cancellation. */
  lemma FinishTaskCanceled(cfg: Config, c: CycleInput, events: seq<Event>, ops: seq<Op>, available: bool, threw: bool, delay: nat)
    requires threw ==> c.fault.Some?
    ensures TaskCanceled(Finish(cfg, c, events, ops, available, threw, delay)) == (threw && Cancels(c, delay))
  {
  }

  /** A cycle whose retry delay observes cancellation leaves the task as run to completion. */
  lemma MutingCancelledNotTask(cfg: Config, c: CycleInput, sent: nat, events: seq<Event>, ops: seq<Op>)
    requires MuteStage(cfg, c, sent).cancelled
    ensures !TaskCanceled(Outcome(events, ops + MuteStage(cfg, c, sent).ops, true, true))
  {
    RetryCancelledEndsWithDelay(c, cfg.retryAttempts);
    var m := MuteStage(cfg, c, sent).ops;
    assert (ops + m)[|ops + m| - 1] == m[|m| - 1];
  }

  /** A status that reports an error. */
  predicate IsErrorReport(e: Event)
  {
    e.Status? && e.notice.Failure?
  }

  /** The monitoring task ends Canceled after a cycle exactly when that cycle
      is cancelled right after reporting an error: only the error backoff of
      line 127 follows the error report, and a cancellation observed by any
      other delay reaches the `break` of line 122. */
  lemma CycleTaskCanceled(cfg: Config, wasAvailable: bool, c: CycleInput)
    ensures var r := CycleStep(cfg, wasAvailable, c);
      TaskCanceled(r) <==> r.cancelled && |r.events| > 0 && IsErrorReport(r.events[|r.events| - 1])
  {
    var detect := DetectStage(cfg, wasAvailable, c);
    if detect.cancelled {
    } else if detect.threw || !c.available {
      FinishTaskCanceled(cfg, c, detect.events, detect.ops, c.available, detect.threw, 1);
    } else {
      var sent := if wasAvailable != c.available then 2 else 0;
      var muting := MuteStage(cfg, c, sent);
      if muting.cancelled {
        MutingCancelledNotTask(cfg, c, sent, detect.events + muting.events, detect.ops);
      } else {
        FinishTaskCanceled(cfg, c, detect.events + muting.events, detect.ops + muting.ops, true, muting.threw, muting.delay);
      }
    }
  }

  /** After a cycle that finds a microphone change, has the handler of its
      detection notification throw and its error backoff observe cancellation,
      the monitoring task ends Canceled, with the detection and the error report
      as the run's last notifications. */
  lemma BackoffCancellationCancelsTask(cfg: Config, cycles: seq<CycleInput>, n: nat, msg: string)
    requires 0 < n <= |cycles|
    requires !RunUpTo(cfg, cycles, n - 1).cancelled
    requires RunUpTo(cfg, cycles, n - 1).available != cycles[n - 1].available
    requires cycles[n - 1].fault == Some(Fault(0, msg)) && cycles[n - 1].cancelAt == Some(1)
    ensures TaskCanceled(Run(cfg, cycles))
    ensures Run(cfg, cycles).events == RunUpTo(cfg, cycles, n - 1).events + [Detection(cycles[n - 1].available), Status(Failure(msg))]
  {
    CancelledRunIsFinal(cfg, cycles, n);
  }

  /** One cycle that finds a new microphone, whose detection handler throws
      and whose error backoff observes cancellation. */
  lemma BackoffCancellationExample()
    ensures var c := CycleInput(true, "mic", true, [], true, Some(Fault(0, "boom")), Some(1));
      var r := Run(Config(1000, 500, 3), [c]);
      && TaskCanceled(r)
      && r.events == [Detection(true), Status(Failure("boom"))]
  {
    var c := CycleInput(true, "mic", true, [], true, Some(Fault(0, "boom")), Some(1));
    BackoffCancellationCancelsTask(Config(1000, 500, 3), [c], 1, "boom");
  }
}
