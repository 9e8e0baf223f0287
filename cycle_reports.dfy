/** What the notifications of one monitor cycle say, proved about CycleStep
    against a reference list of the reports a cycle makes when no handler
    throws and no delay is cancelled. */
module CycleReports {
  import opened Oracle
  import opened Cycle

  /** The reports of lines 82-91 when nothing throws: a detection notification
      and its status when availability changed. */
  function DetectionReports(wasAvailable: bool, c: CycleInput): seq<Event>
  {
    if wasAvailable != c.available then [Detection(c.available), Status(DetectionNotice(c.available, c.name))] else []
  }

  /** The reports of lines 109-114 when nothing throws: with a device present,
      a mute-state notification and its status when the two mute readings differ. */
  function MuteReports(c: CycleInput): seq<Event>
  {
    if c.available && c.mutedBefore != c.mutedAfter then [MuteState(c.mutedAfter), Status(MuteNotice(c.mutedAfter))] else []
  }

  /** Everything a cycle reports when nothing throws and nothing is cancelled. */
  function QuietEvents(wasAvailable: bool, c: CycleInput): seq<Event>
  {
    DetectionReports(wasAvailable, c) + MuteReports(c)
  }

  /** The report that follows a notification in the same cycle: the status
      describing it, or the error status when its handler threw. */
  predicate ReportedAs(c: CycleInput, e: Event, expected: Notice)
  {
    e == Status(expected) || (c.fault.Some? && e == Status(Failure(c.fault.value.msg)))
  }

  /** A cycle that no cancellation reaches raises its reports in order up to
      the notification whose handler throws, then exactly one "Error: <msg>"
      status, and awaits the 2000 ms backoff; when no handler throws it raises
      all of them and awaits the check interval. Either way the loop goes on
      with the polled availability. */
  lemma CycleReportsUncancelled(cfg: Config, wasAvailable: bool, c: CycleInput)
    requires c.cancelAt.None?
    ensures var r := CycleStep(cfg, wasAvailable, c);
      var q := QuietEvents(wasAvailable, c);
      && !r.cancelled && r.available == c.available
      && if c.fault.Some? && c.fault.value.at < |q| then
           && r.events == q[..c.fault.value.at + 1] + [Status(Failure(c.fault.value.msg))]
           && r.ops[|r.ops| - 1] == Wait(ErrorBackoff, ErrorBackoffMs)
         else
           && r.events == q
           && r.ops[|r.ops| - 1] == Wait(IntervalDelay, cfg.checkIntervalMs)
  {
    var changed := wasAvailable != c.available;
    var dq, mq := DetectionReports(wasAvailable, c), MuteReports(c);
    var q := QuietEvents(wasAvailable, c);
    var detect := DetectStage(cfg, wasAvailable, c);
    if !c.available {
      assert q == dq;
    } else if detect.threw {
      var k := c.fault.value.at;
      assert k < |dq| && q[..k + 1] == dq[..k + 1];
    } else {
      var sent := if changed then 2 else 0;
      assert detect.events == dq;
      if c.fault.Some? && c.fault.value.at < |q| {
        var k := c.fault.value.at;
        assert sent <= k;
        assert q[..k + 1] == dq + mq[..k + 1 - sent];
      }
    }
  }

  /** Cancellation ends a cycle silently. A cancelled initial delay ends it
      before any report; a cancelled retry delay ends it after the detection
      reports; a cancellation observed later changes no report. In every case
      the cycle has raised a prefix of what the same cycle raises when nothing
      is cancelled. */
  lemma CancelledCycleIsPrefix(cfg: Config, wasAvailable: bool, c: CycleInput)
    ensures var r := CycleStep(cfg, wasAvailable, c);
      var w := CycleStep(cfg, wasAvailable, c.(cancelAt := None));
      && (Cancels(c, 0) ==> r.cancelled && r.events == [])
      && (!Cancels(c, 0) ==> r.events == w.events || (r.cancelled && c.available && r.events == DetectionReports(wasAvailable, c)))
      && r.events <= w.events
  {
    var u := c.(cancelAt := None);
    if !Cancels(c, 0) {
      var detect := DetectStage(cfg, wasAvailable, c);
      assert DetectStage(cfg, wasAvailable, u) == detect;
      if !detect.threw && c.available {
        MutingCycleIsPrefix(cfg, wasAvailable, c);
      }
    }
  }

  /** CancelledCycleIsPrefix for a cycle that reaches the mute attempts. */
  lemma MutingCycleIsPrefix(cfg: Config, wasAvailable: bool, c: CycleInput)
    requires !Cancels(c, 0) && c.available && !DetectStage(cfg, wasAvailable, c).threw
    ensures var r := CycleStep(cfg, wasAvailable, c);
      var w := CycleStep(cfg, wasAvailable, c.(cancelAt := None));
      && (r.events == w.events || (r.cancelled && c.available && r.events == DetectionReports(wasAvailable, c)))
      && r.events <= w.events
  {
    var u := c.(cancelAt := None);
    var detect := DetectStage(cfg, wasAvailable, c);
    assert DetectStage(cfg, wasAvailable, u) == detect;
    var sent := if wasAvailable != c.available then 2 else 0;
    var muting := MuteStage(cfg, c, sent);
    if muting.cancelled {
      assert CycleStep(cfg, wasAvailable, c).events == detect.events;
    } else {
      AttemptsUncancelled(c, if cfg.retryAttempts > 0 then cfg.retryAttempts else 0);
      assert MuteStage(cfg, u, sent).events == muting.events;
      assert MuteStage(cfg, u, sent).threw == muting.threw;
    }
  }

  /** A retry loop that no cancellation stopped did what it does when nothing is cancelled. */
  lemma {:induction false} AttemptsUncancelled(c: CycleInput, n: nat)
    requires !Attempts(c, n).cancelled
    ensures Attempts(c, n) == Attempts(c.(cancelAt := None), n)
  {
    if n > 0 {
      AttemptsUncancelled(c, n - 1);
    }
  }

  /** The reports of a cycle are none (the initial delay was cancelled), only
      the detection reports (a retry delay was cancelled), all of them, or
      those up to the notification whose handler threw followed by the error
      status. */
  predicate CycleForm(wasAvailable: bool, c: CycleInput, events: seq<Event>)
  {
    var q := QuietEvents(wasAvailable, c);
    || events == []
    || (c.available && events == DetectionReports(wasAvailable, c))
    || events == q
    || (c.fault.Some? && c.fault.value.at < |q| && events == q[..c.fault.value.at + 1] + [Status(Failure(c.fault.value.msg))])
  }

  lemma CycleEventsForm(cfg: Config, wasAvailable: bool, c: CycleInput)
    ensures CycleForm(wasAvailable, c, CycleStep(cfg, wasAvailable, c).events)
  {
    var u := c.(cancelAt := None);
    CancelledCycleIsPrefix(cfg, wasAvailable, c);
    CycleReportsUncancelled(cfg, wasAvailable, u);
    assert QuietEvents(wasAvailable, u) == QuietEvents(wasAvailable, c);
  }

  /** The mute reports of a list of reports of that form. */
  lemma MuteReportsInForm(wasAvailable: bool, c: CycleInput, events: seq<Event>)
    requires CycleForm(wasAvailable, c, events)
    ensures forall i :: 0 <= i < |events| && events[i].MuteState? ==>
              && c.available && c.mutedBefore != c.mutedAfter && events[i].muted == c.mutedAfter
              && i + 1 < |events| && ReportedAs(c, events[i + 1], MuteNotice(c.mutedAfter))
    ensures forall i :: 0 <= i < |events| && (events[i] == Status(MicrophoneMuted) || events[i] == Status(MuteFailed)) ==>
              0 < i && events[i - 1] == MuteState(c.mutedAfter) && events[i] == Status(MuteNotice(c.mutedAfter))
  {
    var dq, mq := DetectionReports(wasAvailable, c), MuteReports(c);
    var q := QuietEvents(wasAvailable, c);
    if events != [] && events != DetectionReports(wasAvailable, c) && events != q {
      var k := c.fault.value.at;
      forall i | 0 <= i < |events|
        ensures events[i] == if i <= k then q[i] else Status(Failure(c.fault.value.msg))
      {
      }
    }
  }

  /** The detection reports of a list of reports of that form. */
  lemma DetectionReportsInForm(wasAvailable: bool, c: CycleInput, events: seq<Event>)
    requires CycleForm(wasAvailable, c, events)
    ensures forall i :: 0 <= i < |events| && events[i].Detection? ==>
              && i == 0 && wasAvailable != c.available && events[i].detected == c.available
              && 1 < |events| && ReportedAs(c, events[1], DetectionNotice(c.available, c.name))
    ensures forall i :: 0 <= i < |events| && events[i].Status? && (events[i].notice.MicrophoneDetected? || events[i].notice.NoMicrophone?) ==>
              i == 1 && events[0] == Detection(c.available) && events[i] == Status(DetectionNotice(c.available, c.name))
  {
    var q := QuietEvents(wasAvailable, c);
    if events != [] && events != DetectionReports(wasAvailable, c) && events != q {
      var k := c.fault.value.at;
      forall i | 0 <= i < |events|
        ensures events[i] == if i <= k then q[i] else Status(Failure(c.fault.value.msg))
      {
      }
    }
  }

  /** The error statuses of a list of reports of that form. */
  lemma ErrorReportInForm(wasAvailable: bool, c: CycleInput, events: seq<Event>)
    requires CycleForm(wasAvailable, c, events)
    ensures forall i :: 0 <= i < |events| && events[i].Status? && events[i].notice.Failure? ==>
              && i == |events| - 1 && c.fault.Some? && events[i].notice.msg == c.fault.value.msg
  {
    var q := QuietEvents(wasAvailable, c);
    if events != [] && events != DetectionReports(wasAvailable, c) && events != q {
      var k := c.fault.value.at;
      forall i | 0 <= i < |events|
        ensures events[i] == if i <= k then q[i] else Status(Failure(c.fault.value.msg))
      {
      }
    }
  }

  /** A mute-state notification is raised only with a device present and the
      two mute readings different; it carries the second reading and is
      followed by "Microphone muted" or "Failed to mute microphone" as that
      reading says, or by the error status when its handler threw. Those two
      statuses are raised only right after it. */
  lemma CycleMuteReports(cfg: Config, wasAvailable: bool, c: CycleInput)
    ensures var events := CycleStep(cfg, wasAvailable, c).events;
      && (forall i :: 0 <= i < |events| && events[i].MuteState? ==>
            && c.available && c.mutedBefore != c.mutedAfter && events[i].muted == c.mutedAfter
            && i + 1 < |events| && ReportedAs(c, events[i + 1], MuteNotice(c.mutedAfter)))
      && (forall i :: 0 <= i < |events| && (events[i] == Status(MicrophoneMuted) || events[i] == Status(MuteFailed)) ==>
            0 < i && events[i - 1] == MuteState(c.mutedAfter) && events[i] == Status(MuteNotice(c.mutedAfter)))
  {
    CycleEventsForm(cfg, wasAvailable, c);
    MuteReportsInForm(wasAvailable, c, CycleStep(cfg, wasAvailable, c).events);
  }

  /** A detection notification is the first report of its cycle, raised only
      when the polled availability differs from the recorded one; it carries
      the polled availability and is followed by "Microphone detected: <name>"
      or "No microphone detected" as that says, or by the error status when
      its handler threw. Those statuses are raised only right after it. */
  lemma CycleDetectionReports(cfg: Config, wasAvailable: bool, c: CycleInput)
    ensures var events := CycleStep(cfg, wasAvailable, c).events;
      && (forall i :: 0 <= i < |events| && events[i].Detection? ==>
            && i == 0 && wasAvailable != c.available && events[i].detected == c.available
            && 1 < |events| && ReportedAs(c, events[1], DetectionNotice(c.available, c.name)))
      && (forall i :: 0 <= i < |events| && events[i].Status? && (events[i].notice.MicrophoneDetected? || events[i].notice.NoMicrophone?) ==>
            i == 1 && events[0] == Detection(c.available) && events[i] == Status(DetectionNotice(c.available, c.name)))
  {
    CycleEventsForm(cfg, wasAvailable, c);
    DetectionReportsInForm(wasAvailable, c, CycleStep(cfg, wasAvailable, c).events);
  }

  /** An "Error: <msg>" status is the last report of its cycle, at most one
      per cycle, and carries the message of the handler's exception. */
  lemma CycleErrorReport(cfg: Config, wasAvailable: bool, c: CycleInput)
    ensures var events := CycleStep(cfg, wasAvailable, c).events;
      forall i :: 0 <= i < |events| && events[i].Status? && events[i].notice.Failure? ==>
        && i == |events| - 1 && c.fault.Some? && events[i].notice.msg == c.fault.value.msg
  {
    CycleEventsForm(cfg, wasAvailable, c);
    ErrorReportInForm(wasAvailable, c, CycleStep(cfg, wasAvailable, c).events);
  }

  /** A device that reads unmuted before and after the mute attempts (all
      calls failing, say) raises neither a mute-state notification nor
      "Failed to mute microphone". */
  lemma FailedMuteOnUnmutedIsSilent(cfg: Config, wasAvailable: bool, c: CycleInput)
    requires !c.mutedBefore && !c.mutedAfter
    ensures var events := CycleStep(cfg, wasAvailable, c).events;
      && MuteState(false) !in events && MuteState(true) !in events
      && Status(MuteFailed) !in events && Status(MicrophoneMuted) !in events
  {
    CycleMuteReports(cfg, wasAvailable, c);
  }
}
