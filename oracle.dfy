/** What the microphone service observes from the world it cannot see:
    the audio device (through MicrophoneManager), the cancellation token
    and the notification handlers of its subscribers. Each is an oracle
    value, fixed before a monitor cycle or a view-model update runs. */
module Oracle {

  datatype Option<T> = None | Some(value: T)

  /** A subscriber's handler throws while the cycle raises its `at`-th
      notification (counted from 0 within the cycle); `msg` is the
      exception's message. The notification has been delivered when it throws. */
  datatype Fault = Fault(at: nat, msg: string)

  /** Everything one monitor cycle reads from outside the service. */
  datatype CycleInput = CycleInput(
    available: bool,         // what MicrophoneManager.Initialize returns this cycle
    name: string,            // FriendlyName of the resolved device
    mutedBefore: bool,       // first IsMicrophoneMuted reading (wasMuted)
    muteResults: seq<bool>,  // results of successive MuteMicrophone calls; calls past the end fail
    mutedAfter: bool,        // second IsMicrophoneMuted reading (isMuted)
    fault: Option<Fault>,    // a handler that throws, if any
    cancelAt: Option<nat>)   // the delay of this cycle (0 = the initial delay) at which cancellation is observed

  /** Result of the cycle's `attempt`-th MuteMicrophone call. */
  function MuteResult(c: CycleInput, attempt: nat): bool
  {
    attempt < |c.muteResults| && c.muteResults[attempt]
  }

  /** The cycle's `delay`-th awaited delay ends with an OperationCanceledException. */
  predicate Cancels(c: CycleInput, delay: nat)
  {
    c.cancelAt == Some(delay)
  }

  /** The handler of the cycle's `k`-th notification throws. */
  predicate HandlerThrows(c: CycleInput, k: nat)
  {
    c.fault.Some? && c.fault.value.at == k
  }

  /** What MMDevice.FriendlyName yields: the name, or the message of the exception it raises. */
  datatype NameRead = FriendlyName(value: string) | NameFault(message: string)

  /** The device as the view model sees it when it asks MicrophoneManager. */
  datatype Device = Device(available: bool, name: NameRead, muted: bool)

  /** GetCurrentMicrophoneName: a fixed label when no device is resolved. */
  function CurrentName(d: Device): (r: NameRead)
    ensures !d.available ==> r == FriendlyName("No microphone available")
    ensures d.available ==> r == d.name
  {
    if d.available then d.name else FriendlyName("No microphone available")
  }

  /** IsMicrophoneMuted: false when no device is resolved. */
  function CurrentMuted(d: Device): (m: bool)
    ensures m ==> d.available
  {
    d.available && d.muted
  }
}
