/** MainViewModel: the status the window shows, derived from the service flag
    and what is known of the microphone, and the handlers that keep it up to
    date. The WPF dispatcher is removed: every handler runs to completion on
    the caller's thread. */
module ViewModels {
  import opened Oracle
  import opened Cycle
  import opened Services

  /** The colour class of the status display. */
  datatype StatusState = Neutral | Success | Warning | Error | Active | Inactive

  /** What the status display shows: StatusText, DetailText, StatusState. */
  datatype StatusView = StatusView(text: string, detail: string, state: StatusState)

  const NoMicrophoneName := "No microphone detected"

  /** The status derived by UpdateStatusBasedOnCurrentState from the service
      flag, the detection flag, the mute flag and the microphone name. */
  function CurrentStatus(enabled: bool, detected: bool, muted: bool, name: string): (v: StatusView)
    ensures v.state == Inactive <==> !enabled
    ensures v.state == Success <==> enabled && detected && muted
    ensures v.state == Warning <==> enabled && !(detected && muted)
    ensures v.state != Error && v.state != Neutral && v.state != Active
    ensures v.detail == name <== v.state == Success
    ensures v.text == "Microphone not muted" <==> enabled && detected && !muted
  {
    if !enabled then StatusView("Service disabled", "Toggle to enable automatic mic muting", Inactive)
    else if !detected then StatusView(NoMicrophoneName, "Waiting for microphone...", Warning)
    else if muted then StatusView("Microphone muted", name, Success)
    else StatusView("Microphone not muted", "Attempting to mute microphone...", Warning)
  }

  /** With the service disabled the status is the same whatever is known of
      the microphone. */
  lemma DisabledIgnoresMicrophone(detected: bool, muted: bool, name: string, detected': bool, muted': bool, name': string)
    ensures CurrentStatus(false, detected, muted, name) == CurrentStatus(false, detected', muted', name')
    ensures CurrentStatus(false, detected, muted, name).text == "Service disabled"
  {
  }

  /** With the service enabled and no microphone, the mute flag and the name
      do not matter. */
  lemma UndetectedIgnoresMute(muted: bool, name: string, muted': bool, name': string)
    ensures CurrentStatus(true, false, muted, name) == CurrentStatus(true, false, muted', name')
    ensures CurrentStatus(true, false, muted, name).text == NoMicrophoneName
  {
  }

  /** The label of the toggle button. */
  function ServiceButtonText(enabled: bool): (t: string)
    ensures t == "Disable Service" <==> enabled
    ensures t == "Enable Service" <==> !enabled
  {
    if enabled then "Disable Service" else "Enable Service"
  }

  class MainViewModel {
    var statusText: string
    var detailText: string
    var statusState: StatusState
    var serviceEnabled: bool
    var microphoneName: string
    var isMicrophoneDetected: bool
    var isMicrophoneMuted: bool
    /** The service this view model owns and subscribes to. */
    const service: MicMuteService

    /** The toggle and the service agree on whether the service runs. */
    ghost predicate Valid()
      reads this, service
    {
      serviceEnabled == service.isRunning
    }

    function View(): StatusView
      reads this`statusText, this`detailText, this`statusState
    {
      StatusView(statusText, detailText, statusState)
    }

    /** The status the flags call for now. */
    function Derived(): StatusView
      reads this`serviceEnabled, this`isMicrophoneDetected, this`isMicrophoneMuted, this`microphoneName
    {
      CurrentStatus(serviceEnabled, isMicrophoneDetected, isMicrophoneMuted, microphoneName)
    }

    /** A new view model: the service is created and configured to a 500 ms
        interval, a 200 ms initial delay and 3 retries, but not started, and
        the microphone is read once (`device`). */
    constructor (device: Device)
      ensures fresh(service) && Valid() && service.Valid()
      ensures !serviceEnabled && !service.isRunning && service.trace == [] && service.ops == []
      ensures service.Settings() == Config(500, 200, 3)
      ensures isMicrophoneDetected == device.available
      ensures !device.available ==>
        && microphoneName == NoMicrophoneName && !isMicrophoneMuted
        && View() == StatusView(NoMicrophoneName, "Waiting for microphone...", Warning)
      ensures device.available && device.name.FriendlyName? ==>
        && microphoneName == device.name.value && isMicrophoneMuted == device.muted
        && View() == StatusView("Microphone detected", device.name.value, Success)
      ensures device.available && device.name.NameFault? ==>
        && microphoneName == NoMicrophoneName && !isMicrophoneMuted
        && View() == StatusView("Error initializing", device.name.message, Error)
    {
      statusText, detailText, statusState := "Initializing...", "Starting service", Neutral;
      serviceEnabled := false;
      microphoneName, isMicrophoneDetected, isMicrophoneMuted := NoMicrophoneName, false, false;
      service := new MicMuteService();
      new;
      service.ConfigureSettings(500, 200, 3);
      InitializeMicrophone(device);
    }

    /** The first reading of the microphone; only reading its name can throw. */
    method InitializeMicrophone(device: Device)
      modifies this`isMicrophoneDetected, this`microphoneName, this`isMicrophoneMuted
      modifies this`statusText, this`detailText, this`statusState
      ensures isMicrophoneDetected == device.available
      ensures !device.available ==>
        && microphoneName == NoMicrophoneName && !isMicrophoneMuted
        && View() == StatusView(NoMicrophoneName, "Waiting for microphone...", Warning)
      ensures device.available && device.name.FriendlyName? ==>
        && microphoneName == device.name.value && isMicrophoneMuted == device.muted
        && View() == StatusView("Microphone detected", device.name.value, Success)
      ensures device.available && device.name.NameFault? ==>
        && microphoneName == old(microphoneName) && isMicrophoneMuted == old(isMicrophoneMuted)
        && View() == StatusView("Error initializing", device.name.message, Error)
    {
      var initialized := device.available;
      isMicrophoneDetected := initialized;
      if initialized {
        match CurrentName(device)
        case NameFault(message) =>
          UpdateStatus("Error initializing", message, Error);
        case FriendlyName(name) =>
          microphoneName := name;
          isMicrophoneMuted := CurrentMuted(device);
          UpdateStatus("Microphone detected", microphoneName, Success);
      } else {
        microphoneName := NoMicrophoneName;
        isMicrophoneMuted := false;
        UpdateStatus(NoMicrophoneName, "Waiting for microphone...", Warning);
      }
    }

    /** Sets the three displayed values and nothing else. */
    method UpdateStatus(status: string, details: string, state: StatusState)
      modifies this`statusText, this`detailText, this`statusState
      ensures View() == StatusView(status, details, state)
    {
      statusText := status;
      detailText := details;
      statusState := state;
    }

    method UpdateStatusBasedOnCurrentState()
      modifies this`statusText, this`detailText, this`statusState
      ensures View() == Derived()
    {
      if !serviceEnabled {
        UpdateStatus("Service disabled", "Toggle to enable automatic mic muting", Inactive);
        return;
      }
      if !isMicrophoneDetected {
        UpdateStatus(NoMicrophoneName, "Waiting for microphone...", Warning);
        return;
      }
      if isMicrophoneMuted {
        UpdateStatus("Microphone muted", microphoneName, Success);
      } else {
        UpdateStatus("Microphone not muted", "Attempting to mute microphone...", Warning);
      }
    }

    /** The ServiceEnabled setter: on a real change the service is started or
        stopped, and the status it raises reaches the StatusChanged handler;
        setting the current value does nothing. */
    method SetServiceEnabled(value: bool)
      requires Valid()
      modifies this`serviceEnabled, this`statusText, this`detailText, this`statusState
      modifies service`isRunning, service`trace, service`taskCanceled
      ensures Valid() && serviceEnabled == value
      ensures old(serviceEnabled) == value ==>
        service.trace == old(service.trace) && View() == old(View())
      ensures old(serviceEnabled) != value ==>
        service.trace == old(service.trace) + [Status(RunningNotice(value))] && View() == Derived()
    {
      if serviceEnabled == value {
        return;
      }
      serviceEnabled := value;
      if value {
        service.Start();
      } else {
        service.Stop();
      }
      OnServiceStatusChanged(Text(RunningNotice(value)));
    }

    /** ToggleServiceCommand: flip ServiceEnabled. */
    method ToggleService()
      requires Valid()
      modifies this`serviceEnabled, this`statusText, this`detailText, this`statusState
      modifies service`isRunning, service`trace, service`taskCanceled
      ensures Valid() && serviceEnabled == !old(serviceEnabled) && service.isRunning == serviceEnabled
      ensures service.trace == old(service.trace) + [Status(RunningNotice(serviceEnabled))]
      ensures View() == Derived()
    {
      SetServiceEnabled(!serviceEnabled);
    }

    /** The StatusChanged handler: the service's message is put in DetailText
        and at once replaced by the derived detail. */
    method OnServiceStatusChanged(status: string)
      modifies this`statusText, this`detailText, this`statusState
      ensures View() == Derived()
      ensures detailText == status ==> status == Derived().detail
    {
      detailText := status;
      UpdateStatusBasedOnCurrentState();
    }

    /** The MicrophoneDetectionChanged handler. Reading the name of a detected
        microphone can throw; the exception leaves the handler (`error`) after
        the detection flag is set, and the monitor loop reports it. */
    method OnDetectionChanged(isDetected: bool, device: Device) returns (error: Option<string>)
      modifies this`isMicrophoneDetected, this`microphoneName, this`isMicrophoneMuted
      modifies this`statusText, this`detailText, this`statusState
      ensures isMicrophoneDetected == isDetected
      ensures !isDetected ==>
        && error.None? && microphoneName == NoMicrophoneName && !isMicrophoneMuted && View() == Derived()
      ensures isDetected && CurrentName(device).FriendlyName? ==>
        && error.None? && microphoneName == CurrentName(device).value
        && isMicrophoneMuted == old(isMicrophoneMuted) && View() == Derived()
      ensures isDetected && CurrentName(device).NameFault? ==>
        && error == Some(CurrentName(device).message) && microphoneName == old(microphoneName)
        && isMicrophoneMuted == old(isMicrophoneMuted) && View() == old(View())
    {
      isMicrophoneDetected := isDetected;
      if isDetected {
        match CurrentName(device)
        case NameFault(message) =>
          return Some(message);
        case FriendlyName(name) =>
          microphoneName := name;
      } else {
        microphoneName := NoMicrophoneName;
        isMicrophoneMuted := false;
      }
      UpdateStatusBasedOnCurrentState();
      error := None;
    }

    /** The MicrophoneMuteStateChanged handler. */
    method OnMuteStateChanged(isMuted: bool)
      modifies this`isMicrophoneMuted, this`statusText, this`detailText, this`statusState
      ensures isMicrophoneMuted == isMuted && View() == Derived()
    {
      isMicrophoneMuted := isMuted;
      UpdateStatusBasedOnCurrentState();
    }

    /** RefreshMicrophoneStatus, run by the refresh command and the timer;
        `device` is the microphone as MicrophoneManager.Refresh leaves it.
        Only reading the name can throw, and the catch block reports it. */
    method RefreshMicrophoneStatus(device: Device)
      modifies this`isMicrophoneDetected, this`microphoneName, this`isMicrophoneMuted
      modifies this`statusText, this`detailText, this`statusState
      ensures isMicrophoneDetected == device.available
      ensures !device.available ==>
        && microphoneName == NoMicrophoneName && !isMicrophoneMuted && View() == Derived()
      ensures device.available && device.name.FriendlyName? ==>
        && microphoneName == device.name.value && isMicrophoneMuted == device.muted && View() == Derived()
      ensures device.available && device.name.NameFault? ==>
        && microphoneName == old(microphoneName) && isMicrophoneMuted == old(isMicrophoneMuted)
        && View() == StatusView("Error refreshing status", device.name.message, Error)
    {
      isMicrophoneDetected := device.available;
      if isMicrophoneDetected {
        match CurrentName(device)
        case NameFault(message) =>
          UpdateStatus("Error refreshing status", message, Error);
          return;
        case FriendlyName(name) =>
          microphoneName := name;
          isMicrophoneMuted := CurrentMuted(device);
      } else {
        microphoneName := NoMicrophoneName;
        isMicrophoneMuted := false;
      }
      UpdateStatusBasedOnCurrentState();
    }
  }
}
