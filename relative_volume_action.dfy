/**
 * The hold-to-ramp action: pressing the key looks up the selected
 * application's session and starts a periodic timer; every tick nudges that
 * session's level by a fixed signed step; releasing the key stops the timer
 * and drops the handle.
 *
 * The timer's callbacks are modelled as explicit calls of `OnKeyHeldDown`,
 * which may happen only while some timer of the action is running.
 */
module RelativeVolume {
  import opened Wrappers
  import opened AudioSessions
  import opened CoreAudioWrapper
  import opened AvailableApplications
  import opened VolumeSettings

  /** Milliseconds between two ticks, unless a variant overrides it. */
  const DefaultInterval: int := 50

  /** A `System.Timers.Timer`: its interval, whether it fires, whether it
      has been disposed. */
  datatype Timer = Timer(interval: int, running: bool, disposed: bool)

  class DeltaVolumeAction {
    /** Signed percentage applied on every tick. */
    var stepSize: int
    /** Tick period in milliseconds. */
    var interval: int
    /** The session held while the key is down. */
    var handle: Handle
    /** The timer of the latest key press, if any. */
    var keyDownTimer: Option<Timer>
    /** Timers of earlier key presses that were never stopped and still fire. */
    ghost var abandonedTimers: nat
    /** Whether the property-inspector handler is registered. */
    var subscribed: bool
    const settings: VolumeActionSettings

    /** The field initialisers and the assignment of the settings. */
    constructor (s: VolumeActionSettings)
      ensures stepSize == 0 && interval == DefaultInterval
      ensures handle == None && keyDownTimer == None && abandonedTimers == 0
      ensures subscribed && settings == s
    {
      stepSize := 0;
      interval := DefaultInterval;
      handle := None;
      keyDownTimer := None;
      abandonedTimers := 0;
      subscribed := true;
      settings := s;
    }

    /** How many timers of this action are firing. */
    ghost function RunningTimers(): nat
      reads this
    {
      abandonedTimers + if keyDownTimer.Some? && keyDownTimer.value.running then 1 else 0
    }

    /** Key down: look the selected executable up and start a fresh timer,
        even when the lookup found nothing. A timer still running from an
        earlier press is overwritten without being stopped. */
    method KeyPressed(ep: Endpoint, resolve: Resolver, fold: CaseFold)
      modifies this`handle, this`keyDownTimer, this`abandonedTimers
      ensures FirstMatch(ep.sessions, settings.selectedApplicationExecutablePath, resolve, fold, handle)
      ensures ep.IsHandle(handle)
      ensures keyDownTimer == Some(Timer(interval, true, false))
      ensures abandonedTimers == old(RunningTimers())
      ensures RunningTimers() == old(RunningTimers()) + 1
    {
      handle := GetVolumeObject(ep.sessions, settings.selectedApplicationExecutablePath, resolve, fold);
      if keyDownTimer.Some? && keyDownTimer.value.running {
        abandonedTimers := abandonedTimers + 1;
      }
      var timer := Timer(interval, false, false);
      keyDownTimer := Some(timer.(running := true));
    }

    /** Key up: stop and dispose the timer, drop the handle. Without an
        earlier key press the timer field is null and the call fails with a
        null dereference before changing anything (`ok` is false). */
    method KeyReleased() returns (ok: bool)
      modifies this`handle, this`keyDownTimer
      ensures ok == old(keyDownTimer).Some?
      ensures ok ==> keyDownTimer == Some(old(keyDownTimer).value.(running := false, disposed := true))
      ensures ok ==> handle == None && RunningTimers() == abandonedTimers
      ensures !ok ==> keyDownTimer == old(keyDownTimer) && handle == old(handle)
    {
      if keyDownTimer.None? {
        return false;
      }
      var timer := keyDownTimer.value.(running := false);
      keyDownTimer := Some(timer.(disposed := true));
      handle := None;
      ok := true;
    }

    /** One timer tick: apply one step to the held session. */
    method OnKeyHeldDown(ep: Endpoint)
      requires RunningTimers() > 0
      requires ep.Valid() && ep.IsHandle(handle)
      modifies ep
      ensures ep.Valid() && ep.IsHandle(handle)
      ensures handle.None? ==> ep.sessions == old(ep.sessions)
      ensures handle.Some? ==>
                ep.sessions == old(ep.sessions)[handle.value := old(ep.sessions)[handle.value].(
                                 level := DeltaLevel(old(ep.sessions)[handle.value].level, stepSize as real))]
    {
      SetApplicationVolumeDelta(ep, handle, stepSize as real);
    }

    /** Only unregisters the property-inspector handler. */
    method Dispose()
      modifies this`subscribed
      ensures !subscribed
    {
      subscribed := false;
    }

    /** Replace the application list by the current enumeration and, when no
        application is selected, select the first one. With an empty list
        that selection fails (`ok` is false) after the list was stored. */
    method InitSettings(sessions: seq<Session>, resolve: Resolver) returns (ok: bool)
      modifies settings
      ensures settings.allAudioApplications == Some(Applications(Executables(sessions, resolve)))
      ensures ok <==> !old(IsNullOrEmpty(settings.selectedApplicationExecutablePath))
                      || |Executables(sessions, resolve)| > 0
      ensures settings.selectedApplicationExecutablePath ==
                if ok && old(IsNullOrEmpty(settings.selectedApplicationExecutablePath))
                then Executables(sessions, resolve)[0]
                else old(settings.selectedApplicationExecutablePath)
    {
      var paths := EnumerateApplications(sessions, resolve);
      var apps := Applications(paths);
      settings.allAudioApplications := Some(apps);
      if IsNullOrEmpty(settings.selectedApplicationExecutablePath) {
        if |apps| == 0 {
          return false;
        }
        settings.selectedApplicationExecutablePath := apps[0].executablePath;
      }
      ok := true;
    }
  }

  /** Construction from the payload's stored settings (null when the
      payload carries none): without stored settings, start from the
      defaults and populate them, which fails when no application is
      available. */
  method NewDeltaVolumeAction(stored: VolumeActionSettings?, sessions: seq<Session>, resolve: Resolver)
    returns (action: Option<DeltaVolumeAction>)
    ensures action.Some? <==> stored != null || |Executables(sessions, resolve)| > 0
    ensures action.Some? ==>
              fresh(action.value) && action.value.stepSize == 0 && action.value.interval == DefaultInterval &&
              action.value.handle == None && action.value.keyDownTimer == None &&
              action.value.abandonedTimers == 0 && action.value.subscribed
    ensures action.Some? && stored != null ==> action.value.settings == stored
    ensures action.Some? && stored == null ==>
              fresh(action.value.settings) &&
              action.value.settings.allAudioApplications == Some(Applications(Executables(sessions, resolve))) &&
              action.value.settings.selectedApplicationExecutablePath == Executables(sessions, resolve)[0]
  {
    var s: VolumeActionSettings;
    if stored == null {
      s := VolumeActionSettings.CreateDefaultSettings();
    } else {
      s := stored;
    }
    var a := new DeltaVolumeAction(s);
    if stored == null {
      var ok := a.InitSettings(sessions, resolve);
      if !ok {
        return None;
      }
    }
    action := Some(a);
  }

  // ---------------------------------------------------------------------
  // Holding the key

  /** The level of a session after `ticks` ticks of `step` from `level`. */
  function LevelAfterTicks(level: real, step: int, ticks: nat): real {
    if ticks == 0 then level else DeltaLevel(LevelAfterTicks(level, step, ticks - 1), step as real)
  }

  function Min(a: real, b: real): real {
    if a <= b then a else b
  }

  function Max(a: real, b: real): real {
    if a >= b then a else b
  }

  /** A non-negative step climbs linearly and stops at full volume. */
  lemma {:induction false} RampUp(level: real, step: int, ticks: nat)
    requires InUnitRange(level) && step >= 0
    ensures LevelAfterTicks(level, step, ticks) == Min(1.0, level + (ticks * step) as real / 100.0)
  {
    if ticks > 0 {
      RampUp(level, step, ticks - 1);
      assert ticks * step == (ticks - 1) * step + step;
    }
  }

  /** A non-positive step descends linearly and stops at silence. */
  lemma {:induction false} RampDown(level: real, step: int, ticks: nat)
    requires InUnitRange(level) && step <= 0
    ensures LevelAfterTicks(level, step, ticks) == Max(0.0, level + (ticks * step) as real / 100.0)
  {
    if ticks > 0 {
      RampDown(level, step, ticks - 1);
      assert ticks * step == (ticks - 1) * step + step;
    }
  }
}
