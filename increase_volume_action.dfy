/** The action that raises an application's volume while its key is held. */
module IncreaseVolume {
  import opened Wrappers
  import opened AudioSessions
  import opened CoreAudioWrapper
  import opened AvailableApplications
  import opened VolumeSettings
  import opened RelativeVolume

  /** Percent added per tick. */
  const StepSize: int := 2

  /** The base construction followed by fixing the step at +2; the
      interval keeps its default. */
  method NewIncreaseVolumeAction(stored: VolumeActionSettings?, sessions: seq<Session>, resolve: Resolver)
    returns (action: Option<DeltaVolumeAction>)
    ensures action.Some? <==> stored != null || |Executables(sessions, resolve)| > 0
    ensures action.Some? ==>
              fresh(action.value) && action.value.stepSize == StepSize &&
              action.value.interval == DefaultInterval &&
              action.value.handle == None && action.value.keyDownTimer == None &&
              action.value.abandonedTimers == 0 && action.value.subscribed
    ensures action.Some? && stored != null ==> action.value.settings == stored
    ensures action.Some? && stored == null ==>
              fresh(action.value.settings) &&
              action.value.settings.allAudioApplications == Some(Applications(Executables(sessions, resolve))) &&
              action.value.settings.selectedApplicationExecutablePath == Executables(sessions, resolve)[0]
  {
    action := NewDeltaVolumeAction(stored, sessions, resolve);
    if action.Some? {
      action.value.stepSize := StepSize;
    }
  }

  /** One tick adds two percent, capped at full volume. */
  lemma TickRaisesByTwoPercent(level: real)
    requires InUnitRange(level)
    ensures DeltaLevel(level, StepSize as real) == Min(1.0, level + 0.02)
  {
  }

  /** Holding the key never lowers the level. */
  lemma RampNonDecreasing(level: real, m: nat, n: nat)
    requires InUnitRange(level) && m <= n
    ensures LevelAfterTicks(level, StepSize, m) <= LevelAfterTicks(level, StepSize, n)
  {
    RampUp(level, StepSize, m);
    RampUp(level, StepSize, n);
  }

  /** Fifty ticks reach full volume from any level, and it stays there. */
  lemma RampReachesFull(level: real, ticks: nat)
    requires InUnitRange(level) && ticks >= 50
    ensures LevelAfterTicks(level, StepSize, ticks) == 1.0
  {
    RampUp(level, StepSize, ticks);
  }

  /** From 0.96, three ticks give 0.98, 1.00, 1.00. */
  lemma RampFromNinetySixPercent()
    ensures LevelAfterTicks(0.96, StepSize, 1) == 0.98
    ensures LevelAfterTicks(0.96, StepSize, 2) == 1.0
    ensures LevelAfterTicks(0.96, StepSize, 3) == 1.0
  {
    RampUp(0.96, StepSize, 1);
    RampUp(0.96, StepSize, 2);
    RampUp(0.96, StepSize, 3);
  }

  /** A client's view: stored settings select an application at 0.96;
      the key is pressed, held for three ticks and released. */
  method HoldScenario()
  {
    var resolve := (pid: int) => Some("C:\\a.exe");
    var ep := new Endpoint([Session(100, 0.96, false)]);
    var stored := new VolumeActionSettings(None, Some("C:\\a.exe"));
    var action := NewIncreaseVolumeAction(stored, ep.sessions, resolve);
    var a := action.value;
    assert Candidate(ep.sessions, 0, a.settings.selectedApplicationExecutablePath, resolve, AsciiUpper);
    a.KeyPressed(ep, resolve, AsciiUpper);
    assert a.handle == Some(0);
    a.OnKeyHeldDown(ep);
    assert ep.sessions[0].level == 0.98;
    a.OnKeyHeldDown(ep);
    assert ep.sessions[0].level == 1.0;
    a.OnKeyHeldDown(ep);
    assert ep.sessions[0].level == 1.0;
    var released := a.KeyReleased();
    assert released && a.handle == None && a.RunningTimers() == 0;
  }
}
