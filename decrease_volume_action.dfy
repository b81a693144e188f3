/** The action that lowers an application's volume while its key is held. */
module DecreaseVolume {
  import opened Wrappers
  import opened AudioSessions
  import opened CoreAudioWrapper
  import opened AvailableApplications
  import opened VolumeSettings
  import opened RelativeVolume

  /** Percent added per tick. */
  const StepSize: int := -2

  /** The base construction followed by fixing the step at -2; the
      interval keeps its default. */
  method NewDecreaseVolumeAction(stored: VolumeActionSettings?, sessions: seq<Session>, resolve: Resolver)
    returns (action: Option<DeltaVolumeAction>)
    ensures action.Some? <==> stored != null || |Executables(sessions, resolve)| > 0
    ensures action.Some? ==>
              fresh(action.value) && action.value.stepSize == StepSize &&
              action.value.interval == DefaultInterval &&
              action.value.handle == None && action.value.keyDownTimer == None &&
              action.value.abandonedTimers == 0 && action.value.subscribed
    ensures action.Some? && stored != null ==> action.value.settings == stored
    ensures action.Some? && stored == null ==>
              fresh(action.value.settings) &&
              action.value.settings.allAudioApplications == Some(Applications(Executables(sessions, resolve))) &&
              action.value.settings.selectedApplicationExecutablePath == Executables(sessions, resolve)[0]
  {
    action := NewDeltaVolumeAction(stored, sessions, resolve);
    if action.Some? {
      action.value.stepSize := StepSize;
    }
  }

  /** One tick removes two percent, floored at silence. */
  lemma TickLowersByTwoPercent(level: real)
    requires InUnitRange(level)
    ensures DeltaLevel(level, StepSize as real) == Max(0.0, level - 0.02)
  {
  }

  /** Holding the key never raises the level. */
  lemma RampNonIncreasing(level: real, m: nat, n: nat)
    requires InUnitRange(level) && m <= n
    ensures LevelAfterTicks(level, StepSize, n) <= LevelAfterTicks(level, StepSize, m)
  {
    RampDown(level, StepSize, m);
    RampDown(level, StepSize, n);
  }

  /** Fifty ticks reach silence from any level, and it stays there. */
  lemma RampReachesSilence(level: real, ticks: nat)
    requires InUnitRange(level) && ticks >= 50
    ensures LevelAfterTicks(level, StepSize, ticks) == 0.0
  {
    RampDown(level, StepSize, ticks);
  }

  /** From 0.03, three ticks give 0.01, 0.00, 0.00. */
  lemma RampFromThreePercent()
    ensures LevelAfterTicks(0.03, StepSize, 1) == 0.01
    ensures LevelAfterTicks(0.03, StepSize, 2) == 0.0
    ensures LevelAfterTicks(0.03, StepSize, 3) == 0.0
  {
    RampDown(0.03, StepSize, 1);
    RampDown(0.03, StepSize, 2);
    RampDown(0.03, StepSize, 3);
  }
}
