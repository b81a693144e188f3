# Per-application volume control for a macro keypad: a Dafny model

The modelled plugin lets a keypad button raise or lower the playback volume of one
running application. This project models three parts of it:

- the volume and session helpers of `WindowsCoreAudioWrapper`. They read and write a
  session's level and mute flag, apply a clamped delta, list the executables that own
  audio sessions, and find the session of a given executable;
- the `AudioApplication` record with its derived display name;
- the hold-to-ramp action `DeltaVolumeAction` and its two variants. Pressing the key
  looks up the selected application and starts a timer. Every tick moves that
  session's level by a fixed step of +2 or -2 percent. Releasing the key stops the
  timer and drops the handle. The variants' settings record is modelled too.

Modules, one per source file:

| module | file | source |
|---|---|---|
| `Wrappers` | wrappers.dfy | C# `null`, as `Option` |
| `AudioSessions` | audio_sessions.dfy | the platform audio interfaces the wrapper calls |
| `CoreAudioWrapper` | core_audio_wrapper.dfy | `Internal/WindowsCoreAudioWrapper.cs` |
| `AvailableApplications` | available_applications.dfy | `Internal/AvailableApplications.cs` |
| `VolumeSettings` | volume_action_settings.dfy | `Internal/VolumeActionSettings.cs` |
| `RelativeVolume` | relative_volume_action.dfy | `Actions/RelativeVolumeAction.cs` |
| `IncreaseVolume`, `DecreaseVolume` | increase_volume_action.dfy, decrease_volume_action.dfy | `Actions/IncreaseVolumeAction.cs`, `Actions/DecreaseVolumeAction.cs` |

How the platform is represented:

- The default render endpoint is a class `Endpoint` holding a sequence of sessions.
  Each session is `(pid, level, mute)`.
- A volume control handle (`ISimpleAudioVolume`) is `Option<nat>`: an index into that
  sequence, or null.
- The session enumerator is a snapshot of the session sequence. `EnumerateApplications`
  and `GetVolumeObject` take that snapshot as a value.
- Resolving a process id to its main module's file name is a function parameter
  `resolve: int -> Option<string>`. `None` means that `MainModule?.FileName` is null.
- The per-character case folding of `StringComparison.OrdinalIgnoreCase` is a function
  parameter `fold: char -> char`.
- `ISimpleAudioVolume::SetMasterVolume` rejects a level outside [0,1] with E_INVALIDARG.
  The wrapper ignores the returned HRESULT, because the interface is declared
  `[PreserveSig]`. So the model's `SetMasterVolume` leaves the session unchanged for such
  a level. As a result, every stored level stays in [0,1] (`Endpoint.Valid`).
  `SetApplicationVolume` itself still does not clamp: a percentage outside [0,100]
  changes nothing rather than being clamped.
- Levels are `real`: the model does exact arithmetic where the source uses `float`.
- A timer firing is an explicit call of `OnKeyHeldDown`. It may happen only while a
  timer of the action is running (`RunningTimers() > 0`).

Behaviour of the code that a reader might expect to be otherwise, modelled as the code has it:

- A key press starts the timer even when no session matches. The ticks then change
  nothing.
- A key release with no earlier key press dereferences a null timer and fails. The
  model returns `ok == false` and changes nothing.
- `Dispose` only unregisters the property-inspector handler. It neither stops the timer
  nor drops the handle.
- A second key press overwrites the timer without stopping the first timer. That timer
  keeps firing: `abandonedTimers` counts such timers.
- A process that exits during enumeration is not skipped. `Process.GetProcessById`
  would throw, and that exception is not modelled (see below).
- `SetApplicationVolume` does not clamp. Only the delta operation clamps.
- Constructing an action without stored settings calls `initSettings`. With no audio
  application running and an empty selection, `initSettings` indexes an empty list.
  The construction then fails, and `NewDeltaVolumeAction` returns `None`.

## Model

| member | source | states |
|---|---|---|
| `AudioSessions.Endpoint.SetMasterVolume` | streamdeck-volumemixer/Internal/WindowsCoreAudioWrapper.cs:545-546 | a level in [0,1] is stored in that one session; any other level is refused and nothing changes; all levels stay in [0,1] |
| `AudioSessions.Endpoint.SetMute` | streamdeck-volumemixer/Internal/WindowsCoreAudioWrapper.cs:551-552 | only that session's mute flag changes |
| `CoreAudioWrapper.GetApplicationVolume` | streamdeck-volumemixer/Internal/WindowsCoreAudioWrapper.cs:17-25 | null exactly for a null handle; otherwise a percentage in [0,100] that divided by 100 is the stored level |
| `CoreAudioWrapper.GetApplicationMute` | streamdeck-volumemixer/Internal/WindowsCoreAudioWrapper.cs:27-35 | null exactly for a null handle; otherwise the session's mute flag |
| `CoreAudioWrapper.SetApplicationVolume` | streamdeck-volumemixer/Internal/WindowsCoreAudioWrapper.cs:37-44 | a null handle changes no session; for p in [0,100] only the held session changes, and reading the volume back gives exactly p; no clamping, so p outside [0,100] changes nothing |
| `CoreAudioWrapper.DeltaLevel` | streamdeck-volumemixer/Internal/WindowsCoreAudioWrapper.cs:52-62 | the new level is in [0,1] for any start and any delta; it is exactly `current + d/100` when that is in [0,1]; a non-negative delta at 1 stays at 1 and a non-positive delta at 0 stays at 0 |
| `CoreAudioWrapper.DeltaLevelIsNearest` | streamdeck-volumemixer/Internal/WindowsCoreAudioWrapper.cs:53-62 | the clamped level is the point of [0,1] nearest to `current + d/100`, so it saturates and never wraps |
| `CoreAudioWrapper.DeltaLevelMonotone` | streamdeck-volumemixer/Internal/WindowsCoreAudioWrapper.cs:53-62 | a higher starting level never gives a lower result |
| `CoreAudioWrapper.SetApplicationVolumeDelta` | streamdeck-volumemixer/Internal/WindowsCoreAudioWrapper.cs:46-65 | a null handle changes no session; otherwise only the held session's level changes, to `DeltaLevel` of its old level |
| `CoreAudioWrapper.SetApplicationMute` | streamdeck-volumemixer/Internal/WindowsCoreAudioWrapper.cs:67-74 | a null handle changes no session; otherwise only the held session's mute flag changes, and reading it back gives the value set |
| `CoreAudioWrapper.ExecutableForProcessId` | streamdeck-volumemixer/Internal/WindowsCoreAudioWrapper.cs:168-178 | process id 0 has no executable (null); any other id gets what the process resolver reports |
| `CoreAudioWrapper.UserSessions` | streamdeck-volumemixer/Internal/WindowsCoreAudioWrapper.cs:97-105 | the indices of exactly the sessions with pid != 0, strictly increasing, so in session order and once each |
| `CoreAudioWrapper.Executables` | streamdeck-volumemixer/Internal/WindowsCoreAudioWrapper.cs:97-110 | one resolved path per pid != 0 session, the k-th for the k-th such session |
| `CoreAudioWrapper.EnumerateApplications` | streamdeck-volumemixer/Internal/WindowsCoreAudioWrapper.cs:80-117 | the loop's list equals `Executables`: the resolved paths of exactly the pid != 0 sessions, in session order |
| `CoreAudioWrapper.GetVolumeObject` | streamdeck-volumemixer/Internal/WindowsCoreAudioWrapper.cs:119-166 | the handle of the first pid != 0 session whose path equals the argument under ordinal case-insensitive comparison (two nulls equal, null never equals a string); later matches are ignored; null when no session matches |
| `CoreAudioWrapper.FirstMatchUnique` | streamdeck-volumemixer/Internal/WindowsCoreAudioWrapper.cs:141-156 | at most one handle satisfies the lookup's contract, so the lookup is deterministic |
| `CoreAudioWrapper.LookupAgreesWithEnumeration` | streamdeck-volumemixer/Internal/WindowsCoreAudioWrapper.cs:97-156 | the lookup finds a session exactly when the enumerated list holds a path equal to the argument ignoring case |
| `CoreAudioWrapper.LookupIgnoresCase` | streamdeck-volumemixer/Internal/WindowsCoreAudioWrapper.cs:152 | `C:\App\x.EXE` and `c:\app\x.exe` compare equal under an ASCII upper-case fold |
| `CoreAudioWrapper.EnumerationSkipsSystemSession` | streamdeck-volumemixer/Internal/WindowsCoreAudioWrapper.cs:97-110 | sessions of processes 100, 0 and 200 enumerate as the two real executables, in that order |
| `AvailableApplications.LastIndexOf` | streamdeck-volumemixer/Internal/AvailableApplications.cs:18 | -1 or a position of the character, with no occurrence after it |
| `AvailableApplications.ApplicationName` | streamdeck-volumemixer/Internal/AvailableApplications.cs:18 | a suffix of the path with no backslash, preceded by a backslash unless it is the whole path |
| `AvailableApplications.ApplicationNameUnique` | streamdeck-volumemixer/Internal/AvailableApplications.cs:18 | any backslash-free suffix that starts after a backslash or at the start of the path is the name: the name is what follows the last backslash |
| `AvailableApplications.NameOfPlainFile` | streamdeck-volumemixer/Internal/AvailableApplications.cs:18 | a path without a backslash is its own name, since `LastIndexOf` gives -1 |
| `AvailableApplications.ForwardSlashIsNotASeparator` | streamdeck-volumemixer/Internal/AvailableApplications.cs:18 | only the backslash separates: `C:/Games/game.exe` is its own name |
| `AvailableApplications.FirefoxName` | streamdeck-volumemixer-tests/Tests.cs:26 | `C:\Program Files\Mozilla Firefox\firefox.exe` has the name `firefox.exe` |
| `AvailableApplications.AudioApplication.Name` | streamdeck-volumemixer/Internal/AvailableApplications.cs:16-18 | the name of the stored path; undefined (`None`) exactly when the path is null |
| `AvailableApplications.AudioApplication.SetName` | streamdeck-volumemixer/Internal/AvailableApplications.cs:19-22 | assigning the name leaves the path and the name unchanged |
| `AvailableApplications.Applications` | streamdeck-volumemixer/Internal/AvailableApplications.cs:7-10 | one application per path, in order, each storing its path unchanged |
| `VolumeSettings.VolumeActionSettings.CreateDefaultSettings` | streamdeck-volumemixer/Internal/VolumeActionSettings.cs:9-17 | a fresh instance on every call, with the empty string selected and a null application list |
| `RelativeVolume.DeltaVolumeAction.constructor` | streamdeck-volumemixer/Actions/RelativeVolumeAction.cs:13-16 | step 0, interval 50, no handle, no timer, handler registered |
| `RelativeVolume.DeltaVolumeAction.KeyPressed` | streamdeck-volumemixer/Actions/RelativeVolumeAction.cs:39-46 | the handle becomes the lookup result for the selected path; a running timer with the action's interval replaces the old one, even when the handle is null; an earlier timer still running is left running |
| `RelativeVolume.DeltaVolumeAction.KeyReleased` | streamdeck-volumemixer/Actions/RelativeVolumeAction.cs:48-53 | after a key press: the timer is stopped and disposed and the handle is null; without one: fails and changes nothing |
| `RelativeVolume.DeltaVolumeAction.OnKeyHeldDown` | streamdeck-volumemixer/Actions/RelativeVolumeAction.cs:85-88 | exactly one delta of the step to the held session; with a null handle no session changes |
| `RelativeVolume.DeltaVolumeAction.Dispose` | streamdeck-volumemixer/Actions/RelativeVolumeAction.cs:71-75 | only the handler registration changes; timer, handle and settings stay |
| `RelativeVolume.DeltaVolumeAction.InitSettings` | streamdeck-volumemixer/Actions/RelativeVolumeAction.cs:98-109 | the application list becomes one application per enumerated path, in order; an empty or null selection becomes the first path, and fails when there is none; any other selection is kept |
| `RelativeVolume.NewDeltaVolumeAction` | streamdeck-volumemixer/Actions/RelativeVolumeAction.cs:19-35 | stored settings are used as they are; without them, fresh default settings populated by `InitSettings`, and construction fails exactly when no application is available |
| `RelativeVolume.RampUp` | streamdeck-volumemixer/Actions/RelativeVolumeAction.cs:85-88 | n ticks of a step s >= 0 from a level L in [0,1] give exactly `min(1, L + n*s/100)` |
| `RelativeVolume.RampDown` | streamdeck-volumemixer/Actions/RelativeVolumeAction.cs:85-88 | n ticks of a step s <= 0 from a level L in [0,1] give exactly `max(0, L + n*s/100)` |
| `IncreaseVolume.NewIncreaseVolumeAction` | streamdeck-volumemixer/Actions/IncreaseVolumeAction.cs:8-11 | the base construction, then step +2; the interval keeps its inherited 50 |
| `IncreaseVolume.TickRaisesByTwoPercent` | streamdeck-volumemixer/Actions/IncreaseVolumeAction.cs:10 | one tick raises the level by 0.02, capped at 1 |
| `IncreaseVolume.RampNonDecreasing` | streamdeck-volumemixer/Actions/IncreaseVolumeAction.cs:10 | more ticks never give a lower level |
| `IncreaseVolume.RampReachesFull` | streamdeck-volumemixer/Actions/IncreaseVolumeAction.cs:10 | after 50 ticks or more the level is 1, from any start |
| `IncreaseVolume.RampFromNinetySixPercent` | streamdeck-volumemixer/Actions/IncreaseVolumeAction.cs:10 | from 0.96, ticks give 0.98, 1.00, 1.00 |
| `DecreaseVolume.NewDecreaseVolumeAction` | streamdeck-volumemixer/Actions/DecreaseVolumeAction.cs:8-11 | the base construction, then step -2; the interval keeps its inherited 50 |
| `DecreaseVolume.TickLowersByTwoPercent` | streamdeck-volumemixer/Actions/DecreaseVolumeAction.cs:10 | one tick lowers the level by 0.02, floored at 0 |
| `DecreaseVolume.RampNonIncreasing` | streamdeck-volumemixer/Actions/DecreaseVolumeAction.cs:10 | more ticks never give a higher level |
| `DecreaseVolume.RampReachesSilence` | streamdeck-volumemixer/Actions/DecreaseVolumeAction.cs:10 | after 50 ticks or more the level is 0, from any start |
| `DecreaseVolume.RampFromThreePercent` | streamdeck-volumemixer/Actions/DecreaseVolumeAction.cs:10 | from 0.03, ticks give 0.01, 0.00, 0.00 |

## Left out

- COM activation and release: the device enumerator, the endpoint, the session manager and
  the session enumerator, and `Marshal.ReleaseComObject`. The model has no reference
  counting. So it also misses that the pid-0 `continue` skips the release of that
  session control.
- `Process.GetProcessById` and `MainModule`: they become the `resolve` parameter. The
  exception thrown for a process that has exited is not modelled.
- `ExecutableToProcessIdCache`: it is declared but never used.
- `float` rounding: levels are exact reals. For example, 0.96 + 0.02 is exactly 0.98.
- Timer threading: `System.Timers.Timer` fires on pool threads, concurrently with key
  events. Ticks are modelled as sequential calls.
- `System.Timers.Timer` rejects a non-positive interval. This is not modelled, because
  no modelled operation changes the interval from 50.
- The public setters of `VolumeChangeStepSize` and `VolumeChangeInterval` are left out.
  Only the variants' construction assigns the step.
- Stream Deck plumbing is left out: the connection and its events, `ReceivedSettings`,
  `ReceivedGlobalSettings`, `OnTick`, `SaveSettings`, JSON (de)serialisation of the
  payload, and console logging. The property-inspector handler is represented only by
  the `subscribed` flag. The handler itself (`initSettings` then `SaveSettings`) is
  `InitSettings` followed by persistence.
