/**
 * The platform side of the audio stack, reduced to what the volume mixer
 * uses: the render endpoint's list of audio sessions, each with the process
 * that owns it, its master volume level and its mute flag.
 *
 * A session control (`ISimpleAudioVolume`) is modelled as an index into the
 * endpoint's session list; the list itself never grows or shrinks here, so a
 * handle obtained once stays usable.
 */
module AudioSessions {
  import opened Wrappers

  /** One audio session: owning process id, master level in [0,1], mute flag. */
  datatype Session = Session(pid: int, level: real, mute: bool)

  /** A volume control handle: the index of one session, or null. */
  type Handle = Option<nat>

  /** Maps a process id to its main module's file name; `None` when the
      process has no main module (`MainModule?.FileName` is null). */
  type Resolver = int -> Option<string>

  /** The per-character folding used by ordinal case-insensitive comparison. */
  type CaseFold = char -> char

  predicate InUnitRange(x: real) {
    0.0 <= x <= 1.0
  }

  /** The default render endpoint and its live sessions. */
  class Endpoint {
    var sessions: seq<Session>

    /** Every session's level is a valid scalar volume. */
    ghost predicate Valid()
      reads this
    {
      forall i :: 0 <= i < |sessions| ==> InUnitRange(sessions[i].level)
    }

    /** A null handle, or one that designates a session of this endpoint. */
    predicate IsHandle(h: Handle)
      reads this
    {
      h.None? || h.value < |sessions|
    }

    constructor (initial: seq<Session>)
      requires forall i :: 0 <= i < |initial| ==> InUnitRange(initial[i].level)
      ensures Valid() && sessions == initial
    {
      sessions := initial;
    }

    /** `ISimpleAudioVolume::SetMasterVolume`: a level outside [0,1] is
        rejected with E_INVALIDARG and leaves the session as it was. */
    method SetMasterVolume(i: nat, level: real) returns (accepted: bool)
      requires Valid() && i < |sessions|
      modifies this
      ensures Valid()
      ensures accepted == InUnitRange(level)
      ensures sessions == if accepted then old(sessions)[i := old(sessions)[i].(level := level)]
                          else old(sessions)
    {
      accepted := InUnitRange(level);
      if accepted {
        sessions := sessions[i := sessions[i].(level := level)];
      }
    }

    /** `ISimpleAudioVolume::SetMute`. */
    method SetMute(i: nat, mute: bool)
      requires Valid() && i < |sessions|
      modifies this
      ensures Valid()
      ensures sessions == old(sessions)[i := old(sessions)[i].(mute := mute)]
    {
      sessions := sessions[i := sessions[i].(mute := mute)];
    }
  }
}
