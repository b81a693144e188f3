/**
 * The static volume and session helpers of `WindowsCoreAudioWrapper`.
 *
 * Levels cross this boundary as percentages and are stored by the platform
 * as scalars in [0,1]. Every operation treats a null handle as "nothing to
 * do": getters answer null, setters change no session.
 *
 * Enumeration and lookup walk the session enumerator, a snapshot of the
 * endpoint's sessions, given here as a sequence.
 */
module CoreAudioWrapper {
  import opened Wrappers
  import opened AudioSessions

  // ---------------------------------------------------------------------
  // Levels and mute

  /** The session's level as a percentage, or null for a null handle. */
  function GetApplicationVolume(ep: Endpoint, h: Handle): (r: Option<real>)
    reads ep
    requires ep.Valid() && ep.IsHandle(h)
    ensures r.None? <==> h.None?
    ensures r.Some? ==> 0.0 <= r.value <= 100.0 && r.value / 100.0 == ep.sessions[h.value].level
  {
    if h.None? then None else Some(ep.sessions[h.value].level * 100.0)
  }

  /** The session's mute flag, or null for a null handle. */
  function GetApplicationMute(ep: Endpoint, h: Handle): (r: Option<bool>)
    reads ep
    requires ep.IsHandle(h)
    ensures r.None? <==> h.None?
    ensures r.Some? ==> r.value == ep.sessions[h.value].mute
  {
    if h.None? then None else Some(ep.sessions[h.value].mute)
  }

  /** Stores `level / 100` without clamping; the platform ignores a scalar
      outside [0,1], so a percentage outside [0,100] changes nothing. */
  method SetApplicationVolume(ep: Endpoint, h: Handle, level: real)
    requires ep.Valid() && ep.IsHandle(h)
    modifies ep
    ensures ep.Valid() && ep.IsHandle(h)
    ensures h.None? || !(0.0 <= level <= 100.0) ==> ep.sessions == old(ep.sessions)
    ensures h.Some? && 0.0 <= level <= 100.0 ==>
              ep.sessions == old(ep.sessions)[h.value := old(ep.sessions)[h.value].(level := level / 100.0)]
    ensures GetApplicationVolume(ep, h) ==
              if h.Some? && 0.0 <= level <= 100.0 then Some(level) else old(GetApplicationVolume(ep, h))
  {
    if h.None? {
      return;
    }
    var _ := ep.SetMasterVolume(h.value, level / 100.0);
  }

  /** The level reached from `current` after adding `difference` percent,
      saturating at 0 and at 1. */
  function DeltaLevel(current: real, difference: real): (r: real)
    ensures InUnitRange(r)
    ensures InUnitRange(current + difference / 100.0) ==> r == current + difference / 100.0
    ensures difference >= 0.0 && current >= 1.0 ==> r == 1.0
    ensures difference <= 0.0 && current <= 0.0 ==> r == 0.0
  {
    var newLevel := current + difference / 100.0;
    var floored := if newLevel < 0.0 then 0.0 else newLevel;
    if floored > 1.0 then 1.0 else floored
  }

  function Abs(x: real): real {
    if x < 0.0 then -x else x
  }

  /** Clamping picks the point of [0,1] nearest to the unclamped sum. */
  lemma DeltaLevelIsNearest(current: real, difference: real, other: real)
    requires InUnitRange(other)
    ensures var sum := current + difference / 100.0;
            Abs(DeltaLevel(current, difference) - sum) <= Abs(other - sum)
  {
  }

  /** Clamping is monotone in the starting level. */
  lemma DeltaLevelMonotone(a: real, b: real, difference: real)
    requires a <= b
    ensures DeltaLevel(a, difference) <= DeltaLevel(b, difference)
  {
  }

  /** Adds `levelDifference` percent to the session's level, clamped to [0,1]. */
  method SetApplicationVolumeDelta(ep: Endpoint, h: Handle, levelDifference: real)
    requires ep.Valid() && ep.IsHandle(h)
    modifies ep
    ensures ep.Valid() && ep.IsHandle(h)
    ensures h.None? ==> ep.sessions == old(ep.sessions)
    ensures h.Some? ==>
              ep.sessions == old(ep.sessions)[h.value := old(ep.sessions)[h.value].(
                               level := DeltaLevel(old(ep.sessions)[h.value].level, levelDifference))]
  {
    if h.None? {
      return;
    }
    var currentLevel := ep.sessions[h.value].level;
    var newLevel := currentLevel + levelDifference / 100.0;
    if newLevel < 0.0 {
      newLevel := 0.0;
    }
    if newLevel > 1.0 {
      newLevel := 1.0;
    }
    var accepted := ep.SetMasterVolume(h.value, newLevel);
    assert accepted;
  }

  /** Sets the session's mute flag; a null handle changes nothing. */
  method SetApplicationMute(ep: Endpoint, h: Handle, mute: bool)
    requires ep.Valid() && ep.IsHandle(h)
    modifies ep
    ensures ep.Valid() && ep.IsHandle(h)
    ensures h.None? ==> ep.sessions == old(ep.sessions)
    ensures h.Some? ==> ep.sessions == old(ep.sessions)[h.value := old(ep.sessions)[h.value].(mute := mute)]
    ensures GetApplicationMute(ep, h) == if h.Some? then Some(mute) else None
  {
    if h.None? {
      return;
    }
    ep.SetMute(h.value, mute);
  }

  // ---------------------------------------------------------------------
  // Process identity

  /** The executable of a process; process id 0 (the system pseudo-session)
      has none. */
  function ExecutableForProcessId(pid: int, resolve: Resolver): (r: Option<string>)
    ensures pid == 0 ==> r == None
    ensures pid != 0 ==> r == resolve(pid)
  {
    if pid == 0 then None else resolve(pid)
  }

  // ---------------------------------------------------------------------
  // Enumeration

  /** Indices of the sessions owned by a real process (pid != 0), in
      session order. */
  function UserSessions(sessions: seq<Session>): (idx: seq<nat>)
    ensures forall k :: 0 <= k < |idx| ==> idx[k] < |sessions| && sessions[idx[k]].pid != 0
    ensures forall k, l :: 0 <= k < l < |idx| ==> idx[k] < idx[l]
    ensures forall i :: 0 <= i < |sessions| && sessions[i].pid != 0 ==> i in idx
  {
    if |sessions| == 0 then []
    else
      var last := |sessions| - 1;
      UserSessions(sessions[..last]) + if sessions[last].pid == 0 then [] else [last]
  }

  /** What enumeration reports: one executable per user session, in order. */
  function Executables(sessions: seq<Session>, resolve: Resolver): (names: seq<Option<string>>)
    ensures |names| == |UserSessions(sessions)|
    ensures forall k :: 0 <= k < |names| ==>
              names[k] == ExecutableForProcessId(sessions[UserSessions(sessions)[k]].pid, resolve)
  {
    if |sessions| == 0 then []
    else
      var last := |sessions| - 1;
      assert sessions[..last] == sessions[..|sessions| - 1];
      Executables(sessions[..last], resolve)
        + if sessions[last].pid == 0 then [] else [ExecutableForProcessId(sessions[last].pid, resolve)]
  }

  /** The executable paths of all sessions except the system one. */
  method EnumerateApplications(sessions: seq<Session>, resolve: Resolver) returns (names: seq<Option<string>>)
    ensures names == Executables(sessions, resolve)
  {
    names := [];
    for i := 0 to |sessions|
      invariant names == Executables(sessions[..i], resolve)
    {
      assert sessions[..i + 1][..i] == sessions[..i];
      var pid := sessions[i].pid;
      if pid == 0 {
        continue;
      }
      var procName := ExecutableForProcessId(pid, resolve);
      names := names + [procName];
    }
    assert sessions[..|sessions|] == sessions;
  }

  // ---------------------------------------------------------------------
  // Lookup

  /** `String.Compare(a, b, OrdinalIgnoreCase) == 0` for non-null strings. */
  predicate SameIgnoringCase(a: string, b: string, fold: CaseFold) {
    |a| == |b| && forall i :: 0 <= i < |a| ==> fold(a[i]) == fold(b[i])
  }

  /** `String.Compare(a, b, OrdinalIgnoreCase) == 0`: two nulls are equal,
      a null never equals a string. */
  predicate SamePath(a: Option<string>, b: Option<string>, fold: CaseFold) {
    match (a, b)
    case (None, None) => true
    case (Some(x), Some(y)) => SameIgnoringCase(x, y, fold)
    case _ => false
  }

  /** Session `j` belongs to a real process whose executable is `path`. */
  predicate Candidate(sessions: seq<Session>, j: nat, path: Option<string>, resolve: Resolver, fold: CaseFold)
    requires j < |sessions|
  {
    sessions[j].pid != 0 && SamePath(path, ExecutableForProcessId(sessions[j].pid, resolve), fold)
  }

  /** `h` is the first candidate session for `path`, or null when there is none. */
  predicate FirstMatch(sessions: seq<Session>, path: Option<string>, resolve: Resolver, fold: CaseFold, h: Handle) {
    match h
    case None => forall j :: 0 <= j < |sessions| ==> !Candidate(sessions, j, path, resolve, fold)
    case Some(i) =>
      i < |sessions| && Candidate(sessions, i, path, resolve, fold) &&
      forall j :: 0 <= j < i ==> !Candidate(sessions, j, path, resolve, fold)
  }

  /** The volume control of the first session whose executable matches
      `path` ignoring case, or null. */
  method GetVolumeObject(sessions: seq<Session>, path: Option<string>, resolve: Resolver, fold: CaseFold)
    returns (volumeControl: Handle)
    ensures FirstMatch(sessions, path, resolve, fold, volumeControl)
  {
    volumeControl := None;
    var i := 0;
    while i < |sessions|
      invariant 0 <= i <= |sessions|
      invariant volumeControl.None?
      invariant forall j :: 0 <= j < i ==> !Candidate(sessions, j, path, resolve, fold)
    {
      var pid := sessions[i].pid;
      if pid == 0 {
        i := i + 1;
        continue;
      }
      var procName := ExecutableForProcessId(pid, resolve);
      if SamePath(path, procName, fold) {
        volumeControl := Some(i);
        break;
      }
      i := i + 1;
    }
  }

  /** At most one handle is the first match: lookup is deterministic. */
  lemma FirstMatchUnique(sessions: seq<Session>, path: Option<string>, resolve: Resolver, fold: CaseFold,
                         h1: Handle, h2: Handle)
    requires FirstMatch(sessions, path, resolve, fold, h1)
    requires FirstMatch(sessions, path, resolve, fold, h2)
    ensures h1 == h2
  {
  }

  /** Lookup finds a session exactly when enumeration lists a matching path. */
  lemma LookupAgreesWithEnumeration(sessions: seq<Session>, path: Option<string>, resolve: Resolver,
                                    fold: CaseFold, h: Handle)
    requires FirstMatch(sessions, path, resolve, fold, h)
    ensures h.Some? <==>
              exists k :: 0 <= k < |Executables(sessions, resolve)| && SamePath(path, Executables(sessions, resolve)[k], fold)
  {
    var names := Executables(sessions, resolve);
    var idx := UserSessions(sessions);
    if h.Some? {
      var i := h.value;
      assert Candidate(sessions, i, path, resolve, fold);
      assert i in idx;
      var k :| 0 <= k < |idx| && idx[k] == i;
      assert names[k] == ExecutableForProcessId(sessions[i].pid, resolve);
      assert 0 <= k < |names| && SamePath(path, names[k], fold);
      assert exists k' :: 0 <= k' < |Executables(sessions, resolve)| && SamePath(path, Executables(sessions, resolve)[k'], fold);
    } else if k :| 0 <= k < |names| && SamePath(path, names[k], fold) {
      assert Candidate(sessions, idx[k], path, resolve, fold);
    }
  }

  // ---------------------------------------------------------------------
  // Examples

  /** Upper-cases ASCII letters; one possible case fold. */
  function AsciiUpper(c: char): char {
    if 'a' <= c <= 'z' then (c as int - 32) as char else c
  }

  /** A path given in another letter case still names the same session. */
  lemma LookupIgnoresCase()
    ensures SamePath(Some("C:\\App\\x.EXE"), Some("c:\\app\\x.exe"), AsciiUpper)
  {
  }

  /** Sessions of processes 100, 0 and 200 enumerate as the two real
      executables, in session order. */
  lemma EnumerationSkipsSystemSession()
    ensures var sessions := [Session(100, 0.5, false), Session(0, 0.5, false), Session(200, 0.5, false)];
            var resolve := (pid: int) => if pid == 100 then Some("C:\\a.exe") else Some("C:\\b.exe");
            Executables(sessions, resolve) == [Some("C:\\a.exe"), Some("C:\\b.exe")]
  {
  }
}
