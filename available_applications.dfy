/**
 * An application that owns an audio session, identified by its executable
 * path; its display name is derived from the path and never stored.
 */
module AvailableApplications {
  import opened Wrappers

  const Separator: char := '\\'

  /** `String.LastIndexOf(c)`: the position of the last `c`, or -1. */
  function LastIndexOf(s: string, c: char): (i: int)
    ensures -1 <= i < |s|
    ensures i >= 0 ==> s[i] == c
    ensures forall j :: i < j < |s| ==> s[j] != c
  {
    if |s| == 0 then -1
    else if s[|s| - 1] == c then |s| - 1
    else LastIndexOf(s[..|s| - 1], c)
  }

  /** The file name of a path: what follows its last backslash, or the whole
      path when it has none. */
  function ApplicationName(executablePath: string): (name: string)
    ensures Separator !in name
    ensures |name| <= |executablePath| && name == executablePath[|executablePath| - |name|..]
    ensures |name| < |executablePath| ==> executablePath[|executablePath| - |name| - 1] == Separator
  {
    executablePath[LastIndexOf(executablePath, Separator) + 1..]
  }

  /** The name is the only separator-free suffix that starts right after a
      separator or at the start of the path. */
  lemma ApplicationNameUnique(executablePath: string, suffixLength: nat)
    requires suffixLength <= |executablePath|
    requires Separator !in executablePath[|executablePath| - suffixLength..]
    requires suffixLength < |executablePath| ==> executablePath[|executablePath| - suffixLength - 1] == Separator
    ensures ApplicationName(executablePath) == executablePath[|executablePath| - suffixLength..]
  {
  }

  /** A path without a backslash is its own name. */
  lemma NameOfPlainFile(executablePath: string)
    requires Separator !in executablePath
    ensures ApplicationName(executablePath) == executablePath
  {
    ApplicationNameUnique(executablePath, |executablePath|);
  }

  /** Only the backslash separates: a forward slash stays in the name. */
  lemma ForwardSlashIsNotASeparator()
    ensures ApplicationName("C:/Games/game.exe") == "C:/Games/game.exe"
  {
    NameOfPlainFile("C:/Games/game.exe");
  }

  lemma FirefoxName()
    ensures ApplicationName("C:\\Program Files\\Mozilla Firefox\\firefox.exe") == "firefox.exe"
  {
    var path := "C:\\Program Files\\Mozilla Firefox\\firefox.exe";
    assert path[|path| - 12] == Separator;
    ApplicationNameUnique(path, 11);
  }

  /** An audio application; its path is null when the process had no main
      module. */
  datatype AudioApplication = AudioApplication(executablePath: Option<string>) {

    /** The display name; `None` where the getter dereferences a null path. */
    function Name(): (r: Option<string>)
      ensures r.None? <==> executablePath.None?
      ensures r.Some? ==> r.value == ApplicationName(executablePath.value)
    {
      match executablePath
      case None => None
      case Some(p) => Some(ApplicationName(p))
    }

    /** The `ApplicationName` setter exists for deserialisation only and
        ignores its argument. */
    function SetName(name: Option<string>): (a: AudioApplication)
      ensures a.executablePath == executablePath && a.Name() == Name()
    {
      this
    }
  }

  /** One application per executable path, in the same order. */
  function Applications(paths: seq<Option<string>>): (apps: seq<AudioApplication>)
    ensures |apps| == |paths|
    ensures forall k :: 0 <= k < |paths| ==> apps[k].executablePath == paths[k]
  {
    seq(|paths|, k requires 0 <= k < |paths| => AudioApplication(paths[k]))
  }
}
