/** The persisted settings of one volume action. */
module VolumeSettings {
  import opened Wrappers
  import opened AvailableApplications

  predicate IsNullOrEmpty(s: Option<string>) {
    s.None? || s.value == ""
  }

  class VolumeActionSettings {
    /** The applications offered for selection; null until populated. */
    var allAudioApplications: Option<seq<AudioApplication>>
    /** The executable whose volume the action changes. */
    var selectedApplicationExecutablePath: Option<string>

    constructor (apps: Option<seq<AudioApplication>>, selected: Option<string>)
      ensures allAudioApplications == apps && selectedApplicationExecutablePath == selected
    {
      allAudioApplications := apps;
      selectedApplicationExecutablePath := selected;
    }

    /** A new settings record: empty selection, no application list. */
    static method CreateDefaultSettings() returns (instance: VolumeActionSettings)
      ensures fresh(instance)
      ensures instance.selectedApplicationExecutablePath == Some("")
      ensures instance.allAudioApplications == None
    {
      instance := new VolumeActionSettings(None, Some(""));
    }
  }
}
