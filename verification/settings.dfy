/** The per-application settings record (IAppSettings) of the host process. */
module Settings {

  /** The value of one settings record at a given moment. */
  datatype AppRecord = AppRecord(
    name: string,
    expressAppFile: string,
    envVariables: map<string, string>,
    isDefaultApp: bool)

  /** One hosted application's settings, shared by reference and updated in place. */
  class AppSettings {
    var name: string
    var expressAppFile: string
    var envVariables: map<string, string>
    var isDefaultApp: bool

    constructor (name: string, expressAppFile: string, envVariables: map<string, string>, isDefaultApp: bool)
      ensures Record() == AppRecord(name, expressAppFile, envVariables, isDefaultApp)
    {
      this.name := name;
      this.expressAppFile := expressAppFile;
      this.envVariables := envVariables;
      this.isDefaultApp := isDefaultApp;
    }

    /** The current value of this record. */
    function Record(): AppRecord
      reads this
    {
      AppRecord(name, expressAppFile, envVariables, isDefaultApp)
    }
  }

  /** The settings objects an array refers to. */
  function Elements(apps: array<AppSettings>): set<AppSettings>
    reads apps
  {
    set i | 0 <= i < apps.Length :: apps[i]
  }

  /** The current values of a sequence of settings objects, in order. */
  function Records(objs: seq<AppSettings>): (rs: seq<AppRecord>)
    reads set o | o in objs
    ensures |rs| == |objs|
    ensures forall i :: 0 <= i < |objs| ==> rs[i] == objs[i].Record()
  {
    if objs == [] then [] else [objs[0].Record()] + Records(objs[1..])
  }
}
