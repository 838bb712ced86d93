/** The records the services pass around (the Models folder): the settings object,
    the observable game entry, and the plain profile and plug-in records. */
module Models {

  /** The nine persisted settings of a Config, as one value. */
  datatype ConfigData = ConfigData(
    steamPath: string,
    greenLumaPath: string,
    noHook: bool,
    disableUpdateCheck: bool,
    autoUpdate: bool,
    lastProfile: string,
    checkUpdate: bool,
    replaceSteamAutostart: bool,
    firstRun: bool)

  /** The settings a freshly constructed Config holds. */
  const Defaults := ConfigData("", "", false, false, true, "default", true, false, true)

  /** The application settings; every property is read and overwritten in place by
      the dialogs and services. */
  class Config {
    var steamPath: string
    var greenLumaPath: string
    var noHook: bool
    var disableUpdateCheck: bool
    var autoUpdate: bool
    var lastProfile: string
    var checkUpdate: bool
    var replaceSteamAutostart: bool
    var firstRun: bool

    /** new Config(): both paths empty, every switch off except AutoUpdate,
        CheckUpdate and FirstRun, and "default" as the last profile. */
    constructor()
      ensures steamPath == "" && greenLumaPath == ""
      ensures !noHook && !disableUpdateCheck && !replaceSteamAutostart
      ensures autoUpdate && checkUpdate && lastProfile == "default"
      ensures firstRun
      ensures Data() == Defaults
    {
      steamPath := "";
      greenLumaPath := "";
      noHook := false;
      disableUpdateCheck := false;
      autoUpdate := true;
      lastProfile := "default";
      checkUpdate := true;
      replaceSteamAutostart := false;
      firstRun := true;
    }

    function Data(): ConfigData
      reads this
    {
      ConfigData(steamPath, greenLumaPath, noHook, disableUpdateCheck, autoUpdate,
                 lastProfile, checkUpdate, replaceSteamAutostart, firstRun)
    }

    /** Overwrites every property, as an object initializer after the constructor. */
    method Assign(d: ConfigData)
      modifies this
      ensures Data() == d
    {
      steamPath, greenLumaPath, noHook := d.steamPath, d.greenLumaPath, d.noHook;
      disableUpdateCheck, autoUpdate := d.disableUpdateCheck, d.autoUpdate;
      lastProfile, checkUpdate := d.lastProfile, d.checkUpdate;
      replaceSteamAutostart, firstRun := d.replaceSteamAutostart, d.firstRun;
    }
  }

  /** A game entry shown in the UI. Its IconUrl property notifies listeners when
      it changes; the notifications raised so far are kept in order in
      `changes`. */
  class Game {
    const appId: string
    const name: string
    var typeName: string
    var iconUrl: string
    var changes: seq<string>

    constructor(appId: string, name: string, typeName: string)
      ensures this.appId == appId && this.name == name && this.typeName == typeName
      ensures iconUrl == "" && changes == []
    {
      this.appId := appId;
      this.name := name;
      this.typeName := typeName;
      iconUrl := "";
      changes := [];
    }

    /** The IconUrl getter: the value most recently stored. */
    function IconUrl(): string
      reads this
    {
      iconUrl
    }

    /** The IconUrl setter: a different value is stored and raises exactly one
        PropertyChanged("IconUrl"); the current value changes nothing. */
    method SetIconUrl(value: string)
      modifies this
      ensures IconUrl() == value
      ensures old(iconUrl) != value ==> changes == old(changes) + ["IconUrl"]
      ensures old(iconUrl) == value ==> changes == old(changes)
      ensures typeName == old(typeName)
    {
      if iconUrl != value {
        iconUrl := value;
        changes := changes + ["IconUrl"];
      }
    }

    function Info(): GameInfo
      reads this
    {
      GameInfo(appId, name, typeName, iconUrl)
    }
  }

  /** A game as a value: what a profile stores and the lists hold. */
  datatype GameInfo = GameInfo(appId: string, name: string, typeName: string, iconUrl: string)

  /** A named list of games. */
  datatype Profile = Profile(name: string, games: seq<GameInfo>)

  /** The metadata the plug-in registry keeps for an installed plug-in. */
  datatype PluginInfo = PluginInfo(
    name: string,
    version: string,
    author: string,
    description: string,
    fileName: string,
    isEnabled: bool,
    id: string)
}
