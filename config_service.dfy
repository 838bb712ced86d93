/** ConfigService: the settings file config.json, its migration from the
    snake_case format of earlier versions, and the fallbacks of Load. */
module Configuration {
  import opened Text
  import opened Json
  import Models
  import Profiles
  import IconCache
  import Plugins

  // ---------------------------------------------------------------------------
  // The saved form (DataContractJsonSerializer)

  /** The settings as the serializer writes them, one member per property. */
  function ConfigJson(d: Models.ConfigData): Json {
    JObj(map[
      "SteamPath" := JStr(d.steamPath),
      "GreenLumaPath" := JStr(d.greenLumaPath),
      "NoHook" := JBool(d.noHook),
      "DisableUpdateCheck" := JBool(d.disableUpdateCheck),
      "AutoUpdate" := JBool(d.autoUpdate),
      "LastProfile" := JStr(d.lastProfile),
      "CheckUpdate" := JBool(d.checkUpdate),
      "ReplaceSteamAutostart" := JBool(d.replaceSteamAutostart),
      "FirstRun" := JBool(d.firstRun)])
  }

  /** A boolean member as the serializer reads it: absent leaves the property
      false, any token but a boolean fails. */
  function BoolMember(fields: map<string, Json>, key: string): Option<bool> {
    if key !in fields then Some(false)
    else
      match fields[key]
      case JBool(b) => Some(b)
      case _ => None
  }

  /** DeserializeConfig: the settings of a document, or nothing when it is not
      an object or a member has the wrong type. The serializer does not run the
      constructor, so an absent member is empty or false, not its default. */
  function DecodeConfig(c: Content): Option<Models.ConfigData> {
    if !c.Document? || !c.doc.JObj? then None
    else
      var f := c.doc.fields;
      var steamPath, greenLumaPath, lastProfile :=
        StringMember(f, "SteamPath"), StringMember(f, "GreenLumaPath"), StringMember(f, "LastProfile");
      var noHook, disableUpdateCheck, autoUpdate :=
        BoolMember(f, "NoHook"), BoolMember(f, "DisableUpdateCheck"), BoolMember(f, "AutoUpdate");
      var checkUpdate, replaceSteamAutostart, firstRun :=
        BoolMember(f, "CheckUpdate"), BoolMember(f, "ReplaceSteamAutostart"), BoolMember(f, "FirstRun");
      if steamPath.Some? && greenLumaPath.Some? && lastProfile.Some? && noHook.Some?
        && disableUpdateCheck.Some? && autoUpdate.Some? && checkUpdate.Some?
        && replaceSteamAutostart.Some? && firstRun.Some?
      then Some(Models.ConfigData(steamPath.value, greenLumaPath.value, noHook.value,
        disableUpdateCheck.value, autoUpdate.value, lastProfile.value, checkUpdate.value,
        replaceSteamAutostart.value, firstRun.value))
      else None
  }

  lemma ConfigJsonMembers(d: Models.ConfigData)
    ensures StringMember(ConfigJson(d).fields, "SteamPath") == Some(d.steamPath)
    ensures StringMember(ConfigJson(d).fields, "GreenLumaPath") == Some(d.greenLumaPath)
    ensures StringMember(ConfigJson(d).fields, "LastProfile") == Some(d.lastProfile)
  {
    assert "LastProfile" != "CheckUpdate" by { assert "LastProfile"[0] != "CheckUpdate"[0]; }
  }

  lemma ConfigJsonSwitches(d: Models.ConfigData)
    ensures BoolMember(ConfigJson(d).fields, "NoHook") == Some(d.noHook)
    ensures BoolMember(ConfigJson(d).fields, "DisableUpdateCheck") == Some(d.disableUpdateCheck)
    ensures BoolMember(ConfigJson(d).fields, "AutoUpdate") == Some(d.autoUpdate)
    ensures BoolMember(ConfigJson(d).fields, "CheckUpdate") == Some(d.checkUpdate)
    ensures BoolMember(ConfigJson(d).fields, "ReplaceSteamAutostart") == Some(d.replaceSteamAutostart)
    ensures BoolMember(ConfigJson(d).fields, "FirstRun") == Some(d.firstRun)
  {
    assert "LastProfile" != "CheckUpdate" by { assert "LastProfile"[0] != "CheckUpdate"[0]; }
  }

  /** Reading back what Save wrote yields the same settings. */
  lemma ConfigRoundTrip(d: Models.ConfigData)
    ensures DecodeConfig(Document(ConfigJson(d))) == Some(d)
  {
    ConfigJsonMembers(d);
    ConfigJsonSwitches(d);
  }

  // ---------------------------------------------------------------------------
  // The snake_case format

  /** jsonData[key]?.ToObject<bool>() ?? fallback: the fallback when the key is
      absent; None stands for the exception a token that is not a boolean
      raises. */
  function SwitchOr(fields: map<string, Json>, key: string, fallback: bool): Option<bool> {
    match Get(fields, key)
    case None => Some(fallback)
    case Some(j) => ToBool(j)
  }

  /** Every snake_case switch present in the document converts to a boolean. */
  predicate SwitchesConvert(f: map<string, Json>) {
    && ("no_hook" in f ==> ToBool(f["no_hook"]).Some?)
    && ("disable_update_check" in f ==> ToBool(f["disable_update_check"]).Some?)
    && ("auto_update" in f ==> ToBool(f["auto_update"]).Some?)
    && ("check_update" in f ==> ToBool(f["check_update"]).Some?)
    && ("replace_steam_autostart" in f ==> ToBool(f["replace_steam_autostart"]).Some?)
  }

  /** TryMigrateFromOldVersion: nothing for text that is not a JSON object, for
      a document without "steam_path" (a current file has "SteamPath"), and
      when a switch fails to convert; otherwise the snake_case values with
      their defaults, and FirstRun off. */
  function MigrateConfig(c: Content): Option<Models.ConfigData> {
    if !c.Document? || !c.doc.JObj? then None
    else
      var f := c.doc.fields;
      if Get(f, "steam_path").None? && Get(f, "SteamPath").Some? then None
      else if Get(f, "steam_path").None? then None
      else
        var noHook := SwitchOr(f, "no_hook", false);
        var disableUpdateCheck := SwitchOr(f, "disable_update_check", false);
        var autoUpdate := SwitchOr(f, "auto_update", true);
        var checkUpdate := SwitchOr(f, "check_update", true);
        var replaceSteamAutostart := SwitchOr(f, "replace_steam_autostart", false);
        if noHook.Some? && disableUpdateCheck.Some? && autoUpdate.Some? && checkUpdate.Some?
          && replaceSteamAutostart.Some?
        then Some(Models.ConfigData(
          TextOr(Get(f, "steam_path"), ""),
          TextOr(Get(f, "greenluma_path"), ""),
          noHook.value,
          disableUpdateCheck.value,
          autoUpdate.value,
          TextOr(Get(f, "last_profile"), "default"),
          checkUpdate.value,
          replaceSteamAutostart.value,
          false))
        else None
  }

  /** A file migrates exactly when it is an object with "steam_path" whose
      present switches all convert. */
  lemma MigrationCondition(c: Content)
    ensures MigrateConfig(c).Some? <==>
      c.Document? && c.doc.JObj? && "steam_path" in c.doc.fields && SwitchesConvert(c.doc.fields)
  {
    if c.Document? && c.doc.JObj? {
      var f := c.doc.fields;
      SwitchOrConverts(f, "no_hook", false);
      SwitchOrConverts(f, "disable_update_check", false);
      SwitchOrConverts(f, "auto_update", true);
      SwitchOrConverts(f, "check_update", true);
      SwitchOrConverts(f, "replace_steam_autostart", false);
    }
  }

  lemma SwitchOrConverts(f: map<string, Json>, key: string, fallback: bool)
    ensures SwitchOr(f, key, fallback).Some? <==> (key in f ==> ToBool(f[key]).Some?)
  {
  }

  /** A migrated config takes each absent key's default: "" for the paths,
      AutoUpdate and CheckUpdate on, NoHook, DisableUpdateCheck and
      ReplaceSteamAutostart off, LastProfile "default"; FirstRun is always
      off. */
  lemma MigrationDefaults(c: Content, d: Models.ConfigData)
    requires MigrateConfig(c) == Some(d)
    ensures !d.firstRun
    ensures d.steamPath == ToText(c.doc.fields["steam_path"])
    ensures "greenluma_path" !in c.doc.fields ==> d.greenLumaPath == ""
    ensures "no_hook" !in c.doc.fields ==> !d.noHook
    ensures "disable_update_check" !in c.doc.fields ==> !d.disableUpdateCheck
    ensures "auto_update" !in c.doc.fields ==> d.autoUpdate
    ensures "last_profile" !in c.doc.fields ==> d.lastProfile == "default"
    ensures "check_update" !in c.doc.fields ==> d.checkUpdate
    ensures "replace_steam_autostart" !in c.doc.fields ==> !d.replaceSteamAutostart
  {
  }

  /** A file Save wrote is never taken for the old format. */
  lemma SavedConfigIsNotMigrated(d: Models.ConfigData)
    ensures MigrateConfig(Document(ConfigJson(d))).None?
  {
    assert "steam_path" != "AutoUpdate" by { assert "steam_path"[0] != "AutoUpdate"[0]; }
    assert "steam_path" !in ConfigJson(d).fields;
  }

  // ---------------------------------------------------------------------------
  // Load

  /** The settings Load returns for an existing file: the migrated ones, else
      the deserialized ones, else those of a new Config. */
  function LoadedConfig(c: Content): Models.ConfigData {
    match MigrateConfig(c)
    case Some(d) => d
    case None =>
      match DecodeConfig(c)
      case Some(d) => d
      case None => Models.Defaults
  }

  /** What Save wrote is what the next Load returns. */
  lemma LoadAfterSave(d: Models.ConfigData)
    ensures LoadedConfig(Document(ConfigJson(d))) == d
  {
    SavedConfigIsNotMigrated(d);
    ConfigRoundTrip(d);
  }

  /** Text that does not parse loads as a new Config. */
  lemma MalformedLoadsDefaults()
    ensures LoadedConfig(Malformed) == Models.Defaults
  {
  }

  /** The settings of a first start: those of a new Config with the detected
      Steam and GreenLuma paths. */
  function Detected(steamPath: string, greenLumaPath: string): (r: Models.ConfigData)
    ensures r.firstRun && r.steamPath == steamPath && r.greenLumaPath == greenLumaPath
    ensures r.(steamPath := "", greenLumaPath := "") == Models.Defaults
  {
    Models.Defaults.(steamPath := steamPath, greenLumaPath := greenLumaPath)
  }

  /** The configuration directory and its config.json. */
  class ConfigStore {
    var dirExists: bool
    var file: Option<Content>

    /** Without the directory there is no file. */
    predicate Valid()
      reads this
    {
      !dirExists ==> file.None?
    }

    constructor(dirExists: bool, file: Option<Content>)
      requires !dirExists ==> file.None?
      ensures Valid()
      ensures this.dirExists == dirExists && this.file == file
    {
      this.dirExists := dirExists;
      this.file := file;
    }

    /** Save: the directory is created and config.json holds the serialized
        settings. */
    method Save(config: Models.Config)
      modifies this
      ensures dirExists
      ensures file == Some(Document(ConfigJson(config.Data())))
    {
      dirExists := true;
      file := Some(Document(ConfigJson(config.Data())));
    }

    /** CreateDefaultConfig: a new Config with the detected paths, saved. */
    method CreateDefaultConfig(steamPath: string, greenLumaPath: string) returns (config: Models.Config)
      modifies this
      ensures fresh(config)
      ensures config.Data() == Detected(steamPath, greenLumaPath)
      ensures dirExists && file == Some(Document(ConfigJson(config.Data())))
    {
      config := new Models.Config();
      config.steamPath := steamPath;
      config.greenLumaPath := greenLumaPath;
      Save(config);
    }

    /** Load. createFails stands for an exception from creating the directory,
        readFails for one from reading an existing file; either way a new Config
        is returned, and a directory created before the read stays. A missing
        file gives the saved first-start settings with the detected paths; an
        existing file is migrated or deserialized and never written back. */
    method Load(steamPath: string, greenLumaPath: string, createFails: bool, readFails: bool)
      returns (config: Models.Config)
      modifies this
      ensures fresh(config)
      ensures createFails ==> config.Data() == Models.Defaults && dirExists == old(dirExists) && file == old(file)
      ensures !createFails && old(file).None? ==>
        config.Data() == Detected(steamPath, greenLumaPath) && dirExists &&
        file == Some(Document(ConfigJson(Detected(steamPath, greenLumaPath))))
      ensures !createFails && old(file).Some? && readFails ==>
        config.Data() == Models.Defaults && dirExists && file == old(file)
      ensures !createFails && old(file).Some? && !readFails ==>
        config.Data() == LoadedConfig(old(file).value) && dirExists && file == old(file)
    {
      if createFails {
        config := new Models.Config();
        return;
      }
      dirExists := true;
      if file.None? {
        config := CreateDefaultConfig(steamPath, greenLumaPath);
        return;
      }
      if readFails {
        config := new Models.Config();
        return;
      }
      var text := file.value;
      var migrated := MigrateConfig(text);
      config := new Models.Config();
      if migrated.Some? {
        config.Assign(migrated.value);
        return;
      }
      var decoded := DecodeConfig(text);
      if decoded.Some? {
        config.Assign(decoded.value);
      }
    }

    /** WipeData: the configuration directory is deleted with everything in
        it: config.json, the profiles and icons directories, the plugins
        directory and plugins.json. The three stores live inside it, so when it
        is already absent they are absent too, and either way all four are
        empty afterwards. The plug-ins already loaded stay in memory. */
    method WipeData(profiles: Profiles.ProfileStore, icons: IconCache.IconCacheDir, plugins: Plugins.PluginRegistry)
      requires Valid()
      modifies this, profiles, icons, plugins
      ensures !dirExists && file.None?
      ensures !profiles.dirExists && profiles.files == map[] && profiles.Valid()
      ensures !icons.dirExists && icons.files == map[]
      ensures plugins.saved == [] && plugins.files == {}
      ensures plugins.infos == old(plugins.infos) && plugins.loaded == old(plugins.loaded)
    {
      dirExists := false;
      file := None;
      profiles.dirExists := false;
      profiles.files := map[];
      icons.dirExists := false;
      icons.files := map[];
      plugins.saved := [];
      plugins.files := {};
    }
  }
}
