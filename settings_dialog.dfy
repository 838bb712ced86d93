/** SettingsDialog: how the typed paths are normalized and checked, the rule
    tying the auto-update option to the update check, and what OK writes to
    the settings. */
module Settings {
  import opened Text
  import opened Paths
  import Json
  import Models
  import Configuration

  // ---------------------------------------------------------------------------
  // Paths

  /** NormalizePath: null becomes ""; otherwise surrounding whitespace is
      trimmed, then every trailing '\' and '/'. */
  function NormalizePath(path: Option<string>): string {
    match path
    case None => ""
    case Some(p) => TrimEndChars(Trim(p), {'\\', '/'})
  }

  /** The normalized path is the trimmed text with its trailing separators cut
      off: it is a prefix of the trimmed text, only separators follow it
      there, it never ends in a separator and never starts with whitespace. */
  lemma NormalizePathSpec(path: string)
    ensures var r := NormalizePath(Some(path));
      && StartsWith(Trim(path), r)
      && (forall i :: |r| <= i < |Trim(path)| ==> IsDirectorySeparator(Trim(path)[i]))
      && (r == [] || (!IsDirectorySeparator(r[|r| - 1]) && !IsWhiteSpace(r[0])))
      && (r == [] <==> forall i :: 0 <= i < |Trim(path)| ==> IsDirectorySeparator(Trim(path)[i]))
  {
    var t := Trim(path);
    var r := NormalizePath(Some(path));
    assert r == t[..|r|];
    if r != [] {
      assert r[0] == t[0];
    }
    if r != [] {
      assert t[|r| - 1] == r[|r| - 1];
    }
  }

  /** Why ValidatePaths refuses, in the order of its checks. */
  datatype PathError =
    | SteamPathEmpty
    | GreenLumaPathEmpty
    | SteamPathMissing
    | SteamExeMissing(exePath: string)
    | GreenLumaPathMissing(path: string)
    | InjectorMissing(injectorPath: string)

  /** The message box text of each refusal. */
  function PathMessage(e: PathError): string {
    match e
    case SteamPathEmpty => "Steam path cannot be empty."
    case GreenLumaPathEmpty => "GreenLuma path cannot be empty."
    case SteamPathMissing => "Steam path does not exist."
    case SteamExeMissing(p) => "Steam.exe not found at:\n" + p
    case GreenLumaPathMissing(p) => "GreenLuma path does not exist:\n" + p
    case InjectorMissing(p) => "DLLInjector.exe not found at:\n" + p
  }

  /** ValidatePaths: nothing when both paths pass; otherwise the first failing
      check. */
  function ValidatePaths(fs: FileSystem, steamPath: string, greenLumaPath: string): Option<PathError> {
    if IsBlank(steamPath) then Some(SteamPathEmpty)
    else if IsBlank(greenLumaPath) then Some(GreenLumaPathEmpty)
    else if !DirectoryExists(fs, steamPath) then Some(SteamPathMissing)
    else if !FileExists(fs, Combine(steamPath, "Steam.exe")) then Some(SteamExeMissing(Combine(steamPath, "Steam.exe")))
    else if !DirectoryExists(fs, greenLumaPath) then Some(GreenLumaPathMissing(greenLumaPath))
    else if !FileExists(fs, Combine(greenLumaPath, "DLLInjector.exe")) then
      Some(InjectorMissing(Combine(greenLumaPath, "DLLInjector.exe")))
    else None
  }

  /** Both paths pass exactly when neither is blank, both directories exist,
      Steam.exe is in the first and DLLInjector.exe in the second; every
      refusal names the first check that fails, so all earlier checks held. */
  lemma ValidatePathsSpec(fs: FileSystem, steamPath: string, greenLumaPath: string)
    ensures var r := ValidatePaths(fs, steamPath, greenLumaPath);
      && (r.None? <==>
            && !IsBlank(steamPath) && !IsBlank(greenLumaPath)
            && steamPath in fs.dirs && Combine(steamPath, "Steam.exe") in fs.files
            && greenLumaPath in fs.dirs && Combine(greenLumaPath, "DLLInjector.exe") in fs.files)
      && (r == Some(GreenLumaPathEmpty) ==> !IsBlank(steamPath))
      && (r == Some(SteamPathMissing) ==> !IsBlank(steamPath) && !IsBlank(greenLumaPath))
      && (r.Some? && r.value.SteamExeMissing? ==>
            steamPath in fs.dirs && r.value.exePath == Combine(steamPath, "Steam.exe") && r.value.exePath !in fs.files)
      && (r.Some? && r.value.GreenLumaPathMissing? ==>
            Combine(steamPath, "Steam.exe") in fs.files && steamPath in fs.dirs && greenLumaPath !in fs.dirs)
      && (r.Some? && r.value.InjectorMissing? ==>
            greenLumaPath in fs.dirs && Combine(steamPath, "Steam.exe") in fs.files
            && r.value.injectorPath == Combine(greenLumaPath, "DLLInjector.exe"))
  {
  }

  /** Paths that pass validation come from non-blank text and carry no
      trailing separator. */
  lemma AcceptedPathsAreClean(fs: FileSystem, steamText: string, greenLumaText: string)
    requires ValidatePaths(fs, NormalizePath(Some(steamText)), NormalizePath(Some(greenLumaText))).None?
    ensures !IsBlank(steamText) && !IsBlank(greenLumaText)
    ensures var s := NormalizePath(Some(steamText)); s != [] && !IsDirectorySeparator(s[|s| - 1])
    ensures var g := NormalizePath(Some(greenLumaText)); g != [] && !IsDirectorySeparator(g[|g| - 1])
  {
    NormalizePathSpec(steamText);
    NormalizePathSpec(greenLumaText);
  }

  // ---------------------------------------------------------------------------
  // The dialog

  /** The dialog's controls, the settings object it edits and its outcome. */
  class SettingsDialog {
    const config: Models.Config
    /** txtSteamPath.Text and txtGreenLumaPath.Text. */
    var steamText: string
    var greenLumaText: string
    /** The three check boxes (IsChecked.GetValueOrDefault()). */
    var replaceSteamAutostart: bool
    var disableUpdateCheck: bool
    var autoUpdate: bool
    /** chkAutoUpdate.IsEnabled. */
    var autoUpdateEnabled: bool
    var dialogResult: Option<bool>

    /** The auto-update box is enabled exactly when the update check is not
        disabled, and a disabled box is unchecked. */
    predicate Valid()
      reads this
    {
      && autoUpdateEnabled == !disableUpdateCheck
      && (!autoUpdateEnabled ==> !autoUpdate)
    }

    /** The constructor: LoadSettings copies the settings into the controls,
        then UpdateAutoUpdateVisibility applies the rule. */
    constructor(config: Models.Config)
      ensures this.config == config && Valid() && dialogResult.None?
      ensures steamText == config.steamPath && greenLumaText == config.greenLumaPath
      ensures replaceSteamAutostart == config.replaceSteamAutostart
      ensures disableUpdateCheck == config.disableUpdateCheck
      ensures autoUpdate == (config.autoUpdate && !config.disableUpdateCheck)
    {
      this.config := config;
      steamText := config.steamPath;
      greenLumaText := config.greenLumaPath;
      replaceSteamAutostart := config.replaceSteamAutostart;
      disableUpdateCheck := config.disableUpdateCheck;
      autoUpdate := config.autoUpdate;
      dialogResult := None;
      new;
      UpdateAutoUpdateVisibility();
    }

    /** UpdateAutoUpdateVisibility: the auto-update box is enabled exactly when
        the update check is on; when it is off the box is also unchecked. */
    method UpdateAutoUpdateVisibility()
      modifies this
      ensures Valid()
      ensures autoUpdateEnabled == !disableUpdateCheck
      ensures autoUpdate == (old(autoUpdate) && !disableUpdateCheck)
      ensures disableUpdateCheck == old(disableUpdateCheck) && replaceSteamAutostart == old(replaceSteamAutostart)
      ensures steamText == old(steamText) && greenLumaText == old(greenLumaText) && dialogResult == old(dialogResult)
    {
      var isEnabled := !disableUpdateCheck;
      autoUpdateEnabled := isEnabled;
      if !isEnabled {
        autoUpdate := false;
      }
    }

    /** DisableUpdateCheck_Changed, after the box was clicked. */
    method DisableUpdateCheckChanged(checked: bool)
      modifies this
      ensures Valid()
      ensures disableUpdateCheck == checked
      ensures autoUpdate == (old(autoUpdate) && !checked)
      ensures replaceSteamAutostart == old(replaceSteamAutostart)
      ensures steamText == old(steamText) && greenLumaText == old(greenLumaText) && dialogResult == old(dialogResult)
    {
      disableUpdateCheck := checked;
      UpdateAutoUpdateVisibility();
    }

    /** A click on the auto-update box, which only an enabled box receives. */
    method AutoUpdateClicked(checked: bool)
      requires Valid() && autoUpdateEnabled
      modifies this
      ensures Valid() && autoUpdate == checked
      ensures disableUpdateCheck == old(disableUpdateCheck) && replaceSteamAutostart == old(replaceSteamAutostart)
      ensures steamText == old(steamText) && greenLumaText == old(greenLumaText) && dialogResult == old(dialogResult)
    {
      autoUpdate := checked;
    }

    /** Ok_Click: both paths are normalized and validated; on a refusal
        nothing is written and the dialog stays open. Otherwise the two paths
        and the three switches are copied into the settings, the settings are
        saved and the dialog closes with true. */
    method Ok(fs: FileSystem, store: Configuration.ConfigStore) returns (error: Option<PathError>)
      requires Valid() && dialogResult.None?
      modifies config, store, this
      ensures Valid()
      ensures error == ValidatePaths(fs, NormalizePath(Some(old(steamText))), NormalizePath(Some(old(greenLumaText))))
      ensures error.Some? ==>
        && config.Data() == old(config.Data())
        && store.dirExists == old(store.dirExists) && store.file == old(store.file)
        && dialogResult.None?
      ensures error.None? ==>
        && config.Data() == old(config.Data()).(
             steamPath := NormalizePath(Some(old(steamText))),
             greenLumaPath := NormalizePath(Some(old(greenLumaText))),
             replaceSteamAutostart := replaceSteamAutostart,
             disableUpdateCheck := disableUpdateCheck,
             autoUpdate := autoUpdate)
        && store.file == Some(Json.Document(Configuration.ConfigJson(config.Data())))
        && dialogResult == Some(true)
      ensures error.None? ==> !(config.disableUpdateCheck && config.autoUpdate)
      ensures steamText == old(steamText) && greenLumaText == old(greenLumaText)
      ensures replaceSteamAutostart == old(replaceSteamAutostart)
      ensures disableUpdateCheck == old(disableUpdateCheck) && autoUpdate == old(autoUpdate)
    {
      var steamPath := NormalizePath(Some(steamText));
      var greenLumaPath := NormalizePath(Some(greenLumaText));
      error := ValidatePaths(fs, steamPath, greenLumaPath);
      if error.Some? {
        return;
      }
      var updated := config.Data().(
        steamPath := steamPath,
        greenLumaPath := greenLumaPath,
        replaceSteamAutostart := replaceSteamAutostart,
        disableUpdateCheck := disableUpdateCheck,
        autoUpdate := autoUpdate);
      config.Assign(updated);
      store.Save(config);
      dialogResult := Some(true);
    }

    /** Cancel_Click: the dialog closes with false and nothing is written. */
    method Cancel()
      requires dialogResult.None?
      modifies this
      ensures dialogResult == Some(false)
      ensures steamText == old(steamText) && greenLumaText == old(greenLumaText)
      ensures replaceSteamAutostart == old(replaceSteamAutostart)
      ensures disableUpdateCheck == old(disableUpdateCheck) && autoUpdate == old(autoUpdate)
      ensures autoUpdateEnabled == old(autoUpdateEnabled)
    {
      dialogResult := Some(false);
    }
  }
}
