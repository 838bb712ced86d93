/** GreenLumaService: the AppList folder GreenLuma reads its ids from, and the
    rewrite of DLLInjector.ini from the current settings. */
module GreenLuma {
  import opened Text
  import opened Paths
  import Collections
  import opened Models

  // ---------------------------------------------------------------------------
  // The settings dictionary

  /** The keys the injector settings are written under. The dictionary only ever
      receives these ten, so each is a constructor standing for its spelling. */
  datatype Setting =
    | FileToCreate1 | UseFullPathsFromIni | Exe | Dll | CommandLine | WaitForProcessTermination
    | EnableFakeParentProcess | EnableMitigationsOnChildProcess | CreateFiles | FileToCreate2

  /** The key text a setting is written with. */
  function KeyName(k: Setting): string {
    match k
    case FileToCreate1 => "FileToCreate_1"
    case UseFullPathsFromIni => "UseFullPathsFromIni"
    case Exe => "Exe"
    case Dll => "Dll"
    case CommandLine => "CommandLine"
    case WaitForProcessTermination => "WaitForProcessTermination"
    case EnableFakeParentProcess => "EnableFakeParentProcess"
    case EnableMitigationsOnChildProcess => "EnableMitigationsOnChildProcess"
    case CreateFiles => "CreateFiles"
    case FileToCreate2 => "FileToCreate_2"
  }

  /** The entries of the settings dictionary in enumeration order. */
  type Entries = seq<(Setting, string)>

  /** Every key, in the order BuildInjectorSettings first adds them. */
  const AllSettings: seq<Setting> := [FileToCreate1, UseFullPathsFromIni, Exe, Dll, CommandLine,
    WaitForProcessTermination, EnableFakeParentProcess, EnableMitigationsOnChildProcess, CreateFiles, FileToCreate2]

  /** The entries of values for the given keys, in the keys' order. */
  function EntriesOf(keys: seq<Setting>, values: map<Setting, string>): Entries {
    if keys == [] then []
    else (if keys[0] in values then [(keys[0], values[keys[0]])] else []) + EntriesOf(keys[1..], values)
  }

  /** Each entry holds a key's current value, and each listed key that has a
      value has its entry. */
  lemma {:induction false} EntriesOfMeaning(keys: seq<Setting>, values: map<Setting, string>)
    ensures forall e :: e in EntriesOf(keys, values) ==> e.0 in values && values[e.0] == e.1 && e.0 in keys
    ensures forall k :: k in keys && k in values ==> (k, values[k]) in EntriesOf(keys, values)
  {
    if keys != [] {
      EntriesOfMeaning(keys[1..], values);
    }
  }

  /** dict.TryGetValue(key): the value stored under key, if any. */
  function Lookup(values: map<Setting, string>, key: Setting): Option<string> {
    if key in values then Some(values[key]) else None
  }

  /** The settings Dictionary that BuildInjectorSettings fills: its values by
      key. Nothing is ever removed from it, so it enumerates its keys in the
      order they were first added, which is the order of AllSettings. */
  class InjectorSettings {
    var values: map<Setting, string>

    constructor()
      ensures values == map[]
    {
      values := map[];
    }

    function Get(key: Setting): Option<string>
      reads this
    {
      Lookup(values, key)
    }

    predicate ContainsKey(key: Setting)
      reads this
    {
      key in values
    }

    /** The entries in enumeration order. */
    function Entries(): Entries
      reads this
    {
      EntriesOf(AllSettings, values)
    }

    /** dict[key] = value. */
    method Set(key: Setting, value: string)
      modifies this
      ensures values == old(values)[key := value]
    {
      values := values[key := value];
    }

    /** ApplyStealthModeSettings: the values for NoHook, FileToCreate_2 naming
        the stealth-mode file. */
    method ApplyStealthMode()
      modifies this
      ensures values == old(values)[CommandLine := ""][WaitForProcessTermination := " 0"]
                [EnableFakeParentProcess := " 1"][EnableMitigationsOnChildProcess := " 0"]
                [CreateFiles := " 2"][FileToCreate2 := " StealthMode.bin"]
    {
      Set(CommandLine, "");
      Set(WaitForProcessTermination, " 0");
      Set(EnableFakeParentProcess, " 1");
      Set(EnableMitigationsOnChildProcess, " 0");
      Set(CreateFiles, " 2");
      Set(FileToCreate2, " StealthMode.bin");
    }

    /** ApplyNormalModeSettings: the values for a hooked launch; FileToCreate_2
        is set to "" only when it is not there yet. */
    method ApplyNormalMode()
      modifies this
      ensures values == var v := old(values)[CommandLine := " -inhibitbootstrap"][WaitForProcessTermination := " 1"]
                                [EnableFakeParentProcess := " 0"][CreateFiles := " 1"];
                        if FileToCreate2 in old(values) then v else v[FileToCreate2 := ""]
    {
      Set(CommandLine, " -inhibitbootstrap");
      Set(WaitForProcessTermination, " 1");
      Set(EnableFakeParentProcess, " 0");
      Set(CreateFiles, " 1");
      if !ContainsKey(FileToCreate2) {
        Set(FileToCreate2, "");
      }
    }
  }

  /** The values NoHook asks for: no command line, no waiting, a fake parent
      process, no mitigations, and StealthMode.bin as the second file. */
  predicate HasStealthSettings(v: map<Setting, string>) {
    && Lookup(v, CommandLine) == Some("") && Lookup(v, WaitForProcessTermination) == Some(" 0")
    && Lookup(v, EnableFakeParentProcess) == Some(" 1") && Lookup(v, EnableMitigationsOnChildProcess) == Some(" 0")
    && Lookup(v, CreateFiles) == Some(" 2") && Lookup(v, FileToCreate2) == Some(" StealthMode.bin")
  }

  /** The values of a hooked launch: -inhibitbootstrap, waiting for the process,
      no fake parent, one file to create. */
  predicate HasNormalSettings(v: map<Setting, string>) {
    && Lookup(v, CommandLine) == Some(" -inhibitbootstrap") && Lookup(v, WaitForProcessTermination) == Some(" 1")
    && Lookup(v, EnableFakeParentProcess) == Some(" 0") && Lookup(v, CreateFiles) == Some(" 1")
  }

  // ---------------------------------------------------------------------------
  // Building the settings

  /** AreSameDirectory over the full paths Path.GetFullPath gives (None when it
      throws): equal ignoring case once trailing separators are removed. */
  predicate AreSameDirectory(fullPath1: Option<string>, fullPath2: Option<string>) {
    && fullPath1.Some? && fullPath2.Some?
    && EqualsIgnoreCase(TrimEndChars(fullPath1.value, {'\\', '/'}), TrimEndChars(fullPath2.value, {'\\', '/'}))
  }

  predicate IsNullOrWhiteSpace(s: Option<string>) {
    s.None? || IsBlank(s.value)
  }

  /** The injector needs full paths when Steam and GreenLuma live apart or the
      DLL is given by a rooted path. */
  predicate UseSeparatePaths(fullSteam: Option<string>, fullGreenLuma: Option<string>, dllValue: Option<string>) {
    !AreSameDirectory(fullSteam, fullGreenLuma) || (!IsNullOrWhiteSpace(dllValue) && IsPathRooted(dllValue.value))
  }

  function Quoted(s: string): string { " \"" + s + "\"" }

  /** The Exe value: with separate paths the quoted full path of Steam.exe,
      otherwise its bare name. */
  function ExeSetting(config: ConfigData, separate: bool): string {
    if separate then Quoted(Combine(config.steamPath, "Steam.exe")) else " Steam.exe"
  }

  /** The Dll value: none when the ini holds no DLL value; with separate paths a
      rooted value quoted as it is and a relative one quoted under the GreenLuma
      folder; otherwise the value as it is. */
  function DllSetting(config: ConfigData, dllValue: Option<string>, separate: bool): Option<string> {
    if IsNullOrWhiteSpace(dllValue) then None
    else if !separate then Some(" " + dllValue.value)
    else if IsPathRooted(dllValue.value) then Some(Quoted(dllValue.value))
    else Some(Quoted(Combine(config.greenLumaPath, dllValue.value)))
  }

  /** The path settings: UseFullPathsFromIni says whether full paths are used,
      and Exe and Dll hold their values. */
  predicate HasPathSettings(v: map<Setting, string>, config: ConfigData, dllValue: Option<string>, separate: bool) {
    && Lookup(v, UseFullPathsFromIni) == Some(if separate then " 1" else " 0")
    && Lookup(v, Exe) == Some(ExeSetting(config, separate))
    && Lookup(v, Dll) == DllSetting(config, dllValue, separate)
  }

  /** The path settings depend on those three keys only. */
  lemma PathSettingsKept(v: map<Setting, string>, w: map<Setting, string>, config: ConfigData,
                         dllValue: Option<string>, separate: bool)
    requires HasPathSettings(v, config, dllValue, separate)
    requires Lookup(w, UseFullPathsFromIni) == Lookup(v, UseFullPathsFromIni)
    requires Lookup(w, Exe) == Lookup(v, Exe) && Lookup(w, Dll) == Lookup(v, Dll)
    ensures HasPathSettings(w, config, dllValue, separate)
  {
  }

  /** The path part of BuildInjectorSettings, on a dictionary without a DLL
      entry yet. */
  method AddPathSettings(settings: InjectorSettings, config: ConfigData, dllValue: Option<string>, separate: bool)
    requires Dll !in settings.values
    modifies settings
    ensures HasPathSettings(settings.values, config, dllValue, separate)
    ensures forall k :: k != UseFullPathsFromIni && k != Exe && k != Dll ==> Lookup(settings.values, k) == Lookup(old(settings.values), k)
  {
    if separate {
      var steamExePath := Combine(config.steamPath, "Steam.exe");
      settings.Set(UseFullPathsFromIni, " 1");
      settings.Set(Exe, Quoted(steamExePath));
      if !IsNullOrWhiteSpace(dllValue) {
        if IsPathRooted(dllValue.value) {
          settings.Set(Dll, Quoted(dllValue.value));
        } else {
          var fullDllPath := Combine(config.greenLumaPath, dllValue.value);
          settings.Set(Dll, Quoted(fullDllPath));
        }
      }
    } else {
      settings.Set(UseFullPathsFromIni, " 0");
      settings.Set(Exe, " Steam.exe");
      if !IsNullOrWhiteSpace(dllValue) {
        settings.Set(Dll, " " + dllValue.value);
      }
    }
  }

  /** BuildInjectorSettings: whether the injector needs full paths is decided
      first; fullSteam and fullGreenLuma are the full forms of the two
      configured paths. */
  method BuildInjectorSettings(config: ConfigData, dllValue: Option<string>,
                               fullSteam: Option<string>, fullGreenLuma: Option<string>)
      returns (settings: InjectorSettings)
    ensures Lookup(settings.values, FileToCreate1) == Some(" NoQuestion.bin")
    ensures HasPathSettings(settings.values, config, dllValue, UseSeparatePaths(fullSteam, fullGreenLuma, dllValue))
    ensures config.noHook ==> HasStealthSettings(settings.values)
    ensures !config.noHook ==>
      && HasNormalSettings(settings.values)
      && Lookup(settings.values, EnableMitigationsOnChildProcess).None?
      && Lookup(settings.values, FileToCreate2) == Some("")
  {
    var separate := UseSeparatePaths(fullSteam, fullGreenLuma, dllValue);
    settings := BuildSettings(config, dllValue, separate);
  }

  /** The rest of BuildInjectorSettings: FileToCreate_1, the path settings, the
      DLL when one was found, then the stealth or normal values. Under the
      normal values FileToCreate_2 is empty and EnableMitigationsOnChildProcess
      is absent. */
  method BuildSettings(config: ConfigData, dllValue: Option<string>, separate: bool)
      returns (settings: InjectorSettings)
    ensures Lookup(settings.values, FileToCreate1) == Some(" NoQuestion.bin")
    ensures HasPathSettings(settings.values, config, dllValue, separate)
    ensures config.noHook ==> HasStealthSettings(settings.values)
    ensures !config.noHook ==>
      && HasNormalSettings(settings.values)
      && Lookup(settings.values, EnableMitigationsOnChildProcess).None?
      && Lookup(settings.values, FileToCreate2) == Some("")
  {
    settings := new InjectorSettings();
    settings.Set(FileToCreate1, " NoQuestion.bin");
    AddPathSettings(settings, config, dllValue, separate);
    ghost var afterPaths := settings.values;
    assert Lookup(afterPaths, FileToCreate1) == Some(" NoQuestion.bin");
    assert Lookup(afterPaths, EnableMitigationsOnChildProcess).None? && Lookup(afterPaths, FileToCreate2).None?;
    if config.noHook {
      settings.ApplyStealthMode();
      StealthModeEffect(afterPaths);
    } else {
      settings.ApplyNormalMode();
      NormalModeEffect(afterPaths);
    }
    PathSettingsKept(afterPaths, settings.values, config, dllValue, separate);
  }

  /** The stealth values leave FileToCreate_1 and the path settings alone. */
  lemma StealthModeEffect(v: map<Setting, string>)
    ensures var w := v[CommandLine := ""][WaitForProcessTermination := " 0"]
                [EnableFakeParentProcess := " 1"][EnableMitigationsOnChildProcess := " 0"]
                [CreateFiles := " 2"][FileToCreate2 := " StealthMode.bin"];
      && HasStealthSettings(w)
      && Lookup(w, FileToCreate1) == Lookup(v, FileToCreate1)
      && Lookup(w, UseFullPathsFromIni) == Lookup(v, UseFullPathsFromIni)
      && Lookup(w, Exe) == Lookup(v, Exe) && Lookup(w, Dll) == Lookup(v, Dll)
  {
  }

  /** The normal values leave FileToCreate_1, the path settings and the
      mitigation switch alone, and keep FileToCreate_2 if it is there. */
  lemma NormalModeEffect(v: map<Setting, string>)
    ensures var u := v[CommandLine := " -inhibitbootstrap"][WaitForProcessTermination := " 1"]
                      [EnableFakeParentProcess := " 0"][CreateFiles := " 1"];
      var w := if FileToCreate2 in v then u else u[FileToCreate2 := ""];
      && HasNormalSettings(w)
      && Lookup(w, FileToCreate1) == Lookup(v, FileToCreate1)
      && Lookup(w, EnableMitigationsOnChildProcess) == Lookup(v, EnableMitigationsOnChildProcess)
      && (FileToCreate2 !in v ==> Lookup(w, FileToCreate2) == Some(""))
      && Lookup(w, UseFullPathsFromIni) == Lookup(v, UseFullPathsFromIni)
      && Lookup(w, Exe) == Lookup(v, Exe) && Lookup(w, Dll) == Lookup(v, Dll)
  {
  }

  // ---------------------------------------------------------------------------
  // Reading and rewriting DLLInjector.ini

  /** A line whose trimmed form starts with "Dll" in any letter case. */
  predicate IsDllLine(line: string) {
    StartsWithIgnoreCase(Trim(line), "Dll")
  }

  /** The value of a "Dll" line: the text after its first '=', leading
      whitespace removed; nothing when it has no '=' or ends with it. */
  function DllOfLine(line: string): Option<string> {
    var equalsIndex := IndexOf(line, '=');
    if equalsIndex >= 0 && equalsIndex < |line| - 1 then Some(TrimStart(line[equalsIndex + 1..]))
    else None
  }

  /** The DLL value of an ini file: that of its first "Dll" line, nothing when
      there is none; later "Dll" lines are never looked at. */
  function DllValue(lines: seq<string>): Option<string> {
    DllValueFrom(lines, 0)
  }

  /** The DLL value of the lines from position i on. */
  function DllValueFrom(lines: seq<string>, i: nat): Option<string>
    decreases |lines| - i
  {
    if i >= |lines| then None
    else if IsDllLine(lines[i]) then DllOfLine(lines[i])
    else DllValueFrom(lines, i + 1)
  }

  /** A DLL value never starts with whitespace, and it is read from a "Dll" line
      that holds an '='. */
  lemma {:induction false} DllValueMeaning(lines: seq<string>, i: nat)
    ensures DllValueFrom(lines, i).Some? ==> DllValueFrom(lines, i).value == [] || !IsWhiteSpace(DllValueFrom(lines, i).value[0])
    ensures DllValueFrom(lines, i).Some? ==> exists k :: i <= k < |lines| && IsDllLine(lines[k]) && '=' in lines[k]
    decreases |lines| - i
  {
    if i < |lines| {
      if IsDllLine(lines[i]) {
        var line := lines[i];
        var equalsIndex := IndexOf(line, '=');
        if equalsIndex >= 0 && equalsIndex < |line| - 1 {
          var v := TrimStart(line[equalsIndex + 1..]);
          assert v == [] || !IsWhiteSpace(v[0]);
        }
      } else {
        DllValueMeaning(lines, i + 1);
      }
    }
  }

  /** ExtractDllValue: scans for the first "Dll" line and stops there, whether or
      not it holds a value. */
  method ExtractDllValue(lines: seq<string>) returns (r: Option<string>)
    ensures r == DllValue(lines)
  {
    for i := 0 to |lines|
      invariant DllValueFrom(lines, i) == DllValue(lines)
    {
      var trimmed := Trim(lines[i]);
      if StartsWithIgnoreCase(trimmed, "Dll") {
        // The scan stops at the first "Dll" line, with or without a value.
        r := DllOfLine(lines[i]);
        return;
      }
    }
    r := None;
  }

  /** The first setting whose key equals key ignoring case. */
  function FirstMatch(settings: Entries, key: string): Option<(Setting, string)> {
    if settings == [] then None
    else if EqualsIgnoreCase(key, KeyName(settings[0].0)) then Some(settings[0])
    else FirstMatch(settings[1..], key)
  }

  /** A match is an entry whose key equals key ignoring case; there is none
      exactly when no entry's key does. */
  lemma {:induction false} FirstMatchMeaning(settings: Entries, key: string)
    ensures FirstMatch(settings, key).Some? ==>
      FirstMatch(settings, key).value in settings && EqualsIgnoreCase(key, KeyName(FirstMatch(settings, key).value.0))
    ensures FirstMatch(settings, key).None? <==> forall i :: 0 <= i < |settings| ==> !EqualsIgnoreCase(key, KeyName(settings[i].0))
  {
    if settings != [] && !EqualsIgnoreCase(key, KeyName(settings[0].0)) {
      FirstMatchMeaning(settings[1..], key);
      assert forall i :: 1 <= i < |settings| ==> settings[i] == settings[1..][i - 1];
    }
  }

  /** The key of an INI assignment line: the trimmed text before the first '=';
      nothing for a blank line, a '#' comment or a line without '='. */
  function LineKey(line: string): Option<string> {
    var trimmed := Trim(line);
    if !IsBlank(trimmed) && trimmed[0] != '#' && '=' in trimmed then
      Some(Trim(trimmed[..IndexOf(trimmed, '=')]))
    else None
  }

  /** What ApplySettings makes of one line. */
  function ApplyLine(line: string, settings: Entries): string {
    var key := LineKey(line);
    if key.None? then line
    else
      var m := FirstMatch(settings, key.value);
      if m.Some? then KeyName(m.value.0) + "=" + m.value.1 else line
  }

  /** A line that is not an assignment, or whose key matches no setting, is
      copied unchanged; a matching line becomes Key=Value with the setting's own
      spelling of the key. */
  lemma ApplyLineMeaning(line: string, settings: Entries)
    ensures LineKey(line).None? ==> ApplyLine(line, settings) == line
    ensures LineKey(line).Some? && (forall i :: 0 <= i < |settings| ==> !EqualsIgnoreCase(LineKey(line).value, KeyName(settings[i].0)))
            ==> ApplyLine(line, settings) == line
    ensures forall i :: 0 <= i < |settings| && LineKey(line).Some? && EqualsIgnoreCase(LineKey(line).value, KeyName(settings[i].0))
              && (forall j :: 0 <= j < i ==> !EqualsIgnoreCase(LineKey(line).value, KeyName(settings[j].0)))
              ==> ApplyLine(line, settings) == KeyName(settings[i].0) + "=" + settings[i].1
  {
    if LineKey(line).Some? {
      FirstMatchMeaning(settings, LineKey(line).value);
    }
    forall i | 0 <= i < |settings| && LineKey(line).Some? && EqualsIgnoreCase(LineKey(line).value, KeyName(settings[i].0))
               && (forall j :: 0 <= j < i ==> !EqualsIgnoreCase(LineKey(line).value, KeyName(settings[j].0)))
      ensures ApplyLine(line, settings) == KeyName(settings[i].0) + "=" + settings[i].1
    {
      FirstMatchIsFirst(settings, LineKey(line).value, i);
    }
  }

  lemma {:induction false} FirstMatchIsFirst(settings: Entries, key: string, i: nat)
    requires i < |settings| && EqualsIgnoreCase(key, KeyName(settings[i].0))
    requires forall j :: 0 <= j < i ==> !EqualsIgnoreCase(key, KeyName(settings[j].0))
    ensures FirstMatch(settings, key) == Some(settings[i])
  {
    if i > 0 {
      assert forall j :: 0 <= j < i - 1 ==> settings[1..][j] == settings[j + 1];
      FirstMatchIsFirst(settings[1..], key, i - 1);
    }
  }

  /** A line ApplySettings never changes: not an assignment, or an assignment of
      a key that is none of the settings' keys in any letter case. */
  predicate Untouched(line: string) {
    LineKey(line).None? || forall k: Setting :: !EqualsIgnoreCase(LineKey(line).value, KeyName(k))
  }

  lemma UntouchedLine(line: string, settings: Entries)
    requires Untouched(line)
    ensures ApplyLine(line, settings) == line
  {
    if LineKey(line).Some? {
      FirstMatchMeaning(settings, LineKey(line).value);
    }
  }

  /** Every line rewritten by ApplyLine, in order: one output line per input
      line, none dropped, moved or added. */
  function ApplyAll(lines: seq<string>, settings: Entries): seq<string> {
    Collections.MapSeq(lines, line => ApplyLine(line, settings))
  }

  /** ApplySettings: each line rewritten by ApplyLine; no setting is ever
      appended. */
  method ApplySettings(originalLines: seq<string>, settings: Entries) returns (result: seq<string>)
    ensures result == ApplyAll(originalLines, settings)
  {
    result := [];
    for n := 0 to |originalLines|
      invariant result == ApplyAll(originalLines[..n], settings)
    {
      var newLine := ApplyLine(originalLines[n], settings);
      assert originalLines[..n + 1][..n] == originalLines[..n];
      result := result + [newLine];
    }
    assert originalLines[..|originalLines|] == originalLines;
  }

  // ---------------------------------------------------------------------------
  // The GreenLuma folder

  /** The name of the i-th AppList file. */
  function AppListName(i: nat): string {
    NatToString(i) + ".txt"
  }

  /** Different positions get different file names. */
  lemma AppListNamesDiffer(i: nat, j: nat)
    requires i != j
    ensures AppListName(i) != AppListName(j)
  {
    var a, b := NatToString(i), NatToString(j);
    assert DigitsValue(a) != DigitsValue(b);
    assert a != b;
    if |a| != |b| {
      assert |AppListName(i)| != |AppListName(j)|;
    } else {
      assert exists k :: 0 <= k < |a| && a[k] != b[k];
      var k :| 0 <= k < |a| && a[k] != b[k];
      assert AppListName(i)[k] != AppListName(j)[k];
    }
  }

  /** The AppList folder after writing ids: file i.txt holds ids[i]. */
  function AppListFiles(ids: seq<string>): map<string, string>
    decreases |ids|
  {
    if ids == [] then map[]
    else AppListFiles(ids[..|ids| - 1])[AppListName(|ids| - 1) := ids[|ids| - 1]]
  }

  /** Every id has its file, and every file is the file of some id. */
  lemma AppListFilesContents(ids: seq<string>)
    ensures forall i :: 0 <= i < |ids| ==> AppListName(i) in AppListFiles(ids) && AppListFiles(ids)[AppListName(i)] == ids[i]
    ensures forall name :: name in AppListFiles(ids) ==> exists i :: 0 <= i < |ids| && name == AppListName(i)
  {
    AppListFilesHaveIds(ids);
    AppListFilesOnlyIds(ids);
  }

  lemma {:induction false} AppListFilesHaveIds(ids: seq<string>)
    ensures forall i :: 0 <= i < |ids| ==> AppListName(i) in AppListFiles(ids) && AppListFiles(ids)[AppListName(i)] == ids[i]
    decreases |ids|
  {
    if ids != [] {
      var n := |ids| - 1;
      var init := ids[..n];
      AppListFilesHaveIds(init);
      forall i | 0 <= i < |ids|
        ensures AppListName(i) in AppListFiles(ids) && AppListFiles(ids)[AppListName(i)] == ids[i]
      {
        if i < n {
          AppListNamesDiffer(i, n);
          assert init[i] == ids[i];
        }
      }
    }
  }

  lemma {:induction false} AppListFilesOnlyIds(ids: seq<string>)
    ensures forall name :: name in AppListFiles(ids) ==> exists i :: 0 <= i < |ids| && name == AppListName(i)
    decreases |ids|
  {
    if ids != [] {
      var n := |ids| - 1;
      AppListFilesOnlyIds(ids[..n]);
      assert AppListFiles(ids) == AppListFiles(ids[..n])[AppListName(n) := ids[n]];
      forall name | name in AppListFiles(ids)
        ensures exists i :: 0 <= i < |ids| && name == AppListName(i)
      {
        if name != AppListName(n) {
          assert name in AppListFiles(ids[..n]);
          var i :| 0 <= i < n && name == AppListName(i);
        }
      }
    }
  }

  /** The AppIds of a profile's games, each once, in first-occurrence order. */
  function DistinctAppIds(profile: Profile): seq<string> {
    Collections.Distinct(seq(|profile.games|, i requires 0 <= i < |profile.games| => profile.games[i].appId))
  }

  /** The GreenLuma folder at config.GreenLumaPath: whether it exists, its
      AppList sub-folder (file name to text) if there is one, and the lines of
      DLLInjector.ini if there is one. */
  class GreenLumaFolder {
    var folderExists: bool
    var appList: Option<map<string, string>>
    var ini: Option<seq<string>>

    constructor(folderExists: bool, appList: Option<map<string, string>>, ini: Option<seq<string>>)
      ensures this.folderExists == folderExists && this.appList == appList && this.ini == ini
    {
      this.folderExists := folderExists;
      this.appList := appList;
      this.ini := ini;
    }

    /** IsAppListGenerated: a non-blank GreenLuma path whose AppList folder holds
        a .txt file. */
    predicate IsAppListGenerated(config: ConfigData)
      reads this
    {
      && !IsBlank(config.greenLumaPath)
      && appList.Some?
      && exists name :: name in appList.value && EndsWith(ToLower(name), ".txt")
    }

    /** WriteAppListFiles into a freshly recreated AppList folder: file i.txt
        holds the i-th distinct AppId, and there is no other file. */
    method WriteAppListFiles(profile: Profile)
      modifies this
      ensures folderExists == old(folderExists) && ini == old(ini)
      ensures appList == Some(AppListFiles(DistinctAppIds(profile)))
    {
      var appIds := DistinctAppIds(profile);
      var files: map<string, string> := map[];
      for i := 0 to |appIds|
        invariant files == AppListFiles(appIds[..i])
      {
        assert appIds[..i + 1][..i] == appIds[..i];
        files := files[AppListName(i) := appIds[i]];
      }
      assert appIds[..|appIds|] == appIds;
      appList := Some(files);
    }

    /** UpdateInjectorIni: when DLLInjector.ini exists, its DLL value is read,
        the settings are built, and every line is rewritten by ApplySettings:
        the file keeps its length, and a line that is not an assignment or
        whose key is none of the injector's settings stays as it was. */
    method UpdateInjectorIni(config: ConfigData, fullSteam: Option<string>, fullGreenLuma: Option<string>)
      modifies this
      ensures folderExists == old(folderExists) && appList == old(appList)
      ensures old(ini).None? ==> ini.None?
      ensures old(ini).Some? ==> ini.Some? && |ini.value| == |old(ini).value|
      ensures old(ini).Some? ==> forall i :: 0 <= i < |ini.value| && Untouched(old(ini).value[i]) ==>
        ini.value[i] == old(ini).value[i]
    {
      if ini.None? {
        return;
      }
      var lines := ini.value;
      var dllValue := ExtractDllValue(lines);
      var settings := BuildInjectorSettings(config, dllValue, fullSteam, fullGreenLuma);
      var entries := settings.Entries();
      var updated := ApplySettings(lines, entries);
      forall i | 0 <= i < |updated| && Untouched(lines[i])
        ensures updated[i] == lines[i]
      {
        UntouchedLine(lines[i], entries);
      }
      ini := Some(updated);
    }

    /** GenerateAppListAsync: false when the GreenLuma path is blank or missing;
        otherwise the AppList folder is recreated with the profile's ids, the ini
        updated, and true returned. */
    method GenerateAppList(profile: Profile, config: ConfigData,
                           fullSteam: Option<string>, fullGreenLuma: Option<string>)
        returns (ok: bool)
      modifies this
      ensures ok <==> !IsBlank(config.greenLumaPath) && old(folderExists)
      ensures !ok ==> appList == old(appList) && ini == old(ini) && folderExists == old(folderExists)
      ensures ok ==> folderExists && appList == Some(AppListFiles(DistinctAppIds(profile)))
      ensures ok ==> var ids := DistinctAppIds(profile);
        forall i :: 0 <= i < |ids| ==> AppListName(i) in appList.value && appList.value[AppListName(i)] == ids[i]
      ensures ok ==> (old(ini).Some? <==> ini.Some?)
      ensures ok && old(ini).Some? ==> |ini.value| == |old(ini).value|
      ensures ok && old(ini).Some? ==> forall i :: 0 <= i < |ini.value| && Untouched(old(ini).value[i]) ==>
        ini.value[i] == old(ini).value[i]
      ensures ok && profile.games != [] ==> IsAppListGenerated(config)
    {
      if IsBlank(config.greenLumaPath) || !folderExists {
        return false;
      }
      WriteAppListFiles(profile);
      AppListFilesContents(DistinctAppIds(profile));
      if profile.games != [] {
        GeneratedFolderHasTxt(profile);
        var name := AppListName(0);
        assert name in appList.value;
        assert EndsWith(ToLower(name), ".txt") by {
          LowerTxtName(0);
        }
      }
      UpdateInjectorIni(config, fullSteam, fullGreenLuma);
      ok := true;
    }
  }

  /** A profile with games has at least one id to write. */
  lemma GeneratedFolderHasTxt(profile: Profile)
    requires profile.games != []
    ensures |DistinctAppIds(profile)| > 0
  {
    var s := seq(|profile.games|, i requires 0 <= i < |profile.games| => profile.games[i].appId);
    assert s[0] in Collections.Distinct(s);
  }

  /** The AppList file names are already lower case and end in ".txt". */
  lemma LowerTxtName(i: nat)
    ensures EndsWith(ToLower(AppListName(i)), ".txt")
  {
    var n := AppListName(i);
    var d := NatToString(i);
    assert forall k :: 0 <= k < |d| ==> IsDigit(d[k]);
    assert forall k :: 0 <= k < |n| ==> ToLower(n)[k] == n[k] by {
      forall k | 0 <= k < |n|
        ensures ToLower(n)[k] == n[k]
      {
        if k < |d| {
          assert n[k] == d[k];
        }
      }
    }
    assert ToLower(n) == n;
    assert n[|n| - 4..] == ".txt";
  }
}
