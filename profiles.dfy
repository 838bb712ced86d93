/** ProfileService: one JSON file per profile in the profiles directory, named
    after the profile's sanitized name; loading, saving, deleting, import and
    export, and the one-time migration of the RC3 file format. */
module Profiles {
  import opened Text
  import opened Paths
  import opened Json
  import Collections
  import Models

  // ---------------------------------------------------------------------------
  // File names

  /** SanitizeFileName: every invalid file-name character becomes '_'. */
  function SanitizeFileName(name: string): (r: string)
    ensures |r| == |name|
    ensures forall i :: 0 <= i < |name| && IsInvalidFileNameChar(name[i]) ==> r[i] == '_'
    ensures forall i :: 0 <= i < |name| && !IsInvalidFileNameChar(name[i]) ==> r[i] == name[i]
  {
    seq(|name|, i requires 0 <= i < |name| => if IsInvalidFileNameChar(name[i]) then '_' else name[i])
  }

  /** A sanitized name is a valid file name: it holds no invalid character, and
      in particular no separator and no ':'. */
  lemma SanitizedNameIsValid(name: string)
    ensures forall i :: 0 <= i < |SanitizeFileName(name)| ==> !IsInvalidFileNameChar(SanitizeFileName(name)[i])
  {
  }

  /** A name that is already valid is kept as it is, so sanitizing twice is the
      same as sanitizing once. */
  lemma SanitizeKeepsValidNames(name: string)
    ensures (forall i :: 0 <= i < |name| ==> !IsInvalidFileNameChar(name[i])) ==> SanitizeFileName(name) == name
    ensures SanitizeFileName(SanitizeFileName(name)) == SanitizeFileName(name)
  {
    SanitizedNameIsValid(name);
  }

  /** A sanitized name without '_' comes from exactly that name. */
  lemma SanitizedWithoutUnderscore(name: string, s: string)
    requires SanitizeFileName(name) == s
    requires forall i :: 0 <= i < |s| ==> s[i] != '_'
    ensures name == s
  {
    forall i | 0 <= i < |name|
      ensures name[i] == s[i]
    {
      assert s[i] != '_';
    }
  }

  /** GetProfileFilePath: {profiles directory}\{sanitized name}.json. */
  function ProfilePath(dir: string, name: string): string {
    Combine(dir, SanitizeFileName(name) + ".json")
  }

  lemma SanitizedJsonNotRooted(s: string)
    requires forall i :: 0 <= i < |s| ==> !IsInvalidFileNameChar(s[i])
    ensures !IsPathRooted(s + ".json")
  {
    var t := s + ".json";
    if |s| == 0 {
      assert t[0] == '.' && t[1] == 'j';
    } else if |s| == 1 {
      assert t[0] == s[0] && t[1] == '.';
    } else {
      assert t[0] == s[0] && t[1] == s[1];
    }
  }

  /** The file is determined by the sanitized name and determines it: as the
      file system compares names ignoring case, two profile names share a file
      exactly when their sanitized forms are equal ignoring case. */
  lemma SharedFileIff(dir: string, a: string, b: string)
    ensures FileKey(ProfilePath(dir, a)) == FileKey(ProfilePath(dir, b)) <==>
      EqualsIgnoreCase(SanitizeFileName(a), SanitizeFileName(b))
  {
    var sa, sb := SanitizeFileName(a), SanitizeFileName(b);
    var ta, tb := sa + ".json", sb + ".json";
    SanitizedNameIsValid(a);
    SanitizedNameIsValid(b);
    SanitizedJsonNotRooted(sa);
    SanitizedJsonNotRooted(sb);
    CombineRelative(dir, ta);
    CombineRelative(dir, tb);
    var h := CombinePrefix(dir);
    ToUpperAppend(h, ta);
    ToUpperAppend(h, tb);
    ToUpperAppend(sa, ".json");
    ToUpperAppend(sb, ".json");
    var ka, kb := FileKey(ProfilePath(dir, a)), FileKey(ProfilePath(dir, b));
    assert ka == ToUpper(h) + (ToUpper(sa) + ToUpper(".json"));
    assert kb == ToUpper(h) + (ToUpper(sb) + ToUpper(".json"));
    if ka == kb {
      assert ToUpper(sa) == ka[|h|..|h| + |sa|] == kb[|h|..|h| + |sb|] == ToUpper(sb);
    }
  }

  /** A name in another letter case, such as an imported "FOO" beside a saved
      "foo", is stored in the same file. */
  lemma CaseVariantsShareFile(dir: string, a: string, b: string)
    requires EqualsIgnoreCase(a, b)
    ensures FileKey(ProfilePath(dir, a)) == FileKey(ProfilePath(dir, b))
  {
    var sa, sb := SanitizeFileName(a), SanitizeFileName(b);
    forall i | 0 <= i < |sa|
      ensures UpperChar(sa[i]) == UpperChar(sb[i])
    {
      assert UpperChar(a[i]) == UpperChar(b[i]);
    }
    assert ToUpper(sa) == ToUpper(sb);
    SharedFileIff(dir, a, b);
  }

  /** Names that differ only in which invalid characters they hold share one
      file: "a/b" and "a:b" are both stored as a_b.json. */
  lemma NamesDifferingInInvalidCharsShareFile(dir: string, a: string, b: string)
    requires |a| == |b|
    requires forall i :: 0 <= i < |a| ==> a[i] == b[i] || (IsInvalidFileNameChar(a[i]) && IsInvalidFileNameChar(b[i]))
    ensures FileKey(ProfilePath(dir, a)) == FileKey(ProfilePath(dir, b))
  {
    assert SanitizeFileName(a) == SanitizeFileName(b);
  }

  // ---------------------------------------------------------------------------
  // The saved form (DataContractJsonSerializer)

  /** A game as the serializer writes it. */
  function GameJson(g: Models.GameInfo): Json {
    JObj(map["AppId" := JStr(g.appId), "Name" := JStr(g.name), "Type" := JStr(g.typeName), "IconUrl" := JStr(g.iconUrl)])
  }

  /** A profile as the serializer writes it: its members "Name" and "Games". */
  function ProfileJson(p: Models.Profile): Json {
    JObj(map["Name" := JStr(p.name), "Games" := JArr(Collections.MapSeq(p.games, GameJson))])
  }

  /** DeserializeProfile applied to one game object. As with every member the
      serializer reads, an absent or null string member leaves the property
      empty; a member of another type makes the read fail. */
  function DecodeGame(j: Json): Option<Models.GameInfo> {
    match j
    case JObj(f) =>
      var appId, name, typeName, iconUrl := StringMember(f, "AppId"), StringMember(f, "Name"),
        StringMember(f, "Type"), StringMember(f, "IconUrl");
      if appId.Some? && name.Some? && typeName.Some? && iconUrl.Some?
      then Some(Models.GameInfo(appId.value, name.value, typeName.value, iconUrl.value))
      else None
    case _ => None
  }

  /** The games of a "Games" array; nothing when one of them does not decode. */
  function DecodeGames(items: seq<Json>): (r: Option<seq<Models.GameInfo>>)
    ensures r.Some? ==> |r.value| == |items|
  {
    if items == [] then Some([])
    else
      match (DecodeGames(items[..|items| - 1]), DecodeGame(items[|items| - 1]))
      case (Some(gs), Some(g)) => Some(gs + [g])
      case _ => None
  }

  /** DeserializeProfile on a parsed file: a profile when the document is an
      object whose members have the saved types, nothing otherwise. An absent
      or null "Name" leaves the name empty and an absent or null "Games" leaves
      the list empty. */
  function DecodeProfile(j: Json): Option<Models.Profile> {
    match j
    case JObj(f) =>
      var name := StringMember(f, "Name");
      var games :=
        if "Games" !in f || f["Games"].JNull? then Some([])
        else if f["Games"].JArr? then DecodeGames(f["Games"].items)
        else None;
      if name.Some? && games.Some? then Some(Models.Profile(name.value, games.value)) else None
    case _ => None
  }

  /** The read is lenient like the serializer: a game without "IconUrl", or
      with a null one, loads with an empty icon, and a profile holding only its
      name loads with no games. */
  lemma AbsentMembersLoadEmpty(name: string, appId: string, gameName: string, typeName: string)
    ensures DecodeGame(JObj(map["AppId" := JStr(appId), "Name" := JStr(gameName), "Type" := JStr(typeName)]))
      == Some(Models.GameInfo(appId, gameName, typeName, ""))
    ensures DecodeGame(JObj(map["AppId" := JStr(appId), "Name" := JStr(gameName), "Type" := JStr(typeName), "IconUrl" := JNull]))
      == Some(Models.GameInfo(appId, gameName, typeName, ""))
    ensures DecodeProfile(JObj(map["Name" := JStr(name)])) == Some(Models.Profile(name, []))
  {
  }

  lemma GameRoundTrip(g: Models.GameInfo)
    ensures DecodeGame(GameJson(g)) == Some(g)
  {
    var f := GameJson(g).fields;
    assert StringMember(f, "AppId") == Some(g.appId);
    assert StringMember(f, "Name") == Some(g.name);
    assert StringMember(f, "Type") == Some(g.typeName);
    assert StringMember(f, "IconUrl") == Some(g.iconUrl);
  }

  lemma {:induction false} GamesRoundTrip(gs: seq<Models.GameInfo>)
    ensures DecodeGames(Collections.MapSeq(gs, GameJson)) == Some(gs)
  {
    if gs != [] {
      var items := Collections.MapSeq(gs, GameJson);
      var init := gs[..|gs| - 1];
      GamesRoundTrip(init);
      assert items[..|items| - 1] == Collections.MapSeq(init, GameJson);
      GameRoundTrip(gs[|gs| - 1]);
      assert init + [gs[|gs| - 1]] == gs;
    }
  }

  /** Reading back what was saved yields the same profile. */
  lemma ProfileRoundTrip(p: Models.Profile)
    ensures DecodeProfile(ProfileJson(p)) == Some(p)
  {
    var f := ProfileJson(p).fields;
    assert StringMember(f, "Name") == Some(p.name);
    GamesRoundTrip(p.games);
  }

  /** DeserializeProfile(File.ReadAllText(file)), with a failure as nothing. */
  function Read(c: Content): Option<Models.Profile> {
    match c
    case Document(doc) => DecodeProfile(doc)
    case Malformed => None
  }

  /** Export: the text written to the destination is the saved form, so Import
      of the exported file gives back the profile. */
  function Export(p: Models.Profile): (r: Content)
    ensures Import(Some(r)) == Some(p)
  {
    ProfileRoundTrip(p);
    Document(ProfileJson(p))
  }

  /** Import: the profile in the source file; nothing when the file is missing
      (None) or does not deserialize. */
  function Import(source: Option<Content>): (r: Option<Models.Profile>)
    ensures source.None? ==> r.None?
    ensures source == Some(Malformed) ==> r.None?
  {
    match source
    case None => None
    case Some(c) => Read(c)
  }

  // ---------------------------------------------------------------------------
  // The directory as a map from file key (the path folded to upper case, see
  // FileKey) to content

  /** Save: the profile's file holds its saved form; nothing else changes. */
  function SaveTo(files: map<string, Content>, dir: string, p: Models.Profile): map<string, Content> {
    files[FileKey(ProfilePath(dir, p.name)) := Document(ProfileJson(p))]
  }

  /** Load: the profile in the named profile's file, or nothing when there is
      no such file or it does not deserialize. */
  function LoadFrom(files: map<string, Content>, dir: string, name: string): Option<Models.Profile> {
    var key := FileKey(ProfilePath(dir, name));
    if key in files then Read(files[key]) else None
  }

  /** Delete: nothing for "default" in any letter case; otherwise the named
      profile's file is removed if it exists. */
  function DeleteFrom(files: map<string, Content>, dir: string, name: string): map<string, Content> {
    if EqualsIgnoreCase(name, "default") then files else files - {FileKey(ProfilePath(dir, name))}
  }

  /** After a save, loading the same name gives back the saved profile. */
  lemma LoadAfterSave(files: map<string, Content>, dir: string, p: Models.Profile)
    ensures LoadFrom(SaveTo(files, dir, p), dir, p.name) == Some(p)
  {
    ProfileRoundTrip(p);
  }

  /** Saving one profile leaves the load of every name with another file as it
      was; a name sharing the file loads the saved profile. */
  lemma SaveAffectsOnlyItsFile(files: map<string, Content>, dir: string, p: Models.Profile, name: string)
    ensures !EqualsIgnoreCase(SanitizeFileName(name), SanitizeFileName(p.name)) ==>
      LoadFrom(SaveTo(files, dir, p), dir, name) == LoadFrom(files, dir, name)
    ensures EqualsIgnoreCase(SanitizeFileName(name), SanitizeFileName(p.name)) ==>
      LoadFrom(SaveTo(files, dir, p), dir, name) == Some(p)
  {
    SharedFileIff(dir, name, p.name);
    ProfileRoundTrip(p);
  }

  /** A deleted profile no longer loads, unless it is the default profile. */
  lemma LoadAfterDelete(files: map<string, Content>, dir: string, name: string)
    ensures !EqualsIgnoreCase(name, "default") ==> LoadFrom(DeleteFrom(files, dir, name), dir, name).None?
    ensures EqualsIgnoreCase(name, "default") ==> DeleteFrom(files, dir, name) == files
  {
  }

  lemma SanitizedDefault()
    ensures SanitizeFileName("default") == "default"
    ensures forall i :: 0 <= i < |"default"| ==> "default"[i] != '_'
  {
    SanitizeKeepsValidNames("default");
  }

  /** No delete, whatever the name, removes the default profile's file. */
  lemma DeleteKeepsDefault(files: map<string, Content>, dir: string, name: string)
    ensures LoadFrom(DeleteFrom(files, dir, name), dir, "default") == LoadFrom(files, dir, "default")
  {
    if FileKey(ProfilePath(dir, name)) == FileKey(ProfilePath(dir, "default")) {
      SharedFileIff(dir, name, "default");
      SanitizedDefault();
      var s := SanitizeFileName(name);
      assert ToUpper(s) == ToUpper("default");
      forall i | 0 <= i < |s|
        ensures s[i] != '_'
      {
        assert UpperChar(s[i]) == ToUpper("default")[i] != '_';
      }
      SanitizedWithoutUnderscore(name, s);
    }
  }

  // ---------------------------------------------------------------------------
  // The RC3 format

  /** One RC3 game object: AppId from "id", Name from "name", Type from "type"
      defaulting to "Game"; a missing "id" or "name" gives "". */
  function MigrateGame(fields: map<string, Json>): Models.GameInfo {
    Models.GameInfo(TextOr(Get(fields, "id"), ""), TextOr(Get(fields, "name"), ""), TextOr(Get(fields, "type"), "Game"), "")
  }

  /** The games of an RC3 "games" array, in order, without those whose AppId is
      empty; nothing when one entry is not an object (indexing it throws). */
  function MigrateGames(items: seq<Json>): Option<seq<Models.GameInfo>> {
    if items == [] then Some([])
    else
      var last := items[|items| - 1];
      match MigrateGames(items[..|items| - 1])
      case None => None
      case Some(gs) =>
        if !last.JObj? then None
        else if MigrateGame(last.fields).appId == [] then Some(gs)
        else Some(gs + [MigrateGame(last.fields)])
  }

  /** The RC3 profile of a parsed file: skipped unless the document is an
      object whose "games" is a non-empty array whose first entry is an object
      with an "id" property; the name defaults to "default". */
  function MigrateDocument(doc: Json): Option<Models.Profile> {
    if !doc.JObj? then None
    else
      var games := Get(doc.fields, "games");
      if games.None? || !games.value.JArr? then None
      else
        var items := games.value.items;
        if items == [] || !items[0].JObj? || Get(items[0].fields, "id").None? then None
        else
          match MigrateGames(items)
          case Some(gs) => Some(Models.Profile(TextOr(Get(doc.fields, "name"), "default"), gs))
          case None => None
  }

  /** The games convert exactly when every entry is an object. */
  lemma {:induction false} MigrateGamesConverts(items: seq<Json>)
    ensures MigrateGames(items).Some? <==> forall i :: 0 <= i < |items| ==> items[i].JObj?
  {
    if items != [] {
      var init := items[..|items| - 1];
      MigrateGamesConverts(init);
      assert forall i :: 0 <= i < |init| ==> init[i] == items[i];
    }
  }

  /** Some entry of items is an object that converts to g, and g's AppId is
      not empty. */
  ghost predicate Kept(items: seq<Json>, g: Models.GameInfo) {
    exists i :: 0 <= i < |items| && items[i].JObj? && g == MigrateGame(items[i].fields) && g.appId != []
  }

  lemma KeptSplit(items: seq<Json>, g: Models.GameInfo)
    requires items != []
    ensures Kept(items, g) <==>
      Kept(items[..|items| - 1], g) ||
      (items[|items| - 1].JObj? && g == MigrateGame(items[|items| - 1].fields) && g.appId != [])
  {
    var init := items[..|items| - 1];
    if Kept(items, g) {
      var i :| 0 <= i < |items| && items[i].JObj? && g == MigrateGame(items[i].fields) && g.appId != [];
      if i < |init| {
        assert init[i] == items[i];
      }
    }
    if Kept(init, g) {
      var i :| 0 <= i < |init| && init[i].JObj? && g == MigrateGame(init[i].fields) && g.appId != [];
      assert items[i] == init[i];
    }
  }

  /** The converted games are exactly the converted entries with a non-empty
      AppId, and each has an empty IconUrl. */
  lemma {:induction false} MigratedGamesContent(items: seq<Json>, gs: seq<Models.GameInfo>)
    requires MigrateGames(items) == Some(gs)
    ensures forall g :: g in gs <==> Kept(items, g)
    ensures forall g :: g in gs ==> g.appId != [] && g.iconUrl == []
  {
    if items != [] {
      var init := items[..|items| - 1];
      MigratedGamesContent(init, MigrateGames(init).value);
      forall g
        ensures g in gs <==> Kept(items, g)
      {
        KeptSplit(items, g);
      }
    }
  }

  /** A file is migrated exactly when it is an object whose "games" is a
      non-empty array of objects, the first of them with an "id". */
  lemma MigrationCondition(doc: Json)
    ensures MigrateDocument(doc).Some? <==>
      && doc.JObj? && "games" in doc.fields && doc.fields["games"].JArr?
      && |doc.fields["games"].items| > 0
      && doc.fields["games"].items[0].JObj? && "id" in doc.fields["games"].items[0].fields
      && forall i :: 0 <= i < |doc.fields["games"].items| ==> doc.fields["games"].items[i].JObj?
  {
    if doc.JObj? && "games" in doc.fields && doc.fields["games"].JArr? {
      MigrateGamesConverts(doc.fields["games"].items);
    }
  }

  /** A migrated profile is named after "name", or "default" without it; its
      games have a type from "type", or "Game" without it. */
  lemma MigrationDefaults(doc: Json, p: Models.Profile)
    requires MigrateDocument(doc) == Some(p)
    ensures "name" !in doc.fields ==> p.name == "default"
    ensures "name" in doc.fields ==> p.name == ToText(doc.fields["name"])
    ensures forall g :: g in p.games ==> g.appId != []
    ensures forall g :: g in p.games ==>
      exists j :: (j in doc.fields["games"].items && j.JObj? &&
        g.typeName == (if "type" in j.fields then ToText(j.fields["type"]) else "Game"))
  {
    var items := doc.fields["games"].items;
    MigratedGamesContent(items, p.games);
    forall g | g in p.games
      ensures exists j :: (j in items && j.JObj? &&
        g.typeName == (if "type" in j.fields then ToText(j.fields["type"]) else "Game"))
    {
      var i :| 0 <= i < |items| && items[i].JObj? && g == MigrateGame(items[i].fields) && g.appId != [];
      assert items[i] in items;
    }
  }

  /** A file in the saved form has "Games", not "games", and is never
      migrated. */
  lemma SavedProfilesAreNotMigrated(p: Models.Profile)
    ensures MigrateDocument(ProfileJson(p)).None?
  {
    assert "games" != "Games" by { assert "games"[0] != "Games"[0]; }
    assert "games" != "Name";
    assert "games" !in ProfileJson(p).fields;
  }

  /** One step of TryMigrateProfilesFromRC3: a file that migrates is saved
      under its profile's name; any other file is skipped. */
  function MigrateFile(files: map<string, Content>, dir: string, f: string): map<string, Content> {
    if f in files && files[f].Document? then
      match MigrateDocument(files[f].doc)
      case Some(p) => SaveTo(files, dir, p)
      case None => files
    else files
  }

  /** The files of the directory after migrating the listed files in order. */
  function MigrateAll(files: map<string, Content>, dir: string, listing: seq<string>): map<string, Content>
    decreases |listing|
  {
    if listing == [] then files else MigrateAll(MigrateFile(files, dir, listing[0]), dir, listing[1..])
  }

  /** Migration removes no file, and every file it writes holds a profile that
      loads. */
  lemma {:induction false} MigrationOnlyWritesProfiles(files: map<string, Content>, dir: string, listing: seq<string>)
    ensures files.Keys <= MigrateAll(files, dir, listing).Keys
    ensures forall k :: k in MigrateAll(files, dir, listing) && (k !in files || MigrateAll(files, dir, listing)[k] != files[k]) ==>
      Read(MigrateAll(files, dir, listing)[k]).Some?
    decreases |listing|
  {
    if listing != [] {
      var next := MigrateFile(files, dir, listing[0]);
      MigrationOnlyWritesProfiles(next, dir, listing[1..]);
      var f := listing[0];
      if f in files && files[f].Document? && MigrateDocument(files[f].doc).Some? {
        ProfileRoundTrip(MigrateDocument(files[f].doc).value);
      }
    }
  }

  /** A directory in which no listed file migrates is left as it is; with
      SavedProfilesAreNotMigrated, this covers a directory of saved profiles. */
  lemma {:induction false} NothingToMigrate(files: map<string, Content>, dir: string, listing: seq<string>)
    requires forall f :: f in listing && f in files && files[f].Document? ==> MigrateDocument(files[f].doc).None?
    ensures MigrateAll(files, dir, listing) == files
    decreases |listing|
  {
    if listing != [] {
      assert MigrateFile(files, dir, listing[0]) == files;
      NothingToMigrate(files, dir, listing[1..]);
    }
  }

  // ---------------------------------------------------------------------------
  // Loading the directory

  /** The profiles LoadProfilesFromDirectory collects from the listed files, in
      listing order, skipping those that do not deserialize. */
  function LoadedFrom(files: map<string, Content>, listing: seq<string>): seq<Models.Profile> {
    if listing == [] then []
    else
      var f := listing[|listing| - 1];
      var rest := LoadedFrom(files, listing[..|listing| - 1]);
      if f in files && Read(files[f]).Some? then rest + [Read(files[f]).value] else rest
  }

  /** A profile is loaded exactly when some listed file deserializes to it. */
  lemma {:induction false} LoadedFromMembers(files: map<string, Content>, listing: seq<string>, p: Models.Profile)
    ensures p in LoadedFrom(files, listing) <==>
      exists f :: f in listing && f in files && Read(files[f]) == Some(p)
  {
    if listing != [] {
      var init := listing[..|listing| - 1];
      var last := listing[|listing| - 1];
      LoadedFromMembers(files, init, p);
      if exists f :: f in listing && f in files && Read(files[f]) == Some(p) {
        var f :| f in listing && f in files && Read(files[f]) == Some(p);
        if f != last {
          assert f in init by {
            var i :| 0 <= i < |listing| && listing[i] == f;
            assert init[i] == f;
          }
        }
      }
    }
  }

  /** Nothing is loaded exactly when no listed file deserializes. */
  lemma LoadedFromEmpty(files: map<string, Content>, listing: seq<string>)
    ensures LoadedFrom(files, listing) == [] <==>
      forall f :: f in listing && f in files ==> Read(files[f]).None?
  {
    var loaded := LoadedFrom(files, listing);
    if loaded != [] {
      LoadedFromMembers(files, listing, loaded[0]);
    }
    forall f | f in listing && f in files && Read(files[f]).Some?
      ensures loaded != []
    {
      LoadedFromMembers(files, listing, Read(files[f]).value);
    }
  }

  /** Directory.GetFiles(dir, "*.json"): the extension is matched ignoring
      case. */
  predicate IsJsonFile(path: string) {
    EndsWith(ToLower(path), ".json")
  }

  function JsonFiles(files: map<string, Content>): set<string> {
    set f | f in files && IsJsonFile(f)
  }

  /** A directory listing: every file of the set once, in some order the file
      system chooses. */
  ghost predicate Enumerates(list: set<string> -> seq<string>) {
    forall s: set<string> :: Collections.NoDuplicates(list(s)) && forall f :: f in list(s) <==> f in s
  }

  /** The profile LoadAll creates when no file loads. */
  const DefaultProfile := Models.Profile("default", [])

  /** The profiles directory of one user. */
  class ProfileStore {
    const dir: string
    var dirExists: bool
    /** The files of the directory, by FileKey of their paths. */
    var files: map<string, Content>

    /** A directory that does not exist holds no file. */
    predicate Valid()
      reads this
    {
      !dirExists ==> files == map[]
    }

    constructor(dir: string, dirExists: bool, files: map<string, Content>)
      requires !dirExists ==> files == map[]
      ensures Valid()
      ensures this.dir == dir && this.dirExists == dirExists && this.files == files
    {
      this.dir := dir;
      this.dirExists := dirExists;
      this.files := files;
    }

    /** EnsureProfilesDirectoryExists. */
    method EnsureDirectory()
      modifies this
      ensures dirExists && files == old(files)
    {
      if !dirExists {
        dirExists := true;
      }
    }

    /** Save: the directory is created and the profile's file written. */
    method Save(p: Models.Profile)
      modifies this
      ensures dirExists
      ensures files == SaveTo(old(files), dir, p)
    {
      EnsureDirectory();
      files := files[FileKey(ProfilePath(dir, p.name)) := Document(ProfileJson(p))];
    }

    /** Load: the profile in the named profile's file, if it exists and
        deserializes. */
    method Load(name: string) returns (r: Option<Models.Profile>)
      ensures r == LoadFrom(files, dir, name)
      ensures r.Some? ==> FileKey(ProfilePath(dir, name)) in files
    {
      var path := FileKey(ProfilePath(dir, name));
      if path !in files {
        return None;
      }
      r := Read(files[path]);
    }

    /** Delete: the default profile, in any letter case, is never deleted. */
    method Delete(name: string)
      modifies this
      ensures dirExists == old(dirExists)
      ensures files == DeleteFrom(old(files), dir, name)
      ensures EqualsIgnoreCase(name, "default") ==> files == old(files)
    {
      if EqualsIgnoreCase(name, "default") {
        return;
      }
      var path := FileKey(ProfilePath(dir, name));
      if path in files {
        files := files - {path};
      }
    }

    /** TryMigrateProfilesFromRC3: each *.json file listed when it starts is
        read as it is at that moment and, when it is in the RC3 format, saved
        again under its profile's name. */
    method TryMigrateProfilesFromRC3(list: set<string> -> seq<string>)
      modifies this
      ensures dirExists == old(dirExists)
      ensures !old(dirExists) ==> files == old(files)
      ensures old(dirExists) ==> files == MigrateAll(old(files), dir, list(JsonFiles(old(files))))
    {
      if !dirExists {
        return;
      }
      var listing := list(JsonFiles(files));
      for i := 0 to |listing|
        invariant dirExists
        invariant MigrateAll(old(files), dir, listing) == MigrateAll(files, dir, listing[i..])
      {
        assert listing[i..][1..] == listing[i + 1..];
        var file := listing[i];
        if file in files && files[file].Document? {
          var profile := MigrateDocument(files[file].doc);
          if profile.Some? {
            Save(profile.value);
          }
        }
      }
    }

    /** LoadProfilesFromDirectory: the profiles of the listed *.json files that
        deserialize, in listing order. */
    method LoadProfilesFromDirectory(list: set<string> -> seq<string>) returns (profiles: seq<Models.Profile>)
      ensures profiles == LoadedFrom(files, list(JsonFiles(files)))
    {
      var listing := list(JsonFiles(files));
      profiles := [];
      for i := 0 to |listing|
        invariant profiles == LoadedFrom(files, listing[..i])
      {
        assert listing[..i + 1][..i] == listing[..i];
        var file := listing[i];
        if file in files {
          var profile := Read(files[file]);
          if profile.Some? {
            profiles := profiles + [profile.value];
          }
        }
      }
      assert listing[..|listing|] == listing;
    }

    /** LoadAll: the directory is created, RC3 files are migrated and every
        profile file is loaded; when none loads, a "default" profile is saved
        and returned alone. The result is never empty. */
    method LoadAll(list: set<string> -> seq<string>) returns (profiles: seq<Models.Profile>)
      requires Valid() && Enumerates(list)
      modifies this
      ensures dirExists && |profiles| >= 1
      ensures var migrated := MigrateAll(old(files), dir, list(JsonFiles(old(files))));
        var loaded := LoadedFrom(migrated, list(JsonFiles(migrated)));
        && (loaded == [] ==> profiles == [DefaultProfile] && files == SaveTo(migrated, dir, DefaultProfile))
        && (loaded != [] ==> profiles == loaded && files == migrated)
    {
      EnsureDirectory();
      TryMigrateProfilesFromRC3(list);
      profiles := LoadProfilesFromDirectory(list);
      if |profiles| == 0 {
        Save(DefaultProfile);
        profiles := [DefaultProfile];
      }
    }
  }
}
