/** The list logic of the main window: the search-query check, the loading
    dots, the profile list with its "__empty__" placeholder, and the game list
    of the current profile. */
module Window {
  import opened Text
  import Collections
  import Models
  import Profiles
  import ProfileDialog

  // ---------------------------------------------------------------------------
  // Search query

  /** Why a search query is refused, in the order the checks run. */
  datatype QueryError = BlankQuery | QueryTooShort | QueryTooLong

  /** ValidateSearchQuery: nothing when the query is accepted; otherwise the
      first failing check. */
  function CheckSearchQuery(query: string): Option<QueryError> {
    if IsBlank(query) then Some(BlankQuery)
    else if |query| < 3 then Some(QueryTooShort)
    else if |query| > 200 then Some(QueryTooLong)
    else None
  }

  /** The toast each refusal shows. */
  function QueryMessage(e: QueryError): string {
    match e
    case BlankQuery => "Enter a search term"
    case QueryTooShort => "Search term must be at least 3 characters"
    case QueryTooLong => "Search term is too long (max 200 characters)"
  }

  /** A query is searched exactly when it is not blank and has 3 to 200
      characters; a blank query is reported as blank whatever its length. */
  lemma SearchQuerySpec(query: string)
    ensures CheckSearchQuery(query).None? <==> !IsBlank(query) && 3 <= |query| <= 200
    ensures IsBlank(query) ==> CheckSearchQuery(query) == Some(BlankQuery)
    ensures CheckSearchQuery(query) == Some(QueryTooShort) ==> |query| < 3
    ensures CheckSearchQuery(query) == Some(QueryTooLong) ==> |query| > 200
  {
  }

  // ---------------------------------------------------------------------------
  // Loading dots

  /** LoadingDotsTimer_Tick: three or more characters restart at ".", anything
      shorter gets one more dot. */
  function NextDots(text: string): string {
    if |text| >= 3 then "." else text + "."
  }

  predicate AllDots(text: string) {
    forall i :: 0 <= i < |text| ==> text[i] == '.'
  }

  /** From any text the dots have 1 to 3 characters after one tick, stay dots,
      and cycle "." to ".." to "..." to ".". */
  lemma DotsCycle(text: string)
    ensures 1 <= |NextDots(text)| <= 3
    ensures AllDots(text) ==> AllDots(NextDots(text))
    ensures NextDots(".") == ".." && NextDots("..") == "..." && NextDots("...") == "."
  {
    assert NextDots(".") == "..";
    assert NextDots("..") == "...";
  }

  // ---------------------------------------------------------------------------
  // Profile names

  /** The placeholder entry that keeps the profile box from holding a single
      item. */
  const EmptySentinel := "__empty__"

  /** MainWindow.ValidateProfileName, applied to an imported profile: blank or
      longer than 50 is refused, then invalid file-name characters, '/' or
      '\'. */
  predicate ImportedNameAccepted(name: string) {
    !(IsBlank(name) || |name| > 50) && !ProfileDialog.ContainsInvalidCharacters(name)
  }

  /** The import check accepts exactly the names the create-profile dialog
      accepts. */
  lemma ImportCheckAgreesWithDialog(name: string)
    ensures ImportedNameAccepted(name) <==> ProfileDialog.CheckProfileName(name).None?
  {
  }

  /** The names LoadProfiles adds, in load order: every profile name except
      "__empty__". */
  function RealNames(loaded: seq<Models.Profile>): seq<string> {
    if loaded == [] then []
    else
      var rest := RealNames(loaded[..|loaded| - 1]);
      var name := loaded[|loaded| - 1].name;
      if name != EmptySentinel then rest + [name] else rest
  }

  lemma {:induction false} RealNamesMembers(loaded: seq<Models.Profile>)
    ensures EmptySentinel !in RealNames(loaded)
    ensures forall n :: n in RealNames(loaded) ==> exists i :: 0 <= i < |loaded| && loaded[i].name == n
  {
    if loaded != [] {
      var init := loaded[..|loaded| - 1];
      RealNamesMembers(init);
      forall n | n in RealNames(loaded)
        ensures exists i :: 0 <= i < |loaded| && loaded[i].name == n
      {
        if n in RealNames(init) {
          var i :| 0 <= i < |init| && init[i].name == n;
          assert loaded[i] == init[i];
        } else {
          assert loaded[|loaded| - 1].name == n;
        }
      }
    }
  }

  /** The names listed before the placeholder rule: the real names, or
      "default" when there are none. */
  function BaseNames(loaded: seq<Models.Profile>): seq<string> {
    if RealNames(loaded) == [] then ["default"] else RealNames(loaded)
  }

  /** The profile box after LoadProfiles. */
  function ListedProfiles(loaded: seq<Models.Profile>): seq<string> {
    if |BaseNames(loaded)| == 1 then BaseNames(loaded) + [EmptySentinel] else BaseNames(loaded)
  }

  /** The box always holds at least two entries; the placeholder is there
      exactly when at most one real profile loaded, and then once, as the last
      entry, after "default" if nothing loaded. */
  lemma ListedProfilesShape(loaded: seq<Models.Profile>)
    ensures |ListedProfiles(loaded)| >= 2
    ensures EmptySentinel in ListedProfiles(loaded) <==> |RealNames(loaded)| <= 1
    ensures |RealNames(loaded)| <= 1 ==>
      ListedProfiles(loaded) == BaseNames(loaded) + [EmptySentinel] && EmptySentinel !in BaseNames(loaded)
    ensures RealNames(loaded) == [] ==> ListedProfiles(loaded) == ["default", EmptySentinel]
  {
    RealNamesMembers(loaded);
  }

  /** No two names in the box are equal ignoring case. */
  predicate DistinctIgnoreCase(names: seq<string>) {
    forall i, j :: 0 <= i < j < |names| ==> !EqualsIgnoreCase(names[i], names[j])
  }

  /** Some name in the box equals name ignoring case. */
  predicate ListedIgnoreCase(names: seq<string>, name: string) {
    exists i :: 0 <= i < |names| && EqualsIgnoreCase(names[i], name)
  }

  /** Taking one entry out keeps the names distinct. */
  lemma DistinctWithout(names: seq<string>, k: nat)
    requires k < |names| && DistinctIgnoreCase(names)
    ensures DistinctIgnoreCase(names[..k] + names[k + 1..])
    ensures forall n :: ListedIgnoreCase(names[..k] + names[k + 1..], n) ==> ListedIgnoreCase(names, n)
  {
    var r := names[..k] + names[k + 1..];
    assert forall i :: 0 <= i < |r| ==> r[i] == names[if i < k then i else i + 1];
    forall n | ListedIgnoreCase(r, n)
      ensures ListedIgnoreCase(names, n)
    {
      var i :| 0 <= i < |r| && EqualsIgnoreCase(r[i], n);
      var j := if i < k then i else i + 1;
      assert names[j] == r[i];
    }
  }

  /** Removing the placeholder and appending a name listed in no letter case
      keeps the names distinct. */
  lemma AddKeepsDistinct(names: seq<string>, name: string)
    requires DistinctIgnoreCase(names) && !ListedIgnoreCase(names, name)
    ensures DistinctIgnoreCase(Collections.RemoveFirst(names, EmptySentinel) + [name])
  {
    var r := Collections.RemoveFirst(names, EmptySentinel);
    if EmptySentinel in names {
      Collections.RemoveFirstAt(names, EmptySentinel);
      DistinctWithout(names, Collections.FirstIndex(names, EmptySentinel));
    } else {
      Collections.RemoveFirstCounts(names, EmptySentinel);
    }
    assert !ListedIgnoreCase(r, name);
    var t := r + [name];
    forall i, j | 0 <= i < j < |t|
      ensures !EqualsIgnoreCase(t[i], t[j])
    {
      if j == |r| {
        assert t[i] == r[i];
        assert !EqualsIgnoreCase(r[i], name);
      } else {
        assert t[i] == r[i] && t[j] == r[j];
      }
    }
  }

  // ---------------------------------------------------------------------------
  // Games

  /** Some game in the list has the AppId. */
  predicate Listed(games: seq<Models.Game>, appId: string) {
    exists i :: 0 <= i < |games| && games[i].appId == appId
  }

  /** No two games in the list share an AppId. */
  predicate UniqueAppIds(games: seq<Models.Game>) {
    forall i, j :: 0 <= i < j < |games| ==> games[i].appId != games[j].appId
  }

  /** The first game with the AppId (FirstOrDefault), or -1. */
  function FirstWithAppId(games: seq<Models.Game>, appId: string): (k: int)
    ensures -1 <= k < |games|
    ensures k >= 0 ==> games[k].appId == appId && forall i :: 0 <= i < k ==> games[i].appId != appId
    ensures k < 0 ==> !Listed(games, appId)
  {
    if games == [] then -1
    else
      var k := FirstWithAppId(games[..|games| - 1], appId);
      if k >= 0 then k
      else if games[|games| - 1].appId == appId then |games| - 1
      else -1
  }

  /** The game list with the first game of the AppId taken out keeps unique
      AppIds, and then no game with that AppId is left. */
  lemma RemovedGameIsGone(games: seq<Models.Game>, k: nat)
    requires k < |games| && UniqueAppIds(games)
    ensures UniqueAppIds(games[..k] + games[k + 1..])
    ensures !Listed(games[..k] + games[k + 1..], games[k].appId)
  {
    var r := games[..k] + games[k + 1..];
    assert forall i :: 0 <= i < |r| ==> r[i] == games[if i < k then i else i + 1];
  }

  /** The main window's lists. */
  class MainWindow {
    /** _profiles, the items of the profile box. */
    var profiles: seq<string>
    /** The profile box's selected item. */
    var selected: Option<string>
    /** The name of _currentProfile. */
    var current: Option<string>
    /** _games, the current profile's games. */
    var games: seq<Models.Game>
    /** txtLoadingDots.Text. */
    var dots: string

    constructor()
      ensures profiles == [] && selected.None? && current.None? && games == [] && dots == ""
    {
      profiles := [];
      selected := None;
      current := None;
      games := [];
      dots := "";
    }

    /** LoadingDotsTimer_Tick. */
    method LoadingDotsTick()
      modifies this
      ensures dots == NextDots(old(dots))
      ensures profiles == old(profiles) && selected == old(selected) && games == old(games)
    {
      dots := if |dots| >= 3 then "." else dots + ".";
    }

    /** LoadProfiles: the box is refilled from the loaded profiles; the last
        profile is selected if it is listed, the first entry otherwise; the
        placeholder is added when only one entry is listed. */
    method LoadProfiles(loaded: seq<Models.Profile>, lastProfile: string)
      modifies this
      ensures profiles == ListedProfiles(loaded)
      ensures selected == Some(if lastProfile in BaseNames(loaded) then lastProfile else BaseNames(loaded)[0])
      ensures games == old(games) && current == old(current)
    {
      profiles := [];
      for i := 0 to |loaded|
        invariant profiles == RealNames(loaded[..i])
        invariant games == old(games) && current == old(current)
      {
        assert loaded[..i + 1][..i] == loaded[..i];
        if loaded[i].name != EmptySentinel {
          profiles := profiles + [loaded[i].name];
        }
      }
      assert loaded[..|loaded|] == loaded;
      if |profiles| == 0 {
        profiles := profiles + ["default"];
      }
      assert profiles == BaseNames(loaded);
      if lastProfile in profiles {
        selected := Some(lastProfile);
      } else {
        selected := Some(profiles[0]);
      }
      if |profiles| == 1 {
        profiles := profiles + [EmptySentinel];
      }
    }

    /** AddGameButton_Click: a game whose AppId is listed is refused; otherwise
        a new game entry with the result's values is appended. AppIds stay
        unique. */
    method AddGame(result: Models.GameInfo) returns (added: bool)
      modifies this
      ensures added <==> !Listed(old(games), result.appId)
      ensures !added ==> games == old(games)
      ensures added ==>
        && |games| == |old(games)| + 1 && games[..|old(games)|] == old(games)
        && fresh(games[|old(games)|]) && games[|old(games)|].Info() == result
      ensures UniqueAppIds(old(games)) ==> UniqueAppIds(games)
      ensures profiles == old(profiles) && selected == old(selected) && current == old(current)
    {
      if FirstWithAppId(games, result.appId) >= 0 {
        return false;
      }
      var game := new Models.Game(result.appId, result.name, result.typeName);
      game.SetIconUrl(result.iconUrl);
      games := games + [game];
      added := true;
    }

    /** RemoveGameButton_Click: the first game with the AppId is removed, and
        no other; nothing happens when none has it. */
    method RemoveGame(appId: string)
      modifies this
      ensures !Listed(old(games), appId) ==> games == old(games)
      ensures Listed(old(games), appId) ==>
        var k := FirstWithAppId(old(games), appId);
        games == old(games)[..k] + old(games)[k + 1..]
      ensures UniqueAppIds(old(games)) ==> UniqueAppIds(games) && !Listed(games, appId)
      ensures profiles == old(profiles) && selected == old(selected) && current == old(current)
    {
      var k := FirstWithAppId(games, appId);
      if k < 0 {
        return;
      }
      var game := games[k];
      assert game !in games[..k];
      Collections.RemoveFirstAt(games, game);
      assert Collections.FirstIndex(games, game) == k;
      games := Collections.RemoveFirst(games, game);
      if UniqueAppIds(old(games)) {
        RemovedGameIsGone(old(games), k);
      }
    }

    /** AddProfileButton_Click: nothing when the dialog gave no profile; a name
        already listed in any letter case is refused; otherwise the
        placeholder is removed, the profile saved, and its name appended and
        selected. */
    method AddProfile(created: Option<Models.Profile>, store: Profiles.ProfileStore) returns (added: bool)
      modifies this, store
      ensures added <==> created.Some? && !ListedIgnoreCase(old(profiles), created.value.name)
      ensures !added ==> profiles == old(profiles) && selected == old(selected) && store.files == old(store.files)
      ensures added ==>
        && profiles == Collections.RemoveFirst(old(profiles), EmptySentinel) + [created.value.name]
        && selected == Some(created.value.name)
        && store.files == Profiles.SaveTo(old(store.files), store.dir, created.value)
      ensures DistinctIgnoreCase(old(profiles)) ==> DistinctIgnoreCase(profiles)
      ensures games == old(games) && current == old(current)
    {
      if created.None? {
        return false;
      }
      var newProfile := created.value;
      if exists i :: 0 <= i < |profiles| && EqualsIgnoreCase(profiles[i], newProfile.name) {
        return false;
      }
      if DistinctIgnoreCase(profiles) {
        AddKeepsDistinct(profiles, newProfile.name);
      }
      profiles := Collections.RemoveFirst(profiles, EmptySentinel);
      store.Save(newProfile);
      profiles := profiles + [newProfile.name];
      selected := Some(newProfile.name);
      added := true;
    }

    /** DeleteProfileButton_Click: without a current profile, or for "default"
        in any letter case, nothing is deleted; after a confirmation the
        profile's file is deleted and its name removed from the box, the
        placeholder is added back when one entry is left, and the first entry
        is selected. */
    method DeleteProfile(confirmed: bool, store: Profiles.ProfileStore) returns (deleted: bool)
      modifies this, store
      ensures deleted <==> current.Some? && !EqualsIgnoreCase(current.value, "default") && confirmed
      ensures !deleted ==> profiles == old(profiles) && selected == old(selected) && store.files == old(store.files)
      ensures deleted ==>
        var rest := Collections.RemoveFirst(old(profiles), current.value);
        && profiles == (if |rest| == 1 && EmptySentinel !in rest then rest + [EmptySentinel] else rest)
        && selected == (if profiles == [] then None else Some(profiles[0]))
        && store.files == Profiles.DeleteFrom(old(store.files), store.dir, current.value)
      ensures deleted ==> Profiles.LoadFrom(store.files, store.dir, "default") == Profiles.LoadFrom(old(store.files), store.dir, "default")
      ensures games == old(games) && current == old(current)
    {
      if current.None? || EqualsIgnoreCase(current.value, "default") {
        return false;
      }
      if !confirmed {
        return false;
      }
      var name := current.value;
      store.Delete(name);
      Profiles.DeleteKeepsDefault(old(store.files), store.dir, name);
      profiles := Collections.RemoveFirst(profiles, name);
      if |profiles| == 1 && EmptySentinel !in profiles {
        profiles := profiles + [EmptySentinel];
      }
      selected := if profiles == [] then None else Some(profiles[0]);
      deleted := true;
    }
  }
}
