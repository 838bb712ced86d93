/** SteamService: product-info records read from a SteamKit2 key-value tree, the
    package parser that sorts depots between an app and its DLCs, the bounded
    retry loop of a batch lookup, and the connection flags. */
module Steam {
  import opened Text
  import Search

  /** A SteamKit2 KeyValue node. Invalid is the shared sentinel returned for a
      missing child; it has no name, no value and no children. */
  datatype KeyValue = Invalid | KV(name: Option<string>, value: Option<string>, children: seq<KeyValue>)

  function Children(n: KeyValue): seq<KeyValue> {
    if n.KV? then n.children else []
  }

  /** node.Value: null for the sentinel. */
  function Value(n: KeyValue): Option<string> {
    if n.KV? then n.value else None
  }

  predicate NameIs(n: KeyValue, key: string) {
    n.KV? && n.name.Some? && EqualsIgnoreCase(n.name.value, key)
  }

  /** node[key]: the first child whose name equals key ignoring case, or Invalid
      (see FirstNamed). */
  function Child(n: KeyValue, key: string): KeyValue {
    FirstNamed(Children(n), key)
  }

  /** The first node of cs whose name equals key ignoring case: a found node
      carries that name and is one of cs; Invalid means no node of cs has it. */
  function FirstNamed(cs: seq<KeyValue>, key: string): (r: KeyValue)
    ensures r != Invalid ==> NameIs(r, key) && r in cs
    ensures r == Invalid <==> forall i :: 0 <= i < |cs| ==> !NameIs(cs[i], key)
  {
    if cs == [] then Invalid
    else if NameIs(cs[0], key) then cs[0]
    else
      var r := FirstNamed(cs[1..], key);
      assert forall i :: 1 <= i < |cs| ==> cs[i] == cs[1..][i - 1];
      r
  }

  predicate IsNullOrEmpty(s: Option<string>) { s.None? || s.value == "" }

  // ---------------------------------------------------------------------------
  // Package info

  /** An app's depots split into its own and those of each listed DLC. */
  datatype AppPackageInfo = AppPackageInfo(
    appId: string,
    dlcAppIds: seq<string>,
    dlcDepots: map<string, seq<string>>,
    depots: seq<string>)

  /** Where ParseAppPackageInfo puts one child of the "depots" node. */
  datatype Destination = Skip | Own(id: string) | ToDlc(dlc: string, id: string)

  /** The depot id a child of "depots" names, if its name is an unsigned 32-bit
      number. */
  function DepotId(child: KeyValue): Option<nat> {
    ParseUInt32(if child.KV? && child.name.Some? then child.name.value else "")
  }

  /** Where one child of "depots" goes. */
  function Route(child: KeyValue, appId: nat, dlcs: set<string>): (d: Destination)
    ensures d.ToDlc? ==> d.dlc in dlcs
  {
    var id := DepotId(child);
    if id.None? || id.value == appId then Skip
    else if Child(child, "manifests") == Invalid && Child(child, "depotfromapp") == Invalid then Skip
    else
      var dlc := Value(Child(child, "dlcappid"));
      if !IsNullOrEmpty(dlc) && dlc.value in dlcs then ToDlc(dlc.value, NatToString(id.value))
      else Own(NatToString(id.value))
  }

  /** A child is skipped exactly when its name is not an unsigned 32-bit number,
      names the app itself, or it has neither a "manifests" nor a "depotfromapp"
      child. A kept depot goes to its "dlcappid" when that is a listed DLC, and
      to the app's own depots otherwise. */
  lemma RouteMeaning(child: KeyValue, appId: nat, dlcs: set<string>)
    ensures var d := Route(child, appId, dlcs);
      var id := DepotId(child);
      var dlc := Value(Child(child, "dlcappid"));
      && (d.Skip? <==>
            id.None? || id.value == appId
            || (Child(child, "manifests") == Invalid && Child(child, "depotfromapp") == Invalid))
      && (!d.Skip? ==> d.id == NatToString(id.value))
      && (d.ToDlc? <==> !d.Skip? && !IsNullOrEmpty(dlc) && dlc.value in dlcs)
      && (d.ToDlc? ==> d.dlc == dlc.value)
  {
  }

  /** The destination of every child, in order. */
  function Routes(cs: seq<KeyValue>, appId: nat, dlcs: set<string>): (ds: seq<Destination>)
    ensures |ds| == |cs|
    ensures forall i :: 0 <= i < |ds| && ds[i].ToDlc? ==> ds[i].dlc in dlcs
  {
    if cs == [] then []
    else [Route(cs[0], appId, dlcs)] + Routes(cs[1..], appId, dlcs)
  }

  /** The ids routed to the app's own depots, in order. */
  function OwnDepots(ds: seq<Destination>): seq<string> {
    if ds == [] then []
    else (if ds[0].Own? then [ds[0].id] else []) + OwnDepots(ds[1..])
  }

  /** The ids routed to DLC dlc, in order. */
  function DlcDepots(ds: seq<Destination>, dlc: string): seq<string> {
    if ds == [] then []
    else (if ds[0].ToDlc? && ds[0].dlc == dlc then [ds[0].id] else []) + DlcDepots(ds[1..], dlc)
  }

  /** The ids routed to any DLC, in order. */
  function AllDlcDepots(ds: seq<Destination>): seq<string> {
    if ds == [] then []
    else (if ds[0].ToDlc? then [ds[0].id] else []) + AllDlcDepots(ds[1..])
  }

  /** The ids of the depots that are not skipped, in order. */
  function KeptDepots(ds: seq<Destination>): seq<string> {
    if ds == [] then []
    else (if ds[0].Skip? then [] else [ds[0].id]) + KeptDepots(ds[1..])
  }

  /** Every kept depot lands in exactly one list: the kept depots are split between
      the app's own list and the DLC lists without loss or duplication. */
  lemma {:induction false} KeptDepotsPartitioned(ds: seq<Destination>)
    ensures multiset(KeptDepots(ds)) == multiset(OwnDepots(ds)) + multiset(AllDlcDepots(ds))
  {
    if ds != [] {
      KeptDepotsPartitioned(ds[1..]);
    }
  }

  /** The DLC ids of a "listofdlc" value: split at ',' with empty pieces dropped;
      none when the value is missing or empty. */
  function DlcList(listOfDlc: Option<string>): (r: seq<string>)
    ensures IsNullOrEmpty(listOfDlc) ==> r == []
    ensures forall w :: w in r ==> w != "" && ',' !in w
  {
    if IsNullOrEmpty(listOfDlc) then []
    else
      var r := SplitNonEmpty(listOfDlc.value, {','});
      assert forall w :: w in r ==> ',' !in w by {
        forall w | w in r
          ensures ',' !in w
        {
          assert forall i :: 0 <= i < |w| ==> w[i] !in {','};
        }
      }
      r
  }

  /** Whatever comma-free pieces the value is made of, the DLC ids are those
      pieces that are not empty, in order. */
  lemma DlcListOfPieces(pieces: seq<string>)
    requires |pieces| >= 1
    requires forall k, i :: 0 <= k < |pieces| && 0 <= i < |pieces[k]| ==> pieces[k][i] != ','
    ensures DlcList(Some(Join(pieces, ','))) == RemoveEmpty(pieces)
  {
    SplitOfJoin(pieces, ',');
    if Join(pieces, ',') == [] {
      assert Split([], {','}) == [[]];
    }
  }

  /** The type value under common/type; a "depot" in any letter case has no
      package info. */
  predicate IsDepot(kv: KeyValue) {
    var t := Value(Child(Child(kv, "common"), "type"));
    t.Some? && EqualsIgnoreCase(t.value, "depot")
  }

  /** The DLC ids listed under common/extended/listofdlc. */
  function ListedDlcs(kv: KeyValue): seq<string> {
    DlcList(Value(Child(Child(Child(kv, "common"), "extended"), "listofdlc")))
  }

  /** The children of the "depots" node. */
  function DepotNodes(kv: KeyValue): seq<KeyValue> {
    Children(Child(kv, "depots"))
  }

  /** ParseAppPackageInfo: nothing for a depot; otherwise the DLC list, each DLC
      with the depots routed to it, and the app's own depots. */
  method ParseAppPackageInfo(appId: nat, kv: KeyValue) returns (r: Option<AppPackageInfo>)
    ensures r.None? <==> IsDepot(kv)
    ensures r.Some? ==>
      var dlcs := set d | d in ListedDlcs(kv);
      var ds := Routes(DepotNodes(kv), appId, dlcs);
      && r.value.appId == NatToString(appId)
      && r.value.dlcAppIds == ListedDlcs(kv)
      && r.value.dlcDepots.Keys == dlcs
      && (forall d :: d in r.value.dlcDepots ==> r.value.dlcDepots[d] == DlcDepots(ds, d))
      && r.value.depots == OwnDepots(ds)
  {
    if IsDepot(kv) {
      return None;
    }
    var dlcIds := ListedDlcs(kv);
    var dlcs := set d | d in dlcIds;
    var dlcDepots, depots := SortDepots(Routes(DepotNodes(kv), appId, dlcs), dlcIds);
    r := Some(AppPackageInfo(NatToString(appId), dlcIds, dlcDepots, depots));
  }

  /** The loop over the children of "depots": every listed DLC starts with an
      empty list, and each child's id is appended to the list its destination
      names, in order. */
  method SortDepots(ds: seq<Destination>, dlcIds: seq<string>)
      returns (dlcDepots: map<string, seq<string>>, depots: seq<string>)
    requires forall i :: 0 <= i < |ds| && ds[i].ToDlc? ==> ds[i].dlc in dlcIds
    ensures dlcDepots.Keys == set d | d in dlcIds
    ensures forall d :: d in dlcDepots ==> dlcDepots[d] == DlcDepots(ds, d)
    ensures depots == OwnDepots(ds)
  {
    dlcDepots := EmptyLists(dlcIds);
    depots := [];
    for i := 0 to |ds|
      invariant dlcDepots.Keys == set d | d in dlcIds
      invariant forall d :: d in dlcDepots ==> dlcDepots[d] == DlcDepots(ds[..i], d)
      invariant depots == OwnDepots(ds[..i])
    {
      var route := ds[i];
      assert ds[..i + 1] == ds[..i] + [route];
      OwnAppend(ds[..i], route);
      forall d
        ensures DlcDepots(ds[..i + 1], d) == DlcDepots(ds[..i], d) + (if route.ToDlc? && route.dlc == d then [route.id] else [])
      {
        DlcAppend(ds[..i], route, d);
      }
      if route.ToDlc? {
        dlcDepots := dlcDepots[route.dlc := dlcDepots[route.dlc] + [route.id]];
      } else if route.Own? {
        depots := depots + [route.id];
      }
    }
    assert ds[..|ds|] == ds;
  }

  /** info.DlcDepots[dlcId] = [] for every listed DLC. */
  method EmptyLists(dlcIds: seq<string>) returns (m: map<string, seq<string>>)
    ensures m.Keys == set d | d in dlcIds
    ensures forall d :: d in m ==> m[d] == []
  {
    m := map[];
    for i := 0 to |dlcIds|
      invariant m.Keys == set d | d in dlcIds[..i]
      invariant forall d :: d in m ==> m[d] == []
    {
      assert dlcIds[..i + 1] == dlcIds[..i] + [dlcIds[i]];
      m := m[dlcIds[i] := []];
    }
    assert dlcIds[..|dlcIds|] == dlcIds;
  }

  /** Routing one more child extends the app's own list by that child's share. */
  lemma {:induction false} OwnAppend(ds: seq<Destination>, d: Destination)
    ensures OwnDepots(ds + [d]) == OwnDepots(ds) + (if d.Own? then [d.id] else [])
  {
    if ds != [] {
      assert (ds + [d])[1..] == ds[1..] + [d];
      OwnAppend(ds[1..], d);
    } else {
      assert ds + [d] == [d];
    }
  }

  /** Routing one more child extends each DLC's list by that child's share. */
  lemma {:induction false} DlcAppend(ds: seq<Destination>, d: Destination, dlc: string)
    ensures DlcDepots(ds + [d], dlc) == DlcDepots(ds, dlc) + (if d.ToDlc? && d.dlc == dlc then [d.id] else [])
  {
    if ds != [] {
      assert (ds + [d])[1..] == ds[1..] + [d];
      DlcAppend(ds[1..], d, dlc);
    } else {
      assert ds + [d] == [d];
    }
  }

  /** A listed DLC that no depot names as its "dlcappid" keeps an empty list. */
  lemma {:induction false} UnroutedDlcEmpty(cs: seq<KeyValue>, appId: nat, dlcs: set<string>, dlc: string)
    requires forall i :: 0 <= i < |cs| ==> Value(Child(cs[i], "dlcappid")) != Some(dlc)
    ensures DlcDepots(Routes(cs, appId, dlcs), dlc) == []
  {
    if cs != [] {
      UnroutedDlcEmpty(cs[1..], appId, dlcs, dlc);
      RouteMeaning(cs[0], appId, dlcs);
      assert Routes(cs, appId, dlcs)[1..] == Routes(cs[1..], appId, dlcs);
    }
  }

  // ---------------------------------------------------------------------------
  // Type mapping

  /** The display name of a Steam app type, matched ignoring letter case. */
  function MapSteamTypeToDisplayType(steamType: string): (r: string)
    ensures r in {"Game", "DLC", "Demo", "Mod", "Video", "Soundtrack", "Bundle", "Episode", "Software"}
    ensures (ToLower(steamType) !in {"game", "dlc", "demo", "mod", "video", "music", "bundle", "episode", "tool", "advertising"})
            ==> r == "Game"
  {
    Search.MapSteamTypeToDisplayType(ToLower(steamType))
  }

  lemma SameUpperSameLower(x: char, y: char)
    requires UpperChar(x) == UpperChar(y)
    ensures LowerChar(x) == LowerChar(y)
  {
  }

  /** Two spellings of a type that differ only in letter case map alike. */
  lemma TypeMapIgnoresCase(a: string, b: string)
    requires EqualsIgnoreCase(a, b)
    ensures MapSteamTypeToDisplayType(a) == MapSteamTypeToDisplayType(b)
  {
    assert |a| == |ToUpper(a)| == |ToUpper(b)| == |b|;
    forall i | 0 <= i < |a|
      ensures ToLower(a)[i] == ToLower(b)[i]
    {
      assert ToUpper(a)[i] == ToUpper(b)[i];
      SameUpperSameLower(a[i], b[i]);
    }
    assert ToLower(a) == ToLower(b);
  }

  // ---------------------------------------------------------------------------
  // Batch lookup

  /** The record GetAppInfoBatchAsync builds for one app. */
  datatype GameDetails = GameDetails(
    appId: string,
    typeName: string,
    name: string,
    clientIconHash: Option<string>,
    heroHash: Option<string>,
    mainHash: Option<string>,
    parentAppId: Option<string>,
    headerImage: Option<string>)

  /** One app's record: the type mapped for display ("Game" when absent), the
      name, icon hashes, parent and header image read from "common". */
  function Record(appId: nat, kv: KeyValue): GameDetails
  {
    var common := Child(kv, "common");
    var name := Value(Child(common, "name"));
    var rawType := Value(Child(common, "type"));
    var header := Child(common, "header_image");
    GameDetails(
      NatToString(appId),
      MapSteamTypeToDisplayType(if rawType.Some? then rawType.value else "Game"),
      if name.Some? then name.value else "App " + NatToString(appId),
      Value(Child(common, "clienticon")),
      Value(Child(Child(Child(common, "library_assets"), "hero_capsule"), "image")),
      Value(Child(Child(Child(common, "assets"), "main_capsule"), "image")),
      Value(Child(common, "parent")),
      if IsNullOrEmpty(Value(header)) then Value(Child(header, "english")) else Value(header))
  }

  /** The name falls back to "App {id}" only when common/name is missing, the
      type is "Game" when common/type is missing and the mapped type otherwise,
      and an empty or missing header_image falls back to its "english" child. */
  lemma RecordFallbacks(appId: nat, kv: KeyValue)
    ensures var r := Record(appId, kv);
      var name := Value(Child(Child(kv, "common"), "name"));
      var rawType := Value(Child(Child(kv, "common"), "type"));
      var header := Child(Child(kv, "common"), "header_image");
      && r.appId == NatToString(appId)
      && (name.None? ==> r.name == "App " + NatToString(appId))
      && (name.Some? ==> r.name == name.value)
      && (rawType.None? ==> r.typeName == "Game")
      && (rawType.Some? ==> r.typeName == MapSteamTypeToDisplayType(rawType.value))
      && r.headerImage == (if IsNullOrEmpty(Value(header)) then Value(Child(header, "english")) else Value(header))
  {
  }

  /** A dictionary filled by assignment in order: the keys are exactly those
      of the entries (LastWinsValues says which value each holds). */
  function LastWins<V>(entries: seq<(nat, V)>): (r: map<nat, V>)
    ensures forall id :: id in r <==> exists k :: 0 <= k < |entries| && entries[k].0 == id
  {
    if entries == [] then map[]
    else
      var init := entries[..|entries| - 1];
      var last := entries[|entries| - 1];
      var prev := LastWins(init);
      var r := prev[last.0 := last.1];
      assert forall id :: id in r <==> exists k :: 0 <= k < |entries| && entries[k].0 == id by {
        forall id
          ensures id in r <==> exists k :: 0 <= k < |entries| && entries[k].0 == id
        {
          if id in prev {
            var k :| 0 <= k < |init| && init[k].0 == id;
            assert entries[k] == init[k];
          } else if id == last.0 {
            assert entries[|entries| - 1].0 == id;
          } else {
            forall k | 0 <= k < |entries|
              ensures entries[k].0 != id
            {
              if k < |init| {
                assert entries[k] == init[k];
              }
            }
          }
        }
      }
      r
  }

  /** Entry k is the last of the entries for id. */
  predicate IsLastFor<V>(entries: seq<(nat, V)>, k: int, id: nat) {
    0 <= k < |entries| && entries[k].0 == id && forall j :: k < j < |entries| ==> entries[j].0 != id
  }

  /** Each key holds the value of its last entry: a later assignment to the
      same key replaces an earlier one. */
  lemma {:induction false} LastWinsValues<V>(entries: seq<(nat, V)>, id: nat)
    requires id in LastWins(entries)
    ensures exists k :: IsLastFor(entries, k, id) && entries[k].1 == LastWins(entries)[id]
    decreases |entries|
  {
    var init := entries[..|entries| - 1];
    var last := entries[|entries| - 1];
    if id == last.0 {
      assert IsLastFor(entries, |entries| - 1, id);
    } else {
      LastWinsValues(init, id);
      var k :| IsLastFor(init, k, id) && init[k].1 == LastWins(init)[id];
      assert entries[k] == init[k];
      forall j | k < j < |entries|
        ensures entries[j].0 != id
      {
        if j < |init| {
          assert entries[j] == init[j];
        }
      }
      assert IsLastFor(entries, k, id);
    }
  }

  /** The records of a response, keyed by app id; RecordsValues says which
      record each holds. */
  function Records(apps: seq<(nat, KeyValue)>): (r: map<nat, GameDetails>)
    ensures forall id :: id in r <==> exists k :: 0 <= k < |apps| && apps[k].0 == id
  {
    var entries := seq(|apps|, k requires 0 <= k < |apps| => (apps[k].0, Record(apps[k].0, apps[k].1)));
    var r := LastWins(entries);
    assert forall id :: id in r <==> exists k :: 0 <= k < |apps| && apps[k].0 == id by {
      forall id
        ensures id in r <==> exists k :: 0 <= k < |apps| && apps[k].0 == id
      {
        if id in r {
          var k :| 0 <= k < |entries| && entries[k].0 == id;
          assert apps[k].0 == id;
        }
        if exists k :: 0 <= k < |apps| && apps[k].0 == id {
          var k :| 0 <= k < |apps| && apps[k].0 == id;
          assert entries[k].0 == id;
        }
      }
    }
    r
  }

  /** Each app id of the response holds the record built from its last entry. */
  lemma RecordsValues(apps: seq<(nat, KeyValue)>, id: nat)
    ensures id in Records(apps) ==> exists k :: IsLastFor(apps, k, id) && Records(apps)[id] == Record(id, apps[k].1)
  {
    if id !in Records(apps) {
      return;
    }
    var entries := seq(|apps|, k requires 0 <= k < |apps| => (apps[k].0, Record(apps[k].0, apps[k].1)));
    assert Records(apps) == LastWins(entries);
    LastWinsValues(entries, id);
    var k :| IsLastFor(entries, k, id) && entries[k].1 == LastWins(entries)[id];
    forall j | k < j < |apps|
      ensures apps[j].0 != id
    {
      assert entries[j].0 == apps[j].0;
    }
    assert IsLastFor(apps, k, id);
  }

  /** results.Count > 0 exactly when the response lists at least one app. */
  lemma RecordsCount(apps: seq<(nat, KeyValue)>)
    ensures Records(apps) != map[] <==> apps != []
  {
    var r := Records(apps);
    if apps != [] {
      assert apps[0].0 in r;
    } else {
      assert r.Keys == {};
    }
  }

  /** What one attempt of the batch lookup sees: a timeout, a failed job, the apps
      of a successful job, or an exception. */
  datatype Attempt = TimedOut | Failed | Answered(apps: seq<(nat, KeyValue)>) | Threw

  /** An attempt that ends the lookup with a result. */
  predicate Brings(a: Attempt) { a.Answered? && a.apps != [] }

  const MaxRetries := 2

  /** The result the batch lookup settles on: the records of the first answer
      with at least one app; nothing if no attempt brings one. */
  function BatchResult(attempts: seq<Attempt>): map<nat, GameDetails> {
    if attempts == [] then map[]
    else if Brings(attempts[0]) then Records(attempts[0].apps)
    else BatchResult(attempts[1..])
  }

  /** Only ids present in some answer appear in the result. */
  lemma {:induction false} BatchResultFromAnswers(attempts: seq<Attempt>, id: nat)
    requires id in BatchResult(attempts)
    ensures exists a, k :: 0 <= a < |attempts| && attempts[a].Answered?
              && 0 <= k < |attempts[a].apps| && attempts[a].apps[k].0 == id
  {
    if !Brings(attempts[0]) {
      BatchResultFromAnswers(attempts[1..], id);
      var a, k :| 0 <= a < |attempts[1..]| && attempts[1..][a].Answered?
                 && 0 <= k < |attempts[1..][a].apps| && attempts[1..][a].apps[k].0 == id;
      assert attempts[a + 1] == attempts[1..][a];
    } else {
      var k :| 0 <= k < |attempts[0].apps| && attempts[0].apps[k].0 == id;
    }
  }

  /** GetAppInfoBatchAsync: at most MaxRetries + 1 attempts; an answer with apps
      ends the loop, anything else moves on to the next attempt, and it never
      throws. The result is the records of the first answer that lists an app
      (see BatchResultFromAnswers), and an attempt is made only while no earlier
      one brought one. */
  method GetAppInfoBatch(attempts: seq<Attempt>) returns (results: map<nat, GameDetails>, made: nat)
    requires |attempts| >= MaxRetries + 1
    ensures 1 <= made <= MaxRetries + 1
    ensures forall a :: 0 <= a < made - 1 ==> !Brings(attempts[a])
    ensures made <= MaxRetries ==> Brings(attempts[made - 1])
    ensures results == BatchResult(attempts[..MaxRetries + 1])
  {
    results := map[];
    made := 0;
    var attempt := 0;
    while attempt <= MaxRetries
      invariant 0 <= attempt <= MaxRetries + 1 && made == attempt
      invariant results == map[]
      invariant forall a :: 0 <= a < attempt ==> !Brings(attempts[a])
    {
      made := made + 1;
      var outcome := attempts[attempt];
      if outcome.Answered? {
        // The results dictionary is filled from the response; Count > 0 returns.
        var found := Records(outcome.apps);
        RecordsCount(outcome.apps);
        if found != map[] {
          results := found;
          FirstAnswer(attempts[..MaxRetries + 1], attempt);
          return;
        }
      } else if attempt == MaxRetries {
        // A timeout or an exception breaks out, a failed job returns; either
        // way with the empty results.
        NoAnswer(attempts, made);
        return;
      }
      attempt := attempt + 1;
    }
    NoAnswer(attempts, made);
  }

  lemma {:induction false} NoAnswerPrefix(s: seq<Attempt>)
    requires forall a :: 0 <= a < |s| ==> !Brings(s[a])
    ensures BatchResult(s) == map[]
  {
    if s != [] {
      NoAnswerPrefix(s[1..]);
    }
  }

  lemma NoAnswer(attempts: seq<Attempt>, made: nat)
    requires made == MaxRetries + 1 <= |attempts|
    requires forall a :: 0 <= a < made ==> !Brings(attempts[a])
    ensures BatchResult(attempts[..made]) == map[]
  {
    NoAnswerPrefix(attempts[..made]);
  }

  lemma {:induction false} FirstAnswer(s: seq<Attempt>, n: nat)
    requires n < |s| && Brings(s[n])
    requires forall a :: 0 <= a < n ==> !Brings(s[a])
    ensures BatchResult(s) == Records(s[n].apps)
  {
    if n > 0 {
      FirstAnswer(s[1..], n - 1);
    }
  }

  // ---------------------------------------------------------------------------
  // Connection state

  /** The connection flags and the two one-shot completion signals that
      EnsureReadyAsync waits on. */
  class SteamSession {
    var isConnected: bool
    var isLoggedOn: bool
    var connectedSignalled: bool
    var loggedOnSignalled: bool
    var logOnRequests: nat

    constructor()
      ensures !isConnected && !isLoggedOn && !connectedSignalled && !loggedOnSignalled
      ensures logOnRequests == 0
    {
      isConnected, isLoggedOn := false, false;
      connectedSignalled, loggedOnSignalled := false, false;
      logOnRequests := 0;
    }

    /** EnsureReadyAsync returns without waiting: each flag is either set or its
        signal has already completed. */
    predicate ReadyReturns()
      reads this
    {
      (isConnected || connectedSignalled) && (isLoggedOn || loggedOnSignalled)
    }

    /** OnConnected: connected, the signal completes, and an anonymous log-on is
        requested. */
    method OnConnected()
      modifies this
      ensures isConnected && connectedSignalled
      ensures isLoggedOn == old(isLoggedOn) && loggedOnSignalled == old(loggedOnSignalled)
      ensures logOnRequests == old(logOnRequests) + 1
    {
      isConnected := true;
      connectedSignalled := true;
      logOnRequests := logOnRequests + 1;
    }

    /** OnDisconnected: both flags are cleared; the signals stay completed, so
        once the session has been ready EnsureReadyAsync no longer waits. */
    method OnDisconnected()
      modifies this
      ensures !isConnected && !isLoggedOn
      ensures connectedSignalled == old(connectedSignalled) && loggedOnSignalled == old(loggedOnSignalled)
      ensures logOnRequests == old(logOnRequests)
      ensures old(connectedSignalled && loggedOnSignalled) ==> ReadyReturns()
    {
      isConnected := false;
      isLoggedOn := false;
    }

    /** OnLoggedOn: only an OK result sets the logged-on flag and completes its
        signal. */
    method OnLoggedOn(ok: bool)
      modifies this
      ensures ok ==> isLoggedOn && loggedOnSignalled
      ensures !ok ==> isLoggedOn == old(isLoggedOn) && loggedOnSignalled == old(loggedOnSignalled)
      ensures isConnected == old(isConnected) && connectedSignalled == old(connectedSignalled)
      ensures logOnRequests == old(logOnRequests)
    {
      if ok {
        isLoggedOn := true;
        loggedOnSignalled := true;
      }
    }
  }
}
