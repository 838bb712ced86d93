/** SearchService: fuzzy ranking of the Steam catalog by name, the cached
    catalog download, the store-details lookup and the cached details applied to
    games. */
module Search {
  import opened Text
  import opened Json
  import opened Models

  const NameSeparators: set<char> := {' ', '-', ':', '_', '™', '®'}
  const SpaceSeparator: set<char> := {' '}
  const WordSeparators: set<char> := {' ', '-', ':', '_'}

  /** One catalog entry. */
  datatype SteamApp = SteamApp(appId: string, name: string)

  // ---------------------------------------------------------------------------
  // Characters in order

  /** Whether query can be found in text character by character from the left,
      each match taken at the earliest possible position. */
  predicate InOrder(query: string, text: string)
    decreases |text|
  {
    if query == [] then true
    else if text == [] then false
    else if text[0] == query[0] then InOrder(query[1..], text[1..])
    else InOrder(query, text[1..])
  }

  /** idx picks, at strictly increasing positions of text, the characters of query. */
  ghost predicate Embeds(idx: seq<int>, query: string, text: string) {
    && |idx| == |query|
    && (forall k :: 0 <= k < |idx| ==> 0 <= idx[k] < |text| && text[idx[k]] == query[k])
    && (forall i, j :: 0 <= i < j < |idx| ==> idx[i] < idx[j])
  }

  /** query is a subsequence of text. */
  ghost predicate IsSubsequence(query: string, text: string) {
    exists idx :: Embeds(idx, query, text)
  }

  function Shift(idx: seq<int>, d: int): (r: seq<int>)
    ensures |r| == |idx| && forall k :: 0 <= k < |idx| ==> r[k] == idx[k] + d
  {
    seq(|idx|, k requires 0 <= k < |idx| => idx[k] + d)
  }

  /** The greedy left-to-right scan is complete: it succeeds exactly when the
      query is a subsequence of the text. */
  lemma {:induction false} InOrderIffSubsequence(query: string, text: string)
    ensures InOrder(query, text) <==> IsSubsequence(query, text)
  {
    if InOrder(query, text) {
      var idx := GreedyEmbedding(query, text);
    }
    if IsSubsequence(query, text) {
      var idx :| Embeds(idx, query, text);
      EmbeddingFoundByScan(idx, query, text);
    }
  }

  lemma {:induction false} GreedyEmbedding(query: string, text: string) returns (idx: seq<int>)
    requires InOrder(query, text)
    ensures Embeds(idx, query, text)
    decreases |text|
  {
    if query == [] {
      idx := [];
    } else if text[0] == query[0] {
      var rest := GreedyEmbedding(query[1..], text[1..]);
      idx := [0] + Shift(rest, 1);
    } else {
      var rest := GreedyEmbedding(query, text[1..]);
      idx := Shift(rest, 1);
    }
  }

  lemma {:induction false} EmbeddingFoundByScan(idx: seq<int>, query: string, text: string)
    requires Embeds(idx, query, text)
    ensures InOrder(query, text)
    decreases |text|
  {
    if query != [] {
      assert idx[0] < |text|;
      if text[0] == query[0] {
        var rest := Shift(idx[1..], -1);
        forall k | 0 <= k < |rest|
          ensures 0 <= rest[k] < |text[1..]| && text[1..][rest[k]] == query[1..][k]
        {
          assert idx[0] < idx[k + 1];
        }
        EmbeddingFoundByScan(rest, query[1..], text[1..]);
      } else {
        var rest := Shift(idx, -1);
        forall k | 0 <= k < |rest|
          ensures 0 <= rest[k] < |text[1..]| && text[1..][rest[k]] == query[k]
        {
          if k > 0 {
            assert idx[0] < idx[k];
          }
        }
        EmbeddingFoundByScan(rest, query, text[1..]);
      }
    }
  }

  /** ContainsAllCharsInOrder: walks the text once, advancing through the query
      on every match. */
  method ContainsAllCharsInOrder(text: string, chars: string) returns (r: bool)
    ensures r == InOrder(chars, text)
  {
    var charIndex := 0;
    var i := 0;
    while i < |text|
      invariant 0 <= i <= |text| && 0 <= charIndex <= |chars|
      invariant InOrder(chars, text) == InOrder(chars[charIndex..], text[i..])
    {
      assert text[i..][1..] == text[i + 1..];
      if charIndex < |chars| && text[i] == chars[charIndex] {
        assert chars[charIndex..][1..] == chars[charIndex + 1..];
        charIndex := charIndex + 1;
      }
      i := i + 1;
    }
    r := charIndex == |chars|;
  }

  // ---------------------------------------------------------------------------
  // Scoring

  /** Some word of name, split at the word separators, starts with query. */
  predicate HasWordBoundaryMatch(name: string, query: string) {
    var words := SplitNonEmpty(name, WordSeparators);
    exists k :: 0 <= k < |words| && StartsWith(words[k], query)
  }

  /** The number of query words that start some name word. */
  function MatchingWords(queryWords: seq<string>, nameWords: seq<string>): (r: nat)
    ensures r <= |queryWords|
  {
    if queryWords == [] then 0
    else
      (if exists k :: 0 <= k < |nameWords| && StartsWith(nameWords[k], queryWords[0]) then 1 else 0)
      + MatchingWords(queryWords[1..], nameWords)
  }

  /** C#'s int division, which truncates toward zero. */
  function TruncDiv(a: int, b: int): int
    requires b > 0
  {
    if a >= 0 then a / b else -((-a) / b)
  }

  /** Math.Max(0, (appName.Length - query.Length * 2) / 10). */
  function LengthPenalty(appName: string, query: string): (p: int)
    ensures p >= 0
    ensures |appName| < 2 * |query| + 10 ==> p == 0
    ensures p * 10 <= |appName|
  {
    var d := TruncDiv(|appName| - 2 * |query|, 10);
    if d > 0 then d else 0
  }

  function Max0(x: int): int { if x > 0 then x else 0 }

  /** The relevance of a catalog name for a lower-cased query. */
  function CalculateScore(appName: string, query: string): (r: int)
    ensures r >= 0
    ensures appName == [] ==> r == 0
    ensures appName != [] && ToLower(appName) == query ==> r == 10000
  {
    if appName == [] then 0
    else
      var nameLower := ToLower(appName);
      if nameLower == query then 10000
      else
        var nameWords := SplitNonEmpty(nameLower, NameSeparators);
        var queryWords := SplitNonEmpty(query, SpaceSeparator);
        var prefix := if StartsWith(nameLower, query) then 5000 else 0;
        var firstWord := if |nameWords| > 0 && StartsWith(nameWords[0], query) then 3000 else 0;
        var allWords :=
          if |queryWords| > 1 && MatchingWords(queryWords, nameWords) == |queryWords| then 2000 else 0;
        var substring := if Contains(nameLower, query) then 1000 else 0;
        var boundary := if HasWordBoundaryMatch(nameLower, query) then 500 else 0;
        var inOrder := if InOrder(query, nameLower) then 100 else 0;
        Max0(prefix + firstWord + allWords + substring - LengthPenalty(appName, query) + boundary + inOrder)
  }

  /** A word without spaces cannot start with a query that contains one. */
  lemma WordCannotStartWithSpacedQuery(word: string, query: string, seps: set<char>, p: nat)
    requires ' ' in seps && p < |query| && query[p] == ' '
    requires forall i :: 0 <= i < |word| ==> word[i] !in seps
    ensures !StartsWith(word, query)
  {
    if |query| <= |word| {
      assert word[..|query|][p] == word[p] != query[p];
    }
  }

  /** A name that is not an exact match scores at most 9600: the +3000 and +500
      bonuses need a query without a space, the +2000 bonus a query with one. */
  lemma NonExactScoreBound(appName: string, query: string)
    requires ToLower(appName) != query
    ensures CalculateScore(appName, query) <= 9600
  {
    if appName != [] {
      var nameLower := ToLower(appName);
      if p :| 0 <= p < |query| && query[p] == ' ' {
        var nameWords := SplitNonEmpty(nameLower, NameSeparators);
        if |nameWords| > 0 {
          assert nameWords[0] in nameWords;
          WordCannotStartWithSpacedQuery(nameWords[0], query, NameSeparators, p);
        }
        var words := SplitNonEmpty(nameLower, WordSeparators);
        forall k | 0 <= k < |words|
          ensures !StartsWith(words[k], query)
        {
          assert words[k] in words;
          WordCannotStartWithSpacedQuery(words[k], query, WordSeparators, p);
        }
      } else {
        assert forall i :: 0 <= i < |query| ==> query[i] !in SpaceSeparator;
        assert |SplitNonEmpty(query, SpaceSeparator)| <= 1;
      }
    }
  }

  /** An exact match always outranks any other name. */
  lemma ExactMatchOutranks(exact: string, other: string, query: string)
    requires exact != [] && ToLower(exact) == query
    requires ToLower(other) != query
    ensures CalculateScore(exact, query) > CalculateScore(other, query)
  {
    NonExactScoreBound(other, query);
  }

  // ---------------------------------------------------------------------------
  // Ranking

  /** A catalog entry with its score and its position in the catalog. */
  datatype Ranked = Ranked(app: SteamApp, score: int, pos: nat)

  /** r[i] comes before r[j]: a higher score, or the same score and an earlier
      catalog position. */
  predicate Precedes(a: Ranked, b: Ranked) {
    a.score > b.score || (a.score == b.score && a.pos < b.pos)
  }

  predicate Ordered(r: seq<Ranked>) {
    forall i, j :: 0 <= i < j < |r| ==> Precedes(r[i], r[j])
  }

  predicate IncreasingPositions(s: seq<Ranked>) {
    forall i, j :: 0 <= i < j < |s| ==> s[i].pos < s[j].pos
  }

  /** The score of every catalog entry, in catalog order. */
  function Scores(query: string, catalog: seq<SteamApp>): (r: seq<int>)
    ensures |r| == |catalog| && forall p :: 0 <= p < |catalog| ==> r[p] == CalculateScore(catalog[p].name, query)
  {
    seq(|catalog|, p requires 0 <= p < |catalog| => CalculateScore(catalog[p].name, query))
  }

  /** The catalog entries from position start on whose score is positive, in
      catalog order. */
  function Candidates(catalog: seq<SteamApp>, scores: seq<int>, start: nat): (r: seq<Ranked>)
    requires |scores| == |catalog| && start <= |catalog|
    ensures forall k :: 0 <= k < |r| ==>
      start <= r[k].pos < |catalog| && r[k].app == catalog[r[k].pos]
      && r[k].score == scores[r[k].pos] && r[k].score > 0
    ensures IncreasingPositions(r)
    decreases |catalog| - start
  {
    if start == |catalog| then []
    else
      var rest := Candidates(catalog, scores, start + 1);
      if scores[start] > 0 then [Ranked(catalog[start], scores[start], start)] + rest else rest
  }

  /** Every positively scored entry from start on is a candidate. */
  lemma {:induction false} CandidatesComplete(catalog: seq<SteamApp>, scores: seq<int>, start: nat, p: nat)
    requires |scores| == |catalog| && start <= p < |catalog| && scores[p] > 0
    ensures exists k :: 0 <= k < |Candidates(catalog, scores, start)| && Candidates(catalog, scores, start)[k].pos == p
    decreases p - start
  {
    var r := Candidates(catalog, scores, start);
    if p == start {
      assert r[0] == Ranked(catalog[start], scores[start], start);
    } else {
      CandidatesComplete(catalog, scores, start + 1, p);
      var rest := Candidates(catalog, scores, start + 1);
      var k :| 0 <= k < |rest| && rest[k].pos == p;
      if scores[start] > 0 {
        assert r == [Ranked(catalog[start], scores[start], start)] + rest;
        assert r[k + 1] == rest[k];
      } else {
        assert r == rest;
      }
    }
  }

  /** Inserts x in front of the first entry it does not score below. */
  function Insert(x: Ranked, t: seq<Ranked>): (r: seq<Ranked>)
    ensures multiset(r) == multiset(t) + multiset{x}
    ensures |r| == |t| + 1
  {
    if t == [] || t[0].score <= x.score then [x] + t
    else
      var r := [t[0]] + Insert(x, t[1..]);
      assert t == [t[0]] + t[1..];
      r
  }

  lemma {:induction false} InsertOrdered(x: Ranked, t: seq<Ranked>)
    requires Ordered(t)
    requires forall k :: 0 <= k < |t| ==> x.pos < t[k].pos
    ensures Ordered(Insert(x, t))
  {
    if t == [] || t[0].score <= x.score {
      var r := [x] + t;
      assert Insert(x, t) == r;
      forall i, j | 0 <= i < j < |r|
        ensures Precedes(r[i], r[j])
      {
        if i == 0 && j > 1 {
          assert Precedes(t[0], t[j - 1]);
        }
      }
    } else {
      InsertOrdered(x, t[1..]);
      var tail := Insert(x, t[1..]);
      var r := [t[0]] + tail;
      assert Insert(x, t) == r;
      HeadPrecedesInserted(x, t);
      forall i, j | 0 <= i < j < |r|
        ensures Precedes(r[i], r[j])
      {
        if i > 0 {
          assert r[i] == tail[i - 1] && r[j] == tail[j - 1];
        }
      }
    }
  }

  /** An entry scored below the head of an ordered list lands behind the head,
      which then precedes everything after it. */
  lemma HeadPrecedesInserted(x: Ranked, t: seq<Ranked>)
    requires Ordered(t) && t != [] && t[0].score > x.score
    ensures forall j :: 0 <= j < |Insert(x, t[1..])| ==> Precedes(t[0], Insert(x, t[1..])[j])
  {
    var tail := Insert(x, t[1..]);
    forall j | 0 <= j < |tail|
      ensures Precedes(t[0], tail[j])
    {
      assert tail[j] in multiset(tail);
      assert tail[j] in multiset(t[1..]) || tail[j] == x;
      if tail[j] != x {
        var m :| 0 <= m < |t[1..]| && t[1..][m] == tail[j];
        assert Precedes(t[0], t[m + 1]);
      }
    }
  }

  /** OrderByDescending(score), a stable sort. */
  function SortByScore(s: seq<Ranked>): (r: seq<Ranked>)
    ensures multiset(r) == multiset(s)
    ensures |r| == |s|
  {
    if s == [] then []
    else
      assert s == [s[0]] + s[1..];
      Insert(s[0], SortByScore(s[1..]))
  }

  /** Sorting entries that arrive in catalog order yields them by descending
      score, entries with equal scores in catalog order. */
  lemma {:induction false} SortByScoreOrdered(s: seq<Ranked>)
    requires IncreasingPositions(s)
    ensures Ordered(SortByScore(s))
  {
    if s != [] {
      SortByScoreOrdered(s[1..]);
      var t := SortByScore(s[1..]);
      forall k | 0 <= k < |t|
        ensures s[0].pos < t[k].pos
      {
        assert t[k] in multiset(s[1..]);
        var m :| 0 <= m < |s[1..]| && s[1..][m] == t[k];
        assert s[m + 1] == t[k];
      }
      InsertOrdered(s[0], t);
    }
  }

  /** The positively scored catalog entries, best first, ties in catalog order. */
  function Rank(catalog: seq<SteamApp>, scores: seq<int>): (r: seq<Ranked>)
    requires |scores| == |catalog|
    ensures Ordered(r)
    ensures forall k :: 0 <= k < |r| ==>
      r[k].pos < |catalog| && r[k].app == catalog[r[k].pos] && r[k].score == scores[r[k].pos] && r[k].score > 0
  {
    var c := Candidates(catalog, scores, 0);
    SortByScoreOrdered(c);
    var r := SortByScore(c);
    SameElements(r, c);
    r
  }

  lemma SameElements(r: seq<Ranked>, c: seq<Ranked>)
    requires multiset(r) == multiset(c)
    ensures forall k :: 0 <= k < |r| ==> r[k] in c
    ensures forall m :: 0 <= m < |c| ==> c[m] in r
  {
    forall k | 0 <= k < |r|
      ensures r[k] in c
    {
      assert r[k] in multiset(c);
    }
    forall m | 0 <= m < |c|
      ensures c[m] in r
    {
      assert c[m] in multiset(r);
    }
  }

  /** Every positively scored catalog entry is ranked. */
  lemma RankComplete(catalog: seq<SteamApp>, scores: seq<int>, p: nat)
    requires |scores| == |catalog| && p < |catalog| && scores[p] > 0
    ensures exists k :: 0 <= k < |Rank(catalog, scores)| && Rank(catalog, scores)[k].pos == p
  {
    var c := Candidates(catalog, scores, 0);
    var r := Rank(catalog, scores);
    assert r == SortByScore(c);
    SameElements(r, c);
    CandidatesComplete(catalog, scores, 0, p);
    var m :| 0 <= m < |c| && c[m].pos == p;
    assert c[m] in r;
    var k :| 0 <= k < |r| && r[k] == c[m];
  }

  /** Enumerable.Take(n): the first n entries, none for n <= 0. */
  function Take<T>(s: seq<T>, n: int): (r: seq<T>)
    ensures |r| <= |s| && (n <= 0 ==> r == []) && (n > 0 ==> |r| <= n)
    ensures r == s[..|r|]
    ensures n >= |s| ==> r == s
  {
    if n <= 0 then [] else if n >= |s| then s else s[..n]
  }

  function ToGame(app: SteamApp): GameInfo {
    GameInfo(app.appId, app.name, "Game", "")
  }

  /** SearchAsync over an already loaded catalog: nothing for a blank query or one
      shorter than 2 characters, otherwise the best maxResults entries as games of
      type "Game". */
  function SearchCatalog(query: string, catalog: seq<SteamApp>, maxResults: int): (r: seq<GameInfo>)
    ensures IsBlank(query) || |query| < 2 ==> r == []
    ensures maxResults <= 0 ==> r == []
    ensures |r| <= if maxResults > 0 then maxResults else 0
    ensures forall k :: 0 <= k < |r| ==> r[k].typeName == "Game"
    ensures !(IsBlank(query) || |query| < 2) ==>
      var ranked := Take(Rank(catalog, Scores(ToLower(query), catalog)), maxResults);
      |r| == |ranked| && forall k :: 0 <= k < |r| ==> r[k] == ToGame(ranked[k].app)
  {
    if IsBlank(query) || |query| < 2 then []
    else
      var ranked := Take(Rank(catalog, Scores(ToLower(query), catalog)), maxResults);
      seq(|ranked|, k requires 0 <= k < |ranked| => ToGame(ranked[k].app))
  }

  /** What a search result promises: every game comes from a catalog entry with a
      positive score, the scores never increase down the list, and an entry left
      out scores no higher than any entry returned. */
  lemma SearchResultsRanked(query: string, catalog: seq<SteamApp>, maxResults: int)
    requires !IsBlank(query) && |query| >= 2
    ensures var r := SearchCatalog(query, catalog, maxResults);
      var q := ToLower(query);
      && (forall k :: 0 <= k < |r| ==>
            exists p :: 0 <= p < |catalog| && catalog[p] == SteamApp(r[k].appId, r[k].name)
                        && CalculateScore(catalog[p].name, q) > 0)
      && (forall i, j :: 0 <= i < j < |r| ==> CalculateScore(r[i].name, q) >= CalculateScore(r[j].name, q))
  {
    var r := SearchCatalog(query, catalog, maxResults);
    var q := ToLower(query);
    var ranked := Take(Rank(catalog, Scores(q, catalog)), maxResults);
    forall k | 0 <= k < |r|
      ensures exists p :: 0 <= p < |catalog| && catalog[p] == SteamApp(r[k].appId, r[k].name)
                          && CalculateScore(catalog[p].name, q) > 0
    {
      assert r[k] == ToGame(ranked[k].app);
      var p := ranked[k].pos;
      assert catalog[p] == SteamApp(r[k].appId, r[k].name);
    }
    forall i, j | 0 <= i < j < |r|
      ensures CalculateScore(r[i].name, q) >= CalculateScore(r[j].name, q)
    {
      assert Precedes(ranked[i], ranked[j]);
    }
  }

  /** Truncation keeps the best: a positively scored catalog entry that did not make
      the list scores no higher than every entry that did. */
  lemma TruncationKeepsBest(catalog: seq<SteamApp>, scores: seq<int>, maxResults: int, p: nat)
    requires |scores| == |catalog| && p < |catalog| && scores[p] > 0
    requires forall k :: 0 <= k < |Take(Rank(catalog, scores), maxResults)| ==>
               Take(Rank(catalog, scores), maxResults)[k].pos != p
    ensures forall k :: 0 <= k < |Take(Rank(catalog, scores), maxResults)| ==>
              Take(Rank(catalog, scores), maxResults)[k].score >= scores[p]
  {
    var r := Rank(catalog, scores);
    var kept := Take(r, maxResults);
    RankComplete(catalog, scores, p);
    var j :| 0 <= j < |r| && r[j].pos == p;
    forall k | 0 <= k < |kept|
      ensures kept[k].pos != r[j].pos
    {
      assert kept[k].pos != p;
    }
    forall k | 0 <= k < |kept|
      ensures kept[k].score >= scores[p]
    {
      assert kept[k] == r[k];
      assert Precedes(r[k], r[j]);
    }
  }

  // ---------------------------------------------------------------------------
  // Catalog download and cache

  /** The catalog keeps only entries whose id and name are both non-blank. */
  function ValidApps(apps: seq<SteamApp>): (r: seq<SteamApp>)
    ensures forall a :: a in r <==> a in apps && !IsBlank(a.appId) && !IsBlank(a.name)
    ensures |r| <= |apps|
  {
    if apps == [] then []
    else
      var rest := ValidApps(apps[1..]);
      assert apps == [apps[0]] + apps[1..];
      if !IsBlank(apps[0].appId) && !IsBlank(apps[0].name) then [apps[0]] + rest else rest
  }

  /** Store details of one app. */
  datatype GameDetails = GameDetails(typeName: string, iconUrl: string, logoUrl: string, isGame: bool)

  const CacheDuration := 24 * 60 * 60

  /** The process-wide caches of SearchService; times are seconds on an abstract
      clock. */
  class SearchCache {
    var appList: Option<seq<SteamApp>>
    var cacheExpiry: int
    var details: map<string, GameDetails>

    constructor()
      ensures appList == None && details == map[]
    {
      appList := None;
      cacheExpiry := 0;
      details := map[];
    }

    /** GetAppListAsync. download is the catalog the request yields, None when the
        request fails or the response has no applist.apps. A fresh cache is
        returned as is; a download replaces it and restarts the 24 hours; a failed
        download returns the previous catalog, or nothing if there is none. */
    method GetAppList(now: int, download: Option<seq<SteamApp>>) returns (r: seq<SteamApp>)
      modifies this
      ensures details == old(details)
      ensures old(appList).Some? && now < old(cacheExpiry) ==>
        r == old(appList).value && appList == old(appList) && cacheExpiry == old(cacheExpiry)
      ensures !(old(appList).Some? && now < old(cacheExpiry)) && download.Some? ==>
        r == ValidApps(download.value) && appList == Some(r) && cacheExpiry == now + CacheDuration
      ensures !(old(appList).Some? && now < old(cacheExpiry)) && download.None? ==>
        appList == old(appList) && cacheExpiry == old(cacheExpiry)
        && r == (if appList.Some? then appList.value else [])
    {
      if appList.Some? && now < cacheExpiry {
        return appList.value;
      }
      if download.Some? {
        var apps := ValidApps(download.value);
        appList := Some(apps);
        cacheExpiry := now + CacheDuration;
        return apps;
      }
      r := if appList.Some? then appList.value else [];
    }

    /** SearchAsync: a blank or one-character query returns nothing and leaves the
        cache alone; otherwise the catalog is loaded and ranked. */
    method SearchAsync(query: string, maxResults: int, now: int, download: Option<seq<SteamApp>>)
      returns (r: seq<GameInfo>)
      modifies this
      ensures IsBlank(query) || |query| < 2 ==> r == [] && unchanged(this)
      ensures !(IsBlank(query) || |query| < 2) ==>
        r == SearchCatalog(query, if appList.Some? then appList.value else [], maxResults)
        && details == old(details)
      // The catalog searched is the one GetAppList yields for the old state.
      ensures !(IsBlank(query) || |query| < 2) && old(appList).Some? && now < old(cacheExpiry) ==>
        r == SearchCatalog(query, old(appList).value, maxResults)
        && appList == old(appList) && cacheExpiry == old(cacheExpiry)
      ensures !(IsBlank(query) || |query| < 2) && !(old(appList).Some? && now < old(cacheExpiry))
              && download.Some? ==>
        r == SearchCatalog(query, ValidApps(download.value), maxResults)
        && appList == Some(ValidApps(download.value)) && cacheExpiry == now + CacheDuration
      ensures !(IsBlank(query) || |query| < 2) && !(old(appList).Some? && now < old(cacheExpiry))
              && download.None? ==>
        r == SearchCatalog(query, if old(appList).Some? then old(appList).value else [], maxResults)
        && appList == old(appList) && cacheExpiry == old(cacheExpiry)
    {
      if IsBlank(query) || |query| < 2 {
        return [];
      }
      var catalog := GetAppList(now, download);
      r := SearchCatalog(query, catalog, maxResults);
    }

    /** ApplyCachedDetails: every game whose id has cached details takes their
        type, and their icon URL when that is not empty; other games are left as
        they are. */
    method ApplyCachedDetails(games: seq<Game>)
      modifies set g | g in games
      ensures forall g :: g in games && g.appId in details ==>
        g.typeName == details[g.appId].typeName
        && g.iconUrl == (if details[g.appId].iconUrl != "" then details[g.appId].iconUrl else old(g.iconUrl))
      ensures forall g :: g in games && g.appId !in details ==>
        g.typeName == old(g.typeName) && g.iconUrl == old(g.iconUrl) && g.changes == old(g.changes)
    {
      var i := 0;
      while i < |games|
        invariant 0 <= i <= |games|
        invariant forall g :: g in games[..i] && g.appId in details ==>
          g.typeName == details[g.appId].typeName
          && g.iconUrl == (if details[g.appId].iconUrl != "" then details[g.appId].iconUrl else old(g.iconUrl))
        invariant forall g :: g in games && (g !in games[..i] || g.appId !in details) ==>
          g.typeName == old(g.typeName) && g.iconUrl == old(g.iconUrl) && g.changes == old(g.changes)
      {
        var game := games[i];
        if game.appId in details {
          var d := details[game.appId];
          game.typeName := d.typeName;
          if d.iconUrl != "" {
            game.SetIconUrl(d.iconUrl);
          }
        }
        assert games[..i + 1] == games[..i] + [game];
        i := i + 1;
      }
      assert games[..i] == games;
    }
  }

  // ---------------------------------------------------------------------------
  // Store details

  /** The display name of a lower-case Steam app type. */
  function MapSteamTypeToDisplayType(steamType: string): (r: string)
    ensures r in {"Game", "DLC", "Demo", "Mod", "Video", "Soundtrack", "Bundle", "Episode", "Software"}
    ensures (steamType !in {"game", "dlc", "demo", "mod", "video", "music", "bundle", "episode", "tool", "advertising"})
            ==> r == "Game"
  {
    match steamType
    case "game" => "Game"
    case "dlc" => "DLC"
    case "demo" => "Demo"
    case "mod" => "Mod"
    case "video" => "Video"
    case "music" => "Soundtrack"
    case "bundle" => "Bundle"
    case "episode" => "Episode"
    case "tool" => "Software"
    case "advertising" => "Software"
    case _ => "Game"
  }

  /** The CDN images probed when the store has no image, distinct and in order. */
  function CdnUrls(appId: string): seq<string> {
    var base := "/steam/apps/" + appId;
    [ "https://cdn.cloudflare.steamstatic.com" + base + "/header.jpg",
      "https://cdn.akamai.steamstatic.com" + base + "/header.jpg",
      "https://steamcdn-a.akamaihd.net" + base + "/header.jpg",
      "https://cdn.cloudflare.steamstatic.com" + base + "/capsule_231x87.jpg",
      "https://cdn.cloudflare.steamstatic.com" + base + "/capsule_616x353.jpg",
      "https://cdn.cloudflare.steamstatic.com" + base + "/library_600x900.jpg" ]
  }

  /** TryGetCdnImageAsync: the first URL that answers a HEAD or a GET request;
      reachable is the set of URLs that do. */
  function FirstReachable(urls: seq<string>, reachable: set<string>): (r: Option<string>)
    ensures r.Some? ==> r.value in urls && r.value in reachable
    ensures r.Some? ==> exists k :: 0 <= k < |urls| && urls[k] == r.value
                                   && forall i :: 0 <= i < k ==> urls[i] !in reachable
    ensures r.None? ==> forall u :: u in urls ==> u !in reachable
  {
    if urls == [] then None
    else if urls[0] in reachable then Some(urls[0])
    else
      var rest := FirstReachable(urls[1..], reachable);
      if rest.Some? then
        var k :| 0 <= k < |urls[1..]| && urls[1..][k] == rest.value
                 && forall i :: 0 <= i < k ==> urls[1..][i] !in reachable;
        assert urls[k + 1] == rest.value;
        rest
      else None
  }

  /** FetchGameDetailsAsync. response is the parsed store answer, None when the
      request or parsing fails. A successful answer with a header or capsule
      image gives the mapped type and that image; anything else gives a "Game"
      whose icon is the first reachable CDN image, or "". */
  function FetchGameDetails(appId: string, response: Option<Json>, reachable: set<string>): (r: GameDetails)
    ensures r.logoUrl == ""
    ensures r.isGame <==> r.typeName == "Game"
    ensures r.iconUrl == "" ==> r.typeName == "Game"
    ensures StoreDetails(appId, response).Some? ==> r == StoreDetails(appId, response).value
    ensures StoreDetails(appId, response).None? ==>
      var fallback := FirstReachable(CdnUrls(appId), reachable);
      r == GameDetails("Game", if fallback.Some? then fallback.value else "", "", true)
  {
    match StoreDetails(appId, response)
    case Some(d) => d
    case None =>
      var fallback := FirstReachable(CdnUrls(appId), reachable);
      GameDetails("Game", if fallback.Some? then fallback.value else "", "", true)
  }

  /** The details read from a store answer, None when the answer is not a success
      or has no image (or reading it would throw). */
  function StoreDetails(appId: string, response: Option<Json>): (r: Option<GameDetails>)
    ensures r.Some? ==> r.value.iconUrl != "" && r.value.logoUrl == ""
                        && (r.value.isGame <==> r.value.typeName == "Game")
  {
    if response.None? || !response.value.JObj? then None
    else
      var entry := Get(response.value.fields, appId);
      if entry.None? || !entry.value.JObj? then None
      else
        var success := Get(entry.value.fields, "success");
        if success.None? || ToBool(success.value) != Some(true) then None
        else
          var data := Get(entry.value.fields, "data");
          if data.None? || !data.value.JObj? then None
          else
            var fields := data.value.fields;
            var rawType := if "type" in fields then ToLower(ToText(fields["type"])) else "game";
            var typeName := MapSteamTypeToDisplayType(rawType);
            var header := Get(fields, "header_image");
            var capsule := Get(fields, "capsule_image");
            var iconUrl :=
              if header.Some? && ToText(header.value) != "" then ToText(header.value)
              else TextOr(capsule, "");
            if iconUrl != "" then Some(GameDetails(typeName, iconUrl, "", typeName == "Game")) else None
  }

  /** An answer is a success when the app's entry is an object whose "success"
      reads as true and whose "data" is an object. */
  predicate Succeeded(appId: string, response: Option<Json>) {
    && response.Some? && response.value.JObj? && appId in response.value.fields
    && var entry := response.value.fields[appId];
       && entry.JObj? && "success" in entry.fields && ToBool(entry.fields["success"]) == Some(true)
       && "data" in entry.fields && entry.fields["data"].JObj?
  }

  /** The store's details by cases: they are read exactly when the answer is a
      success naming a non-empty header or capsule image; the header is
      preferred when it is not empty, and the type is the lower-cased "type"
      mapped to its display name, "Game" when the member is absent. */
  lemma StoreDetailsCases(appId: string, response: Option<Json>)
    ensures StoreDetails(appId, response).Some? <==>
      Succeeded(appId, response)
      && var data := response.value.fields[appId].fields["data"].fields;
         TextOr(Get(data, "header_image"), "") != "" || TextOr(Get(data, "capsule_image"), "") != ""
    ensures StoreDetails(appId, response).Some? ==>
      var data := response.value.fields[appId].fields["data"].fields;
      var header := TextOr(Get(data, "header_image"), "");
      var d := StoreDetails(appId, response).value;
      && (header != "" ==> d.iconUrl == header)
      && (header == "" ==> d.iconUrl == TextOr(Get(data, "capsule_image"), ""))
      && ("type" !in data ==> d.typeName == "Game")
      && ("type" in data ==> d.typeName == MapSteamTypeToDisplayType(ToLower(ToText(data["type"]))))
      && (d.isGame <==> d.typeName == "Game")
      && d.logoUrl == ""
  {
  }

  /** FetchIconUrlAsync: a game that already has an icon is left alone; otherwise
      it takes the icon URL and type FetchGameDetails gives for its id, from the
      store answer `response` and the reachable CDN images. */
  method FetchIconUrl(game: Game, response: Option<Json>, reachable: set<string>)
    modifies game
    ensures old(game.iconUrl) != "" ==> unchanged(game)
    ensures old(game.iconUrl) == "" ==>
      var details := FetchGameDetails(game.appId, response, reachable);
      game.iconUrl == details.iconUrl && game.typeName == details.typeName
  {
    if game.iconUrl != "" {
      return;
    }
    var details := FetchGameDetails(game.appId, response, reachable);
    game.SetIconUrl(details.iconUrl);
    game.typeName := details.typeName;
  }
}
