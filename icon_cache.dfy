/** IconCacheService: the on-disk icon cache. Icons are stored as
    {cache dir}\{appId}{ext}; a download tries an ordered list of candidate
    URLs and keeps the first that yields data, each URL retried a bounded
    number of times. The network is an oracle: the responses each URL would
    give, attempt by attempt. */
module IconCache {
  import opened Text
  import opened Paths
  import Collections
  import Models

  newtype byte = x: int | 0 <= x < 256

  // ---------------------------------------------------------------------------
  // Candidate URLs and extensions

  /** The three CDN hosts, each followed by the Steam apps path. */
  const CloudflareApps := "https://cdn.cloudflare.steamstatic.com/steam/apps/"
  const AkamaiApps := "https://cdn.akamai.steamstatic.com/steam/apps/"
  const SteamCdnApps := "https://steamcdn-a.akamaihd.net/steam/apps/"

  /** The header image is asked of every host, in this order. */
  const HeaderHosts := [CloudflareApps, AkamaiApps, SteamCdnApps]

  /** The capsule and library images, asked of the Cloudflare host only. */
  const ExtraImages := ["capsule_231x87.jpg", "capsule_616x353.jpg", "library_600x900.jpg"]

  /** The URL of one of an app's images on one host. */
  function ImageUrl(hostApps: string, appId: string, image: string): string {
    hostApps + appId + "/" + image
  }

  /** BuildCandidateUrls: the primary URL, header.jpg on each of the three CDN
      hosts, then the three capsule and library images on the Cloudflare host. */
  function BuildCandidateUrls(appId: string, primary: string): (r: seq<string>)
    ensures |r| == 7 && r[0] == primary
    ensures forall k :: 1 <= k < 4 ==> r[k] == ImageUrl(HeaderHosts[k - 1], appId, "header.jpg")
    ensures forall k :: 4 <= k < 7 ==> r[k] == ImageUrl(CloudflareApps, appId, ExtraImages[k - 4])
  {
    [primary,
     ImageUrl(CloudflareApps, appId, "header.jpg"),
     ImageUrl(AkamaiApps, appId, "header.jpg"),
     ImageUrl(SteamCdnApps, appId, "header.jpg"),
     ImageUrl(CloudflareApps, appId, "capsule_231x87.jpg"),
     ImageUrl(CloudflareApps, appId, "capsule_616x353.jpg"),
     ImageUrl(CloudflareApps, appId, "library_600x900.jpg")]
  }

  /** Two URLs on different hosts differ: the host parts differ at a position
      both have. */
  lemma HostsDiffer(h1: string, h2: string, appId: string, i1: string, i2: string, p: nat)
    requires p < |h1| && p < |h2| && h1[p] != h2[p]
    ensures ImageUrl(h1, appId, i1) != ImageUrl(h2, appId, i2)
  {
    assert ImageUrl(h1, appId, i1)[p] == h1[p];
    assert ImageUrl(h2, appId, i2)[p] == h2[p];
  }

  /** Two URLs of different images on one host differ. */
  lemma ImagesDiffer(h: string, appId: string, i1: string, i2: string, p: nat)
    requires p < |i1| && p < |i2| && i1[p] != i2[p]
    ensures ImageUrl(h, appId, i1) != ImageUrl(h, appId, i2)
  {
    var n := |h + appId + "/"|;
    assert ImageUrl(h, appId, i1)[n + p] == i1[p];
    assert ImageUrl(h, appId, i2)[n + p] == i2[p];
  }

  /** The six CDN URLs are all different, whatever the app id, so removing
      duplicates can only drop the primary URL. */
  lemma CdnUrlsDistinct(appId: string, primary: string)
    ensures Collections.NoDuplicates(BuildCandidateUrls(appId, primary)[1..])
  {
    var r := BuildCandidateUrls(appId, primary)[1..];
    var c, a, d := CloudflareApps, AkamaiApps, SteamCdnApps;
    HostsDiffer(c, a, appId, "header.jpg", "header.jpg", 12);
    HostsDiffer(c, d, appId, "header.jpg", "header.jpg", 8);
    HostsDiffer(a, d, appId, "header.jpg", "header.jpg", 8);
    var e0, e1, e2 := ExtraImages[0], ExtraImages[1], ExtraImages[2];
    HostsDiffer(a, c, appId, "header.jpg", e0, 12);
    HostsDiffer(a, c, appId, "header.jpg", e1, 12);
    HostsDiffer(a, c, appId, "header.jpg", e2, 12);
    HostsDiffer(d, c, appId, "header.jpg", e0, 8);
    HostsDiffer(d, c, appId, "header.jpg", e1, 8);
    HostsDiffer(d, c, appId, "header.jpg", e2, 8);
    ImagesDiffer(c, appId, "header.jpg", e0, 0);
    ImagesDiffer(c, appId, "header.jpg", e1, 0);
    ImagesDiffer(c, appId, "header.jpg", e2, 0);
    ImagesDiffer(c, appId, e0, e1, 8);
    ImagesDiffer(c, appId, e0, e2, 0);
    ImagesDiffer(c, appId, e1, e2, 0);
  }

  /** BuildCandidateUrls(appId, iconUrl).Distinct(): the URLs tried, in order. */
  function Candidates(appId: string, primary: string): (r: seq<string>)
    ensures Collections.NoDuplicates(r)
    ensures forall u :: u in r <==> u in BuildCandidateUrls(appId, primary)
  {
    var s := BuildCandidateUrls(appId, primary);
    var r := Collections.Distinct(s);
    assert forall u :: u in s ==> u in r by {
      forall u | u in s
        ensures u in r
      {
        var k :| 0 <= k < |s| && s[k] == u;
      }
    }
    r
  }

  /** The primary URL is always the first one tried. */
  lemma CandidatesStartWithPrimary(appId: string, primary: string)
    ensures |Candidates(appId, primary)| > 0 && Candidates(appId, primary)[0] == primary
  {
    var s := BuildCandidateUrls(appId, primary);
    assert s[0] !in {};
    assert Collections.Distinct(s) == Collections.DistinctFrom(s, {});
  }

  /** The file extensions GetImageExtension can give. */
  predicate IsImageExtension(e: string) {
    e == ".jpg" || e == ".png" || e == ".gif" || e == ".webp"
  }

  /** GetImageExtension: ".jpg" when the lowercased URL mentions ".jpg" or "jpeg",
      else the first of ".png", ".gif", ".webp" it mentions, else ".jpg". */
  function GetImageExtension(url: string): (r: string)
    ensures IsImageExtension(r)
    ensures (Contains(ToLower(url), ".jpg") || Contains(ToLower(url), "jpeg")) ==> r == ".jpg"
    ensures r == ".png" <==>
      !Contains(ToLower(url), ".jpg") && !Contains(ToLower(url), "jpeg") && Contains(ToLower(url), ".png")
    ensures r == ".gif" <==>
      !Contains(ToLower(url), ".jpg") && !Contains(ToLower(url), "jpeg") && !Contains(ToLower(url), ".png")
      && Contains(ToLower(url), ".gif")
    ensures r == ".webp" <==>
      !Contains(ToLower(url), ".jpg") && !Contains(ToLower(url), "jpeg") && !Contains(ToLower(url), ".png")
      && !Contains(ToLower(url), ".gif") && Contains(ToLower(url), ".webp")
  {
    var lower := ToLower(url);
    if Contains(lower, ".jpg") || Contains(lower, "jpeg") then ".jpg"
    else if Contains(lower, ".png") then ".png"
    else if Contains(lower, ".gif") then ".gif"
    else if Contains(lower, ".webp") then ".webp"
    else ".jpg"
  }

  // ---------------------------------------------------------------------------
  // Downloads with retries

  /** What one request for a URL gives: a response with its success flag and
      body, or an exception (a timeout, a network error). */
  datatype Fetch = Response(success: bool, data: seq<byte>) | Threw

  /** The response to the i-th request of a URL; requests past the end of the
      oracle fail. */
  function At(responses: seq<Fetch>, i: nat): Fetch {
    if i < |responses| then responses[i] else Threw
  }

  /** A successful response whose body is longer than 256 bytes. */
  predicate Accepted(f: Fetch) {
    f.Response? && f.success && |f.data| > 256
  }

  /** The body of the first accepted response among requests i .. maxAttempts-1. */
  function FirstAccepted(responses: seq<Fetch>, i: nat, maxAttempts: int): (r: Option<seq<byte>>)
    decreases maxAttempts - i
    ensures r.Some? ==> |r.value| > 256
  {
    if i >= maxAttempts then None
    else if Accepted(At(responses, i)) then Some(At(responses, i).data)
    else FirstAccepted(responses, i + 1, maxAttempts)
  }

  /** FirstAccepted finds the earliest accepted response, and nothing only when
      every request in range is refused. */
  lemma {:induction false} FirstAcceptedIsFirst(responses: seq<Fetch>, i: nat, maxAttempts: int)
    decreases maxAttempts - i
    ensures var r := FirstAccepted(responses, i, maxAttempts);
      && (r.None? <==> forall k :: i <= k < maxAttempts ==> !Accepted(At(responses, k)))
      && (r.Some? ==> exists k :: i <= k < maxAttempts && Accepted(At(responses, k))
                        && r.value == At(responses, k).data
                        && forall j :: i <= j < k ==> !Accepted(At(responses, j)))
  {
    if i < maxAttempts && !Accepted(At(responses, i)) {
      FirstAcceptedIsFirst(responses, i + 1, maxAttempts);
    }
  }

  /** TryDownloadWithRetries: at most maxAttempts requests; a refused status or an
      exception is retried until the last attempt, a short body is retried too,
      and the first body over 256 bytes is returned. */
  method TryDownloadWithRetries(responses: seq<Fetch>, maxAttempts: int)
      returns (data: Option<seq<byte>>, requests: nat)
    ensures data == FirstAccepted(responses, 0, maxAttempts)
    ensures data.Some? ==> |data.value| > 256
    ensures requests <= if maxAttempts < 0 then 0 else maxAttempts
  {
    requests := 0;
    var attempt := 1;
    while attempt <= maxAttempts
      invariant 1 <= attempt <= (if maxAttempts < 0 then 0 else maxAttempts) + 1
      invariant requests == attempt - 1
      invariant FirstAccepted(responses, 0, maxAttempts) == FirstAccepted(responses, attempt - 1, maxAttempts)
      decreases maxAttempts - attempt
    {
      requests := requests + 1;
      var f := At(responses, attempt - 1);
      if f.Response? && f.success {
        if |f.data| > 256 {
          return Some(f.data), requests;
        }
      } else if attempt == maxAttempts {
        break;
      }
      attempt := attempt + 1;
    }
    data := None;
  }

  /** The responses the oracle gives for a URL; a URL it does not know always
      fails. */
  function ResponsesFor(net: map<string, seq<Fetch>>, url: string): seq<Fetch> {
    if url in net then net[url] else []
  }

  /** The number of attempts per candidate URL. */
  const MaxAttempts := 3

  // ---------------------------------------------------------------------------
  // The candidate loop

  /** How the candidate loop ends: an existing non-empty file, a downloaded body
      written to a path, or no candidate yielding anything. */
  datatype Outcome = Cached(path: string) | Downloaded(path: string, data: seq<byte>) | Missed

  /** The cache file for a candidate URL. */
  function CachePath(dir: string, appId: string, url: string): string {
    Combine(dir, appId + GetImageExtension(url))
  }

  /** The cache file of every candidate, in order. */
  function CachePaths(dir: string, appId: string, urls: seq<string>): (r: seq<string>)
    ensures |r| == |urls|
  {
    seq(|urls|, i requires 0 <= i < |urls| => CachePath(dir, appId, urls[i]))
  }

  predicate HasContent(files: map<string, seq<byte>>, path: string) {
    path in files && |files[path]| > 0
  }

  /** The download for a URL: the first accepted of its MaxAttempts responses. */
  function Download(net: map<string, seq<Fetch>>, url: string): (r: Option<seq<byte>>)
    ensures r.Some? ==> |r.value| > 256
  {
    FirstAccepted(ResponsesFor(net, url), 0, MaxAttempts)
  }

  /** A candidate that settles the loop: its file exists or its download gives
      data. */
  predicate Settles(files: map<string, seq<byte>>, net: map<string, seq<Fetch>>, path: string, url: string) {
    HasContent(files, path) || Download(net, url).Some?
  }

  /** The candidate loop of DownloadAndCacheIconAsync over urls, whose cache files
      are paths: each candidate's file is checked first, then its URL downloaded. */
  function Settle(paths: seq<string>, urls: seq<string>, files: map<string, seq<byte>>,
                  net: map<string, seq<Fetch>>): (o: Outcome)
    requires |paths| == |urls|
    ensures o.Cached? ==> HasContent(files, o.path)
    ensures o.Downloaded? ==> |o.data| > 256
  {
    if urls == [] then Missed
    else if HasContent(files, paths[0]) then Cached(paths[0])
    else
      var data := Download(net, urls[0]);
      if data.Some? && |data.value| > 0 then Downloaded(paths[0], data.value)
      else Settle(paths[1..], urls[1..], files, net)
  }

  /** One step of the candidate loop, from candidate i. */
  lemma SettleStep(paths: seq<string>, urls: seq<string>, files: map<string, seq<byte>>,
                   net: map<string, seq<Fetch>>, i: nat)
    requires |paths| == |urls| && i < |urls|
    ensures Settle(paths[i..], urls[i..], files, net)
      == if HasContent(files, paths[i]) then Cached(paths[i])
         else if Download(net, urls[i]).Some? && |Download(net, urls[i]).value| > 0
         then Downloaded(paths[i], Download(net, urls[i]).value)
         else Settle(paths[i + 1..], urls[i + 1..], files, net)
  {
    assert paths[i..][1..] == paths[i + 1..] && urls[i..][1..] == urls[i + 1..];
  }

  /** The loop misses exactly when no candidate has a cached file or a
      successful download. */
  lemma {:induction false} SettleMisses(paths: seq<string>, urls: seq<string>,
                                        files: map<string, seq<byte>>, net: map<string, seq<Fetch>>)
    requires |paths| == |urls|
    ensures Settle(paths, urls, files, net).Missed? <==>
      forall k :: 0 <= k < |urls| ==> !Settles(files, net, paths[k], urls[k])
  {
    if urls != [] && !Settles(files, net, paths[0], urls[0]) {
      SettleMisses(paths[1..], urls[1..], files, net);
      assert forall k :: 1 <= k < |urls| ==> paths[k] == paths[1..][k - 1] && urls[k] == urls[1..][k - 1];
    }
  }

  /** When the loop settles, it does so at the first candidate that has a cached
      file or a successful download: a cached file is returned as is, otherwise
      that download is written to the candidate's file. Nothing after that
      candidate is tried. */
  lemma {:induction false} SettleStopsAtFirst(paths: seq<string>, urls: seq<string>,
                                              files: map<string, seq<byte>>, net: map<string, seq<Fetch>>,
                                              k: nat)
    requires |paths| == |urls| && k < |urls|
    requires Settles(files, net, paths[k], urls[k])
    requires forall j :: 0 <= j < k ==> !Settles(files, net, paths[j], urls[j])
    ensures var o := Settle(paths, urls, files, net);
      && !o.Missed? && o.path == paths[k]
      && (o.Cached? <==> HasContent(files, paths[k]))
      && (o.Downloaded? ==> Download(net, urls[k]) == Some(o.data))
  {
    if k > 0 {
      assert forall j :: 0 <= j < k - 1 ==> paths[1..][j] == paths[j + 1] && urls[1..][j] == urls[j + 1];
      SettleStopsAtFirst(paths[1..], urls[1..], files, net, k - 1);
    }
  }

  /** The extensions the cache is probed for, in order. */
  const Extensions: seq<string> := [".jpg", ".jpeg", ".png", ".gif", ".webp"]

  /** The first of exts for which {appId}{ext} exists in the cache directory. */
  function FirstCached(dir: string, appId: string, exts: seq<string>, files: map<string, seq<byte>>)
    : (r: Option<string>)
    ensures r.None? <==> forall k :: 0 <= k < |exts| ==> Combine(dir, appId + exts[k]) !in files
    ensures r.Some? ==>
      && r.value in files
      && exists k :: 0 <= k < |exts| && r.value == Combine(dir, appId + exts[k])
           && forall j :: 0 <= j < k ==> Combine(dir, appId + exts[j]) !in files
  {
    if exts == [] then None
    else if Combine(dir, appId + exts[0]) in files then Some(Combine(dir, appId + exts[0]))
    else
      var r := FirstCached(dir, appId, exts[1..], files);
      if r.Some? then
        var k :| 0 <= k < |exts[1..]| && r.value == Combine(dir, appId + exts[1..][k])
                 && forall j :: 0 <= j < k ==> Combine(dir, appId + exts[1..][j]) !in files;
        assert exts[1..][k] == exts[k + 1];
        assert forall j :: 0 <= j < k + 1 ==> Combine(dir, appId + exts[j]) !in files by {
          forall j | 0 <= j < k + 1
            ensures Combine(dir, appId + exts[j]) !in files
          {
            if j > 0 {
              assert exts[j] == exts[1..][j - 1];
            }
          }
        }
        r
      else
        assert forall k :: 0 <= k < |exts| ==> Combine(dir, appId + exts[k]) !in files by {
          forall k | 0 <= k < |exts|
            ensures Combine(dir, appId + exts[k]) !in files
          {
            if k > 0 {
              assert exts[k] == exts[1..][k - 1];
            }
          }
        }
        r
  }

  /** The files DeleteUnusedIcons keeps: those whose name without extension is a
      valid id. */
  function Survivors(files: map<string, seq<byte>>, valid: set<string>): (r: map<string, seq<byte>>)
    ensures forall f :: f in r <==> f in files && GetFileNameWithoutExtension(f) in valid
    ensures forall f :: f in r ==> r[f] == files[f]
  {
    map f | f in files && GetFileNameWithoutExtension(f) in valid :: files[f]
  }

  /** The files left after deleting, one listed file at a time in order, those
      whose name without extension is not valid. */
  function Pruned(files: map<string, seq<byte>>, valid: set<string>, listing: seq<string>)
    : map<string, seq<byte>>
  {
    if listing == [] then files
    else
      var before := Pruned(files, valid, listing[..|listing| - 1]);
      var f := listing[|listing| - 1];
      if GetFileNameWithoutExtension(f) !in valid then before - {f} else before
  }

  /** Deleting along a listing of every file leaves exactly the survivors. */
  lemma {:induction false} PrunedKeeps(files: map<string, seq<byte>>, valid: set<string>, listing: seq<string>)
    ensures forall f :: f in Pruned(files, valid, listing) <==>
      f in files && (f in listing ==> GetFileNameWithoutExtension(f) in valid)
    ensures forall f :: f in Pruned(files, valid, listing) ==> Pruned(files, valid, listing)[f] == files[f]
  {
    if listing != [] {
      var init := listing[..|listing| - 1];
      PrunedKeeps(files, valid, init);
      assert forall f :: f in listing <==> f in init || f == listing[|listing| - 1];
    }
  }

  lemma PrunedIsSurvivors(files: map<string, seq<byte>>, valid: set<string>, listing: seq<string>)
    requires forall f :: f in files ==> f in listing
    ensures Pruned(files, valid, listing) == Survivors(files, valid)
  {
    PrunedKeeps(files, valid, listing);
  }

  /** The ids whose icons are kept at start-up: the non-blank AppIds of every
      game of every profile. */
  function ValidAppIds(profiles: seq<Models.Profile>): (r: set<string>)
    ensures forall id :: id in r <==>
      !IsBlank(id) && exists p, g :: p in profiles && g in p.games && g.appId == id
  {
    set p, g | p in profiles && g in p.games && !IsBlank(g.appId) :: g.appId
  }

  /** A numeric id's cache file, {dir}\{appId}{ext}, has appId as its name
      without extension. */
  lemma CacheFileName(dir: string, appId: string, ext: string)
    requires dir != [] && appId != [] && IsDigits(appId) && IsImageExtension(ext)
    ensures GetFileNameWithoutExtension(Combine(dir, appId + ext)) == appId
  {
    var name := appId + ext;
    CacheNameIsPlain(appId, ext);
    FileNameOfCombine(dir, name);
    CacheNameStem(appId, ext);
  }

  /** Digits followed by an image extension hold no separator and no ':'. */
  lemma CacheNameIsPlain(appId: string, ext: string)
    requires IsDigits(appId) && IsImageExtension(ext)
    ensures forall i :: 0 <= i < |appId + ext| ==> !IsDirectorySeparator((appId + ext)[i]) && (appId + ext)[i] != ':'
  {
    var name := appId + ext;
    forall i | 0 <= i < |name|
      ensures !IsDirectorySeparator(name[i]) && name[i] != ':'
    {
      if i < |appId| {
        assert name[i] == appId[i];
      } else {
        assert name[i] == ext[i - |appId|];
      }
    }
  }

  /** The last '.' of digits followed by an image extension starts the
      extension. */
  lemma CacheNameStem(appId: string, ext: string)
    requires IsDigits(appId) && IsImageExtension(ext)
    ensures LastDot(appId + ext) == |appId|
  {
    var name := appId + ext;
    assert name[|appId|] == '.';
    assert forall i :: |appId| < i < |name| ==> name[i] != '.';
  }

  /** An icon cached for a numeric AppId that is still listed in some profile
      survives the start-up clean-up. */
  lemma ListedIconSurvives(dir: string, appId: string, ext: string, files: map<string, seq<byte>>,
                           profiles: seq<Models.Profile>, p: Models.Profile, g: Models.GameInfo)
    requires dir != [] && appId != [] && IsDigits(appId) && IsImageExtension(ext)
    requires p in profiles && g in p.games && g.appId == appId
    requires Combine(dir, appId + ext) in files
    ensures Combine(dir, appId + ext) in Survivors(files, ValidAppIds(profiles))
  {
    CacheFileName(dir, appId, ext);
    assert !IsWhiteSpace(appId[0]);
    ListedIdIsValid(profiles, p, g);
  }

  lemma ListedIdIsValid(profiles: seq<Models.Profile>, p: Models.Profile, g: Models.GameInfo)
    requires p in profiles && g in p.games && !IsBlank(g.appId)
    ensures g.appId in ValidAppIds(profiles)
  {
  }

  // ---------------------------------------------------------------------------
  // The cache directory

  /** The icon cache directory: whether it exists, and the files in it by full
      path. */
  class IconCacheDir {
    const dir: string
    var dirExists: bool
    var files: map<string, seq<byte>>

    constructor(dir: string, dirExists: bool, files: map<string, seq<byte>>)
      ensures this.dir == dir && this.dirExists == dirExists && this.files == files
    {
      this.dir := dir;
      this.dirExists := dirExists;
      this.files := files;
    }

    /** DownloadAndCacheIconAsync: nothing for an empty id or URL or a URL not
        starting with "http" in any letter case; otherwise the directory is
        created and the distinct candidates tried in order: an existing
        non-empty file is returned without a download, and the first download
        that yields data is written and returned. */
    method DownloadAndCacheIcon(appId: string, iconUrl: string, net: map<string, seq<Fetch>>)
        returns (r: Option<string>)
      modifies this
      ensures appId == [] || iconUrl == [] || !StartsWithIgnoreCase(iconUrl, "http") ==>
        r.None? && dirExists == old(dirExists) && files == old(files)
      ensures appId != [] && iconUrl != [] && StartsWithIgnoreCase(iconUrl, "http") ==>
        var urls := Candidates(appId, iconUrl);
        && dirExists
        && match Settle(CachePaths(dir, appId, urls), urls, old(files), net)
           case Cached(p) => r == Some(p) && files == old(files)
           case Downloaded(p, d) => r == Some(p) && files == old(files)[p := d]
           case Missed => r.None? && files == old(files)
    {
      if appId == [] || iconUrl == [] {
        return None;
      }
      if !StartsWithIgnoreCase(iconUrl, "http") {
        return None;
      }
      dirExists := true;
      r := TryCandidates(appId, Candidates(appId, iconUrl), net);
    }

    /** The candidate loop: for each URL, its cache file is returned if it has
        content; otherwise the URL is downloaded, and a body is written to that
        file and returned. */
    method TryCandidates(appId: string, candidates: seq<string>, net: map<string, seq<Fetch>>)
        returns (r: Option<string>)
      modifies this
      ensures dirExists == old(dirExists)
      ensures match Settle(CachePaths(dir, appId, candidates), candidates, old(files), net)
        case Cached(p) => r == Some(p) && files == old(files)
        case Downloaded(p, d) => r == Some(p) && files == old(files)[p := d]
        case Missed => r.None? && files == old(files)
    {
      ghost var paths := CachePaths(dir, appId, candidates);
      for i := 0 to |candidates|
        invariant dirExists == old(dirExists) && files == old(files)
        invariant Settle(paths, candidates, files, net) == Settle(paths[i..], candidates[i..], files, net)
      {
        var filePath := CachePath(dir, appId, candidates[i]);
        assert filePath == paths[i];
        SettleStep(paths, candidates, files, net, i);
        if HasContent(files, filePath) {
          return Some(filePath);
        }
        var data, _ := TryDownloadWithRetries(ResponsesFor(net, candidates[i]), MaxAttempts);
        if data.Some? && |data.value| > 0 {
          files := files[filePath := data.value];
          return Some(filePath);
        }
      }
      r := None;
    }

    /** GetCachedIconPath: the first of .jpg, .jpeg, .png, .gif, .webp that exists
        for the id; nothing for an empty id or a missing directory. */
    method GetCachedIconPath(appId: string) returns (r: Option<string>)
      ensures appId == [] || !dirExists ==> r.None?
      ensures appId != [] && dirExists ==> r == FirstCached(dir, appId, Extensions, files)
    {
      if appId == [] || !dirExists {
        return None;
      }
      for i := 0 to |Extensions|
        invariant FirstCached(dir, appId, Extensions, files) == FirstCached(dir, appId, Extensions[i..], files)
      {
        assert Extensions[i..][1..] == Extensions[i + 1..];
        var filePath := Combine(dir, appId + Extensions[i]);
        if filePath in files {
          return Some(filePath);
        }
      }
      r := None;
    }

    /** DeleteCachedIcon: deletes the first file GetCachedIconPath would find, and
        nothing else. */
    method DeleteCachedIcon(appId: string)
      modifies this
      ensures dirExists == old(dirExists)
      ensures appId == [] || !dirExists ==> files == old(files)
      ensures appId != [] && dirExists ==>
        match FirstCached(dir, appId, Extensions, old(files))
        case Some(p) => files == old(files) - {p}
        case None => files == old(files)
    {
      if appId == [] || !dirExists {
        return;
      }
      for i := 0 to |Extensions|
        invariant dirExists == old(dirExists) && files == old(files)
        invariant FirstCached(dir, appId, Extensions, files) == FirstCached(dir, appId, Extensions[i..], files)
      {
        assert Extensions[i..][1..] == Extensions[i + 1..];
        var filePath := Combine(dir, appId + Extensions[i]);
        if filePath in files {
          files := files - {filePath};
          break;
        }
      }
    }

    /** DeleteUnusedIcons: every file of the directory listing whose name without
        extension is not a valid id is deleted; the others stay as they are. */
    method DeleteUnusedIcons(valid: set<string>, listing: seq<string>)
      requires forall f :: f in listing <==> f in files
      modifies this
      ensures dirExists == old(dirExists)
      ensures !dirExists ==> files == old(files)
      ensures dirExists ==> files == Survivors(old(files), valid)
    {
      if !dirExists {
        return;
      }
      for i := 0 to |listing|
        invariant dirExists == old(dirExists)
        invariant files == Pruned(old(files), valid, listing[..i])
      {
        assert listing[..i + 1][..i] == listing[..i];
        var name := GetFileNameWithoutExtension(listing[i]);
        if name !in valid {
          files := files - {listing[i]};
        }
      }
      assert listing[..|listing|] == listing;
      PrunedIsSurvivors(old(files), valid, listing);
    }
  }
}
