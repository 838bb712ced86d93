# GreenLuma-Manager core in Dafny

GreenLuma-Manager is a Windows desktop front end for the GreenLuma Steam
injector. The user keeps named profiles of Steam games, searches the Steam
catalog to add games, and lets the manager do the rest: it writes the
numbered AppList files and the DLLInjector.ini settings that GreenLuma reads,
caches game icons, keeps its own settings file and offers updates.

This project models the logic of that manager and proves what it promises.
There is one Dafny module per source file:

- **Search**: catalog search, with fuzzy scoring, stable ranking and the cached catalog.
- **Steam**: reading product info from a SteamKit2 key-value tree, the retry loop of a batch lookup, and the connection flags.
- **IconCache**: candidate icon URLs, cache probing, downloads with retries, and eviction.
- **GreenLuma**: rewriting DLLInjector.ini line by line, and generating the AppList files.
- **Update**: version keys, version comparison and display versions.
- **Profiles**: profile files, their migration from the RC3 format, and the delete guard.
- **Configuration**: loading, saving and migrating the settings file.
- **Plugins**: the registry of plug-in metadata.
- **Window**: the main window's validators and its profile and game lists.
- **ProfileDialog**: the create-profile dialog.
- **Settings**: the settings dialog.
- **Models**: the settings object and the observable game.

Four shared modules support them:

- **Text**: the .NET string operations used, with case mapping on ASCII letters.
- **Paths**: `Path.Combine`, file names and the file system as a value.
- **Json**: a parsed JSON value.
- **Collections**: order-keeping de-duplication.

Where the source mutates state, the model does too. `Config`, `Game`,
`SearchCache`, `SteamSession`, `IconCacheDir`, `InjectorSettings`,
`GreenLumaFolder`, `ProfileStore`, `ConfigStore`, `PluginRegistry`,
`MainWindow`, `CreateProfileDialog` and `SettingsDialog` are classes whose
methods update their fields. Each method is proved against a function of the
old state, and the properties are proved about those functions. Pure code,
such as scoring, version keys, name sanitising and INI line rewriting, is
written as functions with lemmas.

I/O is replaced by values:

- HTTP answers, store answers and downloads become parameters, as do PICS (Steam product-info) responses, given as attempt outcomes.
- The disk is a `FileSystem` value (file and directory names) or a map from file name to contents.
- The clock is an integer parameter.

## Model

| member | source | states |
|---|---|---|
| Collections.Distinct | Services/GreenLumaService.cs:74-77 | `Distinct()` keeps exactly the input's elements, with no duplicates and no more than the input holds. |
| Collections.DistinctOrder | Services/GreenLumaService.cs:74-77 | `Distinct()` keeps first occurrences in their input order. |
| Models.Config.constructor | Models/Config.cs:8-19 | A new Config has empty Steam and GreenLuma paths, NoHook, DisableUpdateCheck and ReplaceSteamAutostart off, AutoUpdate and CheckUpdate on, LastProfile "default" and FirstRun on. |
| Models.Game.constructor | Models/Game.cs:9-15 | A new game's IconUrl is "" and no change has been notified. |
| Models.Game.SetIconUrl | Models/Game.cs:17-29 | After the setter, IconUrl reads the value. A different value raises exactly one "IconUrl" change notification. The current value raises none. |
| Search.InOrderIffSubsequence | Services/SearchService.cs:152-165 | The greedy in-order scan succeeds exactly when the query is a subsequence of the text, for every query and text. |
| Search.ContainsAllCharsInOrder | Services/SearchService.cs:152-165 | The loop advancing charIndex returns exactly whether the query occurs in order in the text. An empty query always passes. |
| Search.MatchingWords | Services/SearchService.cs:124-125 | The number of matching query words never exceeds the number of query words. |
| Search.LengthPenalty | Services/SearchService.cs:133 | The length penalty, with C#'s truncating division, is never negative. It is 0 for names shorter than 2·query+10. Ten times it never exceeds the name's length. |
| Search.CalculateScore | Services/SearchService.cs:102-143 | Every score is ≥ 0. An empty name scores 0. A non-empty name whose lower case equals the query scores exactly 10000. |
| Search.WordCannotStartWithSpacedQuery | Services/SearchService.cs:116-122 | A word split at separators that include ' ' never starts with a query containing a space. |
| Search.NonExactScoreBound | Services/SearchService.cs:113-142 | A name that is not an exact match scores at most 9600. The +3000 and +500 bonuses exclude the +2000 bonus. |
| Search.ExactMatchOutranks | Services/SearchService.cs:110-111 | An exact match scores strictly more than any other name. |
| Search.Scores | Services/SearchService.cs:81 | Each catalog entry gets the score CalculateScore gives its name. |
| Search.Candidates | Services/SearchService.cs:82 | The filter keeps only positively scored entries, each with its true score and catalog position, in catalog order. |
| Search.CandidatesComplete | Services/SearchService.cs:82 | Every positively scored entry survives the filter. |
| Search.Insert | Services/SearchService.cs:83 | Insertion adds exactly the one element, as a multiset. |
| Search.InsertOrdered | Services/SearchService.cs:83 | Inserting an entry that lies before all others in the catalog keeps the list ordered: by descending score, ties in catalog order. |
| Search.SortByScore | Services/SearchService.cs:83 | The sort is a permutation of its input. |
| Search.SortByScoreOrdered | Services/SearchService.cs:83 | Sorting entries given in catalog order yields descending scores with ties in catalog order, as the stable OrderByDescending does. |
| Search.Rank | Services/SearchService.cs:80-83 | The ranking is ordered and holds only positively scored catalog entries with their scores. |
| Search.RankComplete | Services/SearchService.cs:80-83 | Every positively scored catalog entry is ranked. |
| Search.Take | Services/SearchService.cs:84 | Take(n) is the prefix of length min(n, len). It is empty for n ≤ 0 and the whole list for n ≥ len. |
| Search.SearchCatalog | Services/SearchService.cs:70-91 | A blank or one-character query, or maxResults ≤ 0, gives nothing. At most maxResults games are returned, all of type "Game", built from the truncated ranking. |
| Search.SearchResultsRanked | Services/SearchService.cs:80-91 | Every result comes from a catalog entry with a positive score. Results are in non-increasing score order. |
| Search.TruncationKeepsBest | Services/SearchService.cs:83-84 | A positively scored entry left out by the truncation scores no more than any entry returned. |
| Search.ValidApps | Services/SearchService.cs:50-55 | The catalog holds exactly the downloaded entries whose id and name are both non-blank. |
| Search.SearchCache.constructor | Services/SearchService.cs:15-18 | The caches start empty. |
| Search.SearchCache.GetAppList | Services/SearchService.cs:35-68 | While the cache is unexpired, it is returned unchanged. Otherwise a successful download is filtered, cached and returned with a 24-hour expiry. A failed download returns the previous catalog, or nothing if there is none. |
| Search.SearchCache.SearchAsync | Services/SearchService.cs:70-100 | A blank or one-character query returns nothing and leaves the caches untouched. Otherwise the details cache is kept, and the result is SearchCatalog over the catalog that GetAppList yields for the old state: the cached catalog while it is fresh (cache unchanged), else the valid entries of a download (stored, expiry restarted), else the previous catalog or [] (cache unchanged). |
| Search.SearchCache.ApplyCachedDetails | Services/SearchService.cs:257-270 | A game with cached details takes their type, and also their icon when that is non-empty. Other games are untouched. |
| Search.MapSteamTypeToDisplayType | Services/SearchService.cs:343-358 | The result is always one of the nine display types. Any type outside the table maps to "Game". |
| Search.FirstReachable | Services/SearchService.cs:312-341 | The chosen URL is the first reachable candidate. Nothing is chosen only when no candidate is reachable. |
| Search.FetchGameDetails | Services/SearchService.cs:272-310 | The logo is always empty, and IsGame holds exactly when the type is "Game". A usable store answer gives exactly StoreDetails. Without one, the type is "Game" and the icon is the first reachable CDN image, or "". |
| Search.StoreDetailsCases | Services/SearchService.cs:280-298 | Details are read exactly when the entry is an object whose "success" reads as true, whose "data" is an object, and which names a non-empty header or capsule image. The header wins when it is non-empty. The type is the lower-cased "type" mapped to its display name, or "Game" when absent. |
| Search.StoreDetails | Services/SearchService.cs:280-298 | Any details read have a non-empty icon, an empty logo, and IsGame exactly when the type is "Game" (the cases are in StoreDetailsCases). |
| Search.FetchIconUrl | Services/SearchService.cs:360-368 | A game that already has an icon is untouched. Otherwise it takes the icon URL and type that FetchGameDetails gives for its app id. |
| Steam.FirstNamed | Services/SteamService.cs:107 | The indexer finds a child whose name matches ignoring case. It yields Invalid exactly when no child matches. |
| Steam.Route | Services/SteamService.cs:197-214 | A depot is sent to a DLC only when that DLC is listed. |
| Steam.RouteMeaning | Services/SteamService.cs:199-213 | A child is skipped exactly when its name is not a uint, is the app's own id, or has neither "manifests" nor "depotfromapp". Otherwise it goes to the listed DLC its "dlcappid" names, or else to the own depots. |
| Steam.Routes | Services/SteamService.cs:197-214 | There is one destination per child, and every DLC destination is a listed DLC. |
| Steam.KeptDepotsPartitioned | Services/SteamService.cs:208-213 | Every kept depot lands in exactly one list, as a multiset: either the own depots or one DLC's depots. |
| Steam.DlcList | Services/SteamService.cs:189-191 | A missing or empty listofdlc gives no DLCs. Every DLC id is non-empty and contains no ','. |
| Steam.DlcListOfPieces | Services/SteamService.cs:191 | For a listofdlc made of comma-separated pieces, the DLC ids are exactly the non-empty pieces, in order. |
| Steam.ParseAppPackageInfo | Services/SteamService.cs:175-217 | Nothing is returned exactly when common/type is "depot" in any case. Otherwise the result is the app id, the listed DLCs, each DLC's routed depots in order, and the own depots in order. |
| Steam.SortDepots | Services/SteamService.cs:193-214 | The depot loop gives every listed DLC a list, holding exactly the depots routed to it, in order. The own list holds the depots routed there. |
| Steam.EmptyLists | Services/SteamService.cs:193-194 | Every listed DLC starts with an empty depot list. |
| Steam.UnroutedDlcEmpty | Services/SteamService.cs:208-211 | A listed DLC that no depot names keeps an empty list. |
| Steam.MapSteamTypeToDisplayType | Services/SteamService.cs:264-279 | The result is always one of the nine display types. A type outside the table, in any case, maps to "Game". |
| Steam.TypeMapIgnoresCase | Services/SteamService.cs:266 | Two spellings that differ only in letter case map to the same display type. |
| Steam.RecordFallbacks | Services/SteamService.cs:109-124 | The name is "App {id}" only when common/name is missing. The type is "Game" when common/type is missing, otherwise the mapped type. An empty header_image falls back to its "english" child. |
| Steam.LastWins | Services/SteamService.cs:126 | Dictionary assignment in order: the keys are exactly the ids of the entries. |
| Steam.LastWinsValues | Services/SteamService.cs:126 | Each key holds the value of its last entry, since a later assignment replaces an earlier one. |
| Steam.Records | Services/SteamService.cs:103-136 | The result map holds exactly the ids present in the response. |
| Steam.RecordsValues | Services/SteamService.cs:103-136 | Each id holds the record built from its last entry in the response. |
| Steam.RecordsCount | Services/SteamService.cs:138 | results.Count > 0 exactly when the response lists an app. |
| Steam.BatchResultFromAnswers | Services/SteamService.cs:103-146 | Only ids present in some answer appear in the result. |
| Steam.GetAppInfoBatch | Services/SteamService.cs:68-147 | At most MaxRetries + 1 = 3 attempts are made. The loop stops at the first answer with apps: every earlier attempt brought none, and stopping before the last attempt means the last one made brought apps. The result is that answer's records, or nothing. |
| Steam.NoAnswer | Services/SteamService.cs:140-146 | When no attempt brings an app, the result is empty. |
| Steam.FirstAnswer | Services/SteamService.cs:138 | The result is the records of the first attempt that brings apps. |
| Steam.SteamSession.constructor | Services/SteamService.cs:18-31 | Not connected, not logged on, neither signal completed. |
| Steam.SteamSession.OnConnected | Services/SteamService.cs:237-242 | Sets the connected flag, completes its signal and requests one anonymous log-on. Nothing else changes. |
| Steam.SteamSession.OnDisconnected | Services/SteamService.cs:244-253 | Clears both flags and leaves the signals completed. So a session that was ready once never waits in EnsureReadyAsync again. |
| Steam.SteamSession.OnLoggedOn | Services/SteamService.cs:255-262 | Only an OK result sets the logged-on flag and completes its signal. |
| IconCache.BuildCandidateUrls | Services/IconCacheService.cs:54-66 | Seven candidates: the primary URL first, then header.jpg on the Cloudflare, Akamai and steamcdn-a hosts in that order, then capsule_231x87, capsule_616x353 and library_600x900 on the Cloudflare host. |
| IconCache.CdnUrlsDistinct | Services/IconCacheService.cs:54-66 | The six CDN URLs are pairwise different for every app id, so removing duplicates can drop only the primary URL. |
| IconCache.Candidates | Services/IconCacheService.cs:31 | The candidates with duplicates removed: exactly the same URLs, each once. |
| IconCache.CandidatesStartWithPrimary | Services/IconCacheService.cs:54-56 | The primary URL is always tried first. |
| IconCache.GetImageExtension | Services/IconCacheService.cs:179-200 | The result is always one of .jpg, .png, .gif or .webp. ".jpg"/"jpeg" is checked first. .png, .gif and .webp are each chosen exactly when the URL mentions them and no earlier one. |
| IconCache.FirstAccepted | Services/IconCacheService.cs:79-80 | A body is accepted only when it is longer than 256 bytes. |
| IconCache.FirstAcceptedIsFirst | Services/IconCacheService.cs:70-91 | The result is the body of the earliest accepted response in range. It is nothing only when every request in range is refused. |
| IconCache.TryDownloadWithRetries | Services/IconCacheService.cs:68-92 | At most maxAttempts requests are made. The first body over 256 bytes is returned, or nothing. |
| IconCache.CachePaths | Services/IconCacheService.cs:34-35 | There is one cache file per candidate. |
| IconCache.Download | Services/IconCacheService.cs:38 | A downloaded icon is always longer than 256 bytes. |
| IconCache.Settle | Services/IconCacheService.cs:32-44 | A cached outcome names a non-empty existing file. A downloaded one carries more than 256 bytes. |
| IconCache.SettleMisses | Services/IconCacheService.cs:32-51 | The loop ends with nothing exactly when no candidate has a cached file or a successful download. |
| IconCache.SettleStopsAtFirst | Services/IconCacheService.cs:36-43 | The loop settles at the first candidate with a non-empty cached file or an accepted download. Later candidates are never tried. |
| IconCache.FirstCached | Services/IconCacheService.cs:104-111 | The result is the first extension, in probe order, whose file exists. It is nothing exactly when none exists. |
| IconCache.Survivors | Services/IconCacheService.cs:155-161 | A file is kept exactly when its name without extension is a valid id. Kept files are unchanged. |
| IconCache.PrunedKeeps | Services/IconCacheService.cs:156-161 | Deleting along the listing keeps exactly the files whose stem is valid, unchanged. |
| IconCache.PrunedIsSurvivors | Services/IconCacheService.cs:155-161 | When the listing covers the directory, the result of deleting along it is the same whatever its order. |
| IconCache.ValidAppIds | App.xaml.cs:23-26 | The valid ids are exactly the non-blank AppIds of the games of all profiles. |
| IconCache.CacheFileName | Services/IconCacheService.cs:35 | The cache file of a numeric id has that id as its name without extension. |
| IconCache.ListedIconSurvives | Services/IconCacheService.cs:159-161 | An icon cached for a numeric AppId still in some profile survives the clean-up. |
| IconCache.IconCacheDir.DownloadAndCacheIcon | Services/IconCacheService.cs:22-52 | An empty id or URL, or a URL not starting with "http" in any case, gives nothing and leaves the cache untouched. Otherwise the directory is created and the candidate loop decides the result and the new files. |
| IconCache.IconCacheDir.TryCandidates | Services/IconCacheService.cs:32-44 | A cached file is returned as is. Otherwise the first download is written to its cache file and returned. When nothing settles, the files are unchanged. |
| IconCache.IconCacheDir.GetCachedIconPath | Services/IconCacheService.cs:94-119 | An empty id or a missing directory gives nothing. Otherwise the result is the first of .jpg, .jpeg, .png, .gif, .webp that exists. |
| IconCache.IconCacheDir.DeleteCachedIcon | Services/IconCacheService.cs:121-147 | Only the first file that GetCachedIconPath would find is deleted. Every other file stays. |
| IconCache.IconCacheDir.DeleteUnusedIcons | Services/IconCacheService.cs:149-172 | Afterwards the directory holds exactly the survivors: the files whose stem is a valid id, unchanged. A missing directory is untouched. |
| GreenLuma.EntriesOfMeaning | Services/GreenLumaService.cs:338 | The enumerated entries are exactly the dictionary's key/value pairs, with every stored key listed. |
| GreenLuma.InjectorSettings.constructor | Services/GreenLumaService.cs:256 | A new settings dictionary is empty. |
| GreenLuma.InjectorSettings.Set | Services/GreenLumaService.cs:258-320 | dict[key] = value overwrites that key's value only. |
| GreenLuma.InjectorSettings.ApplyStealthMode | Services/GreenLumaService.cs:302-310 | Stealth mode sets CommandLine "", WaitForProcessTermination " 0", EnableFakeParentProcess " 1", EnableMitigationsOnChildProcess " 0", CreateFiles " 2" and FileToCreate_2 " StealthMode.bin". Nothing else changes. |
| GreenLuma.InjectorSettings.ApplyNormalMode | Services/GreenLumaService.cs:312-322 | Normal mode sets CommandLine " -inhibitbootstrap", WaitForProcessTermination " 1", EnableFakeParentProcess " 0" and CreateFiles " 1". FileToCreate_2 becomes "" only when it is absent. Nothing else changes. |
| GreenLuma.PathSettingsKept | Services/GreenLumaService.cs:261-288 | The path settings depend only on UseFullPathsFromIni, Exe and Dll. |
| GreenLuma.AddPathSettings | Services/GreenLumaService.cs:261-288 | With separate paths: UseFullPathsFromIni " 1", Exe the quoted full Steam.exe path, and Dll quoted (rooted as is, else combined with the GreenLuma path). Otherwise: " 0", " Steam.exe" and " {dll}". There is no Dll without a non-blank DLL value. No other key changes. |
| GreenLuma.BuildInjectorSettings | Services/GreenLumaService.cs:249-300 | FileToCreate_1 is always " NoQuestion.bin". The path settings follow the separate-paths rule: different directories, or a rooted DLL value. NoHook gives the stealth values, otherwise the normal values. |
| GreenLuma.BuildSettings | Services/GreenLumaService.cs:256-299 | The same results, once the separate-paths decision is made. |
| GreenLuma.StealthModeEffect | Services/GreenLumaService.cs:302-310 | The stealth values leave FileToCreate_1 and the path settings alone. |
| GreenLuma.NormalModeEffect | Services/GreenLumaService.cs:312-322 | The normal values leave FileToCreate_1, the path settings and the mitigation switch alone, and keep an existing FileToCreate_2. |
| GreenLuma.DllValueMeaning | Services/GreenLumaService.cs:229-246 | A DLL value never starts with whitespace. It always comes from a "Dll" line holding an '='. |
| GreenLuma.ExtractDllValue | Services/GreenLumaService.cs:227-247 | The scan returns the value of the first line whose trimmed form starts with "Dll" in any case. That is the text after '=' with leading whitespace removed. If that line has no '=', or ends with it, the result is null and no later line is read. |
| GreenLuma.FirstMatchMeaning | Services/GreenLumaService.cs:338-346 | A match is a setting whose key equals the line's key ignoring case. There is none exactly when no setting's key does. |
| GreenLuma.ApplyLineMeaning | Services/GreenLumaService.cs:330-352 | Blank lines, '#' comments, lines without '=' and lines whose key matches no setting are copied unchanged. A line whose key matches a setting becomes "Key=Value" with the setting's spelling. |
| GreenLuma.FirstMatchIsFirst | Services/GreenLumaService.cs:338-345 | The first setting in enumeration order whose key matches is the one written. |
| GreenLuma.UntouchedLine | Services/GreenLumaService.cs:333-352 | A line that is not an assignment of a setting's key is never changed. |
| GreenLuma.ApplySettings | Services/GreenLumaService.cs:324-356 | The result is each input line rewritten in place, with the same count and order. No setting is ever appended. |
| GreenLuma.AppListNamesDiffer | Services/GreenLumaService.cs:81 | Different positions get different file names. |
| GreenLuma.AppListFilesContents | Services/GreenLumaService.cs:79-83 | File i.txt holds the i-th id, and there is no file for any other name. |
| GreenLuma.AppListFilesHaveIds | Services/GreenLumaService.cs:79-83 | File i.txt holds the i-th id, for every i. |
| GreenLuma.AppListFilesOnlyIds | Services/GreenLumaService.cs:79-83 | No file other than 0.txt up to (n-1).txt is written. |
| GreenLuma.GreenLumaFolder.WriteAppListFiles | Services/GreenLumaService.cs:72-84 | The AppList folder holds exactly 0.txt to (n-1).txt. File i holds the i-th distinct AppId of the profile, in first-occurrence order. |
| GreenLuma.GreenLumaFolder.UpdateInjectorIni | Services/GreenLumaService.cs:206-225 | A missing DLLInjector.ini is left absent. Otherwise the ini keeps its line count, and every line that is not a setting's assignment stays as it was. |
| GreenLuma.GreenLumaFolder.GenerateAppList | Services/GreenLumaService.cs:30-70 | The result is true exactly when the GreenLuma path is non-blank and exists. Otherwise nothing changes. On success, the AppList folder holds exactly the files i.txt, each with the i-th distinct AppId, and no stale file. DLLInjector.ini keeps its presence and line count, and its untouched lines. IsAppListGenerated then holds for a profile with games. |
| GreenLuma.GeneratedFolderHasTxt | Services/GreenLumaService.cs:74-83 | A profile with games yields at least one id, so at least one .txt file. |
| GreenLuma.LowerTxtName | Services/GreenLumaService.cs:81 | Every AppList file name ends in ".txt". |
| Update.KeyTextParts | Services/UpdateService.cs:93-122 | The key is "{major:D5}.{minor:D5}.{patch:D5}.{rcMajor:D4}.{rcMinor:D4}". |
| Update.FieldsTextOrder | Services/UpdateService.cs:71-72 | For fields that fit their widths, the zero-padded texts compare ordinally in the lexicographic order of the fields, in both directions. |
| Update.KeyOrder | Services/UpdateService.cs:63-72 | For in-range fields, one key compares greater than another, ordinal and ignoring case, exactly when its version is newer. It compares less exactly when its version is older. |
| Update.KeyFits | Services/UpdateService.cs:93-122 | In-range fields fit the key widths, and the key has no lower-case letter. |
| Update.ParseVersionPartOfNumber | Services/UpdateService.cs:125-134 | A part that is the decimal text of a number up to int.MaxValue parses to that number. |
| Update.BlankVersionKey | Services/UpdateService.cs:80-83 | A blank version normalizes to "00000.00000.00000.0000.0000". |
| Update.ZeroKey | Services/UpdateService.cs:83 | The all-zero fields print as "00000.00000.00000.0000.0000". |
| Update.ReleaseKey | Services/UpdateService.cs:96-107 | A version without '-' gets ".9999.9999" after its release number. |
| Update.OtherPreReleaseKey | Services/UpdateService.cs:109-122 | A pre-release suffix that does not start with "rc" gets ".0000.0000". |
| Update.LegacyCandidateKey | Services/UpdateService.cs:85-94 | A cleaned version starting with "rc" without ".0.0" becomes "00001.00000.00000.{rcMajor:D4}.{rcMinor:D4}". |
| Update.ReleaseFields | Services/UpdateService.cs:96-107 | A tag "M.m.p", with or without a leading "v", cleans to itself and normalizes with release M.m.p and 9999 in both candidate places. |
| Update.CandidateFields | Services/UpdateService.cs:109-120 | A tag "M.m.p-rcN" normalizes with release M.m.p, N in the first candidate place and 0 in the second. |
| Update.LegacyFields | Services/UpdateService.cs:85-94 | A tag "rcN.K" normalizes under release 1.0.0, with N and K in the candidate places. |
| Update.ShippedVersionKey | MainWindow.xaml.cs:25 | The running version "RC1.1" normalizes as release 1.0.0, candidate 1.1. |
| Update.ReleaseAboveCandidates | Services/UpdateService.cs:104-122 | A release M.m.p sorts above each of its "-rcN" candidates for N < 9999. |
| Update.CandidateDecides | Services/UpdateService.cs:119 | Within one release, the first candidate number decides. |
| Update.ReleaseKeyOf | Services/UpdateService.cs:106 | NormalizeVersion of "M.m.p" is the key of (M, m, p, 9999, 9999). |
| Update.CandidateKeyOf | Services/UpdateService.cs:119 | NormalizeVersion of "M.m.p-rcN" is the key of (M, m, p, N, 0). |
| Update.CandidatesInOrder | Services/UpdateService.cs:109-120 | Release candidates of one release sort by their number. |
| Update.DisplayMarksCandidates | Services/UpdateService.cs:136-155 | The display form starts with "RC" exactly when the cleaned tag contains "-rc" or starts with "rc". |
| Update.DisplayOfRelease | Services/UpdateService.cs:138-154 | A release tag is displayed as written, without a leading "v". |
| Update.DisplayOfCandidate | Services/UpdateService.cs:140-146 | "M.m.p-rcN" is displayed as "RC" + N. |
| Update.UnescapePlain | Services/UpdateService.cs:59-61 | A body without "\n" or "\r" escapes is kept as it is. |
| Update.UnescapeBreaks | Services/UpdateService.cs:59-61 | The first "\n" or "\r" escape, after text without backslashes, becomes a line feed or a carriage return, and the rest of the body is unescaped in turn. |
| Update.ParseUpdateInfo | Services/UpdateService.cs:48-76 | There is an update info exactly when a tag was captured. |
| Update.UpdateOfferedIffNewer | Services/UpdateService.cs:63-72 | For a tag whose fields fit the key widths, UpdateAvailable holds exactly when the tag is a newer version than the running one. |
| Update.ReleasesAreOffered | Services/UpdateService.cs:63-72 | Every release from 1.0.0 on is offered, and displayed as its tag. |
| Update.ReleaseNewerThanShipped | Services/UpdateService.cs:63-72 | Every release from 1.0.0 on is newer than the shipped RC1.1. |
| Update.SameVersionNotOffered | Services/UpdateService.cs:71-72 | The running version's own tag is never offered. |
| Profiles.SanitizeFileName | Services/ProfileService.cs:169-174 | The length is kept. Exactly the invalid file-name characters become '_'; every other character is kept. |
| Profiles.SanitizedNameIsValid | Services/ProfileService.cs:169-174 | A sanitized name holds no invalid file-name character. |
| Profiles.SanitizeKeepsValidNames | Services/ProfileService.cs:169-174 | A valid name is kept as it is, so sanitizing is idempotent. |
| Profiles.SanitizedWithoutUnderscore | Services/ProfileService.cs:169-174 | A sanitized name without '_' comes from exactly that name. |
| Profiles.SharedFileIff | Services/ProfileService.cs:147-151 | On a file system that ignores letter case, two names share a profile file exactly when their sanitized forms are equal ignoring case. |
| Profiles.CaseVariantsShareFile | Services/ProfileService.cs:147-151 | Names equal ignoring case, such as "FOO" and "foo", share one file. |
| Profiles.NamesDifferingInInvalidCharsShareFile | Services/ProfileService.cs:147-151 | Names that differ only in which invalid characters they hold share one file. |
| Profiles.AbsentMembersLoadEmpty | Services/ProfileService.cs:153-159 | A game without "IconUrl", or with it null, loads with an empty IconUrl. A profile without "Games" loads with no games. |
| Profiles.ProfileRoundTrip | Services/ProfileService.cs:153-167 | Deserializing a serialized profile gives it back. |
| Profiles.GamesRoundTrip | Services/ProfileService.cs:153-167 | Deserializing a serialized game list gives it back. |
| Profiles.Export | Services/ProfileService.cs:122-132 | Importing an exported profile gives it back. |
| Profiles.Import | Services/ProfileService.cs:134-145 | A missing or unparsable source imports nothing. |
| Profiles.LoadAfterSave | Services/ProfileService.cs:73-102 | After Save, Load of the same name gives the saved profile. |
| Profiles.SaveAffectsOnlyItsFile | Services/ProfileService.cs:90-102 | Saving changes only the load of names whose sanitized forms equal the saved one's ignoring case. Those names then load the saved profile. |
| Profiles.LoadAfterDelete | Services/ProfileService.cs:104-120 | A deleted profile no longer loads, unless it is "default" in any case, whose delete changes nothing. |
| Profiles.DeleteKeepsDefault | Services/ProfileService.cs:108-109 | No delete, whatever the name, changes what "default" loads. |
| Profiles.MigrateGamesConverts | Services/ProfileService.cs:209-215 | The RC3 games convert exactly when every entry is an object. |
| Profiles.MigratedGamesContent | Services/ProfileService.cs:209-216 | The migrated games are exactly the converted entries with a non-empty AppId. Each has an empty IconUrl. |
| Profiles.MigrationCondition | Services/ProfileService.cs:192-218 | A file is migrated exactly when it is an object whose "games" is a non-empty array of objects, the first with an "id". |
| Profiles.MigrationDefaults | Services/ProfileService.cs:204-217 | The profile is named after "name", or "default" without it. Every game has a non-empty AppId, and Type is "type" or "Game". |
| Profiles.SavedProfilesAreNotMigrated | Services/ProfileService.cs:194-197 | A file in the saved form has "Games", not "games", and is never migrated. |
| Profiles.MigrationOnlyWritesProfiles | Services/ProfileService.cs:176-231 | Migration removes no file, and every file it writes holds a profile that loads. |
| Profiles.NothingToMigrate | Services/ProfileService.cs:187-226 | A directory where no listed file migrates is left as it is. |
| Profiles.LoadedFromMembers | Services/ProfileService.cs:55-71 | A profile is loaded exactly when some listed file deserializes to it. |
| Profiles.LoadedFromEmpty | Services/ProfileService.cs:55-71 | Nothing is loaded exactly when no listed file deserializes. |
| Profiles.ProfileStore.constructor | Services/ProfileService.cs:14-17 | The store describes a given directory, and a missing directory holds no file. |
| Profiles.ProfileStore.EnsureDirectory | Services/ProfileService.cs:39-45 | Afterwards the directory exists and its files are unchanged. |
| Profiles.ProfileStore.Save | Services/ProfileService.cs:90-102 | The directory exists, and the profile's file holds its saved form. Nothing else changes. |
| Profiles.ProfileStore.Load | Services/ProfileService.cs:73-88 | The result is the profile in the named profile's file, if that file exists and deserializes. |
| Profiles.ProfileStore.Delete | Services/ProfileService.cs:104-120 | "default", in any letter case, is never deleted. Otherwise only the named profile's file goes. |
| Profiles.ProfileStore.TryMigrateProfilesFromRC3 | Services/ProfileService.cs:176-231 | A missing directory is untouched. Otherwise each listed *.json file is migrated in listing order. |
| Profiles.ProfileStore.LoadProfilesFromDirectory | Services/ProfileService.cs:55-71 | The result is the profiles of the listed *.json files that deserialize, in listing order. |
| Profiles.ProfileStore.LoadAll | Services/ProfileService.cs:19-37 | The result is never empty. When no file loads after migration, a "default" profile is saved and returned alone. Otherwise the loaded profiles are returned and nothing more is written. |
| Configuration.ConfigRoundTrip | Services/ConfigService.cs:57-69 | Deserializing the serialized settings gives them back. |
| Configuration.MigrationCondition | Services/ConfigService.cs:71-104 | A file migrates exactly when it is a JSON object with "steam_path" whose present switches all convert to booleans. A file without "steam_path", such as a current one with "SteamPath", does not migrate. |
| Configuration.SwitchOrConverts | Services/ConfigService.cs:85-90 | `?.ToObject<bool>() ?? fallback` succeeds exactly when the key is absent or holds a boolean. |
| Configuration.MigrationDefaults | Services/ConfigService.cs:81-92 | A migrated config always has FirstRun off. Absent keys take their defaults: "" paths, AutoUpdate and CheckUpdate on, NoHook, DisableUpdateCheck and ReplaceSteamAutostart off, LastProfile "default". |
| Configuration.SavedConfigIsNotMigrated | Services/ConfigService.cs:77 | A file Save wrote has "SteamPath", not "steam_path", and is never migrated. |
| Configuration.LoadAfterSave | Services/ConfigService.cs:19-38 | What Save wrote is what the next Load returns. |
| Configuration.MalformedLoadsDefaults | Services/ConfigService.cs:32-37 | Text that does not parse loads as a new Config. |
| Configuration.Detected | Services/ConfigService.cs:45-55 | First-start settings are a new Config's defaults with the detected paths, FirstRun on. |
| Configuration.ConfigStore.Save | Services/ConfigService.cs:106-119 | The directory exists and config.json holds the serialized settings. |
| Configuration.ConfigStore.CreateDefaultConfig | Services/ConfigService.cs:45-55 | The new Config holds the detected settings, and they are saved. |
| Configuration.ConfigStore.Load | Services/ConfigService.cs:19-38 | A failure to create the directory gives a new Config and changes nothing. A failure to read an existing file gives a new Config, with the directory kept and the file unchanged. A missing file gives the detected settings, saved. An existing file is migrated, else deserialized, else replaced by defaults, and is never written back. |
| Configuration.ConfigStore.WipeData | Services/ConfigService.cs:129-141 | The configuration directory is gone with everything in it: config.json, the profiles directory and its files, the icon cache directory and its files, plugins.json and the plugins directory. The registry and the plug-ins already loaded stay in memory. |
| Plugins.WithoutCounts | Services/PluginService.cs:237 | `RemoveAll` takes every entry with the id out and keeps every other entry as often as before. |
| Plugins.WithoutMembers | Services/PluginService.cs:237 | An entry survives `RemoveAll` exactly when its id differs. |
| Plugins.WithoutNoMatch | Services/PluginService.cs:237 | Removing an id no entry has leaves the registry unchanged. |
| Plugins.IndexOfId | Services/PluginService.cs:260-261 | `FirstOrDefault` finds the first entry with the id, or reports that none has it. |
| Plugins.OnlyEnabledLoad | Services/PluginService.cs:79-98 | Every loaded plug-in is an enabled registry entry whose file exists, and no more are loaded than registered. |
| Plugins.DisabledLoadNothing | Services/PluginService.cs:79 | A registry with every plug-in disabled loads nothing. |
| Plugins.ImportedFileName | Services/PluginService.cs:146-148 | The stored FileName of an import is "{id}_{original file name}". |
| Plugins.PluginRegistry.constructor | Services/PluginService.cs:22-23 | The registry and the loaded list start empty. |
| Plugins.PluginRegistry.Initialize | Services/PluginService.cs:25-59 | The registry is the list plugins.json last saved, or empty when the file is missing or unreadable, and then the enabled plug-ins are loaded. |
| Plugins.PluginRegistry.LoadPlugins | Services/PluginService.cs:77-104 | Exactly the enabled entries whose file exists and holds a usable plug-in type are loaded, in registry order. Nothing else changes. |
| Plugins.PluginRegistry.GetAllPlugins | Services/PluginService.cs:135-138 | The result is the registry's contents. |
| Plugins.PluginRegistry.ImportPlugin | Services/PluginService.cs:140-178 | A missing file, a missing manifest, and a name already installed (compared ignoring case) each return their message and change nothing. Otherwise the file is copied as "{id}_{name}", one enabled entry with the manifest's values is appended and saved, and the result is "". |
| Plugins.PluginRegistry.RemovePlugin | Services/PluginService.cs:215-254 | The first loaded instance is unloaded, every entry with the id leaves the saved registry, and the plug-in file is deleted. |
| Plugins.PluginRegistry.TogglePlugin | Services/PluginService.cs:256-289 | An unknown id changes nothing. Otherwise only the first matching entry's IsEnabled changes, the registry is saved, and disabling unloads the plug-in. |
| Plugins.PluginRegistry.OnApplicationShutdown | Services/PluginService.cs:119-133 | Every loaded plug-in is unloaded, and the registry is kept. |
| ProfileDialog.SeparatorChecksRedundant | Dialogs/CreateProfileDialog.xaml.cs:105-110 | The extra '/' and '\' checks reject no name that the invalid file-name characters do not already reject. |
| ProfileDialog.CheckProfileNameSpec | Dialogs/CreateProfileDialog.xaml.cs:73-103 | A name is accepted exactly when it is not blank, has at most 50 characters and holds no invalid file-name character. Checks run in order: blank before length, length before characters. |
| ProfileDialog.TypedTextIsValidFileName | Dialogs/CreateProfileDialog.xaml.cs:38-46 | Text the input filter lets through holds no invalid file-name character. |
| ProfileDialog.CreateProfileDialog.constructor | Dialogs/CreateProfileDialog.xaml.cs:14-20 | The dialog opens with no Result. |
| ProfileDialog.CreateProfileDialog.PreviewTextInput | Dialogs/CreateProfileDialog.xaml.cs:38-46 | Input is blocked exactly when some character is not a letter, digit, ' ', '-' or '_'. Accepted input is inserted at the caret. |
| ProfileDialog.CreateProfileDialog.Ok | Dialogs/CreateProfileDialog.xaml.cs:61-71 | A refused trimmed name leaves the dialog open with no Result. An accepted one becomes Result, a profile with no games, and the dialog closes with true. |
| ProfileDialog.CreateProfileDialog.Cancel | Dialogs/CreateProfileDialog.xaml.cs:112-116 | The dialog closes with false and no Result. |
| ProfileDialog.CreatedNameIsClean | Dialogs/CreateProfileDialog.xaml.cs:63-68 | A created profile's name is trimmed, not blank, at most 50 characters, and free of invalid file-name characters. |
| Settings.NormalizePathSpec | Dialogs/SettingsDialog.xaml.cs:177-182 | The normalized path is the trimmed text without its trailing separators. It never ends in a separator, and it is empty exactly when the trimmed text is all separators. |
| Settings.ValidatePathsSpec | Dialogs/SettingsDialog.xaml.cs:184-229 | Paths pass exactly when neither is blank, both directories exist, Steam.exe is in the first and DLLInjector.exe in the second. Each refusal names the first failing check. |
| Settings.AcceptedPathsAreClean | Dialogs/SettingsDialog.xaml.cs:158-166 | Accepted paths come from non-blank text and are non-empty without a trailing separator. |
| Settings.SettingsDialog.constructor | Dialogs/SettingsDialog.xaml.cs:19-40 | The controls show the settings, and auto-update is unchecked when the update check is disabled. |
| Settings.SettingsDialog.UpdateAutoUpdateVisibility | Dialogs/SettingsDialog.xaml.cs:142-154 | The auto-update box is enabled exactly when the update check is on. A disabled box is unchecked. |
| Settings.SettingsDialog.DisableUpdateCheckChanged | Dialogs/SettingsDialog.xaml.cs:137-140 | Toggling the update check re-applies that rule. |
| Settings.SettingsDialog.AutoUpdateClicked | Dialogs/SettingsDialog.xaml.cs:148-152 | Only an enabled auto-update box can be checked, and the rule still holds afterwards. |
| Settings.SettingsDialog.Ok | Dialogs/SettingsDialog.xaml.cs:156-175 | A refusal writes nothing and keeps the dialog open. Otherwise the normalized paths and the three switches are stored and saved, the dialog closes with true, and auto-update is never on with the update check disabled. |
| Settings.SettingsDialog.Cancel | Dialogs/SettingsDialog.xaml.cs:231-235 | The dialog closes with false, and nothing is written. |
| Window.SearchQuerySpec | MainWindow.xaml.cs:346-367 | A query is searched exactly when it is not blank and has 3 to 200 characters. Checks run in order. |
| Window.DotsCycle | MainWindow.xaml.cs:87-91 | The loading text always has 1 to 3 dots and cycles ".", "..", "...". |
| Window.ImportCheckAgreesWithDialog | MainWindow.xaml.cs:823-839 | The import name check accepts exactly the names the create-profile dialog accepts. |
| Window.RealNamesMembers | MainWindow.xaml.cs:106-112 | The listed names are loaded profile names and never "\_\_empty\_\_". |
| Window.ListedProfilesShape | MainWindow.xaml.cs:102-134 | The profile box holds at least two entries. The placeholder is there exactly when at most one real profile loaded, and then as the last entry; with none loaded the box is "default" and the placeholder. |
| Window.DistinctWithout | MainWindow.xaml.cs:880-885 | Removing one entry keeps profile names distinct ignoring case. |
| Window.AddKeepsDistinct | MainWindow.xaml.cs:731-742 | Dropping the placeholder and appending a name listed in no letter case keeps names distinct. |
| Window.FirstWithAppId | MainWindow.xaml.cs:896-897 | `FirstOrDefault` finds the first game with the AppId, or reports that none has it. |
| Window.RemovedGameIsGone | MainWindow.xaml.cs:896-903 | With unique AppIds, removing that game leaves no game with its AppId and keeps the rest unique. |
| Window.MainWindow.constructor | MainWindow.xaml.cs:45-55 | The game and profile lists start empty, with nothing selected and no current profile. |
| Window.MainWindow.LoadingDotsTick | MainWindow.xaml.cs:87-91 | The dots advance one step of the cycle. |
| Window.MainWindow.LoadProfiles | MainWindow.xaml.cs:102-134 | The box becomes the listed profiles. The last profile is selected if listed, else the first entry. |
| Window.MainWindow.AddGame | MainWindow.xaml.cs:491-513 | A game whose AppId is listed is refused. Otherwise exactly one new entry with the result's values is appended, and AppIds stay unique. |
| Window.MainWindow.RemoveGame | MainWindow.xaml.cs:891-907 | Only the first game with the AppId is removed, and nothing happens when none has it. AppIds stay unique and that AppId is gone. |
| Window.MainWindow.AddProfile | MainWindow.xaml.cs:722-744 | A cancelled dialog or a name listed in any letter case changes nothing. Otherwise the placeholder goes, the profile is saved and its name appended and selected, and names stay distinct. |
| Window.MainWindow.DeleteProfile | MainWindow.xaml.cs:860-889 | "default" (in any case) and unconfirmed deletes change nothing. Otherwise the file is deleted, the name removed, the placeholder restored when one entry is left, and the first entry selected; the default profile's file is untouched. |

## Left out

- Configuration.ConfigStore.WipeData: AutostartManager.CleanupAll and the exception that WipeData swallows are not modelled. The delete always succeeds, and it clears the profile, icon and plug-in stores as if they all sit inside the configuration directory, which is where the program puts them.
- Configuration.ConfigStore.Save: the exception that Save swallows is not modelled. The write always succeeds, including the one that CreateDefaultConfig makes during Load.
- User interface: rendering, animations, toasts, message boxes, storyboards and window chrome are not modelled. Where a message is part of the logic, the refusal is a datatype and its text a function (`Settings.PathMessage`, `Window.QueryMessage`). A confirmation box is a boolean parameter.
- Network and protocol I/O: the HttpClient calls (catalog, store details, CDN probes, icon downloads, the release query) and the SteamKit2 connect, log-on, PICS and callback loop are left out. Their answers are parameters: a catalog answer, a list of attempt outcomes, a map of reachable URLs.
- Concurrency: SemaphoreSlim fan-outs, SynchronizationContext posting, `Task.WhenAny` time-outs, the waiting inside EnsureReadyAsync and the fire-and-forget reconnect timer are left out. Each asynchronous step runs to completion in the order the source awaits it.
- Filesystem beyond presence and contents: AutostartManager, PathDetector, KillSteam and LaunchInjector, the update download and its batch script, and plug-in assembly loading are left out. Detected paths, `Path.GetFullPath` results and plug-in manifests are parameters.
- Serialisation: DataContractJsonSerializer and Newtonsoft parsing are replaced by a parsed `Json.Json` token. A file that does not parse is the `Malformed` content. The exact JSON text, its indentation and its encoding are not modelled.
- Null members: DataContractJsonSerializer leaves an absent or null string member null and an absent or null "Games" null. The model reads them as "" and an empty list, so it does not tell null from empty. A null element inside "Games" makes the read fail in the model, where the serializer would give a null game.
- Letter case of file names: profile files are looked up by their path folded to upper case (`Paths.FileKey`), as NTFS ignores case. The other directories (icon cache, AppList, plug-ins, settings) are keyed by exact path, because the program only opens names it wrote itself. Case folding is ASCII only.
- Regular expressions: the generated regexes of UpdateService are not modelled. Their captured groups (tag, URL, body) are inputs, present or absent.
- Culture: `ToLower`, `ToUpper`, `StartsWith`, `Contains` and `char.IsLetterOrDigit` are modelled as ordinal ASCII operations. `char.IsWhiteSpace` is the full Unicode White_Space set, and number parsing allows only tab to carriage return and space around the digits, as `NumberStyles.Integer` does.
- Clocks: `DateTime.Now` is an integer parameter, and the cache expiry times are integers on that scale.
- Paths: `Path.GetInvalidFileNameChars` is the Windows set (control characters and `"<>|:*?\/`). `Path.Combine` and `Path.GetFileName` are modelled for the relative and rooted cases the code meets.
- Settings dictionary order: `GreenLuma.InjectorSettings` is a map, and its entries are enumerated in the declaration order of `Setting`. This is the insertion order of every dictionary BuildInjectorSettings builds.
- GreenLuma.GreenLumaFolder.UpdateInjectorIni: states only that the ini's line count is kept and that untouched lines stay as they were. It does not state the written values, because the settings come from the method BuildInjectorSettings. Those values are stated by `GreenLuma.BuildInjectorSettings` and `GreenLuma.ApplySettings`.
- GreenLuma.GreenLumaFolder.GenerateAppList: states the same about DLLInjector.ini as UpdateInjectorIni, and no more, for the same reason.
- Update.ParseVersionPartOfNumber: stated for numbers up to `int.MaxValue`, because `int.TryParse` refuses larger ones and the key then holds 0.
- Update.KeyOrder and Update.ReleaseAboveCandidates: stated for fields below their printed widths (five and four digits), where a wider number would break the fixed-width comparison.
- Steam.SteamSession: the completion signals are one-shot, so once both have completed, EnsureReadyAsync no longer waits, even after a disconnect. The model keeps this as the source has it.
- Not part of this model: the profile selection handler (LoadProfile) and SaveCurrentProfile in the main window, the list and icon refresh after ImportProfileButton_Click, the Browse, AutoDetect and WipeData confirmation handlers of the settings dialog, and GetEnabledPlugins and OnApplicationStartup of PluginService. Window.MainWindow.AddGame and Window.MainWindow.RemoveGame do not model the profile save that follows them, and RemoveGame does not model the icon deletion, which is `IconCache.IconCacheDir.DeleteCachedIcon`.
- The string serialized and then discarded at Services/ConfigService.cs:94 has no effect and is not modelled.

## Notes on the code's behaviour

The model follows the code as written, including these points:

- Search ties keep catalog order, because `OrderByDescending` is a stable sort. A shorter name does not win a tie.
- The search service returns nothing for a blank query or one shorter than 2 characters. The main window refuses queries shorter than 3 before the service sees them.
- FormatDisplayVersion takes `parts[1]` of `Split("-rc")`. That is the text between the first and the second "-rc", not everything after the first.
- "\_\_empty\_\_" is a name the create-profile dialog accepts. While the placeholder is listed, AddProfile refuses it as an existing name. Otherwise the profile is saved and "\_\_empty\_\_" is appended and selected, and the next AddProfile removes that entry from the list as if it were the placeholder.
- ImportProfileButton_Click tests for an existing name with a case-sensitive `Contains`. AddProfileButton_Click compares ignoring case. An imported "FOO" beside a listed "foo" is therefore not asked about, and its save replaces foo.json, which the file system treats as the same file (`Profiles.CaseVariantsShareFile`).
- NormalizePath is not idempotent: "a \\" becomes "a ", whose trimmed form is "a".
