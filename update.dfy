/** UpdateService: turning version tags into fixed-width keys that sort as the
    versions do, the display form of a tag, and the decision whether the latest
    release is an update. The HTTP request and the regular-expression matching
    of the response stay outside: the three capture groups are inputs. */
module Update {
  import opened Text

  /** The version this build reports (MainWindow.Version). */
  const CurrentVersion := "RC1.1"

  datatype UpdateInfo = UpdateInfo(
    currentVersion: string,
    latestVersion: string,
    latestVersionTag: string,
    updateAvailable: bool,
    downloadUrl: string,
    releaseNotes: string)

  // ---------------------------------------------------------------------------
  // Sort keys

  /** The five numbers a normalized version is written from: the release
      number and the release-candidate number. */
  datatype VersionFields = VersionFields(major: int, minor: int, patch: int, rcMajor: int, rcMinor: int)

  function Values(f: VersionFields): seq<int> {
    [f.major, f.minor, f.patch, f.rcMajor, f.rcMinor]
  }

  /** The widths of the "D5" and "D4" formats the fields are written with. */
  const KeyWidths: seq<nat> := [5, 5, 5, 4, 4]

  /** The values formatted with their widths and joined with dots. */
  function FieldsText(values: seq<int>, widths: seq<nat>): string
    requires |values| == |widths|
    decreases |values|
  {
    if values == [] then ""
    else FormatD(values[0], widths[0])
         + (if |values| == 1 then "" else "." + FieldsText(values[1..], widths[1..]))
  }

  /** "{major:D5}.{minor:D5}.{patch:D5}.{rcMajor:D4}.{rcMinor:D4}". */
  function KeyText(f: VersionFields): string {
    FieldsText(Values(f), KeyWidths)
  }

  /** The key is the five formatted fields separated by dots. */
  lemma KeyTextParts(f: VersionFields)
    ensures KeyText(f) == FormatD(f.major, 5) + "." + (FormatD(f.minor, 5) + "." + (FormatD(f.patch, 5)
                          + "." + (FormatD(f.rcMajor, 4) + "." + FormatD(f.rcMinor, 4))))
  {
    var v, w := Values(f), KeyWidths;
    var a, b, c := FormatD(f.major, 5), FormatD(f.minor, 5), FormatD(f.patch, 5);
    var d, e := FormatD(f.rcMajor, 4), FormatD(f.rcMinor, 4);
    FieldsTextCons(v[3..], w[3..]);
    assert v[3..][1..] == [f.rcMinor] && w[3..][1..] == [4];
    var t3 := d + "." + e;
    assert FieldsText(v[3..], w[3..]) == t3;
    FieldsTextCons(v[2..], w[2..]);
    assert v[2..][1..] == v[3..] && w[2..][1..] == w[3..];
    var t2 := c + "." + t3;
    FieldsTextCons(v[1..], w[1..]);
    assert v[1..][1..] == v[2..] && w[1..][1..] == w[2..];
    var t1 := b + "." + t2;
    FieldsTextCons(v, w);
  }

  lemma FieldsTextCons(values: seq<int>, widths: seq<nat>)
    requires |values| == |widths| >= 2
    ensures FieldsText(values, widths)
            == FormatD(values[0], widths[0]) + "." + FieldsText(values[1..], widths[1..])
  {
  }

  /** The literal fields NormalizeVersion writes are the formatted numbers. */
  lemma KeyLiterals()
    ensures FormatD(0, 5) == "00000" && FormatD(1, 5) == "00001"
    ensures FormatD(0, 4) == "0000" && FormatD(9999, 4) == "9999"
  {
    SmallLiterals();
    NinesLiteral();
  }

  lemma SmallLiterals()
    ensures FormatD(0, 5) == "00000" && FormatD(1, 5) == "00001" && FormatD(0, 4) == "0000"
  {
    assert NatToString(0) == "0" && NatToString(1) == "1";
    assert Zeros(4) == "0000" && Zeros(3) == "000";
  }

  lemma NinesLiteral()
    ensures FormatD(9999, 4) == "9999"
  {
    assert NatToString(99) == NatToString(9) + "9";
    assert NatToString(999) == NatToString(99) + "9";
    assert NatToString(9999) == NatToString(999) + "9";
  }

  /** Lexicographic order on sequences of one length. */
  predicate LexLess(a: seq<int>, b: seq<int>)
    requires |a| == |b|
    decreases |a|
  {
    a != [] && (a[0] < b[0] || (a[0] == b[0] && LexLess(a[1..], b[1..])))
  }

  /** Every value is non-negative and fits in its width. */
  predicate FitWidths(values: seq<int>, widths: seq<nat>)
    requires |values| == |widths|
  {
    forall i :: 0 <= i < |values| ==> widths[i] >= 1 && 0 <= values[i] < Pow10(widths[i])
  }

  /** Fields that fit their widths give texts that compare ordinally in the
      lexicographic order of the fields. */
  lemma {:induction false} FieldsTextOrder(a: seq<int>, b: seq<int>, w: seq<nat>)
    requires |a| == |b| == |w| && FitWidths(a, w) && FitWidths(b, w)
    ensures CompareOrdinal(FieldsText(a, w), FieldsText(b, w)) < 0 <==> LexLess(a, b)
    ensures CompareOrdinal(FieldsText(a, w), FieldsText(b, w)) > 0 <==> LexLess(b, a)
    decreases |a|
  {
    if a != [] {
      FieldsTextHead(a, w);
      FieldsTextHead(b, w);
      var x, y := PadNat(a[0], w[0]), PadNat(b[0], w[0]);
      var s, t := FieldsTail(a, w), FieldsTail(b, w);
      ComparePadded(a[0], b[0], w[0]);
      if a[0] != b[0] {
        CompareOrdinalFirstDifference(x, y, s, t);
      } else {
        CompareOrdinalCommonPrefix(x, s, t);
        if |a| > 1 {
          FitWidthsTail(a, w);
          FitWidthsTail(b, w);
          CompareOrdinalCommonPrefix(".", FieldsText(a[1..], w[1..]), FieldsText(b[1..], w[1..]));
          FieldsTextOrder(a[1..], b[1..], w[1..]);
        }
      }
    }
  }

  /** What follows the first field. */
  function FieldsTail(values: seq<int>, widths: seq<nat>): string
    requires |values| == |widths| >= 1
  {
    if |values| == 1 then "" else "." + FieldsText(values[1..], widths[1..])
  }

  lemma FieldsTextHead(values: seq<int>, widths: seq<nat>)
    requires |values| == |widths| >= 1 && values[0] >= 0
    ensures FieldsText(values, widths) == PadNat(values[0], widths[0]) + FieldsTail(values, widths)
  {
  }

  lemma FitWidthsTail(values: seq<int>, widths: seq<nat>)
    requires |values| == |widths| >= 1 && FitWidths(values, widths)
    ensures FitWidths(values[1..], widths[1..])
  {
    assert forall i :: 0 <= i < |values| - 1 ==> values[1..][i] == values[i + 1] && widths[1..][i] == widths[i + 1];
  }

  /** The fields of a key fit its widths. */
  predicate InRange(f: VersionFields) {
    0 <= f.major < 100000 && 0 <= f.minor < 100000 && 0 <= f.patch < 100000
    && 0 <= f.rcMajor < 10000 && 0 <= f.rcMinor < 10000
  }

  /** f is a later version than g: its fields are lexicographically greater. */
  predicate Newer(f: VersionFields, g: VersionFields) {
    LexLess(Values(g), Values(f))
  }

  lemma {:induction false} FieldsTextHasNoLower(values: seq<int>, widths: seq<nat>)
    requires |values| == |widths|
    requires forall i :: 0 <= i < |values| ==> values[i] >= 0
    ensures HasNoLower(FieldsText(values, widths))
    decreases |values|
  {
    if values != [] {
      var d := PadNat(values[0], widths[0]);
      assert FormatD(values[0], widths[0]) == d;
      if |values| > 1 {
        FieldsTextHasNoLower(values[1..], widths[1..]);
        var rest := "." + FieldsText(values[1..], widths[1..]);
        assert forall i :: 0 <= i < |d + rest| ==> (d + rest)[i] == if i < |d| then d[i] else rest[i - |d|];
      }
    }
  }

  /** Keys of in-range fields compare, ignoring case, exactly as their fields do:
      the normalized text is a sort key for the version. */
  lemma KeyOrder(f: VersionFields, g: VersionFields)
    requires InRange(f) && InRange(g)
    ensures CompareOrdinalIgnoreCase(KeyText(f), KeyText(g)) > 0 <==> Newer(f, g)
    ensures CompareOrdinalIgnoreCase(KeyText(f), KeyText(g)) < 0 <==> Newer(g, f)
  {
    KeyFits(f);
    KeyFits(g);
    FieldsTextOrder(Values(f), Values(g), KeyWidths);
  }

  /** In-range fields fit the key widths, and their key has no lower-case letter. */
  lemma KeyFits(f: VersionFields)
    requires InRange(f)
    ensures FitWidths(Values(f), KeyWidths)
    ensures ToUpper(KeyText(f)) == KeyText(f)
  {
    assert Pow10(4) == 10000 && Pow10(5) == 100000;
    FieldsTextHasNoLower(Values(f), KeyWidths);
    ToUpperOfUpper(KeyText(f));
  }

  // ---------------------------------------------------------------------------
  // NormalizeVersion

  /** version.ToLower().Trim().Replace("v", ""). */
  function Clean(version: string): string {
    RemoveChar(Trim(ToLower(version)), 'v')
  }

  /** The number at index, or 0 past the end or for text int.TryParse rejects. */
  function ParseVersionPart(parts: seq<string>, index: nat): int {
    if index >= |parts| then 0
    else match ParseInt32(parts[index])
      case Some(v) => v
      case None => 0
  }

  lemma ParseVersionPartOfNumber(parts: seq<string>, index: nat, n: nat)
    requires index < |parts| && parts[index] == NatToString(n) && n <= 0x7FFF_FFFF
    ensures ParseVersionPart(parts, index) == n
  {
    ParseInt32OfNat(n);
  }

  /** The two numbers after "rc": the first two dot-separated parts, the second
      taken only when there is one. */
  function CandidateNumbers(rcPart: string): (int, int) {
    var rcParts := Split(rcPart, {'.'});
    (ParseVersionPart(rcParts, 0), if |rcParts| > 1 then ParseVersionPart(rcParts, 1) else 0)
  }

  /** The fields a cleaned version is written with, branch by branch. */
  function Fields(cleaned: string): VersionFields {
    if cleaned == [] then VersionFields(0, 0, 0, 0, 0)
    else if IsLegacyCandidate(cleaned) then
      var (rcMajor, rcMinor) := CandidateNumbers(cleaned[2..]);
      VersionFields(1, 0, 0, rcMajor, rcMinor)
    else NumberedFields(SplitFirst(cleaned, '-'))
  }

  /** An early release-candidate tag: "rc" first, and no ".0.0". */
  predicate IsLegacyCandidate(cleaned: string) {
    StartsWith(cleaned, "rc") && !Contains(cleaned, ".0.0")
  }

  /** The fields of a tag split at its first '-': the release number, then the
      candidate places from the suffix. */
  function NumberedFields(parts: seq<string>): VersionFields
    requires 1 <= |parts| <= 2
  {
    var versionParts := Split(parts[0], {'.'});
    var major := ParseVersionPart(versionParts, 0);
    var minor := ParseVersionPart(versionParts, 1);
    var patch := ParseVersionPart(versionParts, 2);
    if |parts| == 1 then VersionFields(major, minor, patch, 9999, 9999)
    else if StartsWith(parts[1], "rc") then
      var (rcMajor, rcMinor) := CandidateNumbers(parts[1][2..]);
      VersionFields(major, minor, patch, rcMajor, rcMinor)
    else VersionFields(major, minor, patch, 0, 0)
  }

  function NormalizeVersion(version: string): string {
    KeyText(Fields(Clean(version)))
  }

  /** A blank version normalizes to the all-zero key. */
  lemma BlankVersionKey(version: string)
    requires IsBlank(version)
    ensures NormalizeVersion(version) == "00000.00000.00000.0000.0000"
  {
    BlankCleansToEmpty(version);
    ZeroKey();
  }

  lemma BlankCleansToEmpty(version: string)
    requires IsBlank(version)
    ensures Clean(version) == []
  {
    assert IsBlank(ToLower(version));
  }

  lemma ZeroKey()
    ensures KeyText(VersionFields(0, 0, 0, 0, 0)) == "00000.00000.00000.0000.0000"
  {
    KeyTextParts(VersionFields(0, 0, 0, 0, 0));
    SmallLiterals();
    ZeroLiteral();
  }

  lemma ZeroLiteral()
    ensures "00000" + "." + ("00000" + "." + ("00000" + "." + ("0000" + "." + "0000")))
            == "00000.00000.00000.0000.0000"
  {
  }

  /** A cleaned version that is not a legacy "rc" tag: its release number comes
      first. */
  predicate IsNumbered(cleaned: string) {
    cleaned != [] && !IsLegacyCandidate(cleaned)
  }

  /** A version without a pre-release suffix gets 9999 in both candidate places. */
  lemma ReleaseKey(cleaned: string)
    requires IsNumbered(cleaned) && '-' !in cleaned
    ensures var f := Fields(cleaned);
      KeyText(f) == FormatD(f.major, 5) + "." + (FormatD(f.minor, 5) + "." + (FormatD(f.patch, 5) + ".9999.9999"))
  {
    UnsuffixedPlaces(cleaned);
    SuffixLiterals();
    KeyWithCandidateText(Fields(cleaned), ".9999.9999");
  }

  lemma UnsuffixedPlaces(cleaned: string)
    requires IsNumbered(cleaned) && '-' !in cleaned
    ensures Fields(cleaned).rcMajor == 9999 && Fields(cleaned).rcMinor == 9999
  {
    assert SplitFirst(cleaned, '-') == [cleaned];
  }

  lemma SuffixLiterals()
    ensures ".9999.9999" == "." + FormatD(9999, 4) + "." + FormatD(9999, 4)
    ensures ".0000.0000" == "." + FormatD(0, 4) + "." + FormatD(0, 4)
  {
    KeyLiterals();
  }

  /** A pre-release suffix that does not start with "rc" gets zeros in both
      candidate places. */
  lemma OtherPreReleaseKey(cleaned: string)
    requires IsNumbered(cleaned) && '-' in cleaned && !StartsWith(SplitFirst(cleaned, '-')[1], "rc")
    ensures var f := Fields(cleaned);
      KeyText(f) == FormatD(f.major, 5) + "." + (FormatD(f.minor, 5) + "." + (FormatD(f.patch, 5) + ".0000.0000"))
  {
    OtherSuffixPlaces(cleaned);
    SuffixLiterals();
    KeyWithCandidateText(Fields(cleaned), ".0000.0000");
  }

  lemma OtherSuffixPlaces(cleaned: string)
    requires IsNumbered(cleaned) && '-' in cleaned && !StartsWith(SplitFirst(cleaned, '-')[1], "rc")
    ensures Fields(cleaned).rcMajor == 0 && Fields(cleaned).rcMinor == 0
  {
  }

  lemma KeyWithCandidateText(f: VersionFields, suffix: string)
    requires suffix == "." + FormatD(f.rcMajor, 4) + "." + FormatD(f.rcMinor, 4)
    ensures KeyText(f) == FormatD(f.major, 5) + "." + (FormatD(f.minor, 5) + "." + (FormatD(f.patch, 5) + suffix))
  {
    KeyTextParts(f);
    DottedAssoc(FormatD(f.patch, 5), FormatD(f.rcMajor, 4), FormatD(f.rcMinor, 4));
  }

  lemma DottedAssoc(c: string, d: string, e: string)
    ensures c + "." + (d + "." + e) == c + ("." + d + "." + e)
  {
  }

  /** A legacy "rc" tag without ".0.0" is placed under release 1.0.0. */
  lemma LegacyCandidateKey(cleaned: string)
    requires IsLegacyCandidate(cleaned)
    ensures var f := Fields(cleaned);
      KeyText(f) == "00001.00000.00000." + FormatD(f.rcMajor, 4) + "." + FormatD(f.rcMinor, 4)
  {
    var f := Fields(cleaned);
    assert f.major == 1 && f.minor == 0 && f.patch == 0;
    LegacyKeyText(f);
  }

  lemma LegacyPrefix(d: string, e: string)
    ensures "00001" + "." + ("00000" + "." + ("00000" + "." + (d + "." + e))) == "00001.00000.00000." + d + "." + e
  {
  }

  lemma LegacyKeyText(f: VersionFields)
    requires f.major == 1 && f.minor == 0 && f.patch == 0
    ensures KeyText(f) == "00001.00000.00000." + FormatD(f.rcMajor, 4) + "." + FormatD(f.rcMinor, 4)
  {
    KeyTextParts(f);
    SmallLiterals();
    LegacyPrefix(FormatD(f.rcMajor, 4), FormatD(f.rcMinor, 4));
  }

  // ---------------------------------------------------------------------------
  // Tags as the project writes them

  /** "major.minor.patch". */
  function ReleaseTag(major: nat, minor: nat, patch: nat): string {
    NatToString(major) + "." + NatToString(minor) + "." + NatToString(patch)
  }

  /** "major.minor.patch-rcN". */
  function CandidateTag(major: nat, minor: nat, patch: nat, n: nat): string {
    ReleaseTag(major, minor, patch) + "-rc" + NatToString(n)
  }

  /** The characters a release tag is made of. */
  lemma ReleaseTagChars(major: nat, minor: nat, patch: nat)
    ensures var r := ReleaseTag(major, minor, patch);
      r != [] && IsDigit(r[0]) && IsDigit(r[|r| - 1])
      && forall i :: 0 <= i < |r| ==> IsDigit(r[i]) || r[i] == '.'
  {
    var a, b, c := NatToString(major), NatToString(minor), NatToString(patch);
    var r := a + "." + b + "." + c;
    assert forall i :: 0 <= i < |r| ==>
      r[i] == if i < |a| then a[i] else if i == |a| then '.'
              else if i < |a| + 1 + |b| then b[i - |a| - 1] else if i == |a| + 1 + |b| then '.'
              else c[i - |a| - |b| - 2];
  }

  /** The release number of a release tag, as Split('.') reads it. */
  lemma ReleaseTagParts(major: nat, minor: nat, patch: nat)
    ensures Split(ReleaseTag(major, minor, patch), {'.'})
            == [NatToString(major), NatToString(minor), NatToString(patch)]
  {
    var a, b, c := NatToString(major), NatToString(minor), NatToString(patch);
    SplitThree(a, b, c, '.', {'.'});
  }

  /** A tag already in the form Clean leaves alone. */
  predicate PlainTag(s: string) {
    s != [] && HasNoUpper(s) && !IsWhiteSpace(s[0]) && !IsWhiteSpace(s[|s| - 1]) && 'v' !in s
  }

  /** A plain tag cleans to itself, and so does it with a leading "v". */
  lemma CleanOfPlain(s: string)
    requires PlainTag(s)
    ensures Clean(s) == s && Clean("v" + s) == s
  {
    ToLowerOfLower(s);
    TrimOfTrimmed(s);
    CleanOfPrefixed(s);
  }

  lemma CleanOfPrefixed(s: string)
    requires PlainTag(s)
    ensures Clean("v" + s) == s
  {
    var vs := "v" + s;
    assert forall i :: 0 <= i < |vs| ==> vs[i] == if i == 0 then 'v' else s[i - 1];
    ToLowerOfLower(vs);
    TrimOfTrimmed(vs);
    assert vs[1..] == s;
  }

  /** The release number Split('.') and ParseVersionPart read from a release tag. */
  lemma ReleaseNumbers(major: nat, minor: nat, patch: nat)
    requires major <= 0x7FFF_FFFF && minor <= 0x7FFF_FFFF && patch <= 0x7FFF_FFFF
    ensures var parts := Split(ReleaseTag(major, minor, patch), {'.'});
      ParseVersionPart(parts, 0) == major && ParseVersionPart(parts, 1) == minor
      && ParseVersionPart(parts, 2) == patch
  {
    ReleaseTagParts(major, minor, patch);
    var parts := [NatToString(major), NatToString(minor), NatToString(patch)];
    ParseVersionPartOfNumber(parts, 0, major);
    ParseVersionPartOfNumber(parts, 1, minor);
    ParseVersionPartOfNumber(parts, 2, patch);
  }

  /** A release tag, with or without a leading "v", cleans to itself and
      normalizes with 9999 in both candidate places. */
  lemma ReleaseFields(major: nat, minor: nat, patch: nat)
    requires major <= 0x7FFF_FFFF && minor <= 0x7FFF_FFFF && patch <= 0x7FFF_FFFF
    ensures Clean(ReleaseTag(major, minor, patch)) == ReleaseTag(major, minor, patch)
    ensures Clean("v" + ReleaseTag(major, minor, patch)) == ReleaseTag(major, minor, patch)
    ensures Fields(ReleaseTag(major, minor, patch)) == VersionFields(major, minor, patch, 9999, 9999)
  {
    var r := ReleaseTag(major, minor, patch);
    ReleaseTagPlain(major, minor, patch);
    CleanOfPlain(r);
    FieldsOfUnsuffixed(r);
    ReleaseNumbers(major, minor, patch);
  }

  lemma ReleaseTagPlain(major: nat, minor: nat, patch: nat)
    ensures var r := ReleaseTag(major, minor, patch);
      PlainTag(r) && r[0] != 'r' && '-' !in r
  {
    ReleaseTagChars(major, minor, patch);
  }

  lemma FieldsOfUnsuffixed(cleaned: string)
    requires cleaned != [] && cleaned[0] != 'r' && '-' !in cleaned
    ensures var parts := Split(cleaned, {'.'});
      Fields(cleaned) == VersionFields(ParseVersionPart(parts, 0), ParseVersionPart(parts, 1),
                                       ParseVersionPart(parts, 2), 9999, 9999)
  {
    NotLegacy(cleaned);
    assert SplitFirst(cleaned, '-') == [cleaned];
  }

  lemma NotLegacy(cleaned: string)
    requires cleaned != [] && cleaned[0] != 'r'
    ensures !StartsWith(cleaned, "rc")
  {
    if |cleaned| >= 2 {
      assert cleaned[..2][0] == cleaned[0];
    }
  }

  lemma FieldsOfCandidate(cleaned: string, r: string, d: string)
    requires cleaned != [] && cleaned[0] != 'r' && SplitFirst(cleaned, '-') == [r, "rc" + d]
    requires ("rc" + d)[2..] == d
    ensures var parts := Split(r, {'.'});
      Fields(cleaned) == VersionFields(ParseVersionPart(parts, 0), ParseVersionPart(parts, 1),
                                       ParseVersionPart(parts, 2), CandidateNumbers(d).0, CandidateNumbers(d).1)
  {
    NotLegacy(cleaned);
    assert StartsWith("rc" + d, "rc");
  }

  /** The characters of a candidate tag. */
  lemma CandidateTagChars(major: nat, minor: nat, patch: nat, n: nat)
    ensures var r, s := ReleaseTag(major, minor, patch), CandidateTag(major, minor, patch, n);
      PlainTag(s) && s[0] != 'r' && '-' !in r && s == r + ['-'] + ("rc" + NatToString(n))
  {
    var r := ReleaseTag(major, minor, patch);
    var d := NatToString(n);
    ReleaseTagPlain(major, minor, patch);
    PlainJoin(r, "-rc", d);
    assert r + "-rc" + d == r + ['-'] + ("rc" + d);
  }

  /** Joining a plain tag, a suffix marker and a number gives a plain tag. */
  lemma PlainJoin(r: string, t: string, d: string)
    requires PlainTag(r) && HasNoUpper(t) && 'v' !in t && d != [] && IsDigits(d)
    ensures PlainTag(r + t + d) && (r + t + d)[0] == r[0]
  {
    var s := r + t + d;
    assert forall i :: 0 <= i < |s| ==>
      s[i] == if i < |r| then r[i] else if i < |r| + |t| then t[i - |r|] else d[i - |r| - |t|];
    assert s[|s| - 1] == d[|d| - 1];
  }

  /** A candidate tag normalizes with its number in the first candidate place. */
  lemma CandidateFields(major: nat, minor: nat, patch: nat, n: nat)
    requires major <= 0x7FFF_FFFF && minor <= 0x7FFF_FFFF && patch <= 0x7FFF_FFFF && n <= 0x7FFF_FFFF
    ensures Fields(Clean(CandidateTag(major, minor, patch, n))) == VersionFields(major, minor, patch, n, 0)
  {
    var r := ReleaseTag(major, minor, patch);
    var d := NatToString(n);
    var s := CandidateTag(major, minor, patch, n);
    CandidateTagChars(major, minor, patch, n);
    CleanOfPlain(s);
    CandidateSplit(r, d, s);
    FieldsOfCandidate(s, r, d);
    ReleaseNumbers(major, minor, patch);
    CandidateNumbersOf(n);
  }

  lemma CandidateSplit(r: string, d: string, s: string)
    requires '-' !in r && s == r + ['-'] + ("rc" + d)
    ensures SplitFirst(s, '-') == [r, "rc" + d] && ("rc" + d)[2..] == d
  {
    IndexOfAfterFree(r, '-', "rc" + d);
    assert s[..|r|] == r && s[|r| + 1..] == "rc" + d;
  }

  lemma CandidateNumbersOf(n: nat)
    requires n <= 0x7FFF_FFFF
    ensures CandidateNumbers(NatToString(n)) == (n, 0)
  {
    var d := NatToString(n);
    assert Split(d, {'.'}) == [d];
    ParseVersionPartOfNumber([d], 0, n);
  }

  /** "rcN.K", the form of the early release-candidate tags. */
  function LegacyTag(n: nat, k: nat): string {
    "rc" + (NatToString(n) + "." + NatToString(k))
  }

  /** A legacy tag "rcN.K" normalizes under release 1.0.0 with N and K in the
      candidate places. */
  lemma LegacyFields(n: nat, k: nat)
    requires n <= 0x7FFF_FFFF && k <= 0x7FFF_FFFF
    ensures Fields(Clean(LegacyTag(n, k))) == VersionFields(1, 0, 0, n, k)
  {
    var a, b := NatToString(n), NatToString(k);
    var s := LegacyTag(n, k);
    LegacyTagChars(a, b);
    CleanOfPlain(s);
    OneDotNoZeros(a, b);
    FieldsOfLegacy(s, a + "." + b);
    CandidateNumbersOfPair(n, k);
  }

  lemma CandidateNumbersOfPair(n: nat, k: nat)
    requires n <= 0x7FFF_FFFF && k <= 0x7FFF_FFFF
    ensures CandidateNumbers(NatToString(n) + "." + NatToString(k)) == (n, k)
  {
    var a, b := NatToString(n), NatToString(k);
    SplitTwo(a, b, '.', {'.'});
    ParseVersionPartOfNumber([a, b], 0, n);
    ParseVersionPartOfNumber([a, b], 1, k);
  }

  lemma LegacyTagChars(a: string, b: string)
    requires a != [] && b != [] && IsDigits(a) && IsDigits(b)
    ensures PlainTag("rc" + (a + "." + b))
  {
    var s := "rc" + (a + "." + b);
    assert forall i :: 0 <= i < |s| ==>
      s[i] == if i < 2 then "rc"[i] else if i < 2 + |a| then a[i - 2] else if i == 2 + |a| then '.' else b[i - 3 - |a|];
  }

  /** With one dot only, "rc" + p + "." + q cannot contain ".0.0". */
  lemma OneDotNoZeros(p: string, q: string)
    requires IsDigits(p) && IsDigits(q)
    ensures !Contains("rc" + (p + "." + q), ".0.0")
  {
    var s := "rc" + (p + "." + q);
    assert forall j :: 0 <= j < |s| && j != 2 + |p| ==> s[j] != '.';
    forall i | 0 <= i <= |s| - 4
      ensures !OccursAt(s, ".0.0", i)
    {
      if i == 2 + |p| {
        assert s[i..i + 4][2] == s[i + 2];
      } else {
        assert s[i..i + 4][0] == s[i];
      }
    }
  }

  lemma FieldsOfLegacy(cleaned: string, rest: string)
    requires cleaned == "rc" + rest && !Contains(cleaned, ".0.0")
    ensures Fields(cleaned) == VersionFields(1, 0, 0, CandidateNumbers(rest).0, CandidateNumbers(rest).1)
  {
    assert cleaned[..2] == "rc" && cleaned[2..] == rest;
  }

  /** The fields of the version this build reports. */
  const ShippedFields := VersionFields(1, 0, 0, 1, 1)

  lemma ShippedVersionKey()
    ensures Fields(Clean(CurrentVersion)) == ShippedFields
  {
    assert NatToString(1) == "1";
    assert LegacyTag(1, 1) == "rc1.1";
    ShippedClean();
    LegacyFields(1, 1);
  }

  lemma ShippedClean()
    ensures Clean(CurrentVersion) == Clean("rc1.1")
  {
    assert ToLower(CurrentVersion) == "rc1.1";
    assert ToLower("rc1.1") == "rc1.1";
  }

  /** A release sorts above each of its release candidates. */
  lemma ReleaseAboveCandidates(major: nat, minor: nat, patch: nat, n: nat)
    requires major < 100000 && minor < 100000 && patch < 100000 && n < 9999
    ensures CompareOrdinalIgnoreCase(NormalizeVersion(ReleaseTag(major, minor, patch)),
                                     NormalizeVersion(CandidateTag(major, minor, patch, n))) > 0
  {
    var f, g := VersionFields(major, minor, patch, 9999, 9999), VersionFields(major, minor, patch, n, 0);
    ReleaseKeyOf(major, minor, patch);
    CandidateKeyOf(major, minor, patch, n);
    CandidateDecides(f, g);
    KeyOrder(f, g);
  }

  /** Between two versions of one release, the first candidate number decides. */
  lemma CandidateDecides(f: VersionFields, g: VersionFields)
    requires f.major == g.major && f.minor == g.minor && f.patch == g.patch && g.rcMajor < f.rcMajor
    ensures Newer(f, g)
  {
    var a, b := Values(g), Values(f);
    assert a[1..][1..][1..][0] == g.rcMajor && b[1..][1..][1..][0] == f.rcMajor;
    assert LexLess(a[1..][1..][1..], b[1..][1..][1..]);
    assert LexLess(a[1..][1..], b[1..][1..]);
    assert LexLess(a[1..], b[1..]);
  }

  lemma ReleaseKeyOf(major: nat, minor: nat, patch: nat)
    requires major <= 0x7FFF_FFFF && minor <= 0x7FFF_FFFF && patch <= 0x7FFF_FFFF
    ensures NormalizeVersion(ReleaseTag(major, minor, patch)) == KeyText(VersionFields(major, minor, patch, 9999, 9999))
  {
    ReleaseFields(major, minor, patch);
  }

  lemma CandidateKeyOf(major: nat, minor: nat, patch: nat, n: nat)
    requires major <= 0x7FFF_FFFF && minor <= 0x7FFF_FFFF && patch <= 0x7FFF_FFFF && n <= 0x7FFF_FFFF
    ensures NormalizeVersion(CandidateTag(major, minor, patch, n)) == KeyText(VersionFields(major, minor, patch, n, 0))
  {
    CandidateFields(major, minor, patch, n);
  }

  /** Release candidates of one release sort by their number. */
  lemma CandidatesInOrder(major: nat, minor: nat, patch: nat, n: nat, k: nat)
    requires major < 100000 && minor < 100000 && patch < 100000 && n < k < 10000
    ensures CompareOrdinalIgnoreCase(NormalizeVersion(CandidateTag(major, minor, patch, n)),
                                     NormalizeVersion(CandidateTag(major, minor, patch, k))) < 0
  {
    var f, g := VersionFields(major, minor, patch, n, 0), VersionFields(major, minor, patch, k, 0);
    CandidateFields(major, minor, patch, n);
    CandidateFields(major, minor, patch, k);
    CandidateDecides(g, f);
    KeyOrder(f, g);
  }

  // ---------------------------------------------------------------------------
  // FormatDisplayVersion

  /** The tag lower-cased and without any 'v', then shown by DisplayForm. */
  function FormatDisplayVersion(version: string): string {
    DisplayForm(RemoveChar(ToLower(version), 'v'))
  }

  /** "RC" and the upper-cased text between the first "-rc" and the next one;
      otherwise an "rc" tag upper-cased; otherwise the cleaned tag itself. */
  function DisplayForm(cleaned: string): string {
    var parts := SplitOnString(cleaned, "-rc");
    if Contains(cleaned, "-rc") && |parts| > 1 then "RC" + ToUpper(parts[1])
    else if StartsWith(cleaned, "rc") then ToUpper(cleaned)
    else cleaned
  }

  /** The display form starts with "RC" exactly when the cleaned tag names a
      release candidate. */
  lemma DisplayMarksCandidates(version: string)
    ensures var cleaned := RemoveChar(ToLower(version), 'v');
      StartsWith(FormatDisplayVersion(version), "RC")
      <==> Contains(cleaned, "-rc") || StartsWith(cleaned, "rc")
  {
    var cleaned := RemoveChar(ToLower(version), 'v');
    assert HasNoUpper(ToLower(version));
    RemoveCharKeepsNoUpper(ToLower(version), 'v');
    DisplayFormMarksCandidates(cleaned);
  }

  lemma DisplayFormMarksCandidates(cleaned: string)
    requires HasNoUpper(cleaned)
    ensures StartsWith(DisplayForm(cleaned), "RC") <==> Contains(cleaned, "-rc") || StartsWith(cleaned, "rc")
  {
    var r := DisplayForm(cleaned);
    if Contains(cleaned, "-rc") {
      assert r[..2] == "RC";
    } else if StartsWith(cleaned, "rc") {
      assert cleaned[0] == 'r' && cleaned[1] == 'c';
      assert r[0] == 'R' && r[1] == 'C';
      assert r[..2] == "RC";
    } else if |cleaned| >= 2 {
      assert !IsAsciiUpper(cleaned[0]);
      assert r[..2][0] == cleaned[0];
    }
  }

  lemma {:induction false} RemoveCharKeepsNoUpper(s: string, c: char)
    requires HasNoUpper(s)
    ensures HasNoUpper(RemoveChar(s, c))
  {
    if s != [] {
      RemoveCharKeepsNoUpper(s[1..], c);
      var head := if s[0] == c then [] else [s[0]];
      var r := RemoveChar(s[1..], c);
      assert forall i :: 0 <= i < |head + r| ==> (head + r)[i] == if i < |head| then s[0] else r[i - |head|];
    }
  }

  /** A plain tag keeps its text through ToLower().Replace("v", ""), and so
      does it behind a "v". */
  lemma DisplayCleanOfPlain(s: string)
    requires PlainTag(s)
    ensures RemoveChar(ToLower(s), 'v') == s && RemoveChar(ToLower("v" + s), 'v') == s
  {
    ToLowerOfLower(s);
    var vs := "v" + s;
    assert forall i :: 0 <= i < |vs| ==> vs[i] == if i == 0 then 'v' else s[i - 1];
    ToLowerOfLower(vs);
    assert vs[1..] == s;
  }

  /** A release tag is displayed as written, without its leading "v". */
  lemma DisplayOfRelease(major: nat, minor: nat, patch: nat)
    ensures FormatDisplayVersion(ReleaseTag(major, minor, patch)) == ReleaseTag(major, minor, patch)
    ensures FormatDisplayVersion("v" + ReleaseTag(major, minor, patch)) == ReleaseTag(major, minor, patch)
  {
    var r := ReleaseTag(major, minor, patch);
    ReleaseTagPlain(major, minor, patch);
    DisplayCleanOfPlain(r);
    DisplayOfPlainRelease(r);
  }

  lemma DisplayOfPlainRelease(r: string)
    requires r != [] && '-' !in r && r[0] != 'r'
    ensures DisplayForm(r) == r
  {
    NotContainsWithoutHead(r, "-rc");
    NotLegacy(r);
  }

  /** A candidate tag is displayed as "RC" and its number. */
  lemma DisplayOfCandidate(major: nat, minor: nat, patch: nat, n: nat)
    ensures FormatDisplayVersion(CandidateTag(major, minor, patch, n)) == "RC" + NatToString(n)
  {
    var r := ReleaseTag(major, minor, patch);
    var d := NatToString(n);
    var s := CandidateTag(major, minor, patch, n);
    CandidateTagChars(major, minor, patch, n);
    DisplayCleanOfPlain(s);
    DisplayOfCandidateText(r, d);
  }

  lemma DisplayOfCandidateText(r: string, d: string)
    requires '-' !in r && IsDigits(d)
    ensures DisplayForm(r + "-rc" + d) == "RC" + d
  {
    var s := r + "-rc" + d;
    IndexOfStringAfterFree(r, "-rc", d);
    assert s[..|r|] == r && s[|r| + 3..] == d;
    NotContainsWithoutHead(d, "-rc");
    assert SplitOnString(s, "-rc") == [r, d];
    ToUpperOfUpper(d);
  }

  // ---------------------------------------------------------------------------
  // ParseUpdateInfo

  /** The body text with the JSON escapes \n and \r turned into line breaks. */
  function Unescape(body: string): string {
    ReplaceAll(ReplaceAll(body, "\\n", "\n"), "\\r", "\r")
  }

  lemma UnescapePlain(body: string)
    requires !Contains(body, "\\n") && !Contains(body, "\\r")
    ensures Unescape(body) == body
  {
    ReplaceAllWithout(body, "\\n", "\n");
    ReplaceAllWithout(body, "\\r", "\r");
  }

  /** The first escape of a body, after text without backslashes, becomes the
      line break it stands for, and the rest is unescaped in turn. */
  lemma UnescapeBreaks(head: string, tail: string)
    requires '\\' !in head
    ensures Unescape(head + "\\n" + tail) == head + "\n" + Unescape(tail)
    ensures Unescape(head + "\\r" + tail) == head + "\r" + Unescape(tail)
  {
    UnescapeNewline(head, tail);
    UnescapeReturn(head, tail);
  }

  lemma UnescapeNewline(head: string, tail: string)
    requires '\\' !in head
    ensures Unescape(head + "\\n" + tail) == head + "\n" + Unescape(tail)
  {
    ReplaceTwiceAtFirst(head, tail, "\\n", "\n", "\\r", "\r");
  }

  lemma UnescapeReturn(head: string, tail: string)
    requires '\\' !in head
    ensures Unescape(head + "\\r" + tail) == head + "\r" + Unescape(tail)
  {
    assert !OccursAt("\\r" + tail, "\\n", 0) by {
      assert ("\\r" + tail)[..2][1] == 'r';
    }
    ReplaceTwiceAtSecond(head, tail, "\\n", "\n", "\\r", "\r");
  }

  /** The update info for the captured tag, download URL and body; nothing
      without a tag. */
  function ParseUpdateInfo(tag: Option<string>, url: Option<string>, body: Option<string>): (r: Option<UpdateInfo>)
    ensures r.Some? <==> tag.Some?
  {
    match tag
    case None => None
    case Some(latestTag) =>
      Some(UpdateInfo(
        CurrentVersion,
        FormatDisplayVersion(latestTag),
        latestTag,
        CompareOrdinalIgnoreCase(NormalizeVersion(latestTag), NormalizeVersion(CurrentVersion)) > 0,
        match url case Some(u) => u case None => "",
        match body case Some(b) => Unescape(b) case None => ""))
  }

  /** For a tag whose fields fit the key widths, an update is offered exactly
      when the tag is a later version than the one this build reports. */
  lemma UpdateOfferedIffNewer(tag: string, url: Option<string>, body: Option<string>)
    requires InRange(Fields(Clean(tag)))
    ensures ParseUpdateInfo(Some(tag), url, body).value.updateAvailable
            <==> Newer(Fields(Clean(tag)), ShippedFields)
  {
    ShippedVersionKey();
    KeyOrder(Fields(Clean(tag)), ShippedFields);
  }

  /** Every release from 1.0.0 on is offered as an update, displayed as its tag. */
  lemma ReleasesAreOffered(major: nat, minor: nat, patch: nat, url: Option<string>, body: Option<string>)
    requires 1 <= major < 100000 && minor < 100000 && patch < 100000
    ensures var info := ParseUpdateInfo(Some(ReleaseTag(major, minor, patch)), url, body).value;
      info.updateAvailable && info.latestVersion == ReleaseTag(major, minor, patch)
  {
    ReleaseOffered(major, minor, patch, url, body);
    DisplayOfRelease(major, minor, patch);
  }

  lemma ReleaseOffered(major: nat, minor: nat, patch: nat, url: Option<string>, body: Option<string>)
    requires 1 <= major < 100000 && minor < 100000 && patch < 100000
    ensures ParseUpdateInfo(Some(ReleaseTag(major, minor, patch)), url, body).value.updateAvailable
  {
    ReleaseCleanFields(major, minor, patch);
    ReleaseNewerThanShipped(major, minor, patch);
    UpdateOfferedIffNewer(ReleaseTag(major, minor, patch), url, body);
  }

  lemma ReleaseCleanFields(major: nat, minor: nat, patch: nat)
    requires major <= 0x7FFF_FFFF && minor <= 0x7FFF_FFFF && patch <= 0x7FFF_FFFF
    ensures Fields(Clean(ReleaseTag(major, minor, patch))) == VersionFields(major, minor, patch, 9999, 9999)
  {
    ReleaseFields(major, minor, patch);
  }

  lemma ReleaseNewerThanShipped(major: nat, minor: nat, patch: nat)
    requires major >= 1
    ensures Newer(VersionFields(major, minor, patch, 9999, 9999), ShippedFields)
  {
    var a, b := Values(ShippedFields), Values(VersionFields(major, minor, patch, 9999, 9999));
    if major == 1 {
      assert a[1..][1..][1..][0] < b[1..][1..][1..][0];
      assert LexLess(a[1..][1..][1..], b[1..][1..][1..]);
      if minor == 0 {
        assert LexLess(a[1..][1..], b[1..][1..]);
      }
      assert LexLess(a[1..], b[1..]);
    }
  }

  /** The tag of the running version is never offered. */
  lemma SameVersionNotOffered(url: Option<string>, body: Option<string>)
    ensures !ParseUpdateInfo(Some(CurrentVersion), url, body).value.updateAvailable
  {
  }
}
