/** String helpers with the meaning the .NET string API gives them: whitespace,
    case mapping (for ASCII letters), prefix/substring tests, trimming,
    splitting, decimal formatting and parsing, and ordinal comparison. */
module Text {

  /** char.IsWhiteSpace: the Unicode White_Space characters, which are tab to
      carriage return, space, next-line, no-break space, ogham space mark,
      the spaces U+2000 to U+200A, the line and paragraph separators, narrow
      no-break space, medium mathematical space and ideographic space. */
  predicate IsWhiteSpace(c: char) {
    var n := c as int;
    (9 <= n <= 13) || n == 0x20 || n == 0x85 || n == 0xA0 || n == 0x1680 || (0x2000 <= n <= 0x200A)
    || n == 0x2028 || n == 0x2029 || n == 0x202F || n == 0x205F || n == 0x3000
  }

  /** The whitespace NumberStyles.Integer lets surround a number: tab to
      carriage return, and space, and no other. */
  predicate IsNumberWhiteSpace(c: char) {
    (9 <= c as int <= 13) || c == ' '
  }

  /** The text of a number without the whitespace allowed around it. */
  function TrimNumberWhiteSpace(s: string): (r: string)
    ensures |r| <= |s|
    ensures r == [] || (!IsNumberWhiteSpace(r[0]) && !IsNumberWhiteSpace(r[|r| - 1]))
    decreases |s|
  {
    if |s| > 0 && IsNumberWhiteSpace(s[0]) then TrimNumberWhiteSpace(s[1..])
    else if |s| > 0 && IsNumberWhiteSpace(s[|s| - 1]) then TrimNumberWhiteSpace(s[..|s| - 1])
    else s
  }

  /** string.IsNullOrWhiteSpace for a non-null string. */
  predicate IsBlank(s: string) {
    forall i :: 0 <= i < |s| ==> IsWhiteSpace(s[i])
  }

  predicate IsAsciiUpper(c: char) { 'A' <= c <= 'Z' }
  predicate IsAsciiLower(c: char) { 'a' <= c <= 'z' }
  predicate IsAsciiLetter(c: char) { IsAsciiUpper(c) || IsAsciiLower(c) }
  predicate IsDigit(c: char) { '0' <= c <= '9' }

  function LowerChar(c: char): (r: char)
    ensures !IsAsciiUpper(r)
    ensures !IsAsciiLetter(c) ==> r == c
  {
    if IsAsciiUpper(c) then (c as int + 32) as char else c
  }

  function UpperChar(c: char): (r: char)
    ensures !IsAsciiLower(r)
    ensures !IsAsciiLetter(c) ==> r == c
  {
    if IsAsciiLower(c) then (c as int - 32) as char else c
  }

  function ToLower(s: string): (r: string)
    ensures |r| == |s|
    ensures forall i :: 0 <= i < |s| ==> r[i] == LowerChar(s[i])
  {
    seq(|s|, i requires 0 <= i < |s| => LowerChar(s[i]))
  }

  function ToUpper(s: string): (r: string)
    ensures |r| == |s|
    ensures forall i :: 0 <= i < |s| ==> r[i] == UpperChar(s[i])
  {
    seq(|s|, i requires 0 <= i < |s| => UpperChar(s[i]))
  }

  /** string.Equals(a, b, StringComparison.OrdinalIgnoreCase). */
  predicate EqualsIgnoreCase(a: string, b: string) {
    ToUpper(a) == ToUpper(b)
  }

  predicate StartsWith(s: string, prefix: string) {
    |prefix| <= |s| && s[..|prefix|] == prefix
  }

  predicate EndsWith(s: string, suffix: string) {
    |suffix| <= |s| && s[|s| - |suffix|..] == suffix
  }

  /** s.StartsWith(prefix, StringComparison.OrdinalIgnoreCase). */
  predicate StartsWithIgnoreCase(s: string, prefix: string) {
    StartsWith(ToUpper(s), ToUpper(prefix))
  }

  predicate OccursAt(s: string, t: string, i: int) {
    0 <= i && i + |t| <= |s| && s[i..i + |t|] == t
  }

  /** s.Contains(t) with ordinal comparison. */
  predicate Contains(s: string, t: string) {
    exists i | 0 <= i <= |s| - |t| :: OccursAt(s, t, i)
  }

  predicate ContainsChar(s: string, c: char) {
    c in s
  }

  /** s.IndexOf(c): the first position of c, or -1. */
  function IndexOf(s: string, c: char): (r: int)
    ensures -1 <= r < |s|
    ensures r == -1 <==> c !in s
    ensures r >= 0 ==> s[r] == c && c !in s[..r]
  {
    if |s| == 0 then -1
    else if s[0] == c then 0
    else
      var k := IndexOf(s[1..], c);
      assert s[1..][..if k < 0 then 0 else k] == s[1..if k < 0 then 1 else k + 1];
      if k < 0 then -1 else k + 1
  }

  /** The first position of any character of seps, or -1. */
  function IndexOfAny(s: string, seps: set<char>): (r: int)
    ensures -1 <= r < |s|
    ensures r == -1 <==> forall i :: 0 <= i < |s| ==> s[i] !in seps
    ensures r >= 0 ==> s[r] in seps && forall i :: 0 <= i < r ==> s[i] !in seps
  {
    if |s| == 0 then -1
    else if s[0] in seps then 0
    else
      var k := IndexOfAny(s[1..], seps);
      if k < 0 then -1 else k + 1
  }

  /** The first position at which t occurs in s, or -1. */
  function IndexOfString(s: string, t: string): (r: int)
    ensures -1 <= r <= |s|
    ensures r == -1 <==> !Contains(s, t)
    ensures r >= 0 ==> OccursAt(s, t, r) && forall i :: 0 <= i < r ==> !OccursAt(s, t, i)
    decreases |s|
  {
    if |t| > |s| then -1
    else if s[..|t|] == t then
      assert OccursAt(s, t, 0);
      0
    else
      var k := IndexOfString(s[1..], t);
      assert !OccursAt(s, t, 0);
      assert forall i :: 1 <= i <= |s| - |t| ==> (OccursAt(s[1..], t, i - 1) <==> OccursAt(s, t, i));
      if k < 0 then -1
      else
        assert OccursAt(s, t, k + 1);
        k + 1
  }

  function TrimStart(s: string): (r: string)
    ensures |r| <= |s| && r == s[|s| - |r|..]
    ensures r == [] || !IsWhiteSpace(r[0])
    ensures forall i :: 0 <= i < |s| - |r| ==> IsWhiteSpace(s[i])
  {
    if |s| > 0 && IsWhiteSpace(s[0]) then
      var r := TrimStart(s[1..]);
      assert forall i :: 0 <= i < |s| - |r| ==> IsWhiteSpace(s[i]) by {
        forall i | 0 < i < |s| - |r|
          ensures IsWhiteSpace(s[i])
        {
          assert s[i] == s[1..][i - 1];
        }
      }
      r
    else s
  }

  /** s.TrimEnd(chars): drops every trailing character that is in chars. */
  function TrimEndChars(s: string, chars: set<char>): (r: string)
    ensures |r| <= |s| && r == s[..|r|]
    ensures r == [] || r[|r| - 1] !in chars
    ensures forall i :: |r| <= i < |s| ==> s[i] in chars
  {
    if |s| > 0 && s[|s| - 1] in chars then TrimEndChars(s[..|s| - 1], chars) else s
  }

  function TrimEnd(s: string): (r: string)
    ensures |r| <= |s| && r == s[..|r|]
    ensures r == [] || !IsWhiteSpace(r[|r| - 1])
    ensures forall i :: |r| <= i < |s| ==> IsWhiteSpace(s[i])
  {
    if |s| > 0 && IsWhiteSpace(s[|s| - 1]) then
      var r := TrimEnd(s[..|s| - 1]);
      assert forall i :: |r| <= i < |s| ==> IsWhiteSpace(s[i]) by {
        forall i | |r| <= i < |s| - 1
          ensures IsWhiteSpace(s[i])
        {
          assert s[i] == s[..|s| - 1][i];
        }
      }
      r
    else s
  }

  /** s.Trim(): leading and trailing whitespace removed. */
  function Trim(s: string): (r: string)
    ensures |r| <= |s|
    ensures r == [] || (!IsWhiteSpace(r[0]) && !IsWhiteSpace(r[|r| - 1]))
    ensures r == [] <==> IsBlank(s)
  {
    TrimEnd(TrimStart(s))
  }

  /** s.Split(seps) with StringSplitOptions.None. */
  function Split(s: string, seps: set<char>): (r: seq<string>)
    ensures |r| >= 1
    ensures forall k, i :: 0 <= k < |r| && 0 <= i < |r[k]| ==> r[k][i] !in seps
    ensures (forall i :: 0 <= i < |s| ==> s[i] !in seps) ==> r == [s]
    decreases |s|
  {
    var i := IndexOfAny(s, seps);
    if i < 0 then [s] else [s[..i]] + Split(s[i + 1..], seps)
  }

  /** string.Join(sep, parts) for a one-character separator. */
  function Join(parts: seq<string>, sep: char): string {
    if parts == [] then []
    else if |parts| == 1 then parts[0]
    else parts[0] + [sep] + Join(parts[1..], sep)
  }

  lemma JoinCons(head: string, rest: seq<string>, sep: char)
    requires |rest| >= 1
    ensures Join([head] + rest, sep) == head + [sep] + Join(rest, sep)
  {
    assert ([head] + rest)[1..] == rest;
  }

  /** Splitting at one separator character and joining the pieces with it
      gives the string back. */
  lemma {:induction false} JoinOfSplit(s: string, sep: char)
    ensures Join(Split(s, {sep}), sep) == s
    decreases |s|
  {
    var i := IndexOfAny(s, {sep});
    if i >= 0 {
      var head, tail := s[..i], s[i + 1..];
      assert s == head + [sep] + tail by {
        assert s[i] == sep;
        assert s == s[..i] + [s[i]] + s[i + 1..];
      }
      JoinOfSplit(tail, sep);
      JoinCons(head, Split(tail, {sep}), sep);
    }
  }

  /** Joining pieces free of the separator and splitting again gives the
      pieces back: the pieces of a string are determined by it. */
  lemma {:induction false} SplitOfJoin(parts: seq<string>, sep: char)
    requires |parts| >= 1
    requires forall k, i :: 0 <= k < |parts| && 0 <= i < |parts[k]| ==> parts[k][i] != sep
    ensures Split(Join(parts, sep), {sep}) == parts
    decreases |parts|
  {
    if |parts| > 1 {
      var head, rest := parts[0], parts[1..];
      assert forall k, i :: 0 <= k < |rest| && 0 <= i < |rest[k]| ==> rest[k][i] == parts[k + 1][i];
      SplitOfJoin(rest, sep);
      assert parts == [head] + rest;
      JoinCons(head, rest, sep);
      assert forall i :: 0 <= i < |head| ==> head[i] !in {sep};
      SplitAfterFree(head, sep, Join(rest, sep), {sep});
    }
  }

  /** The non-empty parts, in order. */
  function RemoveEmpty(parts: seq<string>): (r: seq<string>)
    ensures |r| <= |parts|
    ensures forall w :: w in r <==> w in parts && w != []
  {
    if parts == [] then []
    else if parts[0] == [] then RemoveEmpty(parts[1..])
    else [parts[0]] + RemoveEmpty(parts[1..])
  }

  /** s.Split(seps, StringSplitOptions.RemoveEmptyEntries): the maximal runs of
      characters outside seps. */
  function SplitNonEmpty(s: string, seps: set<char>): (r: seq<string>)
    ensures forall w :: w in r ==> w != [] && forall i :: 0 <= i < |w| ==> w[i] !in seps
    ensures (forall i :: 0 <= i < |s| ==> s[i] !in seps) ==> |r| <= 1
  {
    RemoveEmpty(Split(s, seps))
  }

  /** s.Split(sep, StringSplitOptions.None) for a non-empty separator string. */
  function SplitOnString(s: string, sep: string): (r: seq<string>)
    requires sep != []
    ensures |r| >= 1
    ensures !Contains(s, sep) ==> r == [s]
    ensures Contains(s, sep) ==> |r| >= 2 && r[0] == s[..IndexOfString(s, sep)]
    decreases |s|
  {
    var i := IndexOfString(s, sep);
    if i < 0 then [s] else [s[..i]] + SplitOnString(s[i + |sep|..], sep)
  }

  /** s.Split(c, 2): everything before the first c, and everything after it. */
  function SplitFirst(s: string, c: char): (r: seq<string>)
    ensures c !in s ==> r == [s]
    ensures c in s ==> |r| == 2 && r[0] + [c] + r[1] == s && c !in r[0]
  {
    var i := IndexOf(s, c);
    if i < 0 then [s] else [s[..i], s[i + 1..]]
  }

  /** s.Replace(c.ToString(), ""): every occurrence of c removed. */
  function RemoveChar(s: string, c: char): (r: string)
    ensures c !in r
    ensures c !in s ==> r == s
    ensures |r| <= |s|
  {
    if s == [] then []
    else (if s[0] == c then [] else [s[0]]) + RemoveChar(s[1..], c)
  }

  /** s.Replace(pattern, replacement): the text is scanned from the left, and
      each occurrence met is replaced and skipped, so replacements never
      overlap. */
  function ReplaceAll(s: string, pattern: string, replacement: string): string
    requires pattern != []
    decreases |s|
  {
    if |s| < |pattern| then s
    else if s[..|pattern|] == pattern then
      replacement + ReplaceAll(s[|pattern|..], pattern, replacement)
    else
      [s[0]] + ReplaceAll(s[1..], pattern, replacement)
  }

  /** A text without the pattern is unchanged by the replacement. */
  lemma {:induction false} ReplaceAllWithout(s: string, p: string, q: string)
    requires p != [] && !Contains(s, p)
    ensures ReplaceAll(s, p, q) == s
    decreases |s|
  {
    if |s| >= |p| {
      assert !OccursAt(s, p, 0);
      assert s[..|p|] != p;
      assert !Contains(s[1..], p) by {
        if Contains(s[1..], p) {
          var i :| 0 <= i <= |s[1..]| - |p| && OccursAt(s[1..], p, i);
          assert s[i + 1..i + 1 + |p|] == s[1..][i..i + |p|];
          assert OccursAt(s, p, i + 1);
        }
      }
      ReplaceAllWithout(s[1..], p, q);
      assert s == [s[0]] + s[1..];
    }
  }

  /** A text that starts with the pattern has that occurrence replaced first. */
  lemma ReplaceAllHead(p: string, y: string, q: string)
    requires p != []
    ensures ReplaceAll(p + y, p, q) == q + ReplaceAll(y, p, q)
  {
    assert (p + y)[..|p|] == p && (p + y)[|p|..] == y;
  }

  /** Where no occurrence of the pattern starts at the first character, that
      character is kept and the rest is replaced. */
  lemma ReplaceAllStep(s: string, p: string, q: string)
    requires p != [] && s != [] && !OccursAt(s, p, 0)
    ensures ReplaceAll(s, p, q) == [s[0]] + ReplaceAll(s[1..], p, q)
  {
    if |s| >= |p| {
      assert s[..|p|] != p;
    } else {
      assert s == [s[0]] + s[1..];
    }
  }

  /** Replacing in x + y, where x lacks the pattern's first character, leaves
      x as it is. */
  lemma {:induction false} ReplaceAllAfterFree(x: string, y: string, p: string, q: string)
    requires p != [] && p[0] !in x
    ensures ReplaceAll(x + y, p, q) == x + ReplaceAll(y, p, q)
  {
    if x != [] {
      var s := x + y;
      assert !OccursAt(s, p, 0) by {
        if |p| <= |s| {
          assert s[..|p|][0] == x[0];
        }
      }
      ReplaceAllStep(s, p, q);
      assert s[1..] == x[1..] + y;
      ReplaceAllAfterFree(x[1..], y, p, q);
      assert [x[0]] + x[1..] == x;
    } else {
      assert x + y == y;
    }
  }

  /** Two replacement passes over head + p + tail, where head lacks the first
      characters of both patterns: the occurrence of p becomes q and the two
      passes carry on over the tail. */
  lemma ReplaceTwiceAtFirst(head: string, tail: string, p: string, q: string, p2: string, q2: string)
    requires p != [] && p2 != [] && p[0] !in head && p2[0] !in head && p2[0] !in q
    ensures ReplaceAll(ReplaceAll(head + p + tail, p, q), p2, q2)
            == head + q + ReplaceAll(ReplaceAll(tail, p, q), p2, q2)
  {
    var c := ReplaceAll(tail, p, q);
    assert ReplaceAll(head + p + tail, p, q) == (head + q) + c by {
      assert head + p + tail == head + (p + tail);
      ReplaceAllAfterFree(head, p + tail, p, q);
      ReplaceAllHead(p, tail, q);
    }
    ReplaceAllAfterFree(head + q, c, p2, q2);
  }

  /** Two replacement passes over head + p2 + tail, where the first pass finds
      nothing in head + p2: the occurrence of p2 becomes q2 in the second
      pass, and the two passes carry on over the tail. */
  lemma ReplaceTwiceAtSecond(head: string, tail: string, p: string, q: string, p2: string, q2: string)
    requires p != [] && p2 != [] && p[0] !in head && p2[0] !in head
    requires p[0] !in p2[1..] && !OccursAt(p2 + tail, p, 0)
    ensures ReplaceAll(ReplaceAll(head + p2 + tail, p, q), p2, q2)
            == head + q2 + ReplaceAll(ReplaceAll(tail, p, q), p2, q2)
  {
    var c := ReplaceAll(tail, p, q);
    assert ReplaceAll(head + p2 + tail, p, q) == head + (p2 + c) by {
      assert head + p2 + tail == head + (p2 + tail);
      ReplaceAllAfterFree(head, p2 + tail, p, q);
      ReplaceAllPassesOver(p2, tail, p, q);
    }
    ReplaceAllAfterFree(head, p2 + c, p2, q2);
    ReplaceAllHead(p2, c, q2);
  }

  /** A part x where no occurrence of p starts is kept by the replacement. */
  lemma ReplaceAllPassesOver(x: string, tail: string, p: string, q: string)
    requires p != [] && x != [] && p[0] !in x[1..] && !OccursAt(x + tail, p, 0)
    ensures ReplaceAll(x + tail, p, q) == x + ReplaceAll(tail, p, q)
  {
    var e := x + tail;
    calc {
      ReplaceAll(e, p, q);
      { ReplaceAllStep(e, p, q); }
      [e[0]] + ReplaceAll(e[1..], p, q);
      { assert e[0] == x[0] && e[1..] == x[1..] + tail; }
      [x[0]] + ReplaceAll(x[1..] + tail, p, q);
      { ReplaceAllAfterFree(x[1..], tail, p, q); }
      [x[0]] + (x[1..] + ReplaceAll(tail, p, q));
      { assert [x[0]] + x[1..] == x; }
      x + ReplaceAll(tail, p, q);
    }
  }

  // ---------------------------------------------------------------------------
  // Decimal numbers

  function DigitChar(d: nat): (c: char)
    requires d < 10
    ensures IsDigit(c)
  {
    ('0' as int + d) as char
  }

  function DigitValue(c: char): (d: nat)
    requires IsDigit(c)
    ensures d < 10 && DigitChar(d) == c
  {
    c as int - '0' as int
  }

  predicate IsDigits(s: string) {
    forall i :: 0 <= i < |s| ==> IsDigit(s[i])
  }

  /** The value of a string of decimal digits, most significant first. */
  function DigitsValue(s: string): nat
    requires IsDigits(s)
  {
    if s == [] then 0 else DigitsValue(s[..|s| - 1]) * 10 + DigitValue(s[|s| - 1])
  }

  /** n.ToString() for a non-negative integer. */
  function NatToString(n: nat): (r: string)
    ensures r != [] && IsDigits(r)
    ensures DigitsValue(r) == n
    ensures |r| == 1 || r[0] != '0'
  {
    if n < 10 then [DigitChar(n)]
    else
      var r := NatToString(n / 10) + [DigitChar(n % 10)];
      assert r[..|r| - 1] == NatToString(n / 10);
      r
  }

  /** n.ToString() for any integer. */
  function IntToString(n: int): string {
    if n < 0 then "-" + NatToString(-n) else NatToString(n)
  }

  function Zeros(k: nat): (r: string)
    ensures |r| == k && IsDigits(r) && forall i :: 0 <= i < k ==> r[i] == '0'
  {
    if k == 0 then [] else Zeros(k - 1) + "0"
  }

  lemma {:induction false} LeadingZerosKeepValue(k: nat, s: string)
    requires IsDigits(s)
    ensures IsDigits(Zeros(k) + s) && DigitsValue(Zeros(k) + s) == DigitsValue(s)
    decreases |s|
  {
    if s == [] {
      ZerosValue(k);
      assert Zeros(k) + s == Zeros(k);
    } else {
      var t := Zeros(k) + s;
      assert t[..|t| - 1] == Zeros(k) + s[..|s| - 1];
      LeadingZerosKeepValue(k, s[..|s| - 1]);
    }
  }

  lemma {:induction false} ZerosValue(k: nat)
    ensures DigitsValue(Zeros(k)) == 0
  {
    if k > 0 {
      assert Zeros(k)[..k - 1] == Zeros(k - 1);
      ZerosValue(k - 1);
    }
  }

  /** The "D<width>" format of a non-negative integer: zero-padded on the left to
      at least width digits. */
  function PadNat(n: nat, width: nat): (r: string)
    ensures IsDigits(r) && DigitsValue(r) == n
    ensures |r| >= width
  {
    var d := NatToString(n);
    if |d| >= width then d
    else
      LeadingZerosKeepValue(width - |d|, d);
      Zeros(width - |d|) + d
  }

  /** The "D<width>" format of an integer: a minus sign before the padded digits
      of a negative value. */
  function FormatD(n: int, width: nat): string {
    if n < 0 then "-" + PadNat(-n, width) else PadNat(n, width)
  }

  /** A string of digits shorter than width digits has a value below 10^width. */
  function Pow10(k: nat): (r: nat)
    ensures r >= 1
  {
    if k == 0 then 1 else 10 * Pow10(k - 1)
  }

  lemma {:induction false} DigitsBelowPow10(s: string)
    requires IsDigits(s)
    ensures DigitsValue(s) < Pow10(|s|)
  {
    if s != [] {
      DigitsBelowPow10(s[..|s| - 1]);
    }
  }

  lemma {:induction false} NatToStringLength(n: nat, width: nat)
    requires width >= 1 && n < Pow10(width)
    ensures |NatToString(n)| <= width
  {
    var d := NatToString(n);
    if |d| > width {
      // d has no leading zero, so its value is at least 10^(|d| - 1) >= 10^width
      LeadingDigitBound(d);
      Pow10Monotone(width, |d| - 1);
    }
  }

  lemma {:induction false} LeadingDigitBound(s: string)
    requires IsDigits(s) && |s| >= 1 && s[0] != '0'
    ensures DigitsValue(s) >= Pow10(|s| - 1)
  {
    if |s| > 1 {
      assert s[..|s| - 1][0] == s[0];
      LeadingDigitBound(s[..|s| - 1]);
    }
  }

  lemma {:induction false} Pow10Monotone(a: nat, b: nat)
    requires a <= b
    ensures Pow10(a) <= Pow10(b)
    decreases b
  {
    if a < b {
      Pow10Monotone(a, b - 1);
    }
  }

  /** A padded number below 10^width takes exactly width characters. */
  lemma PadNatWidth(n: nat, width: nat)
    requires width >= 1 && n < Pow10(width)
    ensures |PadNat(n, width)| == width
  {
    NatToStringLength(n, width);
  }

  /** int.TryParse with NumberStyles.Integer: optional surrounding whitespace, an
      optional sign, at least one digit, and a value in the 32-bit range. */
  function ParseInt32(s: string): (r: Option<int>)
    ensures r.Some? ==> -0x8000_0000 <= r.value <= 0x7FFF_FFFF
  {
    var t := TrimNumberWhiteSpace(s);
    var negative := |t| > 0 && t[0] == '-';
    var body := if |t| > 0 && (t[0] == '-' || t[0] == '+') then t[1..] else t;
    if body == [] || !IsDigits(body) then None
    else
      var v := if negative then -(DigitsValue(body) as int) else DigitsValue(body);
      if -0x8000_0000 <= v <= 0x7FFF_FFFF then Some(v) else None
  }

  /** uint.TryParse with NumberStyles.Integer: optional surrounding whitespace,
      an optional sign, at least one digit, and a value in the unsigned 32-bit
      range; with a minus sign only zero is in range. */
  function ParseUInt32(s: string): (r: Option<nat>)
    ensures r.Some? ==> r.value <= 0xFFFF_FFFF
  {
    var t := TrimNumberWhiteSpace(s);
    var negative := |t| > 0 && t[0] == '-';
    var body := if |t| > 0 && (t[0] == '-' || t[0] == '+') then t[1..] else t;
    if body == [] || !IsDigits(body) then None
    else
      var v := DigitsValue(body);
      if negative then (if v == 0 then Some(0) else None)
      else if v <= 0xFFFF_FFFF then Some(v) else None
  }

  datatype Option<+T> = None | Some(value: T)

  // ---------------------------------------------------------------------------
  // Ordinal comparison

  /** The sign of string.CompareOrdinal(a, b): character codes compared left to
      right, a proper prefix ordered first. */
  function CompareOrdinal(a: string, b: string): (r: int)
    ensures -1 <= r <= 1
    ensures r == 0 <==> a == b
  {
    if a == [] && b == [] then 0
    else if a == [] then -1
    else if b == [] then 1
    else if a[0] < b[0] then -1
    else if a[0] > b[0] then 1
    else
      var k := CompareOrdinal(a[1..], b[1..]);
      assert a == [a[0]] + a[1..] && b == [b[0]] + b[1..];
      k
  }

  /** The sign of string.Compare(a, b, StringComparison.OrdinalIgnoreCase). */
  function CompareOrdinalIgnoreCase(a: string, b: string): int {
    CompareOrdinal(ToUpper(a), ToUpper(b))
  }

  /** Reversing the arguments of an ordinal comparison reverses its sign. */
  lemma {:induction false} CompareOrdinalAntisymmetric(a: string, b: string)
    ensures CompareOrdinal(a, b) == -CompareOrdinal(b, a)
  {
    if a != [] && b != [] && a[0] == b[0] {
      CompareOrdinalAntisymmetric(a[1..], b[1..]);
    }
  }

  /** A common prefix does not influence an ordinal comparison. */
  lemma {:induction false} CompareOrdinalCommonPrefix(p: string, a: string, b: string)
    ensures CompareOrdinal(p + a, p + b) == CompareOrdinal(a, b)
  {
    if p != [] {
      var pa, pb := p + a, p + b;
      assert pa[0] == p[0] == pb[0];
      assert pa[1..] == p[1..] + a && pb[1..] == p[1..] + b;
      assert CompareOrdinal(pa, pb) == CompareOrdinal(pa[1..], pb[1..]);
      CompareOrdinalCommonPrefix(p[1..], a, b);
    } else {
      assert p + a == a && p + b == b;
    }
  }

  /** Two strings of the same length that differ decide a comparison by
      themselves, whatever follows them. */
  lemma {:induction false} CompareOrdinalFirstDifference(s: string, t: string, x: string, y: string)
    requires |s| == |t| && s != t
    ensures CompareOrdinal(s + x, t + y) == CompareOrdinal(s, t)
  {
    var sx, ty := s + x, t + y;
    assert sx[0] == s[0] && ty[0] == t[0];
    if s[0] == t[0] {
      assert sx[1..] == s[1..] + x && ty[1..] == t[1..] + y;
      assert s == [s[0]] + s[1..] && t == [t[0]] + t[1..];
      CompareOrdinalFirstDifference(s[1..], t[1..], x, y);
    }
  }

  /** The value of a digit string read from its first digit. */
  lemma {:induction false} DigitsValueFront(s: string)
    requires IsDigits(s) && s != []
    ensures DigitsValue(s) == DigitValue(s[0]) * Pow10(|s| - 1) + DigitsValue(s[1..])
    decreases |s|
  {
    var n := |s|;
    if n == 1 {
      assert s[..0] == [] && s[1..] == [];
    } else {
      var init := s[..n - 1];
      FrontParts(s);
      DigitsValueFront(init);
      FrontStep(DigitsValue(s), DigitsValue(init), DigitValue(s[0]), Pow10(n - 2),
        DigitsValue(init[1..]), DigitValue(s[n - 1]), DigitsValue(s[1..]), Pow10(n - 1));
    }
  }

  /** How a digit string of two or more digits relates to the string without
      its last digit and the string without its first. */
  lemma FrontParts(s: string)
    requires IsDigits(s) && |s| >= 2
    ensures IsDigits(s[..|s| - 1]) && s[..|s| - 1] != [] && s[..|s| - 1][0] == s[0]
    ensures DigitsValue(s) == DigitsValue(s[..|s| - 1]) * 10 + DigitValue(s[|s| - 1])
    ensures DigitsValue(s[1..]) == DigitsValue(s[..|s| - 1][1..]) * 10 + DigitValue(s[|s| - 1])
    ensures Pow10(|s| - 1) == 10 * Pow10(|s| - 2)
  {
    var n := |s|;
    var init, tail, mid := s[..n - 1], s[1..], s[1..n - 1];
    assert init[1..] == mid;
    assert tail[..|tail| - 1] == mid && tail[|tail| - 1] == s[n - 1];
    assert DigitsValue(tail) == DigitsValue(mid) * 10 + DigitValue(s[n - 1]);
  }

  lemma FrontStep(whole: int, v: int, a: int, p: int, x: int, l: int, rest: int, q: int)
    requires whole == v * 10 + l && v == a * p + x && rest == x * 10 + l && q == 10 * p
    ensures whole == a * q + rest
  {
    ShiftDecimal(a, p, x, l);
  }

  lemma ShiftDecimal(a: int, p: int, x: int, l: int)
    ensures (a * p + x) * 10 + l == a * (10 * p) + (x * 10 + l)
  {
  }

  /** A smaller leading digit makes a smaller number, whatever the lower digits. */
  lemma LeadingDigitDecides(a: nat, b: nat, p: nat, x: nat, y: nat)
    requires a < b && x < p
    ensures a * p + x < b * p + y
  {
    MultiplyMonotone(a + 1, b, p);
    assert (a + 1) * p == a * p + p;
  }

  lemma {:induction false} MultiplyMonotone(c: nat, d: nat, p: nat)
    requires c <= d
    ensures c * p <= d * p
    decreases d - c
  {
    if c < d {
      MultiplyMonotone(c, d - 1, p);
      assert d * p == (d - 1) * p + p;
    }
  }

  /** Digit strings of one length compare ordinally as their values compare. */
  lemma {:induction false} CompareDigits(s: string, t: string)
    requires IsDigits(s) && IsDigits(t) && |s| == |t|
    ensures CompareOrdinal(s, t) < 0 <==> DigitsValue(s) < DigitsValue(t)
    ensures CompareOrdinal(s, t) > 0 <==> DigitsValue(s) > DigitsValue(t)
    decreases |s|
  {
    if s != [] {
      DigitsValueFront(s);
      DigitsValueFront(t);
      var a, b, p := DigitValue(s[0]), DigitValue(t[0]), Pow10(|s| - 1);
      var x, y := DigitsValue(s[1..]), DigitsValue(t[1..]);
      DigitsBelowPow10(s[1..]);
      DigitsBelowPow10(t[1..]);
      if s[0] < t[0] {
        LeadingDigitDecides(a, b, p, x, y);
      } else if s[0] > t[0] {
        LeadingDigitDecides(b, a, p, y, x);
      } else {
        CompareDigits(s[1..], t[1..]);
      }
    }
  }

  /** Zero-padded numbers of one width compare ordinally as the numbers do. */
  lemma ComparePadded(a: nat, b: nat, width: nat)
    requires width >= 1 && a < Pow10(width) && b < Pow10(width)
    ensures |PadNat(a, width)| == width == |PadNat(b, width)|
    ensures CompareOrdinal(PadNat(a, width), PadNat(b, width)) < 0 <==> a < b
    ensures CompareOrdinal(PadNat(a, width), PadNat(b, width)) > 0 <==> a > b
  {
    PadNatWidth(a, width);
    PadNatWidth(b, width);
    CompareDigits(PadNat(a, width), PadNat(b, width));
  }

  /** int.TryParse reads back the text of a non-negative 32-bit value. */
  lemma ParseInt32OfNat(n: nat)
    requires n <= 0x7FFF_FFFF
    ensures ParseInt32(NatToString(n)) == Some(n)
  {
    NumberTextKept(NatToString(n));
  }

  /** Text that starts and ends with no white space is parsed as it is. */
  lemma NumberTextKept(t: string)
    requires t != [] && !IsNumberWhiteSpace(t[0]) && !IsNumberWhiteSpace(t[|t| - 1])
    ensures TrimNumberWhiteSpace(t) == t
  {
  }

  /** uint.TryParse reads back the text of every unsigned 32-bit value, takes
      a signed zero as zero and refuses any other negative number. */
  lemma ParseUInt32OfNat(n: nat)
    requires n <= 0xFFFF_FFFF
    ensures ParseUInt32(NatToString(n)) == Some(n)
    ensures ParseUInt32("-" + NatToString(n)) == (if n == 0 then Some(0) else None)
  {
    var d := NatToString(n);
    assert !IsNumberWhiteSpace(d[0]) && !IsNumberWhiteSpace(d[|d| - 1]);
    NumberTextKept(d);
    ParseUInt32Negative(d);
  }

  lemma ParseUInt32Negative(d: string)
    requires d != [] && IsDigits(d)
    ensures ParseUInt32("-" + d) == (if DigitsValue(d) == 0 then Some(0) else None)
  {
    var m := "-" + d;
    assert m[|m| - 1] == d[|d| - 1];
    NumberTextKept(m);
    assert m[1..] == d;
  }

  predicate HasNoUpper(s: string) {
    forall i :: 0 <= i < |s| ==> !IsAsciiUpper(s[i])
  }

  predicate HasNoLower(s: string) {
    forall i :: 0 <= i < |s| ==> !IsAsciiLower(s[i])
  }

  lemma ToLowerOfLower(s: string)
    requires HasNoUpper(s)
    ensures ToLower(s) == s
  {
  }

  lemma ToUpperOfUpper(s: string)
    requires HasNoLower(s)
    ensures ToUpper(s) == s
  {
  }

  /** Case folding works character by character, so it distributes over
      concatenation. */
  lemma ToUpperAppend(a: string, b: string)
    ensures ToUpper(a + b) == ToUpper(a) + ToUpper(b)
  {
  }

  /** A string without surrounding whitespace is its own Trim(). */
  lemma TrimOfTrimmed(s: string)
    requires s != [] && !IsWhiteSpace(s[0]) && !IsWhiteSpace(s[|s| - 1])
    ensures Trim(s) == s
  {
  }

  /** The first occurrence of c is where a string made of a c-free part, c, and
      anything else puts it. */
  lemma {:induction false} IndexOfAfterFree(a: string, c: char, rest: string)
    requires c !in a
    ensures IndexOf(a + [c] + rest, c) == |a|
  {
    var s := a + [c] + rest;
    if a != [] {
      assert s[0] == a[0] && s[1..] == a[1..] + [c] + rest;
      IndexOfAfterFree(a[1..], c, rest);
    }
  }

  lemma {:induction false} IndexOfAnyAfterFree(a: string, c: char, rest: string, seps: set<char>)
    requires c in seps && forall i :: 0 <= i < |a| ==> a[i] !in seps
    ensures IndexOfAny(a + [c] + rest, seps) == |a|
  {
    var s := a + [c] + rest;
    if a != [] {
      assert s[0] == a[0] && s[1..] == a[1..] + [c] + rest;
      IndexOfAnyAfterFree(a[1..], c, rest, seps);
    }
  }

  /** Splitting at a separator preceded by separator-free text. */
  lemma SplitAfterFree(a: string, c: char, rest: string, seps: set<char>)
    requires c in seps && forall i :: 0 <= i < |a| ==> a[i] !in seps
    ensures Split(a + [c] + rest, seps) == [a] + Split(rest, seps)
  {
    var s := a + [c] + rest;
    IndexOfAnyAfterFree(a, c, rest, seps);
    assert s[..|a|] == a && s[|a| + 1..] == rest;
  }

  /** The first occurrence of t follows a leading part without t's first
      character. */
  lemma {:induction false} IndexOfStringAfterFree(a: string, t: string, rest: string)
    requires t != [] && t[0] !in a
    ensures IndexOfString(a + t + rest, t) == |a|
  {
    var s := a + t + rest;
    if a == [] {
      assert s[..|t|] == t;
    } else {
      assert s[..|t|][0] == a[0] != t[0];
      assert s[1..] == a[1..] + t + rest;
      IndexOfStringAfterFree(a[1..], t, rest);
    }
  }

  /** A string that does not contain the first character of t does not contain t. */
  lemma NotContainsWithoutHead(s: string, t: string)
    requires t != [] && t[0] !in s
    ensures !Contains(s, t)
  {
    assert forall i | 0 <= i <= |s| - |t| :: s[i..i + |t|][0] == s[i] != t[0];
  }

  /** Splitting three separator-free parts joined by a separator. */
  lemma SplitThree(a: string, b: string, c: string, sep: char, seps: set<char>)
    requires sep in seps
    requires forall i :: 0 <= i < |a| ==> a[i] !in seps
    requires forall i :: 0 <= i < |b| ==> b[i] !in seps
    requires forall i :: 0 <= i < |c| ==> c[i] !in seps
    ensures Split(a + [sep] + b + [sep] + c, seps) == [a, b, c]
  {
    var rest := b + [sep] + c;
    JoinAssoc(a, sep, rest, b, c);
    SplitAfterFree(a, sep, rest, seps);
    SplitTwo(b, c, sep, seps);
  }

  lemma JoinAssoc(a: string, sep: char, rest: string, b: string, c: string)
    requires rest == b + [sep] + c
    ensures a + [sep] + b + [sep] + c == a + [sep] + rest
  {
  }

  /** Splitting two separator-free parts joined by a separator. */
  lemma SplitTwo(a: string, b: string, sep: char, seps: set<char>)
    requires sep in seps
    requires forall i :: 0 <= i < |a| ==> a[i] !in seps
    requires forall i :: 0 <= i < |b| ==> b[i] !in seps
    ensures Split(a + [sep] + b, seps) == [a, b]
  {
    SplitAfterFree(a, sep, b, seps);
  }
}
