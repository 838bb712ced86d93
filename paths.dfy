/** Windows path rules the services rely on (System.IO.Path), and an abstract
    view of which directories and files exist. */
module Paths {
  import opened Text

  predicate IsDirectorySeparator(c: char) { c == '\\' || c == '/' }

  /** Path.IsPathRooted on Windows: a leading separator, or a drive letter
      followed by ':'. */
  predicate IsPathRooted(p: string) {
    (|p| >= 1 && IsDirectorySeparator(p[0])) || (|p| >= 2 && IsAsciiLetter(p[0]) && p[1] == ':')
  }

  /** Path.Combine(first, second): a rooted second path replaces the first; an
      empty part yields the other; otherwise one '\' is put between the parts
      unless the first already ends in a separator. */
  function Combine(first: string, second: string): string {
    if IsPathRooted(second) then second
    else if second == [] then first
    else if first == [] then second
    else if IsDirectorySeparator(first[|first| - 1]) then first + second
    else first + "\\" + second
  }

  /** The combined path always ends with the second part, and is exactly it when
      that part is rooted. */
  lemma CombineEndsWithSecond(first: string, second: string)
    ensures IsPathRooted(second) ==> Combine(first, second) == second
    ensures EndsWith(Combine(first, second), second)
  {
    var r := Combine(first, second);
    assert r[|r| - |second|..] == second;
  }

  /** What Combine puts in front of a relative, non-empty second part: the
      first part, followed by '\' unless it is empty or already ends in a
      separator. */
  function CombinePrefix(first: string): string {
    if first == [] then []
    else if IsDirectorySeparator(first[|first| - 1]) then first
    else first + "\\"
  }

  lemma CombineRelative(first: string, second: string)
    requires second != [] && !IsPathRooted(second)
    ensures Combine(first, second) == CombinePrefix(first) + second
  {
  }

  /** NTFS finds a file whatever the letter case of its name: the files of a
      directory are keyed by this folded form of their paths, so two paths
      name one file exactly when they are equal ignoring case. */
  function FileKey(path: string): string {
    ToUpper(path)
  }

  /** The position of the last directory separator in p, or -1. */
  function LastSeparator(p: string): (r: int)
    ensures -1 <= r < |p|
    ensures r >= 0 ==> IsDirectorySeparator(p[r])
    ensures forall i :: r < i < |p| ==> !IsDirectorySeparator(p[i])
  {
    if p == [] then -1
    else if IsDirectorySeparator(p[|p| - 1]) then |p| - 1
    else LastSeparator(p[..|p| - 1])
  }

  /** Path.GetFileName: the text after the last separator. */
  function GetFileName(p: string): string {
    p[LastSeparator(p) + 1..]
  }

  /** The file name is a separator-free tail of the path. */
  lemma FileNameIsTail(p: string)
    ensures EndsWith(p, GetFileName(p))
    ensures forall i :: 0 <= i < |GetFileName(p)| ==> !IsDirectorySeparator(GetFileName(p)[i])
  {
    var k := LastSeparator(p);
    assert p[|p| - |p[k + 1..]|..] == p[k + 1..];
  }

  /** The position of the last '.' in s, or -1. */
  function LastDot(s: string): (r: int)
    ensures -1 <= r < |s|
    ensures r >= 0 ==> s[r] == '.'
    ensures forall i :: r < i < |s| ==> s[i] != '.'
  {
    if s == [] then -1
    else if s[|s| - 1] == '.' then |s| - 1
    else LastDot(s[..|s| - 1])
  }

  /** Path.GetFileNameWithoutExtension: the file name up to its last '.', or the
      whole file name when it has none. */
  function GetFileNameWithoutExtension(p: string): string {
    var name := GetFileName(p);
    var k := LastDot(name);
    if k < 0 then name else name[..k]
  }

  /** The name without extension is the file name cut before its last '.'. */
  lemma FileNameWithoutExtensionIsPrefix(p: string)
    ensures StartsWith(GetFileName(p), GetFileNameWithoutExtension(p))
    ensures '.' !in GetFileName(p) ==> GetFileNameWithoutExtension(p) == GetFileName(p)
    ensures '.' in GetFileName(p) ==>
      var r := GetFileNameWithoutExtension(p);
      |r| < |GetFileName(p)| && GetFileName(p)[|r|] == '.' && '.' !in GetFileName(p)[|r| + 1..]
  {
  }

  /** The file part of dir combined with a plain name (no separator, not rooted)
      is that name. */
  lemma FileNameOfCombine(dir: string, name: string)
    requires dir != [] && name != []
    requires forall i :: 0 <= i < |name| ==> !IsDirectorySeparator(name[i]) && name[i] != ':'
    ensures GetFileName(Combine(dir, name)) == name
  {
    var p := Combine(dir, name);
    assert !IsPathRooted(name);
    assert IsDirectorySeparator(p[|p| - |name| - 1]);
    assert p[|p| - |name|..] == name;
    var k := LastSeparator(p);
    assert k == |p| - |name| - 1;
  }

  /** The characters Path.GetInvalidFileNameChars() returns on Windows. */
  predicate IsInvalidFileNameChar(c: char) {
    c as int < 32 || c == '"' || c == '<' || c == '>' || c == '|' || c == ':' || c == '*'
    || c == '?' || c == '\\' || c == '/'
  }

  /** Which directories and files exist, by full path. */
  datatype FileSystem = FileSystem(dirs: set<string>, files: set<string>)

  predicate DirectoryExists(fs: FileSystem, path: string) { path in fs.dirs }

  predicate FileExists(fs: FileSystem, path: string) { path in fs.files }
}
