/** The string operations the modelled code relies on: JavaScript's String.prototype.trim and
    toLowerCase, Node's path.basename and path.extname on POSIX paths, and fileName.split('.').pop(). */
module Text {

  import opened Wrappers

  /** The code points JavaScript's trim removes: the WhiteSpace and LineTerminator productions of
      ECMAScript (tab, vertical tab, form feed, space, no-break space, the byte order mark, every
      space separator of Unicode category Zs, line feed, carriage return, and the line and paragraph
      separators). */
  predicate IsJsWhitespace(c: char)
  {
    || c == '\t' || c == '\n' || c == '\U{000B}' || c == '\U{000C}' || c == '\r' || c == ' '
    || c == '\U{00A0}' || c == '\U{1680}' || ('\U{2000}' <= c <= '\U{200A}')
    || c == '\U{2028}' || c == '\U{2029}' || c == '\U{202F}' || c == '\U{205F}'
    || c == '\U{3000}' || c == '\U{FEFF}'
  }

  /** s without its leading whitespace. */
  function TrimStart(s: string): (r: string)
    ensures |r| <= |s| && r == s[|s| - |r|..]
    ensures forall i :: 0 <= i < |s| - |r| ==> IsJsWhitespace(s[i])
    ensures r != [] ==> !IsJsWhitespace(r[0])
    decreases |s|
  {
    if s != [] && IsJsWhitespace(s[0]) then TrimStart(s[1..]) else s
  }

  /** s without its trailing whitespace. */
  function TrimEnd(s: string): (r: string)
    ensures |r| <= |s| && r == s[..|r|]
    ensures forall i :: |r| <= i < |s| ==> IsJsWhitespace(s[i])
    ensures r != [] ==> !IsJsWhitespace(r[|r| - 1])
    decreases |s|
  {
    if s != [] && IsJsWhitespace(s[|s| - 1]) then TrimEnd(s[..|s| - 1]) else s
  }

  /** String.prototype.trim. */
  function Trim(s: string): string
  {
    TrimEnd(TrimStart(s))
  }

  /** `s.trim() === ''`, equivalently `!s.trim()`. */
  predicate IsBlank(s: string)
  {
    Trim(s) == ""
  }

  /** A string is blank exactly when every one of its characters is whitespace. */
  lemma BlankIffAllWhitespace(s: string)
    ensures IsBlank(s) <==> forall i :: 0 <= i < |s| ==> IsJsWhitespace(s[i])
  {
  }

  /** Leading whitespace does not change what trim yields. */
  lemma TrimIgnoresLeadingSpace(s: string)
    ensures Trim(" " + s) == Trim(s)
  {
    assert (" " + s)[1..] == s;
  }

  /** The lower-case form of an ASCII letter; every other character is left as it is. */
  function LowerChar(c: char): (r: char)
    ensures 'A' <= c <= 'Z' ==> 'a' <= r <= 'z'
    ensures !('A' <= c <= 'Z') ==> r == c
  {
    if 'A' <= c <= 'Z' then (c as int + 32) as char else c
  }

  /** toLowerCase, restricted to ASCII letters. */
  function ToLower(s: string): (r: string)
    ensures |r| == |s|
    ensures forall i :: 0 <= i < |s| ==> r[i] == LowerChar(s[i])
    decreases |s|
  {
    if s == [] then [] else [LowerChar(s[0])] + ToLower(s[1..])
  }

  /** The position of the last occurrence of c in s, if any. */
  function LastIndexOf(s: string, c: char): (r: Option<nat>)
    ensures r.None? ==> forall i :: 0 <= i < |s| ==> s[i] != c
    ensures r.Some? ==> r.value < |s| && s[r.value] == c
    ensures r.Some? ==> forall i :: r.value < i < |s| ==> s[i] != c
    decreases |s|
  {
    if s == [] then None
    else if s[|s| - 1] == c then Some(|s| - 1)
    else LastIndexOf(s[..|s| - 1], c)
  }

  /** p without its trailing '/' characters. */
  function StripTrailingSlashes(p: string): (r: string)
    ensures |r| <= |p| && r == p[..|r|]
    ensures r != [] ==> r[|r| - 1] != '/'
    ensures forall i :: |r| <= i < |p| ==> p[i] == '/'
    decreases |p|
  {
    if p != [] && p[|p| - 1] == '/' then StripTrailingSlashes(p[..|p| - 1]) else p
  }

  /** Node's path.basename(p) on POSIX: the last path segment, trailing separators ignored. */
  function Basename(p: string): (r: string)
    ensures forall i :: 0 <= i < |r| ==> r[i] != '/'
  {
    var q := StripTrailingSlashes(p);
    match LastIndexOf(q, '/')
    case None => q
    case Some(k) => q[k + 1..]
  }

  /** The basename is the last segment: the part of p, trailing '/' removed, after its last '/', or
      all of it when it has none. */
  lemma BasenameIsLastSegment(p: string)
    ensures var q := StripTrailingSlashes(p); var r := Basename(p);
      && |r| <= |q| && r == q[|q| - |r|..]
      && (|r| < |q| ==> q[|q| - |r| - 1] == '/')
  {
    var q := StripTrailingSlashes(p);
    match LastIndexOf(q, '/')
    case None =>
    case Some(k) =>
      assert Basename(p) == q[k + 1..];
  }

  /** A file name placed under a directory has itself as basename. */
  lemma BasenameOfJoin(dir: string, name: string)
    requires name != "" && forall i :: 0 <= i < |name| ==> name[i] != '/'
    ensures Basename(dir + "/" + name) == name
  {
    var p := dir + "/" + name;
    assert p[|p| - 1] == name[|name| - 1];
    assert StripTrailingSlashes(p) == p;
    var k := |dir|;
    assert p[k] == '/';
    assert forall i :: k < i < |p| ==> p[i] == name[i - k - 1];
    assert LastIndexOf(p, '/') == Some(k);
    assert p[k + 1..] == name;
  }

  /** Node's path.extname(p) on POSIX: the basename from its last '.' on; "" when the basename has no
      '.', when its last '.' is its first character (".bashrc"), or when it is "..". */
  function Extname(p: string): (r: string)
    ensures r == [] || (r[0] == '.' && forall i :: 1 <= i < |r| ==> r[i] != '.')
    ensures forall i :: 0 <= i < |r| ==> r[i] != '/'
    ensures |r| <= |Basename(p)| && r == Basename(p)[|Basename(p)| - |r|..]
  {
    var b := Basename(p);
    match LastIndexOf(b, '.')
    case None => ""
    case Some(k) => if k == 0 || b == ".." then "" else b[k..]
  }

  /** path.extname reports an extension exactly when the basename has a '.' after its first character
      and is not ".."; the extension is then the basename from its last '.' on. */
  lemma ExtnameWhenDotted(p: string)
    ensures var b := Basename(p); var r := Extname(p);
      && (r != [] <==> b != ".." && exists i :: 0 < i < |b| && b[i] == '.')
      && (r != [] ==> exists k :: 0 < k < |b| && b[k] == '.' && r == b[k..])
  {
    var b := Basename(p);
    match LastIndexOf(b, '.')
    case None =>
    case Some(k) =>
      if k != 0 && b != ".." {
        assert Extname(p) == b[k..];
      }
  }

  /** `s.split('.').pop()`: what follows the last '.', or all of s when it has no '.'. */
  function AfterLastDot(s: string): (r: string)
    ensures forall i :: 0 <= i < |r| ==> r[i] != '.'
    ensures |r| <= |s| && r == s[|s| - |r|..]
    ensures (forall i :: 0 <= i < |s| ==> s[i] != '.') <==> r == s
    ensures (exists i :: 0 <= i < |s| && s[i] == '.') ==> |r| < |s| && s[|s| - |r| - 1] == '.'
  {
    match LastIndexOf(s, '.')
    case None => s
    case Some(k) => s[k + 1..]
  }

  /** For a plain file name, a non-empty path.extname is a dot followed by what split('.').pop()
      yields: the two extension rules agree whenever Node reports an extension at all. */
  lemma ExtnameIsDotAfterLastDot(name: string)
    requires forall i :: 0 <= i < |name| ==> name[i] != '/'
    requires Extname(name) != ""
    ensures Extname(name) == "." + AfterLastDot(name)
  {
    assert StripTrailingSlashes(name) == name;
    assert LastIndexOf(name, '/') == None;
    assert Basename(name) == name;
  }
}
