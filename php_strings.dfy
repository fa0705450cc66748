/** The PHP string built-ins the core leans on, with the semantics of PHP 8 on
    byte strings: `strtolower` (ASCII only), `trim` (default character list),
    `basename`, `pathinfo` (PATHINFO_EXTENSION and PATHINFO_FILENAME), `strpos`,
    `empty` on a string, and the PCRE class `\s` used by the response regexes. */
module PhpStrings {
  import opened Wrappers

  // ---------------------------------------------------------------------------
  // Characters

  /** `strtolower` in PHP 8 maps only the ASCII letters A-Z. */
  function LowerChar(c: char): char {
    if 'A' <= c <= 'Z' then (c as int + 32) as char else c
  }

  predicate IsUpper(c: char) {
    'A' <= c <= 'Z'
  }

  function ToLower(s: string): (r: string)
    ensures |r| == |s|
    ensures forall i :: 0 <= i < |r| ==> !IsUpper(r[i])
    ensures forall i :: 0 <= i < |s| && !IsUpper(s[i]) ==> r[i] == s[i]
    ensures forall i :: 0 <= i < |s| && IsUpper(s[i]) ==> r[i] == (s[i] as int + 32) as char
  {
    seq(|s|, i requires 0 <= i < |s| => LowerChar(s[i]))
  }

  /** The PCRE class `\s` without UTF mode: tab, line feed, vertical tab,
      form feed, carriage return and space. */
  predicate IsRegexSpace(c: char) {
    c == ' ' || c == '\t' || c == '\n' || c == '\U{0B}' || c == '\U{0C}' || c == '\r'
  }

  /** The characters PHP's `trim` strips by default: space, tab, line feed,
      carriage return, NUL and vertical tab (form feed is NOT among them). */
  predicate IsTrimChar(c: char) {
    c == ' ' || c == '\t' || c == '\n' || c == '\r' || c == '\0' || c == '\U{0B}'
  }

  // ---------------------------------------------------------------------------
  // Searching

  /** `s[i..]` starts with `pat`. */
  predicate OccursAt(s: string, pat: string, i: int) {
    0 <= i && i + |pat| <= |s| && s[i..i + |pat|] == pat
  }

  /** The first occurrence of `pat` in `s` at or after `from`. */
  function IndexOf(s: string, pat: string, from: nat): (r: Option<nat>)
    requires |pat| > 0
    ensures r.Some? ==> from <= r.value && OccursAt(s, pat, r.value)
    ensures r.Some? ==> forall k :: from <= k < r.value ==> !OccursAt(s, pat, k)
    ensures r.None? ==> forall k :: from <= k ==> !OccursAt(s, pat, k)
    decreases |s| - from
  {
    if from + |pat| > |s| then None
    else if s[from..from + |pat|] == pat then Some(from)
    else IndexOf(s, pat, from + 1)
  }

  /** The first index of the character `c` in `s`. */
  function FirstIndexOf(s: string, c: char): (r: Option<nat>)
    ensures r.Some? ==> r.value < |s| && s[r.value] == c
    ensures r.Some? ==> forall k :: 0 <= k < r.value ==> s[k] != c
    ensures r.None? ==> forall k :: 0 <= k < |s| ==> s[k] != c
  {
    if |s| == 0 then None
    else if s[0] == c then Some(0)
    else match FirstIndexOf(s[1..], c)
      case None => None
      case Some(i) => Some(i + 1)
  }

  /** The last index of the character `c` in `s`. */
  function LastIndexOf(s: string, c: char): (r: Option<nat>)
    ensures r.Some? ==> r.value < |s| && s[r.value] == c
    ensures r.Some? ==> forall k :: r.value < k < |s| ==> s[k] != c
    ensures r.None? ==> forall k :: 0 <= k < |s| ==> s[k] != c
  {
    if |s| == 0 then None
    else if s[|s| - 1] == c then Some(|s| - 1)
    else LastIndexOf(s[..|s| - 1], c)
  }

  /** `strpos($s, $pat) === 0`. */
  predicate StartsWith(s: string, pat: string) {
    |pat| <= |s| && s[..|pat|] == pat
  }

  // ---------------------------------------------------------------------------
  // Whitespace

  /** The end of the run of `\s` characters that starts at `i`. */
  function SkipRegexSpace(s: string, i: nat): (r: nat)
    requires i <= |s|
    ensures i <= r <= |s|
    ensures forall k :: i <= k < r ==> IsRegexSpace(s[k])
    ensures r < |s| ==> !IsRegexSpace(s[r])
    decreases |s| - i
  {
    if i < |s| && IsRegexSpace(s[i]) then SkipRegexSpace(s, i + 1) else i
  }

  /** The start of the run of `\s` characters that ends at `j`, not going
      below `lo`. */
  function BackRegexSpace(s: string, lo: nat, j: nat): (r: nat)
    requires lo <= j <= |s|
    ensures lo <= r <= j
    ensures forall k :: r <= k < j ==> IsRegexSpace(s[k])
    ensures r > lo ==> !IsRegexSpace(s[r - 1])
    decreases j - lo
  {
    if j > lo && IsRegexSpace(s[j - 1]) then BackRegexSpace(s, lo, j - 1) else j
  }

  /** The number of leading characters `trim` strips. */
  function TrimLeftCount(s: string): (n: nat)
    ensures n <= |s|
    ensures forall k :: 0 <= k < n ==> IsTrimChar(s[k])
    ensures n < |s| ==> !IsTrimChar(s[n])
  {
    if |s| > 0 && IsTrimChar(s[0]) then 1 + TrimLeftCount(s[1..]) else 0
  }

  /** The number of trailing characters `trim` strips. */
  function TrimRightCount(s: string): (n: nat)
    ensures n <= |s|
    ensures forall k :: |s| - n <= k < |s| ==> IsTrimChar(s[k])
    ensures n < |s| ==> !IsTrimChar(s[|s| - n - 1])
  {
    if |s| > 0 && IsTrimChar(s[|s| - 1]) then 1 + TrimRightCount(s[..|s| - 1]) else 0
  }

  /** PHP's `trim` with its default character list: the slice of `s` left when
      every leading and trailing trim character is removed. */
  function Trim(s: string): (r: string)
    ensures |r| > 0 ==> !IsTrimChar(r[0]) && !IsTrimChar(r[|r| - 1])
    ensures |r| == 0 ==> forall k :: 0 <= k < |s| ==> IsTrimChar(s[k])
    ensures TrimLeftCount(s) + |r| <= |s|
    ensures r == s[TrimLeftCount(s)..TrimLeftCount(s) + |r|]
    ensures forall k :: TrimLeftCount(s) + |r| <= k < |s| ==> IsTrimChar(s[k])
  {
    var i := TrimLeftCount(s);
    var t := s[i..];
    var r := t[..|t| - TrimRightCount(t)];
    assert s[i..i + |r|] == r;
    r
  }

  // ---------------------------------------------------------------------------
  // Paths

  /** `s` without its trailing run of `/`. */
  function StripTrailingSlashes(s: string): (r: string)
    ensures |r| <= |s| && r == s[..|r|]
    ensures forall k :: |r| <= k < |s| ==> s[k] == '/'
    ensures |r| > 0 ==> r[|r| - 1] != '/'
  {
    if |s| > 0 && s[|s| - 1] == '/' then StripTrailingSlashes(s[..|s| - 1]) else s
  }

  /** PHP's `basename` on a `/`-separated path: trailing slashes are dropped and
      what follows the last remaining `/` is returned (so `basename("/")` is
      empty). */
  function Basename(path: string): (r: string)
    ensures '/' !in r
    ensures '/' !in path ==> r == path
  {
    AfterLastSlash(StripTrailingSlashes(path))
  }

  /** What follows the last `/` of `t`, or all of `t` when it has none. */
  function AfterLastSlash(t: string): (r: string)
    ensures '/' !in r
    ensures '/' !in t ==> r == t
  {
    match LastIndexOf(t, '/')
    case None => t
    case Some(i) => t[i + 1..]
  }

  /** The basename is the last segment of the path once its trailing slashes
      are gone: a suffix of it with no `/`, preceded by a `/` whenever the path
      has one, and the whole of it otherwise. */
  lemma BasenameIsLastSegment(path: string)
    ensures var t, r := StripTrailingSlashes(path), Basename(path);
      && |r| <= |t| && r == t[|t| - |r|..]
      && ('/' in t ==> |r| < |t| && t[|t| - |r| - 1] == '/')
      && ('/' !in t ==> r == t)
  {
    LastSegment(StripTrailingSlashes(path));
  }

  /** What follows the last `/` of `t` is a suffix of `t` that a `/` precedes
      whenever `t` has one. */
  lemma LastSegment(t: string)
    ensures var r := AfterLastSlash(t);
      && |r| <= |t| && r == t[|t| - |r|..]
      && ('/' in t ==> |r| < |t| && t[|t| - |r| - 1] == '/')
  {
    var last := LastIndexOf(t, '/');
    if last.Some? {
      assert t[last.value] == '/' && |t| - |t[last.value + 1..]| == last.value + 1;
    }
  }

  /** `pathinfo($path, PATHINFO_EXTENSION)`: what follows the last `.` of the
      basename, or "" when the basename has no `.`. */
  function Extension(path: string): (r: string)
    ensures '.' !in r && '/' !in r
  {
    var b := Basename(path);
    match LastIndexOf(b, '.')
    case None => ""
    case Some(i) => b[i + 1..]
  }

  /** `strtolower(pathinfo($path, PATHINFO_EXTENSION))`, the key every
      extension check of the service code uses. */
  function LowerExtension(path: string): (r: string)
    ensures '.' !in r && '/' !in r
    ensures forall i :: 0 <= i < |r| ==> !IsUpper(r[i])
    ensures r == ToLower(Extension(path))
  {
    var e := Extension(path);
    var r := ToLower(e);
    assert forall i :: 0 <= i < |r| ==> r[i] == LowerChar(e[i]);
    r
  }

  /** `pathinfo($path, PATHINFO_FILENAME)`: the basename up to its last `.`, or
      the whole basename when it has none. */
  function Filename(path: string): (r: string)
    ensures '/' !in r
  {
    var b := Basename(path);
    match LastIndexOf(b, '.')
    case None => b
    case Some(i) => b[..i]
  }

  /** A simple name loses exactly its last extension. */
  lemma FilenameDropsExtension(stem: string, ext: string)
    requires '/' !in stem && '/' !in ext && '.' !in ext
    ensures Filename(stem + "." + ext) == stem
    ensures Extension(stem + "." + ext) == ext
  {
    var path := stem + "." + ext;
    assert '/' !in path by {
      forall k | 0 <= k < |path| ensures path[k] != '/' {
        if k < |stem| { assert path[k] == stem[k]; }
        else if k > |stem| { assert path[k] == ext[k - |stem| - 1]; }
      }
    }
    assert path[|stem|] == '.';
    var i := LastIndexOf(path, '.');
    assert i.Some?;
    assert forall k :: |stem| < k < |path| ==> path[k] == ext[k - |stem| - 1];
    assert i.value == |stem|;
    assert path[..|stem|] == stem;
    assert path[|stem| + 1..] == ext;
  }

  /** Filename and extension split the basename at its last dot and lose
      nothing. */
  lemma FilenameExtensionSplit(path: string)
    ensures '.' in Basename(path) ==> Filename(path) + "." + Extension(path) == Basename(path)
    ensures '.' !in Basename(path) ==> Filename(path) == Basename(path) && Extension(path) == ""
  {
    var b := Basename(path);
    match LastIndexOf(b, '.')
    case None =>
    case Some(i) =>
      assert b == b[..i] + "." + b[i + 1..];
  }

  // ---------------------------------------------------------------------------
  // Truthiness and conversions

  /** PHP's `empty()` (and the falsiness of `?:`) on a string: true exactly for
      "" and "0". */
  predicate IsPhpEmpty(s: string) {
    s == "" || s == "0"
  }

  function DigitChar(d: nat): char
    requires d < 10
  {
    ('0' as int + d) as char
  }

  /** An integer written out in decimal, as PHP's string interpolation does. */
  function IntToString(n: int): (r: string)
    ensures |r| > 0
    decreases if n < 0 then 1 - n else n
  {
    if n < 0 then "-" + IntToString(-n)
    else if n < 10 then [DigitChar(n)]
    else IntToString(n / 10) + [DigitChar(n % 10)]
  }
}
