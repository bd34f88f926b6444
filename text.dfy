/**
 * The string operations the pipeline borrows from Python: `str.lower`,
 * `str.endswith`, list-comprehension filters, and the pieces of `os.path`
 * (join, basename, splitext) with '/' as the path separator. Also the
 * line structure of a text file, used to read a command script back.
 */
module Text {

  /** `str.lower()` restricted to ASCII letters. */
  function LowerChar(c: char): char
  {
    if 'A' <= c <= 'Z' then (c as int - 'A' as int + 'a' as int) as char else c
  }

  function Lower(s: string): (r: string)
    ensures |r| == |s|
    ensures forall i :: 0 <= i < |r| ==> !('A' <= r[i] <= 'Z')
    ensures forall i :: 0 <= i < |s| && !('A' <= s[i] <= 'Z') ==> r[i] == s[i]
    ensures forall i :: 0 <= i < |s| && 'A' <= s[i] <= 'Z' ==> r[i] as int == s[i] as int + 32
  {
    seq(|s|, i requires 0 <= i < |s| => LowerChar(s[i]))
  }

  /** Lower-casing twice is lower-casing once. */
  lemma LowerIdempotent(s: string)
    ensures Lower(Lower(s)) == Lower(s)
  {
  }

  /** `s.endswith(suffix)` */
  predicate EndsWith(s: string, suffix: string)
  {
    |suffix| <= |s| && s[|s| - |suffix|..] == suffix
  }

  /** The names of `names` that `keep` accepts, in their original order. */
  function Filter(names: seq<string>, keep: string -> bool): (r: seq<string>)
    ensures |r| <= |names|
    ensures forall x :: x in r <==> x in names && keep(x)
    ensures multiset(r) <= multiset(names)
  {
    if names == [] then []
    else
      var rest := Filter(names[1..], keep);
      assert names == [names[0]] + names[1..];
      if keep(names[0]) then [names[0]] + rest else rest
  }

  /** `s.rfind(c)`: the last index holding `c`, or -1. */
  function LastIndexOf(s: string, c: char): (r: int)
    ensures -1 <= r < |s|
    ensures 0 <= r ==> s[r] == c
    ensures forall j :: r < j < |s| ==> s[j] != c
  {
    if s == [] then -1
    else if s[|s| - 1] == c then |s| - 1
    else LastIndexOf(s[..|s| - 1], c)
  }

  /** `os.path.join(dir, name)` for a relative `name`. */
  function Join(dir: string, name: string): string
  {
    dir + "/" + name
  }

  /** `os.path.basename(p)`: what follows the last separator. */
  function Basename(p: string): (b: string)
    ensures '/' !in b
  {
    p[LastIndexOf(p, '/') + 1..]
  }

  /**
   * The base name is the last component of the path: a suffix of it, and
   * either the whole path or preceded by a separator.
   */
  lemma BasenameIsLastComponent(p: string)
    ensures var b := Basename(p);
      && |b| <= |p| && b == p[|p| - |b|..]
      && (|b| < |p| ==> p[|p| - |b| - 1] == '/')
  {
    var i := LastIndexOf(p, '/');
    assert |Basename(p)| == |p| - (i + 1);
  }

  /**
   * `os.path.splitext(p)[0]`: `p` without its last extension. The extension
   * starts at the last '.' after the last separator, unless every character
   * of the base name before that dot is itself a dot (".dat" has none).
   */
  function SplitExtRoot(p: string): (root: string)
    ensures root <= p
    ensures root != p ==> p[|root|] == '.' && forall j :: |root| < j < |p| ==> p[j] != '.' && p[j] != '/'
  {
    var sepIndex := LastIndexOf(p, '/');
    var dotIndex := LastIndexOf(p, '.');
    if sepIndex < dotIndex && exists k :: sepIndex < k < dotIndex && p[k] != '.' then p[..dotIndex] else p
  }

  /**
   * The converse: a '.' in the base name with a character other than a dot
   * before it starts an extension, so the root is shorter than the path.
   */
  lemma SplitExtRootShortens(p: string, k: int, d: int)
    requires LastIndexOf(p, '/') < k < d < |p| && p[k] != '.' && p[d] == '.'
    ensures |SplitExtRoot(p)| < |p|
  {
    var sepIndex, dotIndex := LastIndexOf(p, '/'), LastIndexOf(p, '.');
    assert d <= dotIndex;
    assert sepIndex < k < dotIndex && p[k] != '.';
  }

  /** The text of a file whose lines are `lines`, each ended by a newline. */
  function Unlines(lines: seq<string>): string
  {
    if lines == [] then "" else lines[0] + "\n" + Unlines(lines[1..])
  }

  /** Index of the first newline of `s`, or `|s|` when there is none. */
  function NewlineIndex(s: string): (i: nat)
    ensures i <= |s|
    ensures i < |s| ==> s[i] == '\n'
    ensures forall j :: 0 <= j < i ==> s[j] != '\n'
  {
    if s == [] || s[0] == '\n' then 0 else 1 + NewlineIndex(s[1..])
  }

  /** The lines a reader of `s` sees (as `str.splitlines()` on '\n'). */
  function SplitLines(s: string): seq<string>
    decreases |s|
  {
    if s == [] then []
    else
      var i := NewlineIndex(s);
      if i == |s| then [s] else [s[..i]] + SplitLines(s[i + 1..])
  }

  /** A line with no newline, then a newline: the reader sees that line first. */
  lemma SplitLinesCons(line: string, rest: string)
    requires '\n' !in line
    ensures SplitLines(line + "\n" + rest) == [line] + SplitLines(rest)
  {
    var s := line + "\n" + rest;
    assert s[|line|] == '\n';
    assert forall j :: 0 <= j < |line| ==> s[j] == line[j];
    assert NewlineIndex(s) == |line|;
    assert s[..|line|] == line;
    assert s[|line| + 1..] == rest;
  }

  /** Reading back the lines of a text written line by line gives those lines. */
  lemma {:induction false} SplitLinesOfUnlines(lines: seq<string>)
    requires forall k :: 0 <= k < |lines| ==> '\n' !in lines[k]
    ensures SplitLines(Unlines(lines)) == lines
  {
    if lines != [] {
      SplitLinesCons(lines[0], Unlines(lines[1..]));
      SplitLinesOfUnlines(lines[1..]);
    }
  }
}
