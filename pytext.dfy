/** The parts of Python's string and path library that the validators rely on. */
module PyText {

  /** `s.startswith(prefix)`. */
  predicate StartsWith(s: string, prefix: string)
  {
    |prefix| <= |s| && s[..|prefix|] == prefix
  }

  /** `s.rfind(c)` for a one-character needle: the last index holding `c`, or -1. */
  function RFind(s: string, c: char): (r: int)
    ensures -1 <= r < |s|
    ensures r >= 0 ==> s[r] == c
    ensures forall j :: r < j < |s| ==> s[j] != c
  {
    if |s| == 0 then -1
    else if s[|s| - 1] == c then |s| - 1
    else RFind(s[..|s| - 1], c)
  }

  /** The three postconditions of RFind determine its result. */
  lemma RFindUnique(s: string, c: char, k: int)
    requires -1 <= k < |s|
    requires k >= 0 ==> s[k] == c
    requires forall j :: k < j < |s| ==> s[j] != c
    ensures k == RFind(s, c)
  {
  }

  /** Some character of `s[lo..hi]` is not a dot. */
  predicate HasNonDot(s: string, lo: int, hi: int)
    requires 0 <= lo <= hi <= |s|
  {
    exists i :: lo <= i < hi && s[i] != '.'
  }

  /**
   * `posixpath.splitext(p)`: the extension runs from the last '.' of the final
   * path component to the end, provided that component has a character other
   * than '.' before that dot (leading dots do not start an extension);
   * otherwise the extension is empty.
   */
  function SplitExt(p: string): (r: (string, string))
    ensures r.0 + r.1 == p
    ensures r.1 != "" ==> r.1[0] == '.'
    ensures forall j :: 0 <= j < |r.1| ==> r.1[j] != '/'
    ensures forall j :: 1 <= j < |r.1| ==> r.1[j] != '.'
  {
    var sep := RFind(p, '/');
    var dot := RFind(p, '.');
    if dot > sep && HasNonDot(p, sep + 1, dot) then (p[..dot], p[dot..]) else (p, "")
  }

  /** `os.path.splitext(p)[1]`. */
  function Extension(p: string): string
  {
    SplitExt(p).1
  }

  /** A name without any dot has no extension. */
  lemma NoDotNoExtension(p: string)
    requires forall j :: 0 <= j < |p| ==> p[j] != '.'
    ensures Extension(p) == ""
  {
  }

  /** `head` is empty or ends with the separator, so whatever follows it is the final path component. */
  predicate DirectoryPrefix(head: string)
  {
    head == "" || head[|head| - 1] == '/'
  }

  /** A final component made of dots and then a dot-free name (".bashrc", "..py") has no extension. */
  lemma {:induction false} LeadingDotsNoExtension(head: string, dots: string, name: string)
    requires DirectoryPrefix(head)
    requires forall j :: 0 <= j < |dots| ==> dots[j] == '.'
    requires forall j :: 0 <= j < |name| ==> name[j] != '.' && name[j] != '/'
    ensures Extension(head + dots + name) == ""
  {
    var p := head + dots + name;
    var sep := |head| - 1;
    forall j | sep < j < |p|
      ensures p[j] != '/'
    {
      if j < |head| + |dots| { assert p[j] == dots[j - |head|]; } else { assert p[j] == name[j - |head| - |dots|]; }
    }
    RFindUnique(p, '/', sep);
    var dot := RFind(p, '.');
    if dot > sep {
      assert dot < |head| + |dots|;
      forall i | sep + 1 <= i < dot
        ensures p[i] == '.'
      {
        assert p[i] == dots[i - |head|];
      }
    }
  }

  /** A final component that is not all dots, followed by "." and a dot-free suffix, has exactly that extension. */
  lemma {:induction false} ExtensionOfStem(head: string, stem: string, e: string)
    requires DirectoryPrefix(head)
    requires forall j :: 0 <= j < |stem| ==> stem[j] != '/'
    requires exists i :: 0 <= i < |stem| && stem[i] != '.'
    requires forall j :: 0 <= j < |e| ==> e[j] != '.' && e[j] != '/'
    ensures Extension(head + stem + "." + e) == "." + e
  {
    var p := head + stem + "." + e;
    var sep := |head| - 1;
    var dot := |head| + |stem|;
    forall j | sep < j < |p|
      ensures p[j] != '/'
    {
      if j < dot { assert p[j] == stem[j - |head|]; } else if j > dot { assert p[j] == e[j - dot - 1]; }
    }
    RFindUnique(p, '/', sep);
    forall j | dot < j < |p|
      ensures p[j] != '.'
    {
      assert p[j] == e[j - dot - 1];
    }
    RFindUnique(p, '.', dot);
    var i :| 0 <= i < |stem| && stem[i] != '.';
    assert p[|head| + i] == stem[i];
    assert HasNonDot(p, sep + 1, dot);
    assert p[dot..] == "." + e;
  }

  /** Python's `str.lower` on one character, for the ASCII range. */
  function LowerChar(c: char): char
  {
    if 'A' <= c <= 'Z' then (c as int + 32) as char else c
  }

  /** `s.lower()`, character by character (ASCII case mapping). */
  function Lower(s: string): (r: string)
    ensures |r| == |s|
    ensures forall i :: 0 <= i < |s| ==> r[i] == LowerChar(s[i])
  {
    if s == "" then "" else [LowerChar(s[0])] + Lower(s[1..])
  }

  /** Lower-casing commutes with slicing. */
  lemma LowerSlice(s: string, i: int, j: int)
    requires 0 <= i <= j <= |s|
    ensures Lower(s)[i..j] == Lower(s[i..j])
  {
  }

  /** Lower-casing keeps the positions of every character that is not a letter. */
  lemma RFindLower(s: string, c: char)
    requires !('A' <= c <= 'Z') && !('a' <= c <= 'z')
    ensures RFind(Lower(s), c) == RFind(s, c)
  {
  }

  /** Lower-casing does not change which characters are dots. */
  lemma HasNonDotLower(s: string, lo: int, hi: int)
    requires 0 <= lo <= hi <= |s|
    ensures HasNonDot(Lower(s), lo, hi) == HasNonDot(s, lo, hi)
  {
  }

  /** SplitExt's verdict, given where the last separator and the last dot are. */
  lemma ExtensionAt(p: string, sep: int, dot: int)
    requires sep == RFind(p, '/') && dot == RFind(p, '.')
    ensures Extension(p) == if dot > sep && HasNonDot(p, sep + 1, dot) then p[dot..] else ""
  {
  }

  /** Taking the extension of a lower-cased name is lower-casing its extension. */
  lemma ExtensionLower(p: string)
    ensures Extension(Lower(p)) == Lower(Extension(p))
  {
    var q := Lower(p);
    var sep := RFind(p, '/');
    var dot := RFind(p, '.');
    assert RFind(q, '/') == sep by { RFindLower(p, '/'); }
    assert RFind(q, '.') == dot by { RFindLower(p, '.'); }
    var b := dot > sep && HasNonDot(p, sep + 1, dot);
    assert b == (dot > sep && HasNonDot(q, sep + 1, dot)) by {
      if dot > sep { HasNonDotLower(p, sep + 1, dot); }
    }
    assert Extension(p) == if b then p[dot..] else "" by { ExtensionAt(p, sep, dot); }
    assert Extension(q) == if b then q[dot..] else "" by { ExtensionAt(q, sep, dot); }
    if b {
      LowerSlice(p, dot, |p|);
    }
  }
}
