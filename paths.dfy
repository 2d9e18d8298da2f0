/** String and path primitives the converter relies on, in the POSIX flavour of
    Python's `os.path`: `splitext`, `join`, `str.lower`, `str.endswith`,
    `str.lstrip(".")`, `str.strip()` and `str.split()`. */
module Paths {

  /** Python's `str.lower` restricted to ASCII letters. */
  function LowerChar(c: char): (r: char)
    ensures 'A' <= c <= 'Z' ==> r as int == c as int + 32
    ensures !('A' <= c <= 'Z') ==> r == c
  {
    if 'A' <= c <= 'Z' then (c as int + 32) as char else c
  }

  /** The lowered string has no upper-case ASCII letter: each one is replaced by
      its lower-case letter, and every other character is kept in place. */
  function Lower(s: string): (r: string)
    ensures |r| == |s|
    ensures forall i :: 0 <= i < |r| ==> !('A' <= r[i] <= 'Z')
    ensures forall i :: 0 <= i < |s| && !('A' <= s[i] <= 'Z') ==> r[i] == s[i]
    ensures forall i :: 0 <= i < |s| && 'A' <= s[i] <= 'Z' ==> r[i] as int == s[i] as int + 32
  {
    seq(|s|, i requires 0 <= i < |s| => LowerChar(s[i]))
  }

  /** Lowercasing works character by character, so it distributes over concatenation
      and leaves '.' and '/' where they were. */
  lemma LowerConcat(a: string, b: string)
    ensures Lower(a + b) == Lower(a) + Lower(b)
  {
  }

  /** Lowering twice is lowering once. */
  lemma LowerIdempotent(s: string)
    ensures Lower(Lower(s)) == Lower(s)
  {
  }

  /** `s.endswith(suffix)`: case-sensitive, and every string ends with "". */
  predicate EndsWith(s: string, suffix: string)
  {
    |suffix| <= |s| && s[|s| - |suffix|..] == suffix
  }

  predicate StartsWith(s: string, prefix: string)
  {
    |prefix| <= |s| && s[..|prefix|] == prefix
  }

  /** `s.rfind(c)`: the index of the last `c` in `s`, or -1 when there is none. */
  function RFind(s: string, c: char): (r: int)
    ensures -1 <= r < |s|
    ensures 0 <= r ==> s[r] == c
    ensures forall j :: r < j < |s| ==> s[j] != c
  {
    if s == [] then -1
    else if s[|s| - 1] == c then |s| - 1
    else RFind(s[..|s| - 1], c)
  }

  predicate AllDots(s: string)
  {
    forall i :: 0 <= i < |s| ==> s[i] == '.'
  }

  /** Where `os.path.splitext` on POSIX cuts `p`: at the last '.' of the last path
      component, unless everything before that dot in the component is dots (so
      ".bashrc", "..pdf" and "dir/.pdf" have no extension); -1 for no cut. */
  function ExtStart(p: string): (i: int)
    ensures -1 <= i < |p|
  {
    var sepIndex := RFind(p, '/');
    var dotIndex := RFind(p, '.');
    if dotIndex > sepIndex && !AllDots(p[sepIndex + 1..dotIndex]) then dotIndex else -1
  }

  /** `os.path.splitext`: the root and the extension. */
  function SplitExt(p: string): (r: (string, string))
    ensures r.0 + r.1 == p
  {
    var i := ExtStart(p);
    if i >= 0 then
      assert p[..i] + p[i..] == p;
      (p[..i], p[i..])
    else
      assert p + "" == p;
      (p, "")
  }

  /** The tail of `p` from a '.' after which there is no '.' and, from before it
      on, no '/', is an extension. */
  lemma ExtShape(p: string, sepIndex: int, dotIndex: int)
    requires -1 <= sepIndex < dotIndex < |p| && p[dotIndex] == '.'
    requires forall j :: sepIndex < j < |p| ==> p[j] != '/'
    requires forall j :: dotIndex < j < |p| ==> p[j] != '.'
    ensures p[dotIndex..][0] == '.' && '/' !in p[dotIndex..] && '.' !in p[dotIndex..][1..]
  {
    var e := p[dotIndex..];
    forall j | 0 <= j < |e| ensures e[j] != '/' {
      assert e[j] == p[dotIndex + j];
    }
    forall j | 0 <= j < |e[1..]| ensures e[1..][j] != '.' {
      assert e[1..][j] == p[dotIndex + 1 + j];
    }
  }

  function Ext(p: string): string
  {
    SplitExt(p).1
  }

  /** `d` is where `splitext` cuts: a '.' with neither '.' nor '/' after it, and
      some character other than '.' before it in the same path component. */
  predicate CutAt(p: string, d: int)
  {
    && 0 <= d < |p| && p[d] == '.'
    && (forall j :: d < j < |p| ==> p[j] != '.' && p[j] != '/')
    && (exists j :: 0 <= j < d && p[j] != '.' && forall m :: j <= m < d ==> p[m] != '/')
  }

  /** A path has an extension exactly when it has a cut, and the extension is then
      everything from that cut on. */
  lemma SplitExtCut(p: string)
    ensures Ext(p) != "" <==> exists d :: CutAt(p, d)
    ensures forall d :: CutAt(p, d) ==> SplitExt(p) == (p[..d], p[d..])
  {
    var sepIndex := RFind(p, '/');
    var dotIndex := RFind(p, '.');
    forall d | CutAt(p, d)
      ensures d == dotIndex && sepIndex < d && !AllDots(p[sepIndex + 1..d])
    {
      var j :| 0 <= j < d && p[j] != '.' && forall m :: j <= m < d ==> p[m] != '/';
      assert p[sepIndex + 1..d][j - sepIndex - 1] == p[j];
    }
    if ExtStart(p) >= 0 {
      var j' :| 0 <= j' < |p[sepIndex + 1..dotIndex]| && p[sepIndex + 1..dotIndex][j'] != '.';
      var j := sepIndex + 1 + j';
      assert p[j] != '.';
      assert CutAt(p, dotIndex);
    }
  }

  /** An extension is one '.' followed by characters that are neither '.' nor '/'. */
  lemma ExtOfPath(p: string)
    ensures Ext(p) == [] || (Ext(p)[0] == '.' && '/' !in Ext(p) && '.' !in Ext(p)[1..])
  {
    var sepIndex := RFind(p, '/');
    var dotIndex := RFind(p, '.');
    if ExtStart(p) >= 0 {
      ExtShape(p, sepIndex, dotIndex);
      assert Ext(p) == p[dotIndex..];
    }
  }

  /** An extension that neither `splitext` nor `lower` would change: empty, or a '.'
      followed by characters that are not '.', '/' or upper-case letters. */
  predicate PlainExt(e: string)
  {
    e == [] || (e[0] == '.' && forall j :: 0 < j < |e| ==> e[j] != '.' && e[j] != '/' && !('A' <= e[j] <= 'Z'))
  }

  lemma PlainIsLower(e: string)
    requires PlainExt(e)
    ensures Lower(e) == e
  {
    var r := Lower(e);
    forall j | 0 <= j < |e| ensures r[j] == e[j] {
      assert j == 0 || !('A' <= e[j] <= 'Z');
    }
    assert r == e;
  }

  /** A name without '.' or '/' followed by a plain extension has exactly that
      extension, already in lower case. */
  lemma ExtAfterName(name: string, e: string)
    requires name != [] && forall j :: 0 <= j < |name| ==> name[j] != '.' && name[j] != '/'
    requires PlainExt(e)
    ensures Ext(name + e) == e && Lower(e) == e
  {
    var p := name + e;
    forall j | 0 <= j < |p| ensures p[j] != '/' {
      if j < |name| { assert p[j] == name[j]; } else { assert p[j] == e[j - |name|]; }
    }
    assert RFind(p, '/') == -1;
    if e == [] {
      assert p == name;
      assert RFind(p, '.') == -1;
    } else {
      forall j | |name| < j < |p| ensures p[j] != '.' {
        assert p[j] == e[j - |name|];
      }
      assert p[|name|] == '.';
      assert RFind(p, '.') == |name|;
      assert p[0..|name|][0] == name[0] != '.';
      assert ExtStart(p) == |name|;
      assert p[|name|..] == e;
    }
    PlainIsLower(e);
  }

  function Stem(p: string): string
  {
    SplitExt(p).0
  }

  /** The lowered extension is always a suffix of the lowered path. */
  lemma {:induction false} LowerExtIsSuffix(p: string)
    ensures EndsWith(Lower(p), Lower(Ext(p)))
  {
    var (root, ext) := SplitExt(p);
    LowerConcat(root, ext);
    assert Lower(p) == Lower(root) + Lower(ext);
    assert Lower(p)[|Lower(p)| - |Lower(ext)|..] == Lower(ext);
  }

  /** A path whose lowered form ends in ".pdf" has extension ".pdf" or, when its last
      component is made of dots followed by "pdf", no extension at all. */
  lemma {:induction false} PdfSuffixExt(p: string)
    requires EndsWith(Lower(p), ".pdf")
    ensures Lower(Ext(p)) == ".pdf" || Ext(p) == ""
  {
    var n := |p|;
    assert Lower(p)[n - 4..] == ".pdf";
    assert Lower(p)[n - 4] == '.' && Lower(p)[n - 3] == 'p' && Lower(p)[n - 2] == 'd' && Lower(p)[n - 1] == 'f';
    assert p[n - 4] == '.';
    assert p[n - 3] != '.' && p[n - 2] != '.' && p[n - 1] != '.';
    assert p[n - 3] != '/' && p[n - 2] != '/' && p[n - 1] != '/';
    var dotIndex := RFind(p, '.');
    var sepIndex := RFind(p, '/');
    assert dotIndex == n - 4;
    assert sepIndex < n - 4;
    if Ext(p) != "" {
      assert Ext(p) == p[n - 4..];
      assert Lower(p[n - 4..]) == Lower(p)[n - 4..];
    }
  }

  /** `os.path.join(a, b)` on POSIX. */
  function Join(a: string, b: string): (r: string)
    ensures EndsWith(r, b)
    ensures StartsWith(b, "/") ==> r == b
    ensures !StartsWith(b, "/") ==> StartsWith(r, a)
    ensures !StartsWith(b, "/") ==>
              |r| == |a| + |b| + (if a == "" || EndsWith(a, "/") then 0 else 1)
    ensures |r| == |a| + |b| + 1 ==> r[|a|] == '/'
  {
    if StartsWith(b, "/") then b
    else if a == "" || EndsWith(a, "/") then a + b
    else a + "/" + b
  }

  /** `s.lstrip(".")`: every leading '.' is removed. */
  function LStripDots(s: string): (r: string)
    ensures EndsWith(s, r)
    ensures r == [] || r[0] != '.'
    ensures AllDots(s[..|s| - |r|])
  {
    if s != [] && s[0] == '.' then
      var r := LStripDots(s[1..]);
      assert s[..|s| - |r|] == [s[0]] + s[1..][..|s| - 1 - |r|];
      r
    else
      assert s[..0] == [];
      s
  }

  /** A character Python's `str.isspace` accepts. */
  predicate IsSpace(c: char)
  {
    var n := c as int;
    (9 <= n <= 13) || (28 <= n <= 32) || n == 0x85 || n == 0xA0 || n == 0x1680 ||
    (0x2000 <= n <= 0x200A) || n == 0x2028 || n == 0x2029 || n == 0x202F ||
    n == 0x205F || n == 0x3000
  }

  predicate NoSpace(w: string)
  {
    forall j :: 0 <= j < |w| ==> !IsSpace(w[j])
  }

  predicate AllSpace(s: string)
  {
    forall j :: 0 <= j < |s| ==> IsSpace(s[j])
  }

  function DropLeadingSpace(s: string): (r: string)
    ensures EndsWith(s, r)
    ensures r == [] || !IsSpace(r[0])
    ensures AllSpace(s[..|s| - |r|])
  {
    if s != [] && IsSpace(s[0]) then
      var r := DropLeadingSpace(s[1..]);
      assert s[..|s| - |r|] == [s[0]] + s[1..][..|s| - 1 - |r|];
      r
    else
      s
  }

  function DropTrailingSpace(s: string): (r: string)
    ensures StartsWith(s, r)
    ensures r == [] || !IsSpace(r[|r| - 1])
    ensures AllSpace(s[|r|..])
  {
    if s != [] && IsSpace(s[|s| - 1]) then
      var r := DropTrailingSpace(s[..|s| - 1]);
      assert s[|r|..] == s[..|s| - 1][|r|..] + [s[|s| - 1]];
      r
    else
      s
  }

  /** `s.strip()`: the longest infix of `s` that neither starts nor ends with
      whitespace, found by dropping whitespace from both ends. */
  function Strip(s: string): (r: string)
  {
    DropTrailingSpace(DropLeadingSpace(s))
  }

  lemma StripProperties(s: string)
    ensures Strip(s) == "" <==> AllSpace(s)
    ensures Strip(s) != "" ==> !IsSpace(Strip(s)[0]) && !IsSpace(Strip(s)[|Strip(s)| - 1])
  {
    var d := DropLeadingSpace(s);
    var r := DropTrailingSpace(d);
    if r == "" {
      assert d[0..] == d;
      assert d == [];
      assert s[..|s|] == s;
    } else {
      assert r[0] == d[0];
    }
  }

  /** Length of the word at the front of `s`: characters up to the first whitespace. */
  function WordLength(s: string): (n: nat)
    ensures n <= |s|
    ensures NoSpace(s[..n])
    ensures n < |s| ==> IsSpace(s[n])
  {
    if s == [] || IsSpace(s[0]) then 0
    else
      var m := WordLength(s[1..]);
      assert s[..m + 1] == [s[0]] + s[1..][..m];
      m + 1
  }

  /** `s.split()` with no separator: runs of whitespace separate words, and leading or
      trailing whitespace yields no empty word. */
  function SplitWords(s: string): (r: seq<string>)
    ensures forall i :: 0 <= i < |r| ==> r[i] != [] && NoSpace(r[i])
    decreases |s|
  {
    if s == [] then []
    else if IsSpace(s[0]) then SplitWords(s[1..])
    else
      var n := WordLength(s);
      [s[..n]] + SplitWords(s[n..])
  }

  /** A string yields no words exactly when it is all whitespace. */
  lemma {:induction false} SplitWordsEmpty(s: string)
    ensures SplitWords(s) == [] <==> AllSpace(s)
    decreases |s|
  {
    if s != [] && IsSpace(s[0]) {
      SplitWordsEmpty(s[1..]);
      assert forall j :: 1 <= j < |s| ==> s[j] == s[1..][j - 1];
    }
  }

  /** A word runs up to the first whitespace, so what follows a whitespace does not
      change it. */
  lemma {:induction false} WordLengthPrefix(u: string, w: string)
    requires w == [] || IsSpace(w[0])
    ensures WordLength(u + w) == WordLength(u)
    decreases |u|
  {
    if u == [] {
      assert u + w == w;
    } else if !IsSpace(u[0]) {
      assert (u + w)[1..] == u[1..] + w;
      WordLengthPrefix(u[1..], w);
    }
  }

  /** A whitespace character splits the line in two: the words of the whole are the
      words before it followed by the words after it. */
  lemma {:induction false} SplitWordsAtSpace(u: string, c: char, v: string)
    requires IsSpace(c)
    ensures SplitWords(u + [c] + v) == SplitWords(u) + SplitWords(v)
    decreases |u|
  {
    var s := u + [c] + v;
    if u == [] {
      assert s == [c] + v;
      assert s[1..] == v;
    } else if IsSpace(u[0]) {
      assert s[1..] == u[1..] + [c] + v;
      SplitWordsAtSpace(u[1..], c, v);
    } else {
      var m := WordLength(u);
      assert s == u + ([c] + v);
      WordLengthPrefix(u, [c] + v);
      assert s[..m] == u[..m];
      assert s[m..] == u[m..] + [c] + v;
      SplitWordsAtSpace(u[m..], c, v);
    }
  }

  /** Words joined by single spaces. */
  function JoinWords(ws: seq<string>): string
  {
    if ws == [] then "" else if |ws| == 1 then ws[0] else ws[0] + " " + JoinWords(ws[1..])
  }

  lemma {:induction false} WordLengthOfWord(w: string, rest: string)
    requires w != [] && NoSpace(w)
    requires rest == [] || IsSpace(rest[0])
    ensures WordLength(w + rest) == |w|
    decreases |w|
  {
    if |w| > 1 {
      assert (w + rest)[1..] == w[1..] + rest;
      WordLengthOfWord(w[1..], rest);
    } else {
      assert (w + rest)[1..] == rest;
    }
  }

  /** A single word splits into itself. */
  lemma SplitOneWord(w: string)
    requires w != [] && NoSpace(w)
    ensures SplitWords(w) == [w]
  {
    WordLengthOfWord(w, "");
    assert w + "" == w;
    assert w[..|w|] == w;
    assert w[|w|..] == "";
  }

  /** Splitting words that were joined by spaces gives them back. */
  lemma {:induction false} SplitJoinWords(ws: seq<string>)
    requires forall i :: 0 <= i < |ws| ==> ws[i] != [] && NoSpace(ws[i])
    ensures SplitWords(JoinWords(ws)) == ws
    decreases |ws|
  {
    if |ws| == 1 {
      SplitOneWord(ws[0]);
    } else if |ws| > 1 {
      var tail := JoinWords(ws[1..]);
      assert JoinWords(ws) == ws[0] + [' '] + tail;
      SplitWordsAtSpace(ws[0], ' ', tail);
      SplitOneWord(ws[0]);
      SplitJoinWords(ws[1..]);
      assert ws == [ws[0]] + ws[1..];
    }
  }

}
