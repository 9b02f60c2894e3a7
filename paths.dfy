/** The string and path helpers of Go's standard library that the index
    relies on: `strings.TrimPrefix`, `strings.ReplaceAll(p, "\\", "/")`,
    `strings.ToLower`, `path.Split` and `path.Ext`.

    A Go string is a sequence of bytes; here each `char` of a `string`
    stands for one byte, so lengths and offsets are byte offsets as in Go.
    Paths use `/` as separator (the Unix behaviour of `filepath.Ext`). */
module Paths {

  /** `strings.TrimPrefix(s, prefix)`: `s` without a leading `prefix`. */
  function TrimPrefix(s: string, prefix: string): (r: string)
    ensures prefix <= s ==> s == prefix + r
    ensures !(prefix <= s) ==> r == s
  {
    if prefix <= s then s[|prefix|..] else s
  }

  /** Applies `f` to every character of `s`. */
  function MapChars(s: string, f: char -> char): (r: string)
    ensures |r| == |s|
  {
    if s == [] then [] else MapChars(s[..|s| - 1], f) + [f(s[|s| - 1])]
  }

  lemma {:induction false} MapCharsAt(s: string, f: char -> char)
    ensures forall i :: 0 <= i < |s| ==> MapChars(s, f)[i] == f(s[i])
  {
    if s != [] {
      MapCharsAt(s[..|s| - 1], f);
    }
  }

  function SlashChar(c: char): char {
    if c == '\\' then '/' else c
  }

  /** `strings.ReplaceAll(s, "\\", "/")`: a backslash is one byte in UTF-8,
      so replacing it byte by byte is exact. */
  function ToSlash(s: string): (r: string)
    ensures |r| == |s|
  {
    MapChars(s, SlashChar)
  }

  /** ToSlash leaves no backslash and changes nothing else. */
  lemma ToSlashSpec(s: string)
    ensures '\\' !in ToSlash(s)
    ensures forall i :: 0 <= i < |s| && s[i] != '\\' ==> ToSlash(s)[i] == s[i]
  {
    MapCharsAt(s, SlashChar);
  }

  /** ReplaceAll works character by character, so it distributes over
      concatenation. */
  lemma ToSlashConcat(a: string, b: string)
    ensures ToSlash(a + b) == ToSlash(a) + ToSlash(b)
  {
    MapCharsAt(a + b, SlashChar);
    MapCharsAt(a, SlashChar);
    MapCharsAt(b, SlashChar);
    assert forall i :: 0 <= i < |a + b| ==> ToSlash(a + b)[i] == (ToSlash(a) + ToSlash(b))[i];
  }

  function LowerChar(c: char): char {
    if 'A' <= c <= 'Z' then (c as int - 'A' as int + 'a' as int) as char else c
  }

  /** `strings.ToLower` as far as it matters here: the result is only ever
      compared with ".flv" and ".mp4", and no character outside ASCII
      lowers to one of the ASCII characters of those two strings. */
  function Lower(s: string): (r: string)
    ensures |r| == |s|
  {
    MapChars(s, LowerChar)
  }

  /** The `file` half of `path.Split(p)`: everything after the last `/`. */
  function Basename(p: string): (file: string)
    ensures |file| <= |p|
  {
    if p == [] || p[|p| - 1] == '/' then [] else Basename(p[..|p| - 1]) + [p[|p| - 1]]
  }

  /** The base name is the part of `p` after its last `/`: a suffix of `p`
      without `/`, preceded in `p` by a `/` unless it is all of `p`. */
  lemma {:induction false} BasenameIsLastSegment(p: string)
    ensures Basename(p) == p[|p| - |Basename(p)|..]
    ensures '/' !in Basename(p)
    ensures |Basename(p)| < |p| ==> p[|p| - |Basename(p)| - 1] == '/'
  {
    if p != [] && p[|p| - 1] != '/' {
      var q := p[..|p| - 1];
      BasenameIsLastSegment(q);
      assert p == q + [p[|p| - 1]];
    }
  }

  /** `path.Ext(s)`: the suffix of `s` that starts at the last `.` after the
      last `/`, or "" when that last segment has no `.`. */
  function Ext(s: string): (e: string)
    ensures |e| <= |s|
  {
    if s == [] || s[|s| - 1] == '/' then []
    else if s[|s| - 1] == '.' then "."
    else
      var e := Ext(s[..|s| - 1]);
      if e == [] then [] else e + [s[|s| - 1]]
  }

  /** The extension is empty when the last segment has no `.`, and is
      otherwise the suffix of the last segment from its last `.`. */
  lemma {:induction false} ExtIsLastDotSuffix(s: string)
    ensures Ext(s) == [] ==> '.' !in Basename(s)
    ensures Ext(s) != [] ==> Ext(s)[0] == '.' && Ext(s) == s[|s| - |Ext(s)|..] && '/' !in Ext(s) && '.' !in Ext(s)[1..]
  {
    if s != [] && s[|s| - 1] != '/' && s[|s| - 1] != '.' {
      var q := s[..|s| - 1];
      ExtIsLastDotSuffix(q);
      var e := Ext(q);
      if e != [] {
        assert (e + [s[|s| - 1]])[1..] == e[1..] + [s[|s| - 1]];
      }
    }
  }

  /** Removing one leading `/` (as the index does for a segment's URL)
      leaves the base name unchanged. */
  lemma {:induction false} BasenameAfterLeadingSlash(p: string)
    requires |p| > 0 && p[0] == '/'
    ensures Basename(p[1..]) == Basename(p)
  {
    if |p| > 1 && p[|p| - 1] != '/' {
      var q := p[..|p| - 1];
      BasenameAfterLeadingSlash(q);
      assert q[1..] == p[1..][..|p[1..]| - 1];
    }
  }

  lemma BasenameTrimSlash(p: string)
    ensures Basename(TrimPrefix(p, "/")) == Basename(p)
  {
    if "/" <= p {
      BasenameAfterLeadingSlash(p);
    }
  }

  /** A path without backslashes is its own `ToSlash`. */
  lemma ToSlashKeeps(s: string)
    requires '\\' !in s
    ensures ToSlash(s) == s
  {
    ToSlashSpec(s);
  }

  /** The base name of `q/f` is `f`, when `f` has no `/`. */
  lemma {:induction false} BasenameOfJoin(q: string, f: string)
    requires '/' !in f
    ensures Basename(q + "/" + f) == f
  {
    if f != [] {
      var g := f[..|f| - 1];
      BasenameOfJoin(q, g);
      assert (q + "/" + f)[..|q + "/" + f| - 1] == q + "/" + g;
      assert f == g + [f[|f| - 1]];
    }
  }

  /** The extension of `q/f` is that of `f`, when `f` has no `/`. */
  lemma {:induction false} ExtOfJoin(q: string, f: string)
    requires '/' !in f
    ensures Ext(q + "/" + f) == Ext(f)
  {
    if f != [] {
      var g := f[..|f| - 1];
      ExtOfJoin(q, g);
      assert (q + "/" + f)[..|q + "/" + f| - 1] == q + "/" + g;
    }
  }

  /** The extension of `stem.t` is `.t`, when `t` has neither `.` nor `/`. */
  lemma {:induction false} ExtOfDotted(stem: string, t: string)
    requires '.' !in t && '/' !in t
    ensures Ext(stem + "." + t) == "." + t
  {
    if t != [] {
      var u := t[..|t| - 1];
      ExtOfDotted(stem, u);
      assert (stem + "." + t)[..|stem + "." + t| - 1] == stem + "." + u;
      assert "." + t == "." + u + [t[|t| - 1]];
    }
  }

  /** `Lower` lowers each character on its own. */
  lemma LowerAt(s: string)
    ensures forall i :: 0 <= i < |s| ==> Lower(s)[i] == LowerChar(s[i])
  {
    MapCharsAt(s, LowerChar);
  }
}
