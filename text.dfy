/**
 * The string operations the handlers rely on: `startsWith`, `includes`,
 * ECMAScript `trim`, `toUpperCase` (on ASCII letters), and the `x || d`
 * idiom that replaces an absent or empty string by a default.
 */
module Text {
  import opened Common

  predicate StartsWith(s: string, prefix: string)
  {
    |prefix| <= |s| && s[..|prefix|] == prefix
  }

  /** True iff `s` starts with one of `prefixes` (`prefixes.some(p => s.startsWith(p))`). */
  predicate StartsWithAny(s: string, prefixes: seq<string>)
  {
    prefixes != [] && (StartsWith(s, prefixes[0]) || StartsWithAny(s, prefixes[1..]))
  }

  /** `s || d`: an absent or empty string is falsy and gives way to the default. */
  function OrDefault(o: Option<string>, d: string): (r: string)
    ensures o.Some? && o.value != "" ==> r == o.value
    ensures o.None? || o.value == "" ==> r == d
  {
    if o.Some? && o.value != "" then o.value else d
  }

  /** The characters ECMAScript's `trim` removes: WhiteSpace and LineTerminator. */
  predicate IsSpace(c: char)
  {
    c in {'\t', '\n', '\U{000B}', '\U{000C}', '\r', ' ', '\U{00A0}', '\U{1680}',
          '\U{2000}', '\U{2001}', '\U{2002}', '\U{2003}', '\U{2004}', '\U{2005}',
          '\U{2006}', '\U{2007}', '\U{2008}', '\U{2009}', '\U{200A}',
          '\U{2028}', '\U{2029}', '\U{202F}', '\U{205F}', '\U{3000}', '\U{FEFF}'}
  }

  /** Drops leading white space: the result is the suffix of `s` after the spaces. */
  function TrimStart(s: string): (r: string)
    ensures |r| <= |s| && r == s[|s| - |r|..]
    ensures r == [] || !IsSpace(r[0])
    ensures forall i :: 0 <= i < |s| - |r| ==> IsSpace(s[i])
  {
    if s != [] && IsSpace(s[0]) then TrimStart(s[1..]) else s
  }

  /** Drops trailing white space: the result is the prefix of `s` before the spaces. */
  function TrimEnd(s: string): (r: string)
    ensures |r| <= |s| && r == s[..|r|]
    ensures r == [] || !IsSpace(r[|r| - 1])
    ensures forall i :: |r| <= i < |s| ==> IsSpace(s[i])
  {
    if s != [] && IsSpace(s[|s| - 1]) then TrimEnd(s[..|s| - 1]) else s
  }

  /** `r` is the slice of `s` from `k`, with only white space around it. */
  predicate PaddedAt(s: string, k: nat, r: string)
  {
    && k + |r| <= |s| && r == s[k..k + |r|]
    && (forall i :: 0 <= i < k ==> IsSpace(s[i]))
    && (forall i :: k + |r| <= i < |s| ==> IsSpace(s[i]))
  }

  /** ECMAScript `String.prototype.trim`. */
  function Trim(s: string): (r: string)
    ensures r == [] || (!IsSpace(r[0]) && !IsSpace(r[|r| - 1]))
  {
    TrimStart(TrimEnd(s))
  }

  /** Trimming cuts a slice out of `s`, dropping only white space around it. */
  lemma TrimIsPaddedSlice(s: string)
    ensures exists k :: PaddedAt(s, k, Trim(s))
  {
    var e := TrimEnd(s);
    assert PaddedAt(s, |e| - |Trim(s)|, Trim(s));
  }

  lemma TrimStartOfUntrimmed(s: string)
    requires s == [] || !IsSpace(s[0])
    ensures TrimStart(s) == s
  {
  }

  lemma TrimEndOfUntrimmed(s: string)
    requires s == [] || !IsSpace(s[|s| - 1])
    ensures TrimEnd(s) == s
  {
  }

  /** Trimming twice is trimming once. */
  lemma TrimIdempotent(s: string)
    ensures Trim(Trim(s)) == Trim(s)
  {
    var t := Trim(s);
    TrimEndOfUntrimmed(t);
    TrimStartOfUntrimmed(t);
  }

  function UpperChar(c: char): char
  {
    if 'a' <= c <= 'z' then (c as int - 32) as char else c
  }

  predicate IsLowerLetter(c: char)
  {
    'a' <= c <= 'z'
  }

  /** `toUpperCase` on ASCII: every lower-case letter is replaced by its capital. */
  function Upper(s: string): (r: string)
    ensures |r| == |s|
    ensures forall i :: 0 <= i < |s| ==> r[i] == UpperChar(s[i])
    ensures forall i :: 0 <= i < |r| ==> !IsLowerLetter(r[i])
  {
    seq(|s|, i requires 0 <= i < |s| => UpperChar(s[i]))
  }

  /** Upper-casing twice is upper-casing once. */
  lemma UpperIdempotent(s: string)
    ensures Upper(Upper(s)) == Upper(s)
  {
    var u := Upper(s);
    assert forall i :: 0 <= i < |u| ==> Upper(u)[i] == u[i];
  }

  lemma UpperSlices(s: string, i: int, j: int)
    requires 0 <= i <= j <= |s|
    ensures Upper(s[i..j]) == Upper(s)[i..j]
  {
    var a, b := Upper(s[i..j]), Upper(s)[i..j];
    forall k | 0 <= k < j - i ensures a[k] == b[k] {
      assert s[i..j][k] == s[i + k];
    }
  }

  /** Upper-casing never turns a letter into white space or the other way round. */
  lemma SpaceUpperChar(c: char)
    ensures IsSpace(UpperChar(c)) == IsSpace(c)
  {
    if 'a' <= c <= 'z' {
      assert 'A' <= UpperChar(c) <= 'Z';
    }
  }

  lemma {:induction false} UpperTrimStart(s: string)
    ensures Upper(TrimStart(s)) == TrimStart(Upper(s))
  {
    if s != [] {
      var u := Upper(s);
      assert u[0] == UpperChar(s[0]);
      SpaceUpperChar(s[0]);
      if IsSpace(s[0]) {
        UpperSlices(s, 1, |s|);
        assert s[1..|s|] == s[1..] && u[1..|s|] == u[1..];
        UpperTrimStart(s[1..]);
        assert TrimStart(s) == TrimStart(s[1..]);
        assert TrimStart(u) == TrimStart(u[1..]);
      } else {
        assert TrimStart(u) == u;
      }
    }
  }

  lemma {:induction false} UpperTrimEnd(s: string)
    ensures Upper(TrimEnd(s)) == TrimEnd(Upper(s))
  {
    if s != [] {
      var u := Upper(s);
      var n := |s| - 1;
      assert u[n] == UpperChar(s[n]);
      SpaceUpperChar(s[n]);
      if IsSpace(s[n]) {
        UpperSlices(s, 0, n);
        UpperTrimEnd(s[..n]);
        assert TrimEnd(u) == TrimEnd(u[..n]);
      } else {
        assert TrimEnd(u) == u;
      }
    }
  }

  /** Upper-casing and trimming commute, so the order of the two setters does not matter. */
  lemma UpperTrimCommute(s: string)
    ensures Upper(Trim(s)) == Trim(Upper(s))
  {
    UpperTrimEnd(s);
    UpperTrimStart(TrimEnd(s));
  }
}
