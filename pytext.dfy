/**
 * The Python `str` operations the modelled code relies on, restricted to what
 * they do on ASCII text (see README, "Left out").
 */
module PyText {
  import opened Seqs

  predicate IsAsciiUpper(c: char) { 'A' <= c <= 'Z' }

  /** `c.lower()` for an ASCII character; every other character is kept. */
  function LowerChar(c: char): (r: char)
    ensures !IsAsciiUpper(r)
    ensures !IsAsciiUpper(c) ==> r == c
    ensures IsAsciiUpper(c) ==> r as int == c as int + 32
  {
    if IsAsciiUpper(c) then (c as int + 32) as char else c
  }

  /** `s.lower()`. */
  function Lower(s: string): (r: string)
    ensures |r| == |s|
    ensures forall i :: 0 <= i < |s| ==> r[i] == LowerChar(s[i])
    decreases |s|
  {
    if s == [] then [] else [LowerChar(s[0])] + Lower(s[1..])
  }

  /** The number of U+0020 characters in `s`. */
  function SpaceCount(s: string): (n: nat)
    ensures n <= |s|
    ensures n == 0 <==> ' ' !in s
    decreases |s|
  {
    if s == [] then 0 else (if s[0] == ' ' then 1 else 0) + SpaceCount(s[1..])
  }

  /**
   * `s.replace(" ", "")`: the characters of `s` other than spaces, in their
   * order. The three ensures together determine the result.
   */
  function RemoveSpaces(s: string): (r: string)
    ensures ' ' !in r
    ensures |r| == |s| - SpaceCount(s)
    ensures IsSubsequence(r, s)
    decreases |s|
  {
    if s == [] then []
    else if s[0] == ' ' then RemoveSpaces(s[1..])
    else [s[0]] + RemoveSpaces(s[1..])
  }

  lemma {:induction false} RemoveSpacesKeepsSpaceFree(s: string)
    requires ' ' !in s
    ensures RemoveSpaces(s) == s
    decreases |s|
  {
    if s != [] {
      assert ' ' !in s[1..] by { assert forall c :: c in s[1..] ==> c in s; }
      RemoveSpacesKeepsSpaceFree(s[1..]);
    }
  }

  /** Lower-casing and removing spaces can be done in either order. */
  lemma {:induction false} LowerRemoveSpacesCommute(s: string)
    ensures Lower(RemoveSpaces(s)) == RemoveSpaces(Lower(s))
    decreases |s|
  {
    if s != [] {
      LowerRemoveSpacesCommute(s[1..]);
      assert Lower(s)[1..] == Lower(s[1..]);
      if s[0] != ' ' {
        var t := RemoveSpaces(s[1..]);
        assert Lower([s[0]] + t) == [LowerChar(s[0])] + Lower(t) by {
          assert ([s[0]] + t)[1..] == t;
        }
      }
    }
  }

  lemma {:induction false} LowerIdempotent(s: string)
    ensures Lower(Lower(s)) == Lower(s)
  {
    assert forall i :: 0 <= i < |s| ==> Lower(Lower(s))[i] == Lower(s)[i];
  }

  predicate StartsWith(s: string, prefix: string) {
    |prefix| <= |s| && s[..|prefix|] == prefix
  }

  predicate EndsWith(s: string, suffix: string) {
    |suffix| <= |s| && s[|s| - |suffix|..] == suffix
  }

  /** `s.removeprefix(prefix)`. */
  function RemovePrefix(s: string, prefix: string): (r: string)
    ensures StartsWith(s, prefix) ==> prefix + r == s
    ensures !StartsWith(s, prefix) ==> r == s
  {
    if StartsWith(s, prefix) then s[|prefix|..] else s
  }

  /** `s[::-1]`. */
  function Reverse(s: string): (r: string)
    ensures |r| == |s|
    ensures forall i :: 0 <= i < |s| ==> r[i] == s[|s| - 1 - i]
    decreases |s|
  {
    if s == [] then [] else Reverse(s[1..]) + [s[0]]
  }

  /** `s[:-2]`: everything but the last two characters, empty when `s` is shorter. */
  function DropLastTwo(s: string): (r: string)
    ensures |s| >= 2 ==> |r| == |s| - 2 && r == s[..|s| - 2]
    ensures |s| < 2 ==> r == ""
  {
    if |s| >= 2 then s[..|s| - 2] else ""
  }

  predicate IsAsciiDigit(c: char) { '0' <= c <= '9' }

  /** `s.isdigit()` on ASCII text: non-empty and all decimal digits. */
  predicate IsDigits(s: string) {
    |s| > 0 && forall i :: 0 <= i < |s| ==> IsAsciiDigit(s[i])
  }

  /** The ASCII characters for which `str.isspace()` holds. */
  predicate IsPySpace(c: char) {
    c == ' ' || 9 <= c as int <= 13 || 28 <= c as int <= 31
  }

  /** `s.lstrip()`: the longest suffix of `s` that does not start with white space. */
  function LStrip(s: string): (r: string)
    ensures |r| <= |s| && r == s[|s| - |r|..]
    ensures r == [] || !IsPySpace(r[0])
    decreases |s|
  {
    if s != [] && IsPySpace(s[0]) then LStrip(s[1..]) else s
  }

  /** `s.rstrip()`: the longest prefix of `s` that does not end with white space. */
  function RStrip(s: string): (r: string)
    ensures |r| <= |s| && r == s[..|r|]
    ensures r == [] || !IsPySpace(r[|r| - 1])
    decreases |s|
  {
    if s != [] && IsPySpace(s[|s| - 1]) then RStrip(s[..|s| - 1]) else s
  }

  /** `s.strip()`. */
  function Strip(s: string): (r: string)
    ensures r == [] || (!IsPySpace(r[0]) && !IsPySpace(r[|r| - 1]))
  {
    RStrip(LStrip(s))
  }

  /** `lstrip` cuts off only white space. */
  lemma {:induction false} LStripCutsOnlySpace(s: string)
    ensures forall i :: 0 <= i < |s| - |LStrip(s)| ==> IsPySpace(s[i])
    decreases |s|
  {
    if s != [] && IsPySpace(s[0]) {
      LStripCutsOnlySpace(s[1..]);
      assert forall i :: 1 <= i < |s| ==> s[i] == s[1..][i - 1];
    }
  }

  /** `rstrip` cuts off only white space. */
  lemma {:induction false} RStripCutsOnlySpace(s: string)
    ensures forall i :: |RStrip(s)| <= i < |s| ==> IsPySpace(s[i])
    decreases |s|
  {
    if s != [] && IsPySpace(s[|s| - 1]) {
      RStripCutsOnlySpace(s[..|s| - 1]);
      assert forall i :: 0 <= i < |s| - 1 ==> s[i] == s[..|s| - 1][i];
    }
  }

  /** `strip` cuts off only white space: the result is a slice with nothing but white space before and after it. */
  lemma StripCutsOnlySpace(s: string)
    ensures exists lo, hi ::
              && 0 <= lo <= hi <= |s| && Strip(s) == s[lo..hi]
              && (forall i :: 0 <= i < lo ==> IsPySpace(s[i]))
              && (forall i :: hi <= i < |s| ==> IsPySpace(s[i]))
  {
    var l := LStrip(s);
    var r := RStrip(l);
    var lo := |s| - |l|;
    var hi := lo + |r|;
    LStripCutsOnlySpace(s);
    RStripCutsOnlySpace(l);
    assert r == s[lo..hi] by {
      assert l == s[lo..] && r == l[..|r|];
    }
    forall i | hi <= i < |s| ensures IsPySpace(s[i]) {
      assert s[i] == l[i - lo];
    }
  }

  /** Text without surrounding white space is its own strip. */
  lemma StripUnpadded(s: string)
    requires s == [] || (!IsPySpace(s[0]) && !IsPySpace(s[|s| - 1]))
    ensures Strip(s) == s
  {
  }

  function Max(a: int, b: int): int { if a < b then b else a }

  function Min(a: int, b: int): int { if a < b then a else b }

  /** `s[lo:hi]` for non-negative bounds: both are clamped to the length, and a crossed range is empty. */
  function PySlice(s: string, lo: nat, hi: nat): (r: string)
    ensures lo <= hi <= |s| ==> r == s[lo..hi]
    ensures |r| == if Min(hi, |s|) <= Min(lo, |s|) then 0 else Min(hi, |s|) - Min(lo, |s|)
  {
    var a := Min(lo, |s|);
    var b := Min(hi, |s|);
    if a <= b then s[a..b] else ""
  }

  /** `"".join(ss)`. */
  function Join(ss: seq<string>): (r: string)
    ensures |ss| == 0 ==> r == ""
  {
    if |ss| == 0 then "" else Join(ss[..|ss| - 1]) + ss[|ss| - 1]
  }
}
