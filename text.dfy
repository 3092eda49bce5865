/**
 * ASCII string helpers shared by every rule of the scaffolder: JavaScript's
 * `trim`, `toLowerCase` and the `[^a-z0-9-]` replacement, restricted to ASCII.
 */
module Text {

  /** The ASCII whitespace that `String.prototype.trim` removes: space, and tab through carriage return. */
  predicate IsWhitespace(c: char) { c == ' ' || '\t' <= c <= '\r' }

  predicate IsDash(c: char) { c == '-' }

  predicate IsUpper(c: char) { 'A' <= c <= 'Z' }

  /** An ASCII letter, in either case, or a digit. */
  predicate IsAlphanumeric(c: char) { 'a' <= c <= 'z' || 'A' <= c <= 'Z' || '0' <= c <= '9' }

  /** The package-identifier alphabet `[a-z0-9-]`. */
  predicate IsPackageChar(c: char) { 'a' <= c <= 'z' || '0' <= c <= '9' || c == '-' }

  /** Every character of `s` satisfies `p`. */
  predicate All(s: string, p: char -> bool) { forall i :: 0 <= i < |s| ==> p(s[i]) }

  /** Drops the leading characters that satisfy `p`. */
  function TrimStartBy(s: string, p: char -> bool): string {
    if |s| > 0 && p(s[0]) then TrimStartBy(s[1..], p) else s
  }

  /** Drops the trailing characters that satisfy `p`. */
  function TrimEndBy(s: string, p: char -> bool): string {
    if |s| > 0 && p(s[|s| - 1]) then TrimEndBy(s[..|s| - 1], p) else s
  }

  /** TrimStartBy keeps a suffix of its input and drops only `p` characters in front of it. */
  lemma {:induction false} TrimStartByShape(s: string, p: char -> bool)
    ensures var r := TrimStartBy(s, p);
      |r| <= |s| && r == s[|s| - |r|..] && All(s[..|s| - |r|], p) && (r == [] || !p(r[0]))
    decreases |s|
  {
    if |s| > 0 && p(s[0]) {
      TrimStartByShape(s[1..], p);
      var r := TrimStartBy(s[1..], p);
      var k := |s| - |r|;
      assert s[1..][k - 1..] == s[k..];
      forall i | 0 <= i < k ensures p(s[..k][i]) {
        if i > 0 { assert s[..k][i] == s[1..][..k - 1][i - 1]; }
      }
    }
  }

  /** TrimEndBy keeps a prefix of its input and drops only `p` characters after it. */
  lemma {:induction false} TrimEndByShape(s: string, p: char -> bool)
    ensures var r := TrimEndBy(s, p);
      |r| <= |s| && r == s[..|r|] && All(s[|r|..], p) && (r == [] || !p(r[|r| - 1]))
    decreases |s|
  {
    if |s| > 0 && p(s[|s| - 1]) {
      TrimEndByShape(s[..|s| - 1], p);
      var r := TrimEndBy(s[..|s| - 1], p);
      forall j | 0 <= j < |s| - |r| ensures p(s[|r|..][j]) {
        if j < |s| - 1 - |r| { assert s[|r|..][j] == s[..|s| - 1][|r|..][j]; }
      }
    }
  }

  /** Drops the characters that satisfy `p` from both ends. */
  function TrimBy(s: string, p: char -> bool): (r: string)
    ensures |r| <= |s|
    ensures r == [] || (!p(r[0]) && !p(r[|r| - 1]))
    ensures r == [] <==> All(s, p)
  {
    var t := TrimStartBy(s, p);
    TrimStartByShape(s, p);
    TrimEndByShape(t, p);
    var r := TrimEndBy(t, p);
    assert r == s[|s| - |t|..][..|r|];
    assert r == [] ==> s == s[..|s| - |t|] + t;
    r
  }

  /** `String.prototype.trim`, for ASCII whitespace. */
  function Trim(s: string): string { TrimBy(s, IsWhitespace) }

  /** Strips leading and trailing `-`, keeping interior runs. */
  function StripDashes(s: string): string { TrimBy(s, IsDash) }

  /** ASCII `toLowerCase` of one character. */
  function LowerChar(c: char): char {
    if IsUpper(c) then (c as int - 'A' as int + 'a' as int) as char else c
  }

  /** ASCII `toLowerCase`. */
  function LowerAscii(s: string): (r: string)
    ensures |r| == |s| && forall i :: 0 <= i < |s| ==> r[i] == LowerChar(s[i])
  {
    seq(|s|, i requires 0 <= i < |s| => LowerChar(s[i]))
  }

  /** One step of `.replace(/[^a-z0-9-]/g, '-')`. */
  function PackageChar(c: char): char { if IsPackageChar(c) then c else '-' }

  /** `.replace(/[^a-z0-9-]/g, '-')`. */
  function MapToPackageAlphabet(s: string): (r: string)
    ensures |r| == |s| && forall i :: 0 <= i < |s| ==> r[i] == PackageChar(s[i])
  {
    seq(|s|, i requires 0 <= i < |s| => PackageChar(s[i]))
  }

  /** `t` occurs in `s` at position `i`. */
  predicate InfixAt(s: string, t: string, i: int) {
    0 <= i && i + |t| <= |s| && s[i..i + |t|] == t
  }

  /** `t` occurs in `s` as a contiguous substring (`String.prototype.includes`). */
  predicate HasInfix(s: string, t: string) {
    exists i | 0 <= i <= |s| - |t| :: InfixAt(s, t, i)
  }

  /** A string that neither starts nor ends with a `p` character is left as it is. */
  lemma TrimByKeeps(s: string, p: char -> bool)
    requires s == [] || (!p(s[0]) && !p(s[|s| - 1]))
    ensures TrimBy(s, p) == s
  {
  }

  /** Trimming keeps any property that every character of the input has. */
  lemma TrimByKeepsAll(s: string, p: char -> bool, q: char -> bool)
    requires All(s, q)
    ensures All(TrimBy(s, p), q)
  {
    var t := TrimStartBy(s, p);
    var r := TrimEndBy(t, p);
    TrimStartByShape(s, p);
    TrimEndByShape(t, p);
    forall i | 0 <= i < |r| ensures q(r[i]) {
      assert r[i] == t[i] == s[|s| - |t| + i];
    }
  }

  /** What trimming keeps is a contiguous piece of the input, with only `p` characters around it. */
  lemma TrimByInfix(s: string, p: char -> bool)
    ensures exists k :: InfixAt(s, TrimBy(s, p), k) && All(s[..k], p) && All(s[k + |TrimBy(s, p)|..], p)
  {
    var t := TrimStartBy(s, p);
    var r := TrimEndBy(t, p);
    TrimStartByShape(s, p);
    TrimEndByShape(t, p);
    var k := |s| - |t|;
    assert s[k..k + |r|] == r;
    assert s[k + |r|..] == t[|r|..];
    assert TrimBy(s, p) == r;
    assert InfixAt(s, TrimBy(s, p), k);
  }

  /** Trimming twice is trimming once. */
  lemma TrimByIdempotent(s: string, p: char -> bool)
    ensures TrimBy(TrimBy(s, p), p) == TrimBy(s, p)
  {
    TrimByKeeps(TrimBy(s, p), p);
  }

  /** A prefix made only of `p` characters is dropped by TrimStartBy. */
  lemma {:induction false} TrimStartByPrefix(w: string, s: string, p: char -> bool)
    requires All(w, p)
    ensures TrimStartBy(w + s, p) == TrimStartBy(s, p)
    decreases |w|
  {
    if w != [] {
      var ws := w + s;
      assert ws[0] == w[0];
      assert ws[1..] == w[1..] + s;
      TrimStartByPrefix(w[1..], s, p);
    } else {
      assert w + s == s;
    }
  }

  /** A suffix made only of `p` characters is dropped by TrimEndBy. */
  lemma {:induction false} TrimEndBySuffix(s: string, w: string, p: char -> bool)
    requires All(w, p)
    ensures TrimEndBy(s + w, p) == TrimEndBy(s, p)
    decreases |w|
  {
    if w != [] {
      var sw := s + w;
      assert sw[|sw| - 1] == w[|w| - 1];
      assert sw[..|sw| - 1] == s + w[..|w| - 1];
      TrimEndBySuffix(s, w[..|w| - 1], p);
    } else {
      assert s + w == s;
    }
  }

  /** Once TrimStartBy stops inside `s`, whatever follows `s` is kept untouched. */
  lemma {:induction false} TrimStartByAppend(s: string, t: string, p: char -> bool)
    requires TrimStartBy(s, p) != []
    ensures TrimStartBy(s + t, p) == TrimStartBy(s, p) + t
    decreases |s|
  {
    assert s != [];
    if p(s[0]) {
      TrimStartByShape(s, p);
      assert (s + t)[1..] == s[1..] + t;
      TrimStartByAppend(s[1..], t, p);
    }
  }

  /** Padding with `p` characters on either side does not change the trimmed string. */
  lemma TrimByPadding(w1: string, s: string, w2: string, p: char -> bool)
    requires All(w1, p) && All(w2, p)
    ensures TrimBy(w1 + s + w2, p) == TrimBy(s, p)
  {
    assert w1 + s + w2 == w1 + (s + w2);
    TrimStartByPrefix(w1, s + w2, p);
    var t := TrimStartBy(s, p);
    TrimStartByShape(s, p);
    if t != [] {
      TrimStartByAppend(s, w2, p);
      TrimEndBySuffix(t, w2, p);
    } else {
      assert s[..|s|] == s;
      assert All(s + w2, p) by {
        forall i | 0 <= i < |s + w2| ensures p((s + w2)[i]) {
          if i < |s| { assert (s + w2)[i] == s[..|s|][i]; } else { assert (s + w2)[i] == w2[i - |s|]; }
        }
      }
      TrimStartByPrefix(s + w2, [], p);
      assert s + w2 + [] == s + w2;
    }
  }

  /** Lower-casing twice is lower-casing once. */
  lemma LowerAsciiIdempotent(s: string)
    ensures LowerAscii(LowerAscii(s)) == LowerAscii(s)
  {
  }
}
