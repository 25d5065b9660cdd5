/**
 * Character classes and white-space trimming as the chat handler uses them:
 * `strings.TrimSpace` (which trims every rune for which `unicode.IsSpace`
 * holds) and the `\s` and `\d` classes of Go's regular expressions.
 * Strings are sequences of Unicode scalar values (runes).
 */
module Strings {

  /** Every character of `s` satisfies `p`. */
  predicate All(s: string, p: char -> bool) {
    forall i :: 0 <= i < |s| ==> p(s[i])
  }

  /** `unicode.IsSpace`: the characters with Unicode's White_Space property. */
  predicate IsSpace(c: char) {
    || c == '\t' || c == '\n' || c == '\U{B}' || c == '\U{C}' || c == '\r' || c == ' '
    || c == '\U{85}' || c == '\U{A0}' || c == '\U{1680}'
    || ('\U{2000}' <= c <= '\U{200A}')
    || c == '\U{2028}' || c == '\U{2029}' || c == '\U{202F}' || c == '\U{205F}' || c == '\U{3000}'
  }

  /** `\s` in a Go regular expression: the ASCII class `[\t\n\f\r ]`, narrower than IsSpace. */
  function IsRegexSpace(c: char): (b: bool)
    ensures b ==> IsSpace(c)
    ensures b ==> c != '\U{B}' && c < '\U{80}'
  {
    c == '\t' || c == '\n' || c == '\U{C}' || c == '\r' || c == ' '
  }

  /** `\d` in a Go regular expression: an ASCII decimal digit. */
  predicate IsDigit(c: char) {
    '0' <= c <= '9'
  }

  /** The length of the longest prefix of `s` whose characters all satisfy `p`. */
  function CountWhile(s: string, p: char -> bool): (n: nat)
    ensures n <= |s| && All(s[..n], p)
    ensures n < |s| ==> !p(s[n])
  {
    if s != [] && p(s[0]) then 1 + CountWhile(s[1..], p) else 0
  }

  /** No white space at either end. */
  predicate IsTrimmed(s: string) {
    s != [] ==> !IsSpace(s[0]) && !IsSpace(s[|s| - 1])
  }

  /** `strings.TrimLeftFunc(s, unicode.IsSpace)`: the suffix left after dropping leading white space. */
  function TrimLeft(s: string): (r: string)
    ensures |r| <= |s| && r == s[|s| - |r|..]
    ensures All(s[..|s| - |r|], IsSpace)
    ensures r != [] ==> !IsSpace(r[0])
  {
    if s != [] && IsSpace(s[0]) then TrimLeft(s[1..]) else s
  }

  /** `strings.TrimRightFunc(s, unicode.IsSpace)`: the prefix left after dropping trailing white space. */
  function TrimRight(s: string): (r: string)
    ensures |r| <= |s| && r == s[..|r|]
    ensures All(s[|r|..], IsSpace)
    ensures r != [] ==> !IsSpace(r[|r| - 1])
  {
    if s != [] && IsSpace(s[|s| - 1]) then TrimRight(s[..|s| - 1]) else s
  }

  /** `strings.TrimSpace`. */
  function TrimSpace(s: string): (r: string)
    ensures IsTrimmed(r)
    ensures r == [] <==> All(s, IsSpace)
  {
    TrimRight(TrimLeft(s))
  }

  /** Dropping a white-space prefix from text that starts with a non-space character. */
  lemma TrimLeftSkips(p: string, x: string)
    requires All(p, IsSpace)
    requires x != [] && !IsSpace(x[0])
    ensures TrimLeft(p + x) == x
  {
    var s := p + x;
    var k := |s| - |TrimLeft(s)|;
    assert k <= |p| by {
      assert forall j :: |p| < j <= |s| ==> s[..j][|p|] == x[0];
    }
  }

  /** Dropping a white-space suffix from text that ends with a non-space character. */
  lemma TrimRightSkips(y: string, q: string)
    requires All(q, IsSpace)
    requires y != [] && !IsSpace(y[|y| - 1])
    ensures TrimRight(y + q) == y
  {
    var s := y + q;
    var n := |TrimRight(s)|;
    assert n >= |y| by {
      assert forall j :: 0 <= j < |y| ==> s[j..][|y| - 1 - j] == y[|y| - 1];
    }
  }

  /**
   * TrimSpace is determined by the decomposition of its argument into a
   * white-space prefix, a trimmed core and a white-space suffix.
   */
  lemma TrimSpaceOf(p: string, m: string, q: string)
    requires All(p, IsSpace) && All(q, IsSpace) && IsTrimmed(m)
    ensures TrimSpace(p + m + q) == m
  {
    if m == [] {
      assert All(p + m + q, IsSpace) by {
        forall i | 0 <= i < |p + m + q| ensures IsSpace((p + m + q)[i]) {
          if i >= |p| { assert (p + m + q)[i] == q[i - |p|]; }
        }
      }
    } else {
      assert p + m + q == p + (m + q);
      TrimLeftSkips(p, m + q);
      TrimRightSkips(m, q);
    }
  }

  /** Trimming is idempotent, and a trimmed string is its own trim. */
  lemma TrimSpaceIdempotent(s: string)
    ensures TrimSpace(TrimSpace(s)) == TrimSpace(s)
    ensures IsTrimmed(s) ==> TrimSpace(s) == s
  {
    TrimSpaceOf([], TrimSpace(s), []);
    assert [] + TrimSpace(s) + [] == TrimSpace(s);
    if IsTrimmed(s) {
      TrimSpaceOf([], s, []);
      assert [] + s + [] == s;
    }
  }

  /** TrimSpace returns a slice `m` of its argument flanked by white space; `i` is where the slice starts. */
  lemma TrimSpaceParts(s: string) returns (i: nat, m: string)
    ensures m == TrimSpace(s)
    ensures i + |m| <= |s| && s[i..i + |m|] == m
    ensures All(s[..i], IsSpace) && All(s[i + |m|..], IsSpace)
  {
    var l := TrimLeft(s);
    m := TrimRight(l);
    i := |s| - |l|;
    SuffixThenPrefix(s, l, m);
  }

  /** A prefix `r` of a suffix `l` of `s`, each dropping only white space, is a slice of `s` flanked by white space. */
  lemma SuffixThenPrefix(s: string, l: string, r: string)
    requires |l| <= |s| && l == s[|s| - |l|..] && All(s[..|s| - |l|], IsSpace)
    requires |r| <= |l| && r == l[..|r|] && All(l[|r|..], IsSpace)
    ensures s[|s| - |l|..|s| - |l| + |r|] == r
    ensures All(s[|s| - |l| + |r|..], IsSpace)
  {
    assert s[|s| - |l| + |r|..] == l[|r|..];
  }

  /** The same, as a decomposition: `s` is a white-space prefix, TrimSpace(s), and a white-space suffix. */
  lemma TrimSpaceSplit(s: string) returns (p: string, q: string)
    ensures s == p + TrimSpace(s) + q
    ensures All(p, IsSpace) && All(q, IsSpace)
  {
    var i, m := TrimSpaceParts(s);
    var j := i + |m|;
    p, q := s[..i], s[j..];
    SliceSplit(s, i, j);
  }

  lemma SliceSplit(s: string, i: nat, j: nat)
    requires i <= j <= |s|
    ensures s == s[..i] + s[i..j] + s[j..]
  {
    assert s[..j] == s[..i] + s[i..j];
    assert s == s[..j] + s[j..];
  }

  /** Every character of a trimmed string comes from the original. */
  lemma TrimSpaceChars(s: string)
    ensures forall c :: c in TrimSpace(s) ==> c in s
  {
    var p, q := TrimSpaceSplit(s);
  }
}
