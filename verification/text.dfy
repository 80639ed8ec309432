/**
 The two string operations the command handlers apply to a typed direction:
 Python's `str.strip()` (no argument) and `str.upper()`.
 */
module Text {

  /** The characters for which Python's `str.isspace()` holds; `strip()` removes exactly these. */
  predicate IsSpace(c: char) {
    || c == ' '
    || ('\t' <= c <= '\r')
    || ('\U{1C}' <= c <= '\U{1F}')
    || c == '\U{85}' || c == '\U{A0}' || c == '\U{1680}'
    || ('\U{2000}' <= c <= '\U{200A}')
    || c == '\U{2028}' || c == '\U{2029}' || c == '\U{202F}' || c == '\U{205F}' || c == '\U{3000}'
  }

  predicate IsLowerAscii(c: char) {
    'a' <= c <= 'z'
  }

  /** Every character of `s` is whitespace. */
  predicate AllSpace(s: string)
    decreases |s|
  {
    s == [] || (IsSpace(s[0]) && AllSpace(s[1..]))
  }

  /** `AllSpace` read character by character. */
  lemma {:induction false} AllSpaceEveryChar(s: string)
    ensures AllSpace(s) <==> forall k :: 0 <= k < |s| ==> IsSpace(s[k])
    decreases |s|
  {
    if s != [] {
      AllSpaceEveryChar(s[1..]);
      assert forall k :: 0 <= k < |s| - 1 ==> s[1..][k] == s[k + 1];
    }
  }

  /** Whitespace followed by whitespace is whitespace. */
  lemma {:induction false} AllSpaceConcat(a: string, b: string)
    requires AllSpace(a) && AllSpace(b)
    ensures AllSpace(a + b)
    decreases |a|
  {
    if a != [] {
      assert (a + b)[1..] == a[1..] + b;
      AllSpaceConcat(a[1..], b);
    } else {
      assert a + b == b;
    }
  }

  /** Leading whitespace removed. */
  function StripStart(t: string): (r: string)
    ensures |r| <= |t| && r == t[|t| - |r|..]
    ensures AllSpace(t[..|t| - |r|])
    ensures r == [] || !IsSpace(r[0])
    decreases |t|
  {
    if |t| > 0 && IsSpace(t[0]) then
      var r := StripStart(t[1..]);
      assert t[..|t| - |r|][1..] == t[1..][..|t| - 1 - |r|];
      r
    else
      t
  }

  /** Trailing whitespace removed. */
  function StripEnd(t: string): (r: string)
    ensures |r| <= |t| && r == t[..|r|]
    ensures AllSpace(t[|r|..])
    ensures r == [] || !IsSpace(r[|r| - 1])
    decreases |t|
  {
    if |t| > 0 && IsSpace(t[|t| - 1]) then
      var front := t[..|t| - 1];
      var r := StripEnd(front);
      assert t[|r|..] == front[|r|..] + [t[|t| - 1]];
      AllSpaceConcat(front[|r|..], [t[|t| - 1]]);
      r
    else
      t
  }

  /** `t.strip()`: the infix of `t` left after removing whitespace at both ends.
      It starts after the leading whitespace of `t`, and what `t` has before and
      after it is whitespace. */
  function Strip(t: string): (r: string)
    ensures |r| <= |t|
    ensures var i := |t| - |StripStart(t)|;
            && i + |r| <= |t|
            && t == t[..i] + r + t[i + |r|..]
            && AllSpace(t[..i])
            && AllSpace(t[i + |r|..])
    ensures r == [] || (!IsSpace(r[0]) && !IsSpace(r[|r| - 1]))
  {
    var u := StripStart(t);
    var r := StripEnd(u);
    SliceOfSuffix(t, u, r, |t| - |u|);
    r
  }

  /** A prefix `r` of the suffix `u == t[i..]` sits in `t` at `i`, and the rest of
      `u` is the rest of `t`. */
  lemma SliceOfSuffix<T>(t: seq<T>, u: seq<T>, r: seq<T>, i: nat)
    requires i <= |t| && u == t[i..]
    requires |r| <= |u| && r == u[..|r|]
    ensures i + |r| <= |t| && t == t[..i] + r + t[i + |r|..]
    ensures t[i + |r|..] == u[|r|..]
  {
    assert t == t[..i] + u;
    assert u == r + u[|r|..];
  }

  /** A string with no whitespace at either end is its own `strip()`. */
  lemma {:induction false} StripKeepsTrimmed(t: string)
    requires t == [] || (!IsSpace(t[0]) && !IsSpace(t[|t| - 1]))
    ensures Strip(t) == t
  {
    assert StripStart(t) == t;
    assert StripEnd(t) == t;
  }

  /** A leading whitespace character does not change the result of `strip()`. */
  lemma StripDropsLeadingSpace(t: string)
    requires |t| > 0 && IsSpace(t[0])
    ensures Strip(t) == Strip(t[1..])
  {
  }

  /** `strip()` is idempotent. */
  lemma StripIdempotent(t: string)
    ensures Strip(Strip(t)) == Strip(t)
  {
    StripKeepsTrimmed(Strip(t));
  }

  /** `upper()` of one character, for the ASCII letters. */
  function UpperChar(c: char): (u: char)
    ensures !IsLowerAscii(u)
    ensures IsLowerAscii(c) ==> u as int == c as int - 32
    ensures !IsLowerAscii(c) ==> u == c
  {
    if IsLowerAscii(c) then (c as int - 32) as char else c
  }

  /** `t.upper()`, character by character: every lower-case ASCII letter becomes the
      capital at the same place in the alphabet, every other character is kept, and
      no lower-case letter is left. */
  function Upper(t: string): (r: string)
    ensures |r| == |t|
    ensures forall i :: 0 <= i < |t| ==> r[i] == UpperChar(t[i])
    ensures forall i :: 0 <= i < |r| ==> !IsLowerAscii(r[i])
    ensures forall i :: 0 <= i < |t| && !IsLowerAscii(t[i]) ==> r[i] == t[i]
    ensures forall i :: 0 <= i < |t| && IsLowerAscii(t[i]) ==>
              'A' <= r[i] <= 'Z' && r[i] as int - 'A' as int == t[i] as int - 'a' as int
  {
    seq(|t|, i requires 0 <= i < |t| => UpperChar(t[i]))
  }

  /** `upper()` is idempotent, so upper-casing a token twice is the same as once. */
  lemma UpperIdempotent(t: string)
    ensures Upper(Upper(t)) == Upper(t)
  {
    assert forall i :: 0 <= i < |t| ==> UpperChar(UpperChar(t[i])) == UpperChar(t[i]);
  }
}
