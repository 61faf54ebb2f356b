/** `String.prototype.trim` and the notion of a blank string it induces. */
module JsText {

  /** The characters `trim` removes: ECMAScript WhiteSpace (including the Unicode space
      separators) and LineTerminator. */
  predicate IsWhitespace(c: char) {
    c == ' ' || c == '\t' || c == '\n' || c == '\U{000B}' || c == '\U{000C}' || c == '\r'
    || c == '\U{00A0}' || c == '\U{1680}' || ('\U{2000}' <= c <= '\U{200A}')
    || c == '\U{2028}' || c == '\U{2029}' || c == '\U{202F}' || c == '\U{205F}'
    || c == '\U{3000}' || c == '\U{FEFF}'
  }

  /** Empty, or made of whitespace only. */
  predicate IsBlank(s: string) {
    forall i :: 0 <= i < |s| ==> IsWhitespace(s[i])
  }

  /** `s.trim()`: whitespace is dropped from both ends, one character at a time. The result
      is empty exactly when `s` is blank; otherwise it neither starts nor ends with whitespace,
      and it ends with the last character of `s` when that is not whitespace. */
  function Trim(s: string): (r: string)
    ensures |r| <= |s|
    ensures r == [] <==> IsBlank(s)
    ensures r != [] ==> !IsWhitespace(r[0]) && !IsWhitespace(r[|r| - 1])
    ensures s != [] && !IsWhitespace(s[|s| - 1]) ==> r != [] && r[|r| - 1] == s[|s| - 1]
  {
    if s != [] && IsWhitespace(s[0]) then
      var r := Trim(s[1..]);
      assert IsBlank(s) <==> IsBlank(s[1..]) by {
        assert forall i :: 0 < i < |s| ==> s[i] == s[1..][i - 1];
      }
      r
    else if s != [] && IsWhitespace(s[|s| - 1]) then
      var r := Trim(s[..|s| - 1]);
      assert IsBlank(s) <==> IsBlank(s[..|s| - 1]) by {
        assert forall i :: 0 <= i < |s| - 1 ==> s[i] == s[..|s| - 1][i];
      }
      r
    else s
  }

  /** Whitespace followed by a blank string is blank. */
  lemma BlankCons(c: char, x: string)
    requires IsWhitespace(c) && IsBlank(x)
    ensures IsBlank([c] + x)
  {
    forall k | 0 < k < |x| + 1 ensures IsWhitespace(([c] + x)[k]) {
      assert ([c] + x)[k] == x[k - 1];
    }
  }

  /** A blank string followed by whitespace is blank. */
  lemma BlankSnoc(x: string, c: char)
    requires IsBlank(x) && IsWhitespace(c)
    ensures IsBlank(x + [c])
  {
    forall k | 0 <= k < |x| ensures IsWhitespace((x + [c])[k]) {
      assert (x + [c])[k] == x[k];
    }
  }

  /** Every part of a blank string is blank. */
  lemma BlankSlice(x: string, i: nat, j: nat)
    requires IsBlank(x) && i <= j <= |x|
    ensures IsBlank(x[i..j])
  {
    forall k | 0 <= k < j - i ensures IsWhitespace(x[i..j][k]) {
      assert x[i..j][k] == x[i + k];
    }
  }

  /** What `trim` returns is `s` itself with a blank prefix `s[..i]` and a blank suffix
      `s[j..]` cut off. */
  lemma {:induction false} TrimIsSlice(s: string) returns (i: nat, j: nat)
    ensures i <= j <= |s| && Trim(s) == s[i..j]
    ensures IsBlank(s[..i]) && IsBlank(s[j..])
    decreases |s|
  {
    if s != [] && IsWhitespace(s[0]) {
      var i', j' := TrimIsSlice(s[1..]);
      i, j := i' + 1, j' + 1;
      SliceOfTail(s, i', j');
    } else if s != [] && IsWhitespace(s[|s| - 1]) {
      i, j := TrimIsSlice(s[..|s| - 1]);
      SliceOfFront(s, i, j);
    } else {
      i, j := 0, |s|;
      assert s[..0] == [] && s[|s|..] == [];
    }
  }

  /** A blank-padded slice of `s[1..]` is one of `s` when `s[0]` is whitespace. */
  lemma SliceOfTail(s: string, i: nat, j: nat)
    requires s != [] && IsWhitespace(s[0]) && i <= j <= |s| - 1
    requires IsBlank(s[1..][..i]) && IsBlank(s[1..][j..])
    ensures s[1..][i..j] == s[i + 1..j + 1]
    ensures IsBlank(s[..i + 1]) && IsBlank(s[j + 1..])
  {
    var tail := s[1..];
    BlankCons(s[0], tail[..i]);
    assert [s[0]] + tail[..i] == s[..i + 1];
    assert tail[j..] == s[j + 1..];
  }

  /** A blank-padded slice of `s` without its last character is one of `s` when that
      character is whitespace. */
  lemma SliceOfFront(s: string, i: nat, j: nat)
    requires s != [] && IsWhitespace(s[|s| - 1]) && i <= j <= |s| - 1
    requires IsBlank(s[..|s| - 1][..i]) && IsBlank(s[..|s| - 1][j..])
    ensures s[..|s| - 1][i..j] == s[i..j]
    ensures IsBlank(s[..i]) && IsBlank(s[j..])
  {
    var front := s[..|s| - 1];
    assert front[..i] == s[..i];
    BlankSnoc(front[j..], s[|s| - 1]);
    assert front[j..] + [s[|s| - 1]] == s[j..];
  }

  /** Conversely, `trim` cuts any blank padding off a text that neither starts nor ends with
      whitespace, and gives back exactly that text. */
  lemma TrimPadded(a: string, t: string, b: string)
    requires IsBlank(a) && IsBlank(b)
    requires t != [] && !IsWhitespace(t[0]) && !IsWhitespace(t[|t| - 1])
    ensures Trim(a + t + b) == t
  {
    assert (t + b)[0] == t[0];
    assert a + t + b == a + (t + b);
    TrimBlankPrefix(a, t + b);
    TrimBlankSuffix(t, b);
  }

  /** A blank prefix in front of a text that starts with a non-whitespace character is
      dropped by `trim`. */
  lemma {:induction false} TrimBlankPrefix(a: string, u: string)
    requires IsBlank(a) && u != [] && !IsWhitespace(u[0])
    ensures Trim(a + u) == Trim(u)
    decreases |a|
  {
    if a != [] {
      var s := a + u;
      assert s[0] == a[0];
      assert s[1..] == a[1..] + u;
      BlankSlice(a, 1, |a|);
      TrimBlankPrefix(a[1..], u);
    } else {
      assert a + u == u;
    }
  }

  /** A blank suffix after a text that neither starts nor ends with whitespace is dropped by
      `trim`, which then leaves the text as it is. */
  lemma {:induction false} TrimBlankSuffix(t: string, b: string)
    requires IsBlank(b) && t != [] && !IsWhitespace(t[0]) && !IsWhitespace(t[|t| - 1])
    ensures Trim(t + b) == t
    decreases |b|
  {
    if b != [] {
      var s := t + b;
      assert s[0] == t[0] && s[|s| - 1] == b[|b| - 1];
      TrimDropsLast(s);
      assert s[..|s| - 1] == t + b[..|b| - 1];
      BlankSlice(b, 0, |b| - 1);
      TrimBlankSuffix(t, b[..|b| - 1]);
    } else {
      assert t + b == t;
      TrimUnchanged(t);
    }
  }

  /** One step of `trim` from the back. */
  lemma TrimDropsLast(s: string)
    requires s != [] && !IsWhitespace(s[0]) && IsWhitespace(s[|s| - 1])
    ensures Trim(s) == Trim(s[..|s| - 1])
  {
  }

  /** A string that neither starts nor ends with whitespace is left as it is by `trim`. */
  lemma {:induction false} TrimUnchanged(s: string)
    requires s != [] ==> !IsWhitespace(s[0]) && !IsWhitespace(s[|s| - 1])
    ensures Trim(s) == s
  {
  }

  /** Trimming twice is trimming once, and a string is blank exactly when its trim is. */
  lemma {:induction false} TrimIdempotent(s: string)
    ensures Trim(Trim(s)) == Trim(s)
    ensures IsBlank(Trim(s)) <==> IsBlank(s)
  {
    TrimUnchanged(Trim(s));
  }
}
