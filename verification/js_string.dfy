/**
 * The two ECMAScript string primitives the modelled code relies on:
 * `String.prototype.trim` and `String.prototype.split` with a one-character
 * separator. Strings are sequences of characters.
 */
module JsString {

  /** ECMAScript WhiteSpace and LineTerminator code points, which `trim` removes. */
  predicate IsWhitespace(c: char) {
    || c == '\t' || c == '\U{B}' || c == '\U{C}' || c == ' ' || c == '\U{A0}' || c == '\U{FEFF}'
    || c == '\U{1680}' || ('\U{2000}' <= c <= '\U{200A}') || c == '\U{202F}' || c == '\U{205F}'
    || c == '\U{3000}'
    || c == '\n' || c == '\r' || c == '\U{2028}' || c == '\U{2029}'
  }

  predicate AllWhitespace(s: string) {
    forall k :: 0 <= k < |s| ==> IsWhitespace(s[k])
  }

  /** The character `c` occurs nowhere in `s`. */
  predicate Lacks(s: string, c: char) {
    forall k :: 0 <= k < |s| ==> s[k] != c
  }

  /** `t` has no whitespace at either end. */
  predicate NoOuterWhitespace(t: string) {
    t == [] || (!IsWhitespace(t[0]) && !IsWhitespace(t[|t| - 1]))
  }

  /** `t` is `s` with the whitespace before index `i` and after `t` removed. */
  predicate TrimmedAt(s: string, i: nat, t: string) {
    && NoOuterWhitespace(t)
    && i + |t| <= |s| && s[i..i + |t|] == t && AllWhitespace(s[..i]) && AllWhitespace(s[i + |t|..])
  }

  /** `t` is what is left of `s` after removing whitespace from both ends. */
  ghost predicate IsTrimOf(s: string, t: string) {
    exists i: nat :: TrimmedAt(s, i, t)
  }

  /** `String.prototype.trimStart`: whitespace is dropped from the front one character at a time. */
  function TrimStart(s: string): (t: string)
    ensures |t| <= |s|
  {
    if |s| > 0 && IsWhitespace(s[0]) then TrimStart(s[1..]) else s
  }

  /** `String.prototype.trimEnd`: whitespace is dropped from the back one character at a time. */
  function TrimEnd(s: string): (t: string)
    ensures |t| <= |s|
  {
    if |s| > 0 && IsWhitespace(s[|s| - 1]) then TrimEnd(s[..|s| - 1]) else s
  }

  /** `String.prototype.trim`. */
  function Trim(s: string): (t: string)
    ensures |t| <= |s|
  {
    TrimEnd(TrimStart(s))
  }

  /** `TrimStart` keeps a suffix that does not start with whitespace and drops only whitespace. */
  lemma {:induction false} TrimStartSpec(s: string)
    ensures var t := TrimStart(s);
      && t == s[|s| - |t|..] && AllWhitespace(s[..|s| - |t|]) && (t == [] || !IsWhitespace(t[0]))
  {
    if |s| > 0 && IsWhitespace(s[0]) {
      TrimStartSpec(s[1..]);
      var t := TrimStart(s);
      assert s[1..][|s| - 1 - |t|..] == s[|s| - |t|..];
      assert forall k :: 1 <= k < |s| - |t| ==> s[k] == s[1..][..|s| - 1 - |t|][k - 1];
    }
  }

  /** `TrimEnd` keeps a prefix that does not end with whitespace and drops only whitespace. */
  lemma {:induction false} TrimEndSpec(s: string)
    ensures var t := TrimEnd(s);
      && t == s[..|t|] && AllWhitespace(s[|t|..]) && (t == [] || !IsWhitespace(t[|t| - 1]))
  {
    if |s| > 0 && IsWhitespace(s[|s| - 1]) {
      var init := s[..|s| - 1];
      TrimEndSpec(init);
      var t := TrimEnd(s);
      assert init[..|t|] == s[..|t|];
      assert forall k :: |t| <= k < |s| - 1 ==> s[k] == init[|t|..][k - |t|];
    }
  }

  /** The result of `trim` is `s` with the whitespace at both ends removed and none left there. */
  lemma {:induction false} TrimSpec(s: string)
    ensures TrimmedAt(s, |s| - |TrimStart(s)|, Trim(s))
  {
    var u := TrimStart(s);
    var t := Trim(s);
    var i := |s| - |u|;
    TrimStartSpec(s);
    TrimEndSpec(u);
    assert s[i..i + |t|] == u[..|t|];
    assert s[i + |t|..] == u[|t|..];
    assert t != [] ==> t[0] == u[0];
  }

  /** Trimming has exactly one possible result: any `t` that fits the description is `Trim(s)`. */
  lemma {:induction false} TrimUnique(s: string, t: string)
    requires IsTrimOf(s, t)
    ensures t == Trim(s)
  {
    var u := Trim(s);
    var i: nat :| TrimmedAt(s, i, t);
    TrimSpec(s);
    TrimSliceUnique(s, i, t, |s| - |TrimStart(s)|, u);
  }

  lemma {:induction false} TrimSliceUnique(s: string, i: nat, t: string, j: nat, u: string)
    requires TrimmedAt(s, i, t) && TrimmedAt(s, j, u)
    ensures t == u
  {
    if t != [] && u != [] {
      assert t[0] == s[i] && u[0] == s[j];
      var et := i + |t| - 1;
      var eu := j + |u| - 1;
      assert t[|t| - 1] == s[et] && u[|u| - 1] == s[eu];
    }
  }

  /** The result of `trim` is empty exactly when the input is all whitespace. */
  lemma {:induction false} TrimEmptyIff(s: string)
    ensures Trim(s) == [] <==> AllWhitespace(s)
  {
    if Trim(s) == [] {
      TrimEmptyOnlyWhitespace(s);
    }
    if AllWhitespace(s) {
      TrimStartSpec(s);
      var u := TrimStart(s);
      assert u != [] ==> u[0] == s[|s| - |u|];
    }
  }

  lemma {:induction false} TrimEmptyOnlyWhitespace(s: string)
    requires Trim(s) == []
    ensures AllWhitespace(s)
  {
    var i := |s| - |TrimStart(s)|;
    TrimSpec(s);
    assert forall k :: 0 <= k < i ==> s[k] == s[..i][k];
    assert forall k :: i <= k < |s| ==> s[k] == s[i..][k - i];
  }

  /** Trimming twice is trimming once. */
  lemma {:induction false} TrimIdempotent(s: string)
    ensures Trim(Trim(s)) == Trim(s)
  {
    var t := Trim(s);
    TrimSpec(s);
    assert TrimmedAt(t, 0, t) by {
      assert t[0..|t|] == t && t[..0] == [] && t[|t|..] == [];
    }
    TrimUnique(t, t);
  }

  /** Trimming only removes characters, so a character absent from `s` is absent from `Trim(s)`. */
  lemma {:induction false} TrimKeepsAbsent(s: string, c: char)
    requires Lacks(s, c)
    ensures Lacks(Trim(s), c)
  {
    var t := Trim(s);
    var i := |s| - |TrimStart(s)|;
    TrimSpec(s);
    assert forall k :: 0 <= k < |t| ==> t[k] == s[i + k];
  }

  /** The pieces joined back with the separator: the inverse of `Split`. */
  function Join(parts: seq<string>, sep: char): string
    requires |parts| >= 1
  {
    if |parts| == 1 then parts[0] else parts[0] + [sep] + Join(parts[1..], sep)
  }

  /** Index of the first occurrence of `c` in `s`. */
  function IndexOf(s: string, c: char): (i: nat)
    requires c in s
    ensures i < |s| && s[i] == c && Lacks(s[..i], c)
  {
    if s[0] == c then 0 else
      var i := 1 + IndexOf(s[1..], c);
      assert s[..i] == [s[0]] + s[1..][..i - 1];
      i
  }

  /** `String.prototype.split` with a one-character separator. */
  function Split(s: string, sep: char): (parts: seq<string>)
    ensures |parts| >= 1
    ensures forall k :: 0 <= k < |parts| ==> Lacks(parts[k], sep)
    ensures Join(parts, sep) == s
    decreases |s|
  {
    if Lacks(s, sep) then [s] else
      var i := IndexOf(s, sep);
      var parts := [s[..i]] + Split(s[i + 1..], sep);
      assert parts[1..] == Split(s[i + 1..], sep);
      assert s == s[..i] + [sep] + s[i + 1..];
      parts
  }

  /** `Split` undoes `Join` whenever no piece contains the separator. */
  lemma {:induction false} SplitJoin(parts: seq<string>, sep: char)
    requires |parts| >= 1
    requires forall k :: 0 <= k < |parts| ==> Lacks(parts[k], sep)
    ensures Split(Join(parts, sep), sep) == parts
  {
    var s := Join(parts, sep);
    if |parts| == 1 {
    } else {
      var tail := Join(parts[1..], sep);
      assert s == parts[0] + [sep] + tail;
      SplitFirst(parts[0], tail, sep);
      SplitJoin(parts[1..], sep);
    }
  }

  /** Splitting `a + sep + b` with `a` separator-free yields `a` followed by the pieces of `b`. */
  lemma {:induction false} SplitFirst(a: string, b: string, sep: char)
    requires Lacks(a, sep)
    ensures Split(a + [sep] + b, sep) == [a] + Split(b, sep)
  {
    var s := a + [sep] + b;
    assert s[|a|] == sep;
    var i := IndexOf(s, sep);
    assert i == |a|;
    assert s[..i] == a && s[i + 1..] == b;
  }

  /** The first piece of `Split` is everything before the first separator. */
  lemma {:induction false} SplitHead(a: string, rest: string, sep: char)
    requires Lacks(a, sep)
    requires rest == [] || rest[0] == sep
    ensures Split(a + rest, sep)[0] == a
  {
    if rest == [] {
      assert a + rest == a;
    } else {
      assert a + rest == a + [sep] + rest[1..];
      SplitFirst(a, rest[1..], sep);
    }
  }

  /** Appending a separator and a separator-free piece appends exactly one element to the split. */
  lemma {:induction false} SplitSnoc(a: string, b: string, sep: char)
    requires Lacks(b, sep)
    ensures Split(a + [sep] + b, sep) == Split(a, sep) + [b]
  {
    var ps := Split(a, sep);
    JoinSnoc(ps, b, sep);
    assert forall k :: 0 <= k < |ps + [b]| ==> Lacks((ps + [b])[k], sep);
    SplitJoin(ps + [b], sep);
  }

  lemma {:induction false} JoinSnoc(ps: seq<string>, b: string, sep: char)
    requires |ps| >= 1
    ensures Join(ps + [b], sep) == Join(ps, sep) + [sep] + b
    decreases |ps|
  {
    if |ps| == 1 {
      assert (ps + [b])[1..] == [b];
    } else {
      assert (ps + [b])[1..] == ps[1..] + [b];
      JoinSnoc(ps[1..], b, sep);
    }
  }
}
