/** String helpers standing in for the parts of Go's `strings` and `fmt`
    packages that the modelled functions use. Strings are `seq<char>`. */
module Strings {

  /** Index of the first occurrence of `c` in `s`, or -1 (strings.IndexByte). */
  function IndexOf(s: string, c: char): (i: int)
    ensures -1 <= i < |s|
    ensures i >= 0 ==> s[i] == c
    ensures forall k :: 0 <= k < |s| && (i < 0 || k < i) ==> s[k] != c
  {
    if |s| == 0 then -1
    else if s[0] == c then 0
    else
      var j := IndexOf(s[1..], c);
      if j < 0 then -1 else j + 1
  }

  /** Index of the last occurrence of `c` in `s`, or -1 (strings.LastIndexByte). */
  function LastIndex(s: string, c: char): (i: int)
    ensures -1 <= i < |s|
    ensures i >= 0 ==> s[i] == c
    ensures forall k :: i < k < |s| ==> s[k] != c
  {
    if |s| == 0 then -1
    else if s[|s| - 1] == c then |s| - 1
    else LastIndex(s[..|s| - 1], c)
  }

  /** When `t` holds `c`, the last `c` of `s + t` is the last one of `t`. */
  lemma {:induction false} LastIndexAppend(s: string, t: string, c: char)
    requires c in t
    ensures LastIndex(s + t, c) == |s| + LastIndex(t, c)
    decreases |t|
  {
    var u := s + t;
    assert u[|u| - 1] == t[|t| - 1];
    if t[|t| - 1] != c {
      var t' := t[..|t| - 1];
      assert t == t' + [t[|t| - 1]];
      assert c in t';
      assert u[..|u| - 1] == s + t';
      LastIndexAppend(s, t', c);
    }
  }

  /** When `t` has no `c`, the last `c` of `s + t` is the last one of `s`. */
  lemma {:induction false} LastIndexAbsent(s: string, t: string, c: char)
    requires c !in t
    ensures LastIndex(s + t, c) == LastIndex(s, c)
    decreases |t|
  {
    var u := s + t;
    if |t| == 0 {
      assert u == s;
    } else {
      var t' := t[..|t| - 1];
      assert t == t' + [t[|t| - 1]];
      assert u[|u| - 1] == t[|t| - 1];
      assert u[..|u| - 1] == s + t';
      LastIndexAbsent(s, t', c);
    }
  }

  /** `c` does not occur in `s`. */
  predicate Free(s: string, c: char)
  {
    forall k :: 0 <= k < |s| ==> s[k] != c
  }

  /** Go's strings.Split with a one-character separator: never empty, and
      the separator occurs in no part. */
  function Split(s: string, sep: char): (parts: seq<string>)
    ensures |parts| >= 1
    ensures forall k :: 0 <= k < |parts| ==> Free(parts[k], sep)
    decreases |s|
  {
    var i := IndexOf(s, sep);
    if i < 0 then
      assert Free(s, sep);
      [s]
    else
      var head := s[..i];
      assert Free(head, sep) by {
        forall k | 0 <= k < |head| ensures head[k] != sep { assert head[k] == s[k]; }
      }
      var rest := Split(s[i + 1..], sep);
      assert forall k :: 1 <= k < |rest| + 1 ==> ([head] + rest)[k] == rest[k - 1];
      [head] + rest
  }

  /** Go's strings.Join. */
  function Join(parts: seq<string>, sep: string): string
  {
    if |parts| == 0 then ""
    else if |parts| == 1 then parts[0]
    else parts[0] + sep + Join(parts[1..], sep)
  }

  lemma JoinCons(a: string, tail: seq<string>, sep: string)
    requires |tail| >= 1
    ensures Join([a] + tail, sep) == a + sep + Join(tail, sep)
  {
    assert ([a] + tail)[1..] == tail;
  }

  /** A string is its prefix, the character at `i` and its suffix. */
  lemma CutAt(s: string, i: int)
    requires 0 <= i < |s|
    ensures s == s[..i] + [s[i]] + s[i + 1..]
  {
  }

  /** Joining the parts of a split with the same separator gives the input back. */
  lemma {:induction false} JoinSplit(s: string, sep: char)
    ensures Join(Split(s, sep), [sep]) == s
    decreases |s|
  {
    var i := IndexOf(s, sep);
    if i >= 0 {
      var rest := s[i + 1..];
      JoinSplit(rest, sep);
      var tail := Split(rest, sep);
      assert Split(s, sep) == [s[..i]] + tail;
      JoinCons(s[..i], tail, [sep]);
      assert Join(tail, [sep]) == rest;
      CutAt(s, i);
    }
  }

  /** Two separator-free parts joined by the separator split back into them. */
  lemma SplitTwo(a: string, b: string, sep: char)
    requires Free(a, sep) && Free(b, sep)
    ensures Split(a + [sep] + b, sep) == [a, b]
  {
    var s := a + [sep] + b;
    assert s[|a|] == sep;
    assert forall k :: 0 <= k < |a| ==> s[k] == a[k];
    assert IndexOf(s, sep) == |a|;
    assert s[..|a|] == a && s[|a| + 1..] == b;
    assert IndexOf(b, sep) < 0;
  }

  /** A split yields the single part "" exactly when the input is empty. */
  lemma SplitEmpty(s: string, sep: char)
    ensures Split(s, sep) == [""] <==> s == ""
  {
    if Split(s, sep) == [""] {
      JoinSplit(s, sep);
    }
  }

  /** Go's strings.ReplaceAll for one-character patterns. */
  function ReplaceAll(s: string, from: char, to: char): (r: string)
    ensures |r| == |s|
    ensures forall k :: 0 <= k < |s| ==> r[k] == if s[k] == from then to else s[k]
  {
    if |s| == 0 then "" else [if s[0] == from then to else s[0]] + ReplaceAll(s[1..], from, to)
  }

  /** `sub` occurs in `s` at position `i`. */
  predicate OccursAt(s: string, sub: string, i: int)
  {
    0 <= i <= |s| - |sub| && s[i..i + |sub|] == sub
  }

  /** `sub` occurs in `s` (strings.Contains / bytes.Contains). */
  predicate Contains(s: string, sub: string)
  {
    exists i | 0 <= i <= |s| - |sub| :: OccursAt(s, sub, i)
  }

  /** Go's strings.TrimPrefix. */
  function TrimPrefix(s: string, prefix: string): (r: string)
    ensures if |prefix| <= |s| && s[..|prefix|] == prefix then r == s[|prefix|..] else r == s
  {
    if |prefix| <= |s| && s[..|prefix|] == prefix then s[|prefix|..] else s
  }

  /** Lower-case mapping of an ASCII letter; every other character is kept. */
  function ToLower(c: char): char
  {
    if 'A' <= c <= 'Z' then (c as int - 'A' as int + 'a' as int) as char else c
  }

  /** Case-insensitive equality (strings.EqualFold), restricted to ASCII case
      folding. */
  predicate EqualFold(s: string, t: string)
  {
    |s| == |t| && forall k :: 0 <= k < |s| ==> ToLower(s[k]) == ToLower(t[k])
  }

  /** Decimal digits of a natural number, as fmt's %d / %v print it. */
  function NatToString(n: nat): (r: string)
    ensures |r| >= 1
    ensures forall k :: 0 <= k < |r| ==> '0' <= r[k] <= '9'
  {
    if n < 10 then [Digit(n)] else NatToString(n / 10) + [Digit(n % 10)]
  }

  function Digit(d: nat): (c: char)
    requires d < 10
    ensures '0' <= c <= '9'
  {
    ('0' as int + d) as char
  }

  /** Value of a string of decimal digits. */
  function DigitsValue(s: string): nat
    requires forall k :: 0 <= k < |s| ==> '0' <= s[k] <= '9'
  {
    if |s| == 0 then 0 else 10 * DigitsValue(s[..|s| - 1]) + (s[|s| - 1] as int - '0' as int)
  }

  /** The printed count reads back as the count. */
  lemma {:induction false} NatToStringValue(n: nat)
    ensures DigitsValue(NatToString(n)) == n
  {
    if n >= 10 {
      NatToStringValue(n / 10);
      var r := NatToString(n);
      assert r[..|r| - 1] == NatToString(n / 10);
    }
  }
}
