/** Models of the few JavaScript built-ins both converters lean on:
    `Array.prototype.slice`, `indexOf` and `splice` on arrays, and
    `indexOf`, `replace` and `split` on strings, plus the optional value
    a missing object property stands for. */
module Js {

  /** A property that may be missing (`undefined` in the source). */
  datatype Option<+T> = None | Some(value: T) {

    /** The value, or `default` when it is missing. */
    function GetOr(default: T): T {
      match this
      case Some(v) => v
      case None => default
    }
  }

  /** `xs.slice(k)` for a non-negative `k`: the suffix from `k`, empty past the end. */
  function Slice<T>(xs: seq<T>, k: nat): seq<T> {
    if k <= |xs| then xs[k..] else []
  }

  /** `xs.indexOf(x)`: the first position holding `x`, or -1. */
  function IndexOf<T(==)>(xs: seq<T>, x: T): (k: int)
    ensures -1 <= k < |xs|
    ensures 0 <= k ==> xs[k] == x && x !in xs[..k]
    ensures k == -1 <==> x !in xs
  {
    if |xs| == 0 then -1
    else if xs[0] == x then 0
    else
      var k := IndexOf(xs[1..], x);
      assert xs == [xs[0]] + xs[1..];
      if k == -1 then -1
      else
        assert xs[..k + 1] == [xs[0]] + xs[1..][..k];
        k + 1
  }

  /** `xs.splice(k, 1)` for `k >= -1`: drops the element at `k`; a start of -1
      counts from the end, so it drops the last element (if any). */
  function SpliceOne<T>(xs: seq<T>, k: int): (r: seq<T>)
    requires -1 <= k < |xs|
    ensures forall x :: x in r ==> x in xs
    ensures 0 <= k ==> |r| == |xs| - 1
  {
    if 0 <= k then
      var r := xs[..k] + xs[k + 1..];
      assert forall x :: x in r ==> x in xs by {
        forall x | x in r
          ensures x in xs
        {
          var i :| 0 <= i < |r| && r[i] == x;
          if i < k { assert xs[i] == x; } else { assert xs[i + 1] == x; }
        }
      }
      r
    else if |xs| > 0 then xs[..|xs| - 1]
    else xs
  }

  /** True when `pat` occurs in `s` starting at position `i`. */
  predicate OccursAt(s: string, pat: string, i: nat) {
    i + |pat| <= |s| && s[i..i + |pat|] == pat
  }

  /** `s.indexOf(pat)` searching from position `from`: the first occurrence at
      or after `from`, or -1. */
  function IndexOfFrom(s: string, pat: string, from: nat): (k: int)
    requires from <= |s|
    ensures k == -1 || (from <= k && OccursAt(s, pat, k))
    ensures forall i :: from <= i && (k == -1 || i < k) ==> !OccursAt(s, pat, i)
    decreases |s| - from
  {
    if OccursAt(s, pat, from) then from
    else if from == |s| then -1
    else IndexOfFrom(s, pat, from + 1)
  }

  /** `s.indexOf(pat)`. */
  function IndexOfText(s: string, pat: string): int
  {
    IndexOfFrom(s, pat, 0)
  }

  /** `s.indexOf(pat) !== -1`. */
  predicate Contains(s: string, pat: string) {
    IndexOfText(s, pat) != -1
  }

  /** `s.replace(pat, rep)` with a string pattern: only the first occurrence
      is replaced. */
  function ReplaceFirst(s: string, pat: string, rep: string): string
  {
    var k := IndexOfText(s, pat);
    if k == -1 then s else s[..k] + rep + s[k + |pat|..]
  }

  /** Joins `parts` with the separator `sep` between neighbours. */
  function Join(parts: seq<string>, sep: char): string
  {
    if |parts| == 0 then ""
    else if |parts| == 1 then parts[0]
    else parts[0] + [sep] + Join(parts[1..], sep)
  }

  /** `s.split(sep)` for a one-character separator: the pieces between
      separators, so there is always at least one piece. */
  function Split(s: string, sep: char): (parts: seq<string>)
    ensures |parts| >= 1
    ensures forall i :: 0 <= i < |parts| ==> sep !in parts[i]
    ensures Join(parts, sep) == s
    ensures |parts| == 1 + multiset(s)[sep]
  {
    if sep !in s then [s]
    else
      var k := IndexOf(s, sep);
      var rest := Split(s[k + 1..], sep);
      SplitAtFirst(s, sep, k);
      [s[..k]] + rest
  }

  /** Cutting `s` at the first separator: the piece before it holds none,
      and the separators of `s` are that one and those after it. */
  lemma SplitAtFirst(s: string, sep: char, k: int)
    requires 0 <= k < |s| && s[k] == sep && sep !in s[..k]
    ensures s == s[..k] + [sep] + s[k + 1..]
    ensures multiset(s)[sep] == 1 + multiset(s[k + 1..])[sep]
  {
    assert s == s[..k] + [sep] + s[k + 1..];
    assert multiset(s) == multiset(s[..k]) + multiset([sep]) + multiset(s[k + 1..]);
    assert multiset(s[..k])[sep] == 0;
  }
}
