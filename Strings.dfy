/** The string operations the URL parser relies on: JavaScript's
    `String.prototype.includes`, `split` with a non-empty separator, and
    `toUpperCase` restricted to ASCII letters. */
module Strings {
  import opened Wrappers

  /** `sub` occurs in `s` starting at position `j`. */
  predicate OccursAt(s: string, sub: string, j: nat) {
    j + |sub| <= |s| && s[j..j + |sub|] == sub
  }

  lemma OccursShift(s: string, sub: string, j: nat)
    requires |s| > 0
    ensures OccursAt(s, sub, j + 1) <==> OccursAt(s[1..], sub, j)
  {
    if j + 1 + |sub| <= |s| {
      assert s[j + 1..j + 1 + |sub|] == s[1..][j..j + |sub|];
    }
  }

  /** The first position at which `sub` occurs in `s` (`s.indexOf(sub)`). */
  function IndexOf(s: string, sub: string): (r: Option<nat>)
    ensures r.Some? ==> OccursAt(s, sub, r.value)
    ensures r.Some? ==> forall j: nat :: j < r.value ==> !OccursAt(s, sub, j)
    ensures r.None? ==> forall j: nat :: !OccursAt(s, sub, j)
    decreases |s|
  {
    if |sub| > |s| then None
    else if s[..|sub|] == sub then Some(0)
    else
      match IndexOf(s[1..], sub)
      case None =>
        forall j: nat ensures !OccursAt(s, sub, j) {
          if j == 0 {
            assert s[0..|sub|] == s[..|sub|];
          } else {
            OccursShift(s, sub, j - 1);
          }
        }
        None
      case Some(i) =>
        forall j: nat | j < i + 1 ensures !OccursAt(s, sub, j) {
          if j == 0 {
            assert s[0..|sub|] == s[..|sub|];
          } else {
            OccursShift(s, sub, j - 1);
          }
        }
        OccursShift(s, sub, i);
        Some(i + 1)
  }

  /** An occurrence inside a prefix of `s` is an occurrence in `s`. */
  lemma OccursInPrefix(s: string, sub: string, n: nat)
    requires n <= |s|
    ensures forall j: nat :: OccursAt(s[..n], sub, j) ==> OccursAt(s, sub, j) && j + |sub| <= n
  {
    forall j: nat | OccursAt(s[..n], sub, j)
      ensures OccursAt(s, sub, j) && j + |sub| <= n
    {
      assert s[..n][j..j + |sub|] == s[j..j + |sub|];
    }
  }

  /** `s.includes(sub)`. */
  predicate Contains(s: string, sub: string) {
    IndexOf(s, sub).Some?
  }

  /** `includes` holds exactly when `sub` occurs somewhere in `s`. */
  lemma ContainsIff(s: string, sub: string)
    ensures Contains(s, sub) <==> exists j: nat :: OccursAt(s, sub, j)
  {
    if Contains(s, sub) {
      assert OccursAt(s, sub, IndexOf(s, sub).value);
    }
  }

  /** An occurrence in a suffix `s[k..]` is an occurrence in `s`, shifted by `k`. */
  lemma OccursInSuffix(s: string, sub: string, k: nat, m: nat)
    requires k <= |s| && OccursAt(s[k..], sub, m)
    ensures OccursAt(s, sub, k + m)
  {
    assert s[k..][m..m + |sub|] == s[k + m..k + m + |sub|];
  }

  /** A prefix of a string free of `sub` is free of `sub`. */
  lemma CleanPrefix(s: string, sub: string, n: nat)
    requires n <= |s| && !Contains(s, sub)
    ensures !Contains(s[..n], sub)
  {
    OccursInPrefix(s, sub, n);
  }

  /** `s.split(sep)` for a non-empty separator: the pieces between the
      non-overlapping occurrences of `sep`, scanning from the left. */
  function SplitOn(s: string, sep: string): (parts: seq<string>)
    requires |sep| > 0
    ensures |parts| >= 1
    decreases |s|
  {
    match IndexOf(s, sep)
    case None => [s]
    case Some(i) => [s[..i]] + SplitOn(s[i + |sep|..], sep)
  }

  /** `parts.join(sep)`. */
  function Join(parts: seq<string>, sep: string): string
    requires |parts| >= 1
  {
    if |parts| == 1 then parts[0] else parts[0] + sep + Join(parts[1..], sep)
  }

  /** Splitting loses nothing: joining the pieces with the separator gives
      back the original string. */
  lemma {:induction false} JoinSplit(s: string, sep: string)
    requires |sep| > 0
    ensures Join(SplitOn(s, sep), sep) == s
    decreases |s|
  {
    var r := IndexOf(s, sep);
    if r.Some? {
      var i := r.value;
      var rest := s[i + |sep|..];
      var tail := SplitOn(rest, sep);
      JoinSplit(rest, sep);
      var parts := SplitOn(s, sep);
      assert parts == [s[..i]] + tail;
      assert Join(parts, sep) == s[..i] + sep + Join(tail, sep) by {
        assert parts[0] == s[..i] && parts[1..] == tail;
      }
      assert OccursAt(s, sep, i);
      assert s == s[..i] + s[i..i + |sep|] + rest;
    }
  }

  /** No piece of a split contains the separator. */
  lemma {:induction false} SplitPiecesClean(s: string, sep: string, k: nat)
    requires |sep| > 0
    requires k < |SplitOn(s, sep)|
    ensures !Contains(SplitOn(s, sep)[k], sep)
    decreases |s|
  {
    match IndexOf(s, sep)
    case None =>
    case Some(i) =>
      if k == 0 {
        OccursInPrefix(s, sep, i);
      } else {
        SplitPiecesClean(s[i + |sep|..], sep, k - 1);
      }
  }

  /** A one-character string occurs at `k` exactly when that character is there. */
  lemma OccursOneChar(s: string, c: char, k: nat)
    ensures OccursAt(s, [c], k) <==> k < |s| && s[k] == c
  {
    if k < |s| {
      assert s[k..k + 1][0] == s[k];
      if s[k] == c {
        assert s[k..k + 1] == [c];
      }
    }
  }

  /** The first piece of a split is a prefix free of the separator, and
      either it is the whole string or the separator follows it. */
  lemma FirstPieceBound(s: string, sep: string)
    requires |sep| > 0
    ensures var p := SplitOn(s, sep)[0];
      |p| <= |s| && s[..|p|] == p && !Contains(p, sep) &&
      (|p| == |s| || OccursAt(s, sep, |p|))
  {
    FirstPiece(s, sep);
    SplitPiecesClean(s, sep, 0);
  }

  /** The first piece of a split is the string up to the first separator, or
      the whole string when there is none; the remaining pieces are the split
      of what follows that separator. */
  lemma FirstPiece(s: string, sep: string)
    requires |sep| > 0
    ensures var p := SplitOn(s, sep)[0];
      |p| <= |s| && p == s[..|p|] &&
      (|SplitOn(s, sep)| >= 2 <==> Contains(s, sep)) &&
      (!Contains(s, sep) ==> p == s) &&
      (Contains(s, sep) ==>
        OccursAt(s, sep, |p|) && SplitOn(s, sep)[1..] == SplitOn(s[|p| + |sep|..], sep))
  {
    match IndexOf(s, sep)
    case None =>
    case Some(i) =>
      assert SplitOn(s, sep) == [s[..i]] + SplitOn(s[i + |sep|..], sep);
  }

  /** The second piece of a split is the first piece of the split of what
      follows the first separator. */
  lemma SecondPiece(s: string, sep: string)
    requires |sep| > 0 && Contains(s, sep)
    ensures |SplitOn(s, sep)| >= 2
    ensures SplitOn(s, sep)[1] == SplitOn(s[IndexOf(s, sep).value + |sep|..], sep)[0]
  {
    var i := IndexOf(s, sep).value;
    var tail := SplitOn(s[i + |sep|..], sep);
    assert SplitOn(s, sep) == [s[..i]] + tail;
    assert ([s[..i]] + tail)[1] == tail[0];
  }

  /** A join begins with its first piece. */
  lemma JoinStartsWithFirst(parts: seq<string>, sep: string)
    requires |parts| >= 1
    ensures |parts[0]| <= |Join(parts, sep)| && Join(parts, sep)[..|parts[0]|] == parts[0]
  {
    if |parts| > 1 {
      assert Join(parts, sep) == parts[0] + (sep + Join(parts[1..], sep));
    }
  }

  /** The first piece of a split begins the string. */
  lemma SplitFirstIsPrefix(s: string, sep: string)
    requires |sep| > 0
    ensures var p := SplitOn(s, sep)[0]; |p| <= |s| && s[..|p|] == p
  {
    JoinSplit(s, sep);
    JoinStartsWithFirst(SplitOn(s, sep), sep);
  }

  /** A prefix reaching into the second part of a concatenation. */
  lemma PrefixOfConcat(a: string, b: string, k: nat)
    requires k <= |b|
    ensures (a + b)[..|a| + k] == a + b[..k]
  {
  }

  /** A string that contains the separator splits into at least two pieces,
      and it begins with the first piece, the separator and the second piece. */
  lemma SplitFirstTwo(s: string, sep: string)
    requires |sep| > 0 && Contains(s, sep)
    ensures var parts := SplitOn(s, sep);
      |parts| >= 2 &&
      |parts[0]| + |sep| + |parts[1]| <= |s| &&
      s[..|parts[0]| + |sep| + |parts[1]|] == parts[0] + sep + parts[1]
  {
    var parts := SplitOn(s, sep);
    JoinSplit(s, sep);
    JoinStartsWithFirst(parts[1..], sep);
    var tail := Join(parts[1..], sep);
    assert s == parts[0] + sep + tail;
    var n := |parts[0]| + |sep| + |parts[1]|;
    assert s[..n] == parts[0] + sep + tail[..|parts[1]|];
  }

  /** The last piece of a split ends the string. */
  lemma {:induction false} SplitLastIsSuffix(s: string, sep: string)
    requires |sep| > 0
    ensures var parts := SplitOn(s, sep);
      |Last(parts)| <= |s| && s[|s| - |Last(parts)|..] == Last(parts)
    decreases |s|
  {
    match IndexOf(s, sep)
    case None =>
      assert SplitOn(s, sep) == [s];
    case Some(i) =>
      var k := i + |sep|;
      assert SplitOn(s, sep) == [s[..i]] + SplitOn(s[k..], sep);
      SplitLastIsSuffix(s[k..], sep);
      LastOfDrop(SplitOn(s, sep), SplitOn(s[k..], sep));
      SuffixOfDrop(s, k, |Last(SplitOn(s[k..], sep))|);
  }

  /** Dropping the first element keeps the last one. */
  lemma LastOfDrop<T>(xs: seq<T>, ys: seq<T>)
    requires |xs| >= 2 && xs[1..] == ys
    ensures Last(xs) == Last(ys)
  {
    assert Last(xs) == xs[1..][|xs| - 2];
  }

  /** A suffix of `s[k..]` is the suffix of `s` of the same length. */
  lemma SuffixOfDrop(s: string, k: nat, m: nat)
    requires k <= |s| && m <= |s| - k
    ensures s[k..][|s| - k - m..] == s[|s| - m..]
  {
  }

  /** The last element of a non-empty sequence (`xs[xs.length - 1]`). */
  function Last<T>(xs: seq<T>): T
    requires |xs| > 0
  {
    xs[|xs| - 1]
  }

  /** `toUpperCase` on one character, for ASCII letters. */
  function UpperChar(c: char): (u: char)
    ensures 'a' <= c <= 'z' ==> u as int == c as int - 32
    ensures !('a' <= c <= 'z') ==> u == c
  {
    if 'a' <= c <= 'z' then (c as int - 32) as char else c
  }

  /** `toUpperCase`, for ASCII letters. */
  function Upper(s: string): (u: string)
    ensures |u| == |s|
    ensures forall i :: 0 <= i < |s| ==> u[i] == UpperChar(s[i])
    ensures forall i :: 0 <= i < |u| ==> !('a' <= u[i] <= 'z')
  {
    seq(|s|, i requires 0 <= i < |s| => UpperChar(s[i]))
  }

  /** Upper-casing twice is upper-casing once. */
  lemma UpperIdempotent(s: string)
    ensures Upper(Upper(s)) == Upper(s)
  {
  }
}
