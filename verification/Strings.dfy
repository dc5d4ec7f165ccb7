/** Cutting strings at a character. */
module Strings {

  /** `s.split(c)`: the pieces between the occurrences of a character. */
  function SplitOn(s: string, c: char): (r: seq<string>)
    ensures |r| > 0
  {
    if s == "" then [""]
    else
      var rest := SplitOn(s[1..], c);
      if s[0] == c then [""] + rest else [[s[0]] + rest[0]] + rest[1..]
  }

  lemma {:induction false} SplitNone(s: string, c: char)
    requires c !in s
    ensures SplitOn(s, c) == [s]
  {
    if s == "" {
    } else {
      SplitNone(s[1..], c);
      assert [s[0]] + s[1..] == s;
    }
  }

  lemma {:induction false} SplitFirst(piece: string, rest: string, c: char)
    requires c !in piece
    ensures SplitOn(piece + [c] + rest, c) == [piece] + SplitOn(rest, c)
  {
    var s := piece + [c] + rest;
    if piece == "" {
      assert s[1..] == rest;
    } else {
      assert s[1..] == piece[1..] + [c] + rest;
      SplitFirst(piece[1..], rest, c);
      assert [piece[0]] + piece[1..] == piece;
    }
  }

  lemma {:induction false} PiecesHaveNone(s: string, c: char)
    ensures forall i :: 0 <= i < |SplitOn(s, c)| ==> c !in SplitOn(s, c)[i]
  {
    if s == "" {
    } else {
      PiecesHaveNone(s[1..], c);
    }
  }

  /** The position of the first occurrence, or the length. */
  function Find(s: string, c: char): (n: nat)
    ensures n <= |s| && c !in s[..n]
    ensures n < |s| ==> s[n] == c
  {
    if s == "" || s[0] == c then 0
    else
      assert s[..1 + Find(s[1..], c)] == [s[0]] + s[1..][..Find(s[1..], c)];
      1 + Find(s[1..], c)
  }

  lemma {:induction false} FindFirst(before: string, after: string, c: char)
    requires c !in before
    ensures Find(before + [c] + after, c) == |before|
  {
    if before == "" {
    } else {
      assert (before + [c] + after)[1..] == before[1..] + [c] + after;
      FindFirst(before[1..], after, c);
    }
  }
}
