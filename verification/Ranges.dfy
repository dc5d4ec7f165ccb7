/** Job array specifications as a source of work items. */
module Ranges {
  import opened Outcomes
  import opened Text
  import opened Strings

  datatype RangeError = ValueError | StopIteration

  // ---------------------------------------------------------- validation

  /** How much of a text `\d+(?:\-\d+)?` matches; nothing if it does not match. */
  function MatchLength(s: string): (n: nat)
    ensures n <= |s|
  {
    var k := DigitRun(s);
    if 0 < k < |s| && s[k] == '-' && DigitRun(s[k + 1..]) > 0 then k + 1 + DigitRun(s[k + 1..])
    else k
  }

  /** `^\d+(?:\-\d+)?(?:,\d+(?:\-\d+)?)*$`, without the newline that `$` tolerates. */
  predicate MatchList(s: string)
    decreases |s|
  {
    var n := MatchLength(s);
    n > 0 && (n == |s| || (s[n] == ',' && MatchList(s[n + 1..])))
  }

  function DropFinalNewline(s: string): string {
    if s != "" && s[|s| - 1] == '\n' then s[..|s| - 1] else s
  }

  predicate IsValid(rangeStr: string) {
    MatchList(rangeStr) || MatchList(DropFinalNewline(rangeStr))
  }

  // ---------------------------------------------------------- expansion

  /** The inclusive bounds of a piece: `^(\d+)-(\d+)$`, or else `int(piece)` twice. */
  function Bounds(piece: string): Outcome<(nat, nat), RangeError> {
    var s := DropFinalNewline(piece);
    var k := DigitRun(s);
    if k > 0 && k < |s| && s[k] == '-' && 0 < DigitRun(s[k + 1..]) == |s| - k - 1 then
      Ok((Value(s[..k]), Value(s[k + 1..])))
    else if 0 < k == |s| then Ok((Value(s), Value(s)))
    else Err(ValueError)
  }

  function AllBounds(pieces: seq<string>): Outcome<seq<(nat, nat)>, RangeError> {
    if pieces == [] then Ok([])
    else
      var init :- AllBounds(pieces[..|pieces| - 1]);
      var last :- Bounds(pieces[|pieces| - 1]);
      Ok(init + [last])
  }

  /** From the first number to the last, or nothing. */
  function Interval(lo: nat, hi: nat): (r: seq<nat>)
    ensures |r| == if lo > hi then 0 else hi - lo + 1
    decreases hi - lo
  {
    if lo > hi then [] else [lo] + Interval(lo + 1, hi)
  }

  lemma {:induction false} IntervalAt(lo: nat, hi: nat, i: nat)
    requires lo + i <= hi
    ensures Interval(lo, hi)[i] == lo + i
    decreases i
  {
    if i == 0 {
    } else {
      IntervalAt(lo + 1, hi, i - 1);
    }
  }

  function Values(bounds: seq<(nat, nat)>): seq<nat> {
    if bounds == [] then []
    else Interval(bounds[0].0, bounds[0].1) + Values(bounds[1..])
  }

  function Total(bounds: seq<(nat, nat)>): nat {
    if bounds == [] then 0
    else (if bounds[0].0 > bounds[0].1 then 0 else bounds[0].1 - bounds[0].0 + 1) + Total(bounds[1..])
  }

  /** The values of the intervals follow each other. */
  lemma {:induction false} ValuesConcat(a: seq<(nat, nat)>, b: seq<(nat, nat)>)
    ensures Values(a + b) == Values(a) + Values(b)
    ensures Values([]) == []
  {
    if a == [] {
      assert a + b == b;
    } else {
      assert (a + b)[1..] == a[1..] + b;
      ValuesConcat(a[1..], b);
      Reassociate(Interval(a[0].0, a[0].1), Values(a[1..]), Values(b));
    }
  }

  lemma ValuesOne(lo: nat, hi: nat)
    ensures |Values([(lo, hi)])| == if lo > hi then 0 else hi - lo + 1
    ensures forall i :: 0 <= i < |Values([(lo, hi)])| ==> Values([(lo, hi)])[i] == lo + i
  {
    assert [(lo, hi)][1..] == [] && Values([(lo, hi)]) == Interval(lo, hi) + [] == Interval(lo, hi);
    forall i | 0 <= i < |Interval(lo, hi)| ensures Interval(lo, hi)[i] == lo + i {
      IntervalAt(lo, hi, i);
    }
  }

  lemma ValuesCons(lo: nat, hi: nat, rest: seq<(nat, nat)>)
    ensures Values([(lo, hi)] + rest) == Interval(lo, hi) + Values(rest)
  {
    assert ([(lo, hi)] + rest)[1..] == rest;
  }

  lemma ValuesStep(bounds: seq<(nat, nat)>)
    requires bounds != [] && bounds[0].0 <= bounds[0].1
    ensures Values(bounds) == [bounds[0].0] + Values([(bounds[0].0 + 1, bounds[0].1)] + bounds[1..])
  {
    var (lo, hi) := bounds[0];
    ValuesCons(lo + 1, hi, bounds[1..]);
    Reassociate([lo], Interval(lo + 1, hi), Values(bounds[1..]));
  }

  class RangeDataSource {
    const fieldname: string
    /** The intervals that are not exhausted, and where the first one continues. */
    var intervals: seq<(nat, nat)>

    constructor (fieldname: string, bounds: seq<(nat, nat)>)
      ensures this.fieldname == fieldname && Remaining() == Values(bounds)
    {
      this.fieldname := fieldname;
      intervals := bounds;
    }

    /** The numbers the iterator has not returned yet. */
    ghost function Remaining(): seq<nat>
      reads this
    {
      Values(intervals)
    }

    method Next() returns (r: Outcome<(string, string), RangeError>)
      modifies this`intervals
      ensures old(Remaining()) == [] ==> r == Err(StopIteration) && Remaining() == []
      ensures old(Remaining()) != [] ==>
        r == Ok((fieldname, Decimal(old(Remaining())[0]))) && Remaining() == old(Remaining())[1..]
    {
      while intervals != [] && intervals[0].0 > intervals[0].1
        invariant Values(intervals) == old(Values(intervals))
        decreases |intervals|
      {
        intervals := intervals[1..];
      }
      if intervals == [] {
        return Err(StopIteration);
      }
      var (lo, hi) := intervals[0];
      ValuesStep(intervals);
      intervals := [(lo + 1, hi)] + intervals[1..];
      return Ok((fieldname, Decimal(lo)));
    }
  }

  lemma AllBoundsNext(pieces: seq<string>, i: nat)
    requires i < |pieces| && AllBounds(pieces[..i]).Ok?
    ensures match Bounds(pieces[i])
      case Ok(b) => AllBounds(pieces[..i + 1]) == Ok(AllBounds(pieces[..i]).value + [b])
      case Err(e) => AllBounds(pieces[..i + 1]) == Err(e)
  {
    assert pieces[..i + 1][..i] == pieces[..i];
  }

  lemma {:induction false} BoundsFail(pieces: seq<string>, n: nat)
    requires n <= |pieces| && AllBounds(pieces[..n]).Err?
    ensures AllBounds(pieces) == AllBounds(pieces[..n])
  {
    if n < |pieces| {
      assert pieces[..|pieces| - 1][..n] == pieces[..n];
      BoundsFail(pieces[..|pieces| - 1], n);
    } else {
      assert pieces[..n] == pieces;
    }
  }

  /** The constructor of the data source: the intervals of an accepted specification. */
  method ParseRanges(rangeStr: string) returns (r: Outcome<seq<(nat, nat)>, RangeError>)
    ensures r == if IsValid(rangeStr) then AllBounds(SplitOn(rangeStr, ',')) else Err(ValueError)
  {
    if !IsValid(rangeStr) {
      return Err(ValueError);
    }
    var ranges := SplitOn(rangeStr, ',');
    var allRanges := [];
    for i := 0 to |ranges|
      invariant AllBounds(ranges[..i]) == Ok(allRanges)
    {
      AllBoundsNext(ranges, i);
      var bounds := Bounds(ranges[i]);
      if bounds.Err? {
        BoundsFail(ranges, i + 1);
        return Err(bounds.error);
      }
      allRanges := allRanges + [bounds.value];
    }
    assert ranges[..|ranges|] == ranges;
    return Ok(allRanges);
  }

  /** Iterating yields as many numbers as the intervals have, reversed ones counting nothing. */
  lemma {:induction false} ValuesCount(bounds: seq<(nat, nat)>)
    ensures |Values(bounds)| == Total(bounds)
  {
    if bounds == [] {
    } else {
      ValuesCount(bounds[1..]);
    }
  }

  // -------------------------------------------- accepted specifications

  type Digits = s: string | s != "" && AllDigits(s) witness "0"

  /** A number, or two with a dash between them. */
  datatype Piece = Single(number: Digits) | Span(low: Digits, high: Digits)

  function PrintPiece(p: Piece): string {
    match p
    case Single(number) => number
    case Span(low, high) => low + ("-" + high)
  }

  function PieceBounds(p: Piece): (nat, nat) {
    match p
    case Single(number) => (Value(number), Value(number))
    case Span(low, high) => (Value(low), Value(high))
  }

  /** The pieces with commas between them. */
  function PrintList(pieces: seq<Piece>): string
    requires pieces != []
  {
    if |pieces| == 1 then PrintPiece(pieces[0])
    else PrintPiece(pieces[0]) + [','] + PrintList(pieces[1..])
  }

  function BoundsOf(pieces: seq<Piece>): seq<(nat, nat)> {
    seq(|pieces|, i requires 0 <= i < |pieces| => PieceBounds(pieces[i]))
  }

  /** A newline may stand behind a specification. */
  predicate IsEnding(ending: string) {
    ending == "" || ending == "\n"
  }

  predicate IsSpecification(rangeStr: string, pieces: seq<Piece>) {
    pieces != [] && (rangeStr == PrintList(pieces) || rangeStr == PrintList(pieces) + "\n")
  }

  lemma DigitsOnly(s: string)
    requires AllDigits(s)
    ensures DigitRun(s) == |s|
  {
    DigitRunOf(s, "");
    assert s + "" == s;
  }

  lemma PrintedSpan(low: Digits, high: Digits, rest: string)
    requires rest == "" || rest[0] == ','
    ensures MatchLength(low + ("-" + high) + rest) == |low + ("-" + high)|
  {
    var tail := "-" + (high + rest);
    assert low + ("-" + high) + rest == low + tail;
    DigitRunOf(low, tail);
    DigitRunOf(high, rest);
    assert (low + tail)[|low| + 1..] == high + rest;
  }

  lemma PrintedPiece(p: Piece, rest: string)
    requires rest == "" || rest[0] == ','
    ensures MatchLength(PrintPiece(p) + rest) == |PrintPiece(p)|
  {
    match p
    case Single(number) => DigitRunOf(number, rest);
    case Span(low, high) => PrintedSpan(low, high, rest);
  }

  lemma PieceEnd(p: Piece, ending: string)
    requires IsEnding(ending)
    ensures PrintPiece(p) != "" && DropFinalNewline(PrintPiece(p) + ending) == PrintPiece(p)
    ensures ',' !in PrintPiece(p) + ending
  {
    var piece := PrintPiece(p);
    var last := match p case Single(number) => number case Span(_, high) => high;
    assert piece[|piece| - 1] == last[|last| - 1] && IsDigit(last[|last| - 1]);
    assert (piece + "\n")[..|piece|] == piece;
    assert piece + "" == piece;
  }

  lemma PrintedBounds(p: Piece, ending: string)
    requires IsEnding(ending)
    ensures Bounds(PrintPiece(p) + ending) == Ok(PieceBounds(p))
  {
    PieceEnd(p, ending);
    match p
    case Single(number) =>
      DigitsOnly(number);
      assert number[..|number|] == number;
    case Span(low, high) =>
      var piece := low + ("-" + high);
      DigitRunOf(low, "-" + high);
      DigitsOnly(high);
      assert piece[..|low|] == low && piece[|low|] == '-' && piece[|low| + 1..] == high;
  }

  predicate IsPieceOf(piece: string, b: (nat, nat)) {
    Bounds(piece) == Ok(b)
  }

  predicate BoundsAre(pieces: seq<string>, bounds: seq<(nat, nat)>) {
    |pieces| == |bounds| && forall i :: 0 <= i < |pieces| ==> IsPieceOf(pieces[i], bounds[i])
  }

  lemma BoundsStep(piece: string, pieces: seq<string>, bounds: seq<(nat, nat)>)
    requires bounds != [] && Bounds(piece) == Ok(bounds[0]) && BoundsAre(pieces, bounds[1..])
    ensures BoundsAre([piece] + pieces, bounds)
  {
    forall i | 0 <= i < |bounds| ensures IsPieceOf(([piece] + pieces)[i], bounds[i]) {
      assert i > 0 ==> bounds[i] == bounds[1..][i - 1];
    }
  }

  lemma {:induction false} PrintedMatches(pieces: seq<Piece>)
    requires pieces != []
    ensures MatchList(PrintList(pieces))
  {
    var first := PrintPiece(pieces[0]);
    if |pieces| == 1 {
      PrintedPiece(pieces[0], "");
      assert first + "" == first;
    } else {
      var more := PrintList(pieces[1..]);
      PrintedMatches(pieces[1..]);
      PrintedPiece(pieces[0], [','] + more);
      Reassociate(first, [','], more);
      assert (first + ([','] + more))[|first| + 1..] == more;
    }
  }

  lemma FirstBounds(p: Piece, more: string, ending: string, bounds: seq<(nat, nat)>)
    requires IsEnding(ending) && bounds != [] && bounds[0] == PieceBounds(p)
    requires BoundsAre(SplitOn(more + ending, ','), bounds[1..])
    ensures BoundsAre(SplitOn(PrintPiece(p) + [','] + more + ending, ','), bounds)
  {
    var first := PrintPiece(p);
    PieceEnd(p, "");
    PrintedBounds(p, "");
    assert first + "" == first;
    Reassociate(first + [','], more, ending);
    SplitFirst(first, more + ending, ',');
    BoundsStep(first, SplitOn(more + ending, ','), bounds);
  }

  lemma OnlyBounds(p: Piece, ending: string)
    requires IsEnding(ending)
    ensures BoundsAre(SplitOn(PrintPiece(p) + ending, ','), [PieceBounds(p)])
  {
    PieceEnd(p, ending);
    PrintedBounds(p, ending);
    SplitNone(PrintPiece(p) + ending, ',');
  }

  lemma {:induction false} PrintedList(pieces: seq<Piece>, ending: string)
    requires pieces != [] && IsEnding(ending)
    ensures BoundsAre(SplitOn(PrintList(pieces) + ending, ','), BoundsOf(pieces))
  {
    if |pieces| == 1 {
      OnlyBounds(pieces[0], ending);
      assert BoundsOf(pieces) == [PieceBounds(pieces[0])];
    } else {
      PrintedList(pieces[1..], ending);
      assert BoundsOf(pieces)[1..] == BoundsOf(pieces[1..]);
      FirstBounds(pieces[0], PrintList(pieces[1..]), ending, BoundsOf(pieces));
    }
  }

  lemma BoundsInit(pieces: seq<string>, bounds: seq<(nat, nat)>)
    requires pieces != [] && BoundsAre(pieces, bounds)
    ensures BoundsAre(pieces[..|pieces| - 1], bounds[..|pieces| - 1])
    ensures IsPieceOf(pieces[|pieces| - 1], bounds[|pieces| - 1])
  {
  }

  lemma {:induction false} AllBoundsAre(pieces: seq<string>, bounds: seq<(nat, nat)>)
    requires BoundsAre(pieces, bounds)
    ensures AllBounds(pieces) == Ok(bounds)
  {
    if pieces == [] {
    } else {
      var last := |pieces| - 1;
      BoundsInit(pieces, bounds);
      AllBoundsAre(pieces[..last], bounds[..last]);
      assert bounds == bounds[..last] + [bounds[last]];
    }
  }

  lemma MatchedPiece(s: string) returns (p: Piece)
    requires MatchLength(s) > 0
    ensures s[..MatchLength(s)] == PrintPiece(p)
  {
    var k, n := DigitRun(s), MatchLength(s);
    if n == k {
      p := Single(s[..k]);
    } else {
      var high := s[k + 1..][..DigitRun(s[k + 1..])];
      p := Span(s[..k], high);
      assert s[..n] == s[..k] + ("-" + high);
    }
  }

  lemma PrintCons(p: Piece, more: seq<Piece>)
    requires more != []
    ensures PrintList([p] + more) == PrintPiece(p) + [','] + PrintList(more)
  {
    assert ([p] + more)[1..] == more;
  }

  lemma CutAt(s: string, n: nat)
    requires n < |s|
    ensures s == s[..n] + [s[n]] + s[n + 1..]
  {
  }

  lemma {:induction false} MatchedList(s: string) returns (pieces: seq<Piece>)
    requires MatchList(s)
    ensures pieces != [] && PrintList(pieces) == s
    decreases |s|
  {
    var n := MatchLength(s);
    var p := MatchedPiece(s);
    if n == |s| {
      pieces := [p];
      assert s[..n] == s;
    } else {
      var more := MatchedList(s[n + 1..]);
      PrintCons(p, more);
      pieces := [p] + more;
      CutAt(s, n);
    }
  }

  lemma NewlineDropped(rangeStr: string)
    requires IsValid(rangeStr) && !MatchList(rangeStr)
    ensures rangeStr == DropFinalNewline(rangeStr) + "\n" && MatchList(DropFinalNewline(rangeStr))
  {
  }

  lemma AcceptedIsList(rangeStr: string) returns (pieces: seq<Piece>)
    requires IsValid(rangeStr)
    ensures IsSpecification(rangeStr, pieces)
  {
    if MatchList(rangeStr) {
      pieces := MatchedList(rangeStr);
    } else {
      NewlineDropped(rangeStr);
      pieces := MatchedList(DropFinalNewline(rangeStr));
    }
  }

  lemma ListIsAccepted(rangeStr: string, pieces: seq<Piece>)
    requires IsSpecification(rangeStr, pieces)
    ensures IsValid(rangeStr)
  {
    PrintedMatches(pieces);
    if rangeStr != PrintList(pieces) {
      assert DropFinalNewline(rangeStr) == PrintList(pieces);
    }
  }

  /** The validation accepts exactly the lists of pieces, also with a newline behind them. */
  lemma AcceptedExactly(rangeStr: string)
    ensures IsValid(rangeStr) <==> exists pieces: seq<Piece> :: IsSpecification(rangeStr, pieces)
  {
    if IsValid(rangeStr) {
      var pieces := AcceptedIsList(rangeStr);
    }
    if pieces: seq<Piece> :| IsSpecification(rangeStr, pieces) {
      ListIsAccepted(rangeStr, pieces);
    }
  }

  /** An accepted specification is converted without an error, to the bounds it shows. */
  lemma SpecificationBounds(rangeStr: string, pieces: seq<Piece>)
    requires IsSpecification(rangeStr, pieces)
    ensures AllBounds(SplitOn(rangeStr, ',')) == Ok(BoundsOf(pieces))
  {
    var ending := if rangeStr == PrintList(pieces) then "" else "\n";
    assert PrintList(pieces) + "" == PrintList(pieces);
    PrintedList(pieces, ending);
    AllBoundsAre(SplitOn(rangeStr, ','), BoundsOf(pieces));
  }

  /** Behind the validation the constructor does not fail. */
  lemma AcceptedConverts(rangeStr: string)
    requires IsValid(rangeStr)
    ensures AllBounds(SplitOn(rangeStr, ',')).Ok?
  {
    var pieces := AcceptedIsList(rangeStr);
    SpecificationBounds(rangeStr, pieces);
  }
}
