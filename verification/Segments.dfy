/** The workfile format: segments of lines between separator lines. */
module Segments {
  import opened Outcomes
  import opened Text

  /** Empty, or closed by a newline. */
  predicate Terminated(text: string) {
    text == "" || text[|text| - 1] == '\n'
  }

  /** Where the first line ends. */
  function LineLength(text: string): (n: nat)
    ensures n <= |text| && '\n' !in text[..n]
    ensures n < |text| ==> text[n] == '\n'
  {
    if text == "" || text[0] == '\n' then 0
    else
      var n := LineLength(text[1..]);
      assert text[..1 + n] == [text[0]] + text[1..][..n];
      1 + n
  }

  /** `std::getline`: the first line without its newline, and the text behind it. */
  function GetLine(text: string): (r: Option<(string, string)>)
    ensures r.None? <==> text == ""
    ensures r.Some? ==> |r.value.1| < |text| && '\n' !in r.value.0
    ensures r.Some? ==> text == r.value.0 || text == r.value.0 + "\n" + r.value.1
  {
    if text == "" then None
    else
      var n := LineLength(text);
      Some((text[..n], if n < |text| then text[n + 1..] else ""))
  }

  /** Puts text in front of the first segment. */
  function Extend(text: string, segments: seq<string>): (r: seq<string>)
    requires |segments| > 0
  {
    [text + segments[0]] + segments[1..]
  }

  /** Puts a line in front of the first segment; a separator line starts a new one. */
  function AddLine(line: string, segments: seq<string>, sep: string): (r: seq<string>)
    requires |segments| > 0
    ensures |r| > 0
  {
    if line == sep then [""] + segments
    else Extend(line + "\n", segments)
  }

  /** All the segments of a text: the lines between two separator lines, each closed by a
      newline. A text with k separator lines has k + 1 segments. */
  function Split(text: string, sep: string): (r: seq<string>)
    ensures |r| > 0
    decreases |text|
  {
    match GetLine(text)
    case None => [""]
    case Some((line, rest)) => AddLine(line, Split(rest, sep), sep)
  }

  /** Segments printed one after the other with a separator line between them. */
  function Join(segments: seq<string>, sep: string): string {
    if |segments| == 0 then ""
    else if |segments| == 1 then segments[0]
    else
      var last := |segments| - 1;
      Join(segments[..last], sep) + (sep + "\n" + segments[last])
  }

  /** Whether some line of the text equals the given one. */
  predicate HasLine(text: string, line: string)
    decreases |text|
  {
    match GetLine(text)
    case None => false
    case Some((first, rest)) => first == line || HasLine(rest, line)
  }

  /** Segments as they are printed: closed by a newline, without a separator line. */
  predicate Clean(segments: seq<string>, sep: string) {
    forall i :: 0 <= i < |segments| ==> Terminated(segments[i]) && !HasLine(segments[i], sep)
  }

  function NonEmptyPrefix(segments: seq<string>): (r: seq<string>)
    ensures |r| <= |segments| && r == segments[..|r|]
    ensures forall i :: 0 <= i < |r| ==> r[i] != ""
    ensures |r| < |segments| ==> segments[|r|] == ""
  {
    if segments == [] || segments[0] == "" then [] else [segments[0]] + NonEmptyPrefix(segments[1..])
  }

  /** The work items of a workfile: its segments up to the first empty one. */
  function WorkItems(text: string, sep: string): seq<string> {
    NonEmptyPrefix(Split(text, sep))
  }

  lemma {:induction false} LineLengthOf(line: string, rest: string)
    requires '\n' !in line
    ensures LineLength(line + "\n" + rest) == |line|
  {
    var text := line + "\n" + rest;
    if line == "" {
    } else {
      LineLengthOf(line[1..], rest);
      assert text[1..] == line[1..] + "\n" + rest;
    }
  }

  /** Reading, splitting and searching a text whose first line is known. */
  lemma FirstLineOf(line: string, rest: string)
    requires '\n' !in line
    ensures GetLine(line + "\n" + rest) == Some((line, rest))
  {
    var text := line + "\n" + rest;
    LineLengthOf(line, rest);
    assert text[..|line|] == line && text[|line| + 1..] == rest;
  }

  /** A terminated text starts with a complete line. */
  lemma FirstLine(text: string) returns (line: string, rest: string)
    requires text != "" && Terminated(text)
    ensures text == line + "\n" + rest && '\n' !in line && Terminated(rest)
    ensures GetLine(text) == Some((line, rest))
  {
    var n := LineLength(text);
    assert text[|text| - 1] == '\n';
    line, rest := text[..n], text[n + 1..];
    assert rest != "" ==> rest[|rest| - 1] == text[|text| - 1];
  }

  lemma SplitLine(line: string, rest: string, sep: string)
    requires '\n' !in line
    ensures Split(line + "\n" + rest, sep) == AddLine(line, Split(rest, sep), sep)
  {
    FirstLineOf(line, rest);
  }

  lemma AddLineConcat(line: string, x: seq<string>, y: seq<string>, sep: string)
    requires |x| > 0
    ensures AddLine(line, x + y, sep) == AddLine(line, x, sep) + y
  {
  }

  lemma {:induction false} SplitConcat(a: string, b: string, sep: string)
    requires Terminated(a) && '\n' !in sep
    ensures Split(a + (sep + "\n" + b), sep) == Split(a, sep) + Split(b, sep)
    decreases |a|
  {
    var tail := sep + "\n" + b;
    if a == "" {
      assert a + tail == tail;
      SplitLine(sep, b, sep);
    } else {
      var line, rest := FirstLine(a);
      SplitConcat(rest, b, sep);
      SplitLine(line, rest, sep);
      SplitLine(line, rest + tail, sep);
      Reassociate(line + "\n", rest, tail);
      AddLineConcat(line, Split(rest, sep), Split(b, sep), sep);
    }
  }

  lemma {:induction false} SplitOne(segment: string, sep: string)
    requires Terminated(segment) && !HasLine(segment, sep)
    ensures Split(segment, sep) == [segment]
    decreases |segment|
  {
    if segment == "" {
    } else {
      var line, rest := FirstLine(segment);
      SplitOne(rest, sep);
    }
  }

  lemma {:induction false} JoinTerminated(segments: seq<string>, sep: string)
    requires Clean(segments, sep)
    ensures Terminated(Join(segments, sep))
  {
    if |segments| > 1 {
      var last := |segments| - 1;
      var tail := sep + "\n" + segments[last];
      assert tail[|tail| - 1] == '\n';
      var text := Join(segments, sep);
      assert text[|text| - 1] == tail[|tail| - 1];
    }
  }

  /** What was joined is split into the same segments again. */
  lemma {:induction false} SplitJoin(segments: seq<string>, sep: string)
    requires |segments| > 0 && '\n' !in sep
    requires Clean(segments, sep)
    ensures Split(Join(segments, sep), sep) == segments
  {
    var last := |segments| - 1;
    var init, x := segments[..last], segments[last];
    assert segments == init + [x];
    assert Terminated(x) && !HasLine(x, sep);
    SplitOne(x, sep);
    if last == 0 {
    } else {
      assert Clean(init, sep);
      SplitJoin(init, sep);
      JoinTerminated(init, sep);
      SplitConcat(Join(init, sep), x, sep);
    }
  }

  /** The text with a newline behind its last line. */
  function Completed(text: string): string {
    if Terminated(text) then text else text + "\n"
  }

  lemma {:induction false} JoinPrepend(first: string, segments: seq<string>, sep: string)
    requires |segments| > 0
    ensures Join([first] + segments, sep) == first + (sep + "\n" + Join(segments, sep))
    ensures Join(Extend(first, segments), sep) == first + Join(segments, sep)
  {
    var last := |segments| - 1;
    if last > 0 {
      JoinPrepend(first, segments[..last], sep);
      assert ([first] + segments)[..last + 1] == [first] + segments[..last];
      assert Extend(first, segments)[..last] == Extend(first, segments[..last]);
    } else {
      assert ([first] + segments)[..1] == [first];
    }
  }

  lemma CompletedLine(text: string, line: string, rest: string)
    requires GetLine(text) == Some((line, rest))
    ensures Completed(text) == line + "\n" + Completed(rest)
  {
    if text == line + "\n" + rest {
      assert Terminated(rest) ==> Terminated(text);
      assert rest != "" ==> text[|text| - 1] == rest[|rest| - 1];
    } else {
      assert !Terminated(text) && rest == "";
    }
  }

  lemma PrependClean(line: string, segments: seq<string>, sep: string)
    requires |segments| > 0 && '\n' !in line && line != sep && Clean(segments, sep)
    ensures Clean(AddLine(line, segments, sep), sep)
  {
    var first := line + "\n" + segments[0];
    FirstLineOf(line, segments[0]);
    assert Terminated(segments[0]) && !HasLine(segments[0], sep);
    assert Terminated(first) by {
      assert segments[0] != "" ==> first[|first| - 1] == segments[0][|segments[0]| - 1];
    }
    assert !HasLine(first, sep);
    var r := AddLine(line, segments, sep);
    forall i | 0 <= i < |r|
      ensures Terminated(r[i]) && !HasLine(r[i], sep)
    {
      assert i > 0 ==> r[i] == segments[i];
    }
  }

  /** Splitting loses nothing: joined again, the segments are the text, closed by a newline;
      none of them holds a separator line. With SplitJoin this makes Split the only split. */
  lemma {:induction false} JoinSplit(text: string, sep: string)
    requires '\n' !in sep
    ensures Join(Split(text, sep), sep) == Completed(text)
    ensures Clean(Split(text, sep), sep)
    decreases |text|
  {
    match GetLine(text)
    case None =>
    case Some((line, rest)) =>
      JoinSplit(rest, sep);
      var segments := Split(rest, sep);
      CompletedLine(text, line, rest);
      if line == sep {
        JoinPrepend("", segments, sep);
      } else {
        JoinPrepend(line + "\n", segments, sep);
        PrependClean(line, segments, sep);
      }
  }

  lemma {:induction false} NonEmptyPrefixOfAll(items: seq<string>)
    requires forall i :: 0 <= i < |items| ==> items[i] != ""
    ensures NonEmptyPrefix(items) == items
  {
    if items == [] {
    } else {
      NonEmptyPrefixOfAll(items[1..]);
    }
  }

  /** When the work items of a joined list of non-empty texts are that list: exactly when no
      line of any of them is the separator. */
  lemma ItemsOfJoin(items: seq<string>, sep: string)
    requires '\n' !in sep
    requires forall i :: 0 <= i < |items| ==> items[i] != "" && Terminated(items[i])
    ensures WorkItems(Join(items, sep), sep) == items <==> Clean(items, sep)
  {
    if Clean(items, sep) {
      if items != [] {
        SplitJoin(items, sep);
        NonEmptyPrefixOfAll(items);
      }
    } else {
      JoinSplit(Join(items, sep), sep);
    }
  }

  lemma ExtendEmpty(segments: seq<string>)
    requires |segments| > 0
    ensures Extend("", segments) == segments
  {
    assert "" + segments[0] == segments[0];
  }

  lemma ExtendTwice(a: string, b: string, segments: seq<string>)
    requires |segments| > 0
    ensures Extend(a, Extend(b, segments)) == Extend(a + b, segments)
  {
    Reassociate(a, b, segments[0]);
  }
}
