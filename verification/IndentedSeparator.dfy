/** Workfiles with a line that is the separator only after stripping: what the numbers of the
    filter stand for. */
module IndentedSeparators {
  import opened Outcomes
  import opened Text
  import opened Segments
  import opened Workfiles

  /** No line of the text is the separator after stripping. */
  predicate Plain(text: string, sep: string)
    decreases |text|
  {
    match GetLine(text)
    case None => true
    case Some((line, rest)) => Strip(line) != sep && Plain(rest, sep)
  }

  /** Complete lines without such a line. */
  predicate IsPart(text: string, sep: string) {
    Terminated(text) && Plain(text, sep)
  }

  predicate AllParts(texts: seq<string>, sep: string) {
    forall i :: 0 <= i < |texts| ==> IsPart(texts[i], sep)
  }

  /** A line that the filter takes for the separator. */
  predicate IsMark(m: string, sep: string) {
    '\n' !in m && Strip(m) == sep
  }

  lemma PartLine(line: string, rest: string, sep: string)
    requires '\n' !in line && Strip(line) != sep && IsPart(rest, sep)
    ensures IsPart(line + "\n" + rest, sep)
  {
    var text := line + "\n" + rest;
    FirstLineOf(line, rest);
    assert rest != "" ==> text[|text| - 1] == rest[|rest| - 1];
  }

  lemma {:induction false} PartCollected(p: string, rest: string, collected: string, sep: string)
    requires IsSeparator(sep) && IsPart(p, sep)
    ensures Yields(p + rest, collected, sep) == Yields(rest, collected + p, sep)
    decreases |p|
  {
    if p == "" {
      assert p + rest == rest && collected + p == collected;
    } else {
      var line, tail := FirstLine(p);
      YieldsLine(line, tail + rest, collected, sep);
      Reassociate(line + "\n", tail, rest);
      PartCollected(tail, rest, collected + (line + "\n"), sep);
      Reassociate(collected, line + "\n", tail);
    }
  }

  lemma PartYielded(p: string, m: string, rest: string, sep: string)
    requires IsSeparator(sep) && IsPart(p, sep) && IsMark(m, sep)
    ensures Yields(p + (m + "\n" + rest), "", sep) == [p] + Yields(rest, "", sep)
  {
    PartCollected(p, m + "\n" + rest, "", sep);
    assert "" + p == p;
    YieldsLine(m, rest, p, sep);
  }

  lemma LastPartLost(p: string, sep: string)
    requires IsSeparator(sep) && IsPart(p, sep)
    ensures Yields(p, "", sep) == []
  {
    PartCollected(p, "", "", sep);
    assert p + "" == p;
  }

  lemma JoinFirst(texts: seq<string>, sep: string)
    requires |texts| > 1
    ensures Join(texts, sep) == texts[0] + (sep + "\n" + Join(texts[1..], sep))
  {
    JoinPrepend(texts[0], texts[1..], sep);
    assert texts == [texts[0]] + texts[1..];
  }

  lemma InitFirst(x: string, rest: seq<string>)
    requires rest != []
    ensures ([x] + rest)[..|rest|] == [x] + rest[..|rest| - 1]
  {
  }

  /** Without such a line all the items but the last are yielded. */
  lemma {:induction false} PartsYielded(items: seq<string>, sep: string)
    requires IsSeparator(sep) && items != [] && AllParts(items, sep)
    ensures Yields(Join(items, sep), "", sep) == items[..|items| - 1]
  {
    assert IsPart(items[0], sep);
    if |items| == 1 {
      LastPartLost(items[0], sep);
    } else {
      var rest := items[1..];
      PartsYielded(rest, sep);
      JoinFirst(items, sep);
      PartYielded(items[0], sep, Join(rest, sep), sep);
      InitFirst(items[0], rest);
      assert items == [items[0]] + rest;
    }
  }

  // ------------------------------------------------ an item that is cut

  /** An item with such a line between its two parts. */
  function Cut(first: string, m: string, second: string): string {
    first + (m + "\n" + second)
  }

  lemma CutText(first: string, m: string, second: string, tail: string)
    ensures Cut(first, m, second) + tail == first + (m + "\n" + (second + tail))
  {
  }

  lemma TwoFirst(x: string, y: string, rest: seq<string>)
    ensures [x] + ([y] + rest) == [x, y] + rest
  {
  }

  lemma CutYielded(first: string, m: string, second: string, rest: string, sep: string)
    requires IsSeparator(sep) && IsPart(first, sep) && IsMark(m, sep) && IsPart(second, sep)
    ensures Yields(Cut(first, m, second) + (sep + "\n" + rest), "", sep) == [first, second] + Yields(rest, "", sep)
  {
    var tail := sep + "\n" + rest;
    assert Yields(second + tail, "", sep) == [second] + Yields(rest, "", sep) by {
      PartYielded(second, sep, rest, sep);
    }
    assert Yields(first + (m + "\n" + (second + tail)), "", sep) == [first] + Yields(second + tail, "", sep) by {
      PartYielded(first, m, second + tail, sep);
    }
    CutText(first, m, second, tail);
    TwoFirst(first, second, Yields(rest, "", sep));
  }

  /** If only the first item is cut, each number from 3 on stands for the item before it. */
  lemma FirstIsCut(first: string, m: string, second: string, others: seq<string>, sep: string)
    requires IsSeparator(sep) && IsPart(first, sep) && IsMark(m, sep) && IsPart(second, sep)
    requires others != [] && AllParts(others, sep)
    ensures Yields(Join([Cut(first, m, second)] + others, sep), "", sep)
         == [first, second] + others[..|others| - 1]
  {
    JoinPrepend(Cut(first, m, second), others, sep);
    CutYielded(first, m, second, Join(others, sep), sep);
    PartsYielded(others, sep);
  }

  /** Items with different first parts and the same second one. */
  function CutAll(firsts: seq<string>, m: string, second: string): seq<string> {
    seq(|firsts|, i requires 0 <= i < |firsts| => Cut(firsts[i], m, second))
  }

  function Halves(firsts: seq<string>, second: string): (r: seq<string>)
    ensures |r| == 2 * |firsts|
  {
    if firsts == [] then [] else [firsts[0], second] + Halves(firsts[1..], second)
  }

  lemma {:induction false} HalvesAt(firsts: seq<string>, second: string, i: nat)
    requires i < |firsts|
    ensures Halves(firsts, second)[2 * i] == firsts[i] && Halves(firsts, second)[2 * i + 1] == second
  {
    if i == 0 {
    } else {
      HalvesAt(firsts[1..], second, i - 1);
    }
  }

  lemma HalvesFirst(firsts: seq<string>, second: string)
    requires |firsts| > 1
    ensures var halves, rest := Halves(firsts, second), Halves(firsts[1..], second);
      halves[..|halves| - 1] == [firsts[0], second] + rest[..|rest| - 1]
  {
  }

  lemma OnlyCut(first: string, m: string, second: string, sep: string)
    requires IsSeparator(sep) && IsMark(m, sep) && IsPart(first, sep) && IsPart(second, sep)
    ensures Yields(Cut(first, m, second), "", sep) == Halves([first], second)[..1]
  {
    PartYielded(first, m, second, sep);
    LastPartLost(second, sep);
    assert [first] + [] == Halves([first], second)[..1];
  }

  lemma CutNext(firsts: seq<string>, m: string, second: string, sep: string, yielded: seq<string>)
    requires IsSeparator(sep) && IsMark(m, sep) && IsPart(second, sep)
    requires |firsts| > 1 && IsPart(firsts[0], sep)
    requires Yields(Join(CutAll(firsts[1..], m, second), sep), "", sep) == yielded
    ensures Yields(Join(CutAll(firsts, m, second), sep), "", sep) == [firsts[0], second] + yielded
  {
    var items, rest := CutAll(firsts, m, second), CutAll(firsts[1..], m, second);
    assert Join(items, sep) == Cut(firsts[0], m, second) + (sep + "\n" + Join(rest, sep)) by {
      assert items[1..] == rest;
      JoinFirst(items, sep);
    }
    CutYielded(firsts[0], m, second, Join(rest, sep), sep);
  }

  /** If all the items are cut, the numbers stand for their halves in turn. */
  lemma {:induction false} AllAreCut(firsts: seq<string>, m: string, second: string, sep: string)
    requires IsSeparator(sep) && IsMark(m, sep) && IsPart(second, sep)
    requires firsts != [] && AllParts(firsts, sep)
    ensures Yields(Join(CutAll(firsts, m, second), sep), "", sep)
         == Halves(firsts, second)[..2 * |firsts| - 1]
  {
    var items := CutAll(firsts, m, second);
    assert IsPart(firsts[0], sep);
    if |firsts| == 1 {
      OnlyCut(firsts[0], m, second, sep);
      assert firsts == [firsts[0]] && items == [Cut(firsts[0], m, second)];
    } else {
      var rest := firsts[1..];
      AllAreCut(rest, m, second, sep);
      CutNext(firsts, m, second, sep, Halves(rest, second)[..2 * |rest| - 1]);
      HalvesFirst(firsts, second);
    }
  }

  // ------------------------------------------------- created workfiles

  /** The part of an item in front of such a line in the script. */
  function FirstHalves(rows: seq<Row>, before: string): seq<string> {
    seq(|rows|, i requires 0 <= i < |rows| => Exports(rows[i]) + "\n" + before)
  }

  lemma CutScript(row: Row, before: string, m: string, after: string)
    ensures ItemText(row, before + (m + "\n" + after)) == Cut(Exports(row) + "\n" + before, m, after + "\n")
  {
  }

  lemma ScriptCutsAll(rows: seq<Row>, before: string, m: string, after: string)
    ensures ItemTexts(rows, before + (m + "\n" + after)) == CutAll(FirstHalves(rows, before), m, after + "\n")
  {
    forall i | 0 <= i < |rows|
      ensures ItemText(rows[i], before + (m + "\n" + after)) == Cut(FirstHalves(rows, before)[i], m, after + "\n")
    {
      CutScript(rows[i], before, m, after);
    }
  }

  /** First halves at the even positions, the second half at the odd ones, without the last. */
  predicate InTurn(texts: seq<string>, firsts: seq<string>, second: string) {
    && |texts| == 2 * |firsts| - 1
    && (forall i :: 0 <= i < |firsts| ==> texts[2 * i] == firsts[i])
    && (forall i :: 0 <= i < |firsts| - 1 ==> texts[2 * i + 1] == second)
  }

  lemma HalvesInTurn(firsts: seq<string>, second: string)
    requires firsts != []
    ensures InTurn(Halves(firsts, second)[..2 * |firsts| - 1], firsts, second)
  {
    var halves := Halves(firsts, second);
    forall i | 0 <= i < |firsts| ensures halves[2 * i] == firsts[i] && halves[2 * i + 1] == second {
      HalvesAt(firsts, second, i);
    }
  }

  /** A workfile that was created from a script with such a line: every item is cut in two,
      the odd numbers standing for the first halves and the even ones for the second. */
  lemma ScriptCutsItems(rows: seq<Row>, before: string, m: string, after: string, sep: string)
    requires IsSeparator(sep) && IsMark(m, sep) && IsPart(after + "\n", sep)
    requires rows != [] && AllParts(FirstHalves(rows, before), sep)
    ensures InTurn(Yields(Join(ItemTexts(rows, before + (m + "\n" + after)), sep), "", sep),
                   FirstHalves(rows, before), after + "\n")
  {
    var firsts, second := FirstHalves(rows, before), after + "\n";
    ScriptCutsAll(rows, before, m, after);
    AllAreCut(firsts, m, second, sep);
    HalvesInTurn(firsts, second);
  }

  /** The server finds no separator in plain lines. */
  lemma {:induction false} PlainHasNone(text: string, sep: string)
    requires IsSeparator(sep) && Plain(text, sep)
    ensures !HasLine(text, sep)
    decreases |text|
  {
    if text == "" {
    } else {
      PlainHasNone(GetLine(text).value.1, sep);
    }
  }

  lemma CutHasNone(first: string, m: string, second: string, sep: string)
    requires IsSeparator(sep) && IsPart(first, sep) && IsMark(m, sep) && m != sep && IsPart(second, sep)
    ensures !HasLine(Cut(first, m, second), sep)
  {
    PlainHasNone(first, sep);
    PlainHasNone(second, sep);
    FirstLineOf(m, second);
    HasLineConcat(first, m + "\n" + second, sep);
  }
}
