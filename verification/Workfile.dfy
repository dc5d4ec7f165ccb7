/** Writing a workfile, and the Python reader that rewrites one. */
module Workfiles {
  import opened Outcomes
  import opened Text
  import opened Segments

  // ------------------------------------------------------- creating a workfile

  /** A row of the data source: variable names and their values, in order. */
  type Row = seq<(string, string)>

  function ExportLine(variable: (string, string)): string {
    "export " + variable.0 + "='" + variable.1 + "'\n"
  }

  function Exports(row: Row): string {
    if row == [] then ""
    else Exports(row[..|row| - 1]) + ExportLine(row[|row| - 1])
  }

  /** A work item: the exports of its row, an empty line, and the script. */
  function ItemText(row: Row, script: string): string {
    Exports(row) + "\n" + script + "\n"
  }

  function ItemTexts(rows: seq<Row>, script: string): seq<string> {
    seq(|rows|, i requires 0 <= i < |rows| => ItemText(rows[i], script))
  }

  /** The line for one variable. */
  lemma OneExport(name: string, value: string)
    ensures Exports([(name, value)]) == "export " + name + "='" + value + "'" + "\n"
  {
    assert [(name, value)][..0] == [];
  }

  lemma {:induction false} ExportsConcat(x: Row, y: Row)
    ensures Exports(x + y) == Exports(x) + Exports(y)
  {
    if y == [] {
      assert x + y == x;
    } else {
      var init, last := y[..|y| - 1], y[|y| - 1];
      assert (x + y)[..|x + y| - 1] == x + init;
      ExportsConcat(x, init);
      Reassociate(Exports(x), Exports(init), ExportLine(last));
    }
  }

  /** The line of each variable stands in the item, once, between those of the variables before
      and behind it; behind all of them the empty line and the script. */
  lemma ItemHolds(row: Row, script: string, i: nat)
    requires i < |row|
    ensures ItemText(row, script)
         == Exports(row[..i]) + ("export " + row[i].0 + "='" + row[i].1 + "'" + "\n") + Exports(row[i + 1..])
            + "\n" + script + "\n"
    ensures Exports([]) == ""
  {
    assert row == row[..i] + [row[i]] + row[i + 1..];
    ExportsConcat(row[..i] + [row[i]], row[i + 1..]);
    ExportsConcat(row[..i], [row[i]]);
    OneExport(row[i].0, row[i].1);
  }

  /** The iterator over the rows is exhausted. */
  datatype CreateError = StopIteration

  method PrintItem(file: string, row: Row, script: string) returns (file': string)
    ensures file' == file + ItemText(row, script)
  {
    file' := file;
    for i := 0 to |row|
      invariant file' == file + Exports(row[..i])
    {
      assert row[..i + 1][..i] == row[..i];
      file' := file' + ("export " + row[i].0 + "='" + row[i].1 + "'\n");
    }
    assert row[..|row|] == row;
    file' := file' + "\n";
    file' := file' + (script + "\n");
  }

  /** The workfile for the given rows, and the number of items in it. */
  method CreateWorkfile(rows: seq<Row>, script: string, sep: string)
    returns (r: Outcome<(string, nat), CreateError>)
    ensures rows == [] ==> r == Err(StopIteration)
    ensures rows != [] ==> r == Ok((Join(ItemTexts(rows, script), sep), |rows|))
  {
    var nrWorkitems := 0;
    nrWorkitems := nrWorkitems + 1;
    if rows == [] {
      return Err(StopIteration);
    }
    ghost var texts := ItemTexts(rows, script);
    var file := PrintItem("", rows[0], script);
    assert texts[..1] == [texts[0]];
    for i := 1 to |rows|
      invariant nrWorkitems == i && file == Join(texts[..i], sep)
    {
      assert texts[..i + 1][..i] == texts[..i];
      nrWorkitems := nrWorkitems + 1;
      file := PrintItem(file + (sep + "\n"), rows[i], script);
      Reassociate(Join(texts[..i], sep), sep + "\n", texts[i]);
    }
    assert texts[..|rows|] == texts;
    return Ok((file, nrWorkitems));
  }

  /** The items that were printed are the items that are read, exactly when no line of an
      export or of the script is the separator. */
  lemma CreatedItems(rows: seq<Row>, script: string, sep: string)
    requires '\n' !in sep
    ensures WorkItems(Join(ItemTexts(rows, script), sep), sep) == ItemTexts(rows, script)
       <==> forall i :: 0 <= i < |rows| ==> !HasLine(ItemText(rows[i], script), sep)
  {
    var texts := ItemTexts(rows, script);
    assert forall i :: 0 <= i < |rows| ==> texts[i] == ItemText(rows[i], script);
    ItemsOfJoin(texts, sep);
  }

  // ------------------------------------------------------ the Python reader

  function StripEnd(s: string): string {
    if s != "" && IsSpace(s[|s| - 1]) then StripEnd(s[..|s| - 1]) else s
  }

  function Strip(s: string): string {
    SkipSpaces(StripEnd(s))
  }

  lemma {:induction false} StripEndParts(s: string)
    ensures StripEnd(s) <= s && AllSpaces(s[|StripEnd(s)|..])
    ensures StripEnd(s) == "" || !IsSpace(StripEnd(s)[|StripEnd(s)| - 1])
  {
    if s == "" || !IsSpace(s[|s| - 1]) {
      assert StripEnd(s) == s && s[|s|..] == "";
    } else {
      var init, last := s[..|s| - 1], s[|s| - 1];
      StripEndParts(init);
      var k := |StripEnd(init)|;
      assert s[k..] == init[k..] + [last];
      SpacesJoined(init[k..], [last]);
    }
  }

  /** Stripping removes white space at both ends, all of it, and nothing else. */
  lemma StripParts(s: string) returns (front: string, back: string)
    ensures s == front + Strip(s) + back && AllSpaces(front) && AllSpaces(back)
    ensures Strip(s) == "" || (!IsSpace(Strip(s)[0]) && !IsSpace(Strip(s)[|Strip(s)| - 1]))
  {
    var body := StripEnd(s);
    StripEndParts(s);
    SkipSpacesParts(body);
    front, back := body[..|body| - |Strip(s)|], s[|body|..];
  }

  /** One step of iterating over a file: a line with its newline, and the rest. */
  function NextLine(text: string): (r: Option<(string, string)>)
    ensures r.None? <==> text == ""
    ensures r.Some? ==> r.value.0 != "" && text == r.value.0 + r.value.1
  {
    if text == "" then None
    else
      var n := LineLength(text);
      var end := if n < |text| then n + 1 else n;
      Some((text[..end], text[end..]))
  }

  /** What the generator yields from here on, with the given lines collected already: a
      segment per separator line. What follows the last separator line is not yielded. */
  function Yields(text: string, collected: string, sep: string): seq<string>
    decreases |text|
  {
    match NextLine(text)
    case None => []
    case Some((line, rest)) =>
      if Strip(line) == sep then [collected] + Yields(rest, "", sep)
      else Yields(rest, collected + line, sep)
  }

  method ParseWorkfile(text: string, sep: string) returns (yielded: seq<string>)
    ensures yielded == Yields(text, "", sep)
  {
    yielded := [];
    var file := text;
    var workitem := "";
    var line := NextLine(file);
    while line.Some?
      invariant line == NextLine(file)
      invariant yielded + Yields(file, workitem, sep) == Yields(text, "", sep)
      decreases |file|
    {
      if Strip(line.value.0) == sep {
        yielded := yielded + [workitem];
        workitem := "";
      } else {
        workitem := workitem + line.value.0;
      }
      file := line.value.1;
      line := NextLine(file);
    }
  }

  /** A separator that stripping does not change. */
  predicate IsSeparator(sep: string) {
    sep != "" && '\n' !in sep && Strip(sep) == sep
  }

  /** No line is the separator but for surrounding white space. */
  predicate SeparatorsAgree(text: string, sep: string)
    decreases |text|
  {
    match GetLine(text)
    case None => true
    case Some((line, rest)) => (Strip(line) == sep ==> line == sep) && SeparatorsAgree(rest, sep)
  }

  lemma SameLine(text: string, sep: string)
    requires IsSeparator(sep) && text != ""
    ensures var line, next := GetLine(text).value, NextLine(text).value;
      && line.1 == next.1
      && Strip(next.0) == Strip(line.0)
      && (next.0 == line.0 + "\n" || (next.0 == line.0 && next.1 == ""))
  {
    var line := GetLine(text).value.0;
    assert (line + "\n")[..|line|] == line;
  }

  /** How many segments are closed before the first line that is the separator only after
      stripping; if there is none, all but the last. */
  function Agreeing(text: string, sep: string): nat
    decreases |text|
  {
    match GetLine(text)
    case None => 0
    case Some((line, rest)) =>
      if line == sep then 1 + Agreeing(rest, sep)
      else if Strip(line) == sep then 0
      else Agreeing(rest, sep)
  }

  /** Two lists that are equal up to c. If they agree, the second has one more element; if
      not, the first is as long as the second, and its next element is shorter. */
  predicate EqualUpTo(yielded: seq<string>, segments: seq<string>, c: nat, agree: bool) {
    && c < |segments| && c <= |yielded| && yielded[..c] == segments[..c]
    && if agree then |yielded| == c && |segments| == c + 1
       else c < |yielded| && |segments| <= |yielded| && |yielded[c]| < |segments[c]|
  }

  lemma EqualUpToNext(x: string, yielded: seq<string>, segments: seq<string>, c: nat, agree: bool)
    requires EqualUpTo(yielded, segments, c, agree)
    ensures EqualUpTo([x] + yielded, [x] + segments, c + 1, agree)
  {
    assert ([x] + yielded)[..c + 1] == [x] + yielded[..c];
    assert ([x] + segments)[..c + 1] == [x] + segments[..c];
  }

  lemma SeparatorStep(collected: string, tail: seq<string>)
    requires |tail| > 0
    ensures Extend(collected, [""] + tail) == [collected] + Extend("", tail)
  {
    ExtendEmpty(tail);
    assert collected + "" == collected;
    assert ([""] + tail)[1..] == tail;
  }

  /** Up to where the generator and the other reader number the same segments. */
  lemma {:induction false} ReadersDiffer(text: string, collected: string, sep: string)
    requires IsSeparator(sep)
    ensures EqualUpTo(Yields(text, collected, sep), Extend(collected, Split(text, sep)),
                      Agreeing(text, sep), SeparatorsAgree(text, sep))
    decreases |text|
  {
    if text == "" {
    } else {
      SameLine(text, sep);
      var (line, rest) := GetLine(text).value;
      var next := NextLine(text).value.0;
      var tail := Split(rest, sep);
      if line == sep {
        ReadersDiffer(rest, "", sep);
        SeparatorStep(collected, tail);
        EqualUpToNext(collected, Yields(rest, "", sep), Extend("", tail), Agreeing(rest, sep),
                      SeparatorsAgree(rest, sep));
      } else if Strip(line) == sep {
        ReadersDiffer(rest, "", sep);
        ExtendTwice(collected, line + "\n", tail);
      } else {
        ReadersDiffer(rest, collected + next, sep);
        if next == line + "\n" {
          ExtendTwice(collected, next, tail);
        } else {
          assert tail == [""];
        }
      }
    }
  }

  /** The two readers agree on the numbering, the generator yielding all the segments of the
      other reader but the last, exactly when no line is the separator only after stripping. */
  lemma ReadersAgree(text: string, sep: string)
    requires IsSeparator(sep)
    ensures Yields(text, "", sep) == Split(text, sep)[..|Split(text, sep)| - 1]
       <==> SeparatorsAgree(text, sep)
  {
    ReadersDiffer(text, "", sep);
    ExtendEmpty(Split(text, sep));
  }

  // ----------------------------------------------------- filtering a workfile

  /** The segments whose number is listed, as they are printed: with one more newline. */
  function Selected(segments: seq<string>, ids: seq<nat>): seq<string> {
    if segments == [] then []
    else
      var last := |segments| - 1;
      Selected(segments[..last], ids)
      + (if |segments| in ids then [segments[last] + "\n"] else [])
  }

  lemma JoinAppend(segments: seq<string>, x: string, sep: string)
    ensures Join(segments + [x], sep)
         == if segments == [] then x else Join(segments, sep) + (sep + "\n" + x)
  {
    assert (segments + [x])[..|segments|] == segments;
  }

  /** What the filter has to write for the next segment. */
  lemma SelectedNext(segments: seq<string>, i: nat, ids: seq<nat>, sep: string)
    requires i < |segments|
    ensures var before, after := Selected(segments[..i], ids), Selected(segments[..i + 1], ids);
      var start := if before == [] then Join(before, sep) else Join(before, sep) + (sep + "\n");
      if i + 1 !in ids then after == before
      else |after| == |before| + 1 && Join(after, sep) == start + (segments[i] + "\n")
  {
    assert segments[..i + 1][..i] == segments[..i];
    var before, x := Selected(segments[..i], ids), segments[i] + "\n";
    if i + 1 in ids {
      JoinAppend(before, x, sep);
      Reassociate(Join(before, sep), sep + "\n", x);
      assert "" + x == x;
    } else {
      assert before + [] == before;
    }
  }

  method FilterWorkfile(text: string, sep: string, ids: seq<nat>)
    returns (file: string, itemCount: nat)
    ensures var selected := Selected(Yields(text, "", sep), ids);
      file == Join(selected, sep) && itemCount == |selected|
  {
    itemCount, file := 0, "";
    var workitems := ParseWorkfile(text, sep);
    for i := 0 to |workitems|
      invariant file == Join(Selected(workitems[..i], ids), sep)
      invariant itemCount == |Selected(workitems[..i], ids)|
    {
      SelectedNext(workitems, i, ids, sep);
      if i + 1 in ids {
        if itemCount > 0 {
          file := file + (sep + "\n");
        }
        file := file + (workitems[i] + "\n");
        itemCount := itemCount + 1;
      }
    }
    assert workitems[..|workitems|] == workitems;
  }

  /** The listed numbers from 1 to n, once each and in increasing order. */
  predicate InOrder(ordered: seq<nat>, ids: seq<nat>, n: nat) {
    && (forall i, j :: 0 <= i < j < |ordered| ==> ordered[i] < ordered[j])
    && (forall i :: 0 <= i < |ordered| ==> 1 <= ordered[i] <= n && ordered[i] in ids)
    && (forall k :: 1 <= k <= n && k in ids ==> k in ordered)
  }

  /** The texts of the segments with the given numbers, each with one more newline. */
  function Numbered(segments: seq<string>, numbers: seq<nat>): seq<string>
    requires forall i :: 0 <= i < |numbers| ==> 1 <= numbers[i] <= |segments|
  {
    seq(|numbers|, i requires 0 <= i < |numbers| => segments[numbers[i] - 1] + "\n")
  }

  lemma NumberedPrefix(segments: seq<string>, n: nat, numbers: seq<nat>)
    requires n <= |segments| && forall i :: 0 <= i < |numbers| ==> 1 <= numbers[i] <= n
    ensures Numbered(segments[..n], numbers) == Numbered(segments, numbers)
  {
  }

  lemma NumberedLast(segments: seq<string>, ordered: seq<nat>)
    requires ordered != [] && ordered[|ordered| - 1] == |segments|
    requires forall i :: 0 <= i < |ordered| - 1 ==> 1 <= ordered[i] <= |segments| - 1
    requires segments != []
    ensures var n, init := |segments| - 1, ordered[..|ordered| - 1];
      Numbered(segments, ordered) == Numbered(segments[..n], init) + [segments[n] + "\n"]
  {
    NumberedPrefix(segments, |segments| - 1, ordered[..|ordered| - 1]);
  }

  lemma LastInOrder(ordered: seq<nat>, ids: seq<nat>, n: nat)
    requires n > 0 && InOrder(ordered, ids, n) && n in ids
    ensures ordered != [] && ordered[|ordered| - 1] == n
    ensures InOrder(ordered[..|ordered| - 1], ids, n - 1)
  {
    assert n in ordered;
    var last := |ordered| - 1;
    var i :| 0 <= i <= last && ordered[i] == n;
    assert ordered[last] == n;
    var init := ordered[..last];
    forall k | 1 <= k <= n - 1 && k in ids
      ensures k in init
    {
      assert k in ordered;
      var j :| 0 <= j <= last && ordered[j] == k;
      assert init[j] == k;
    }
  }

  /** The selection is in file order, and each number is in it once however often, and in
      whatever order, it is listed. */
  lemma {:induction false} SelectedInOrder(segments: seq<string>, ids: seq<nat>, ordered: seq<nat>)
    requires InOrder(ordered, ids, |segments|)
    ensures Selected(segments, ids) == Numbered(segments, ordered)
  {
    assert ordered != [] ==> 1 <= ordered[0] <= |segments|;
    if segments == [] {
    } else {
      var n := |segments|;
      if n in ids {
        LastInOrder(ordered, ids, n);
        SelectedInOrder(segments[..n - 1], ids, ordered[..|ordered| - 1]);
        NumberedLast(segments, ordered);
      } else {
        SelectedInOrder(segments[..n - 1], ids, ordered);
        NumberedPrefix(segments, n - 1, ordered);
      }
    }
  }

  lemma {:induction false} HasLineConcat(a: string, b: string, line: string)
    requires Terminated(a)
    ensures HasLine(a + b, line) <==> HasLine(a, line) || HasLine(b, line)
    decreases |a|
  {
    if a == "" {
      assert a + b == b;
    } else {
      var first, rest := FirstLine(a);
      HasLineConcat(rest, b, line);
      Reassociate(first + "\n", rest, b);
      FirstLineOf(first, rest + b);
    }
  }

  lemma LineCollected(collected: string, line: string, sep: string)
    requires Terminated(collected) && !HasLine(collected, sep) && '\n' !in line && line != sep
    ensures Terminated(collected + (line + "\n")) && !HasLine(collected + (line + "\n"), sep)
  {
    HasLineConcat(collected, line + "\n", sep);
    FirstLineOf(line, "");
    assert line + "\n" + "" == line + "\n";
  }

  /** Yielded segments are closed by a newline and hold no separator line. */
  lemma {:induction false} YieldsClean(text: string, collected: string, sep: string)
    requires IsSeparator(sep) && Terminated(collected) && !HasLine(collected, sep)
    ensures Clean(Yields(text, collected, sep), sep)
    decreases |text|
  {
    if text == "" {
    } else {
      SameLine(text, sep);
      var (line, rest) := GetLine(text).value;
      var next := NextLine(text).value.0;
      if Strip(next) == sep {
        YieldsClean(rest, "", sep);
      } else if next == line + "\n" {
        LineCollected(collected, line, sep);
        YieldsClean(rest, collected + next, sep);
      }
    }
  }

  lemma OneMoreNewline(x: string, sep: string)
    requires IsSeparator(sep) && Terminated(x) && !HasLine(x, sep)
    ensures x + "\n" != "" && Terminated(x + "\n") && !HasLine(x + "\n", sep)
  {
    HasLineConcat(x, "\n", sep);
    FirstLineOf("", "");
    assert "" + "\n" + "" == "\n";
  }

  /** Terminated, not empty, and without a separator line. */
  predicate IsItemText(x: string, sep: string) {
    x != "" && Terminated(x) && !HasLine(x, sep)
  }

  predicate AllItems(items: seq<string>, sep: string) {
    forall i :: 0 <= i < |items| ==> IsItemText(items[i], sep)
  }

  lemma {:induction false} SelectedClean(segments: seq<string>, ids: seq<nat>, sep: string)
    requires IsSeparator(sep) && Clean(segments, sep)
    ensures AllItems(Selected(segments, ids), sep)
  {
    if segments == [] {
    } else {
      var last := |segments| - 1;
      SelectedClean(segments[..last], ids, sep);
      OneMoreNewline(segments[last], sep);
      assert IsItemText(segments[last] + "\n", sep);
    }
  }

  /** What was filtered is read back by the server as the selected texts, renumbered from 1. */
  lemma FilteredItems(text: string, ids: seq<nat>, sep: string)
    requires IsSeparator(sep)
    ensures var selected := Selected(Yields(text, "", sep), ids);
      WorkItems(Join(selected, sep), sep) == selected
  {
    YieldsClean(text, "", sep);
    SelectedClean(Yields(text, "", sep), ids, sep);
    assert AllItems(Selected(Yields(text, "", sep), ids), sep);
    ItemsOfJoin(Selected(Yields(text, "", sep), ids), sep);
  }

  /** The same number stands for the same text in both lists, or for none. */
  predicate SameAt(a: seq<string>, b: seq<string>, id: nat) {
    && (1 <= id <= |a| <==> 1 <= id <= |b|)
    && (1 <= id <= |a| ==> a[id - 1] == b[id - 1])
  }

  predicate AllSame(a: seq<string>, b: seq<string>, ids: seq<nat>) {
    forall id :: id in ids ==> SameAt(a, b, id)
  }

  lemma {:induction false} SelectedGrows(a: seq<string>, b: seq<string>, ids: seq<nat>)
    requires |a| <= |b|
    ensures |Selected(a, ids)| <= |Selected(b, ids)|
  {
    if |b| == 0 {
    } else if |a| < |b| {
      SelectedGrows(a, b[..|b| - 1], ids);
    } else {
      SelectedGrows(a[..|a| - 1], b[..|b| - 1], ids);
    }
  }

  lemma SameInit(a: seq<string>, b: seq<string>, ids: seq<nat>)
    requires 0 < |a| == |b|
    ensures AllSame(a, b, ids)
       <==> AllSame(a[..|a| - 1], b[..|a| - 1], ids) && (|a| in ids ==> a[|a| - 1] == b[|a| - 1])
  {
    var n := |a|;
    var x, y := a[..n - 1], b[..n - 1];
    assert forall id: nat :: id != n ==> (SameAt(a, b, id) <==> SameAt(x, y, id));
    assert SameAt(x, y, n) && (SameAt(a, b, n) <==> a[n - 1] == b[n - 1]);
  }

  lemma SameShorter(a: seq<string>, b: seq<string>, ids: seq<nat>)
    requires |a| < |b|
    ensures AllSame(a, b, ids) <==> AllSame(a, b[..|b| - 1], ids) && |b| !in ids
  {
    var n := |b|;
    var y := b[..n - 1];
    assert forall id: nat :: id != n ==> (SameAt(a, b, id) <==> SameAt(a, y, id));
    assert SameAt(a, y, n) && !SameAt(a, b, n);
  }

  lemma LastEqual(x: seq<string>, y: seq<string>, s: string, t: string)
    ensures x + [s + "\n"] == y + [t + "\n"] <==> x == y && s == t
  {
    var a, b := x + [s + "\n"], y + [t + "\n"];
    if a == b {
      assert a[..|a| - 1] == x && b[..|b| - 1] == y;
      assert a[|a| - 1] == s + "\n" && b[|b| - 1] == t + "\n";
      assert (s + "\n")[..|s|] == s && (t + "\n")[..|t|] == t;
    }
  }

  /** Two selections with the same numbers are equal exactly when each number stands for the
      same text. */
  lemma {:induction false} SelectedEqual(a: seq<string>, b: seq<string>, ids: seq<nat>)
    requires |a| <= |b|
    ensures Selected(a, ids) == Selected(b, ids) <==> AllSame(a, b, ids)
  {
    var n := |b|;
    if n == 0 {
    } else if |a| < n {
      SelectedEqual(a, b[..n - 1], ids);
      SelectedGrows(a, b[..n - 1], ids);
      SameShorter(a, b, ids);
    } else {
      SelectedEqual(a[..n - 1], b[..n - 1], ids);
      SameInit(a, b, ids);
      var x, y := Selected(a[..n - 1], ids), Selected(b[..n - 1], ids);
      assert x + [] == x && y + [] == y;
      LastEqual(x, y, a[n - 1], b[n - 1]);
    }
  }

  lemma SameSwapped(a: seq<string>, b: seq<string>, ids: seq<nat>)
    ensures AllSame(a, b, ids) <==> AllSame(b, a, ids)
  {
    assert forall id: nat :: SameAt(a, b, id) <==> SameAt(b, a, id);
  }

  lemma EqualUpToSame(yielded: seq<string>, segments: seq<string>, c: nat, agree: bool, id: nat)
    requires EqualUpTo(yielded, segments, c, agree)
    ensures id <= c ==> SameAt(yielded, segments, id)
    ensures id == c + 1 ==> !SameAt(yielded, segments, id)
    ensures agree ==> (SameAt(yielded, segments, id) <==> id != |segments|)
  {
    assert 1 <= id <= c ==> yielded[id - 1] == yielded[..c][id - 1] == segments[id - 1];
  }

  /** Which numbers stand for the same text: those up to the first line that is the separator
      only after stripping, and not the next one; without such a line all but the last. */
  lemma SameNumbers(text: string, sep: string, id: nat)
    requires IsSeparator(sep)
    ensures var yielded, segments, c := Yields(text, "", sep), Split(text, sep), Agreeing(text, sep);
      && (id <= c ==> SameAt(yielded, segments, id))
      && (id == c + 1 ==> !SameAt(yielded, segments, id))
      && (SeparatorsAgree(text, sep) ==> (SameAt(yielded, segments, id) <==> id != |segments|))
  {
    var yielded, segments, c := Yields(text, "", sep), Split(text, sep), Agreeing(text, sep);
    assert EqualUpTo(yielded, segments, c, SeparatorsAgree(text, sep)) by {
      ReadersDiffer(text, "", sep);
      ExtendEmpty(segments);
    }
    EqualUpToSame(yielded, segments, c, SeparatorsAgree(text, sep), id);
  }

  /** The same for lists of any lengths. */
  lemma SelectedSame(a: seq<string>, b: seq<string>, ids: seq<nat>)
    ensures Selected(a, ids) == Selected(b, ids) <==> AllSame(a, b, ids)
  {
    if |a| <= |b| {
      SelectedEqual(a, b, ids);
    } else {
      SelectedEqual(b, a, ids);
      SameSwapped(a, b, ids);
    }
  }

  /** Filtering is meant to select segments of the file by their numbers. For every file and
      selection, it does so exactly when each number stands for the same text in both readers;
      if no line is the separator only after stripping, exactly when the segment behind the
      last separator line is not selected. */
  lemma FilterComplete(text: string, ids: seq<nat>, sep: string)
    requires IsSeparator(sep)
    ensures var yielded, segments := Yields(text, "", sep), Split(text, sep);
      && (Selected(yielded, ids) == Selected(segments, ids) <==> AllSame(yielded, segments, ids))
      && (SeparatorsAgree(text, sep) ==> (AllSame(yielded, segments, ids) <==> |segments| !in ids))
  {
    var yielded, segments := Yields(text, "", sep), Split(text, sep);
    SelectedSame(yielded, segments, ids);
    if SeparatorsAgree(text, sep) {
      forall id | id in ids ensures SameAt(yielded, segments, id) <==> id != |segments| {
        SameNumbers(text, sep, id);
      }
    }
  }

  predicate AllUpTo(ids: seq<nat>, m: nat) {
    forall id :: id in ids ==> id <= m
  }

  lemma FilteredUpTo(text: string, sep: string, ids: seq<nat>)
    requires IsSeparator(sep) && AllUpTo(ids, Agreeing(text, sep))
    ensures Selected(Yields(text, "", sep), ids) == Selected(Split(text, sep), ids)
  {
    forall id | id in ids ensures SameAt(Yields(text, "", sep), Split(text, sep), id) {
      SameNumbers(text, sep, id);
    }
    FilterComplete(text, ids, sep);
  }

  lemma OneDiffers(a: seq<string>, b: seq<string>, id: nat)
    requires !SameAt(a, b, id)
    ensures Selected(a, [id]) != Selected(b, [id])
  {
    assert id in [id];
    SelectedSame(a, b, [id]);
  }

  lemma NextIsWrong(text: string, sep: string)
    requires IsSeparator(sep)
    ensures var ids := [Agreeing(text, sep) + 1];
      Selected(Yields(text, "", sep), ids) != Selected(Split(text, sep), ids)
  {
    var id := Agreeing(text, sep) + 1;
    SameNumbers(text, sep, id);
    OneDiffers(Yields(text, "", sep), Split(text, sep), id);
  }

  /** Whatever is selected of the first m segments is filtered completely, exactly when m is
      no more than the number of segments on which the readers agree. */
  lemma FilterCompleteUpTo(text: string, sep: string, m: nat)
    requires IsSeparator(sep)
    ensures m <= Agreeing(text, sep) <==>
      forall ids: seq<nat> :: AllUpTo(ids, m) ==>
        Selected(Yields(text, "", sep), ids) == Selected(Split(text, sep), ids)
  {
    if m <= Agreeing(text, sep) {
      forall ids: seq<nat> | AllUpTo(ids, m)
        ensures Selected(Yields(text, "", sep), ids) == Selected(Split(text, sep), ids)
      {
        FilteredUpTo(text, sep, ids);
      }
    } else {
      NextIsWrong(text, sep);
      assert AllUpTo([Agreeing(text, sep) + 1], m);
    }
  }

  /** A workfile with a single item: redoing that item yields a workfile without items. */
  lemma LastItemLost()
    ensures var text := "echo\n";
      && WorkItems(text, "#WORKER----") == [text]
      && Selected(Yields(text, "", "#WORKER----"), [1]) == []
  {
    var text, sep := "echo\n", "#WORKER----";
    assert text == "echo" + "\n" + "";
    FirstLineOf("echo", "");
    LineLengthOf("echo", "");
    assert Split("", sep) == [""];
    assert text[..5] == text && text[5..] == "";
    assert NextLine(text) == Some((text, ""));
    assert StripEnd(text[..4]) == "echo" && text[..4] == "echo";
    assert Strip(text) == "echo";
  }

  lemma YieldsLine(line: string, rest: string, collected: string, sep: string)
    requires '\n' !in line && IsSeparator(sep)
    ensures Yields(line + "\n" + rest, collected, sep)
         == if Strip(line) == sep then [collected] + Yields(rest, "", sep)
            else Yields(rest, collected + (line + "\n"), sep)
  {
    var text := line + "\n" + rest;
    LineLengthOf(line, rest);
    FirstLineOf(line, rest);
    SameLine(text, sep);
    assert text[..|line| + 1] == line + "\n" && text[|line| + 1..] == rest;
  }
}
