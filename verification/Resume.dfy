/** Resuming a job: from the log and the workfile of the old one to the workfile of the new. */
module Resumption {
  import opened Outcomes
  import opened Text
  import opened Messages
  import opened Segments
  import opened LogParsers
  import opened Workfiles
  import opened WorkParsers
  import opened Servers
  import opened Clients
  import opened Protocol
  import opened Safety
  import opened Guarantees

  /** How a resume ends: an exception of the log parser, a missing report, nothing to do, or
      a new workfile for the selected items and the number of items that is announced. */
  datatype Resumed =
    | LogError(error: ParseError)
    | NoReport
    | NothingToDo
    | NewJob(ids: seq<nat>, workfile: string, announced: nat)

  /** The incomplete items, and behind them the failed ones if they are to be redone. */
  function WorkIds(report: Report, redo: bool): seq<nat> {
    report.Incompletes() + (if redo then report.Failures() else [])
  }

  function Refiltered(workfile: string, ids: seq<nat>): string {
    Join(Selected(Yields(workfile, "", DEFAULT_SEP), ids), DEFAULT_SEP)
  }

  method Resume(log: seq<LogLine>, workfile: string, redo: bool) returns (r: Resumed)
    ensures match Parsed(log)
      case Err(e) => r == LogError(e)
      case Ok(None) => r == NoReport
      case Ok(Some(report)) =>
        var ids := WorkIds(report, redo);
        r == if ids == [] then NothingToDo else NewJob(ids, Refiltered(workfile, ids), |ids|)
    ensures r.LogError? <==> !(log != [] && AllLogLines(log) && DoneAfterStarted(log))
    ensures r.NoReport? <==> log != [] && AllLogLines(log) && DoneAfterStarted(log) && StartedIds(log) == {}
  {
    WhenParsed(log);
    var parsed := LogParsers.Parse(log);
    if parsed.Err? {
      return LogError(parsed.error);
    }
    if parsed.value.None? {
      return NoReport;
    }
    var report := parsed.value.value;
    var workIds := report.Incompletes();
    if redo {
      workIds := workIds + report.Failures();
    } else {
      assert workIds + [] == workIds;
    }
    if |workIds| == 0 {
      return NothingToDo;
    }
    var file, itemCount := FilterWorkfile(workfile, DEFAULT_SEP, workIds);
    return NewJob(workIds, file, |workIds|);
  }

  // ------------------------------------------------------------- selection

  /** What a resume selects from a log. */
  ghost predicate SelectedFromLog(log: seq<LogLine>, redo: bool, ids: seq<nat>) {
    var parsed := Parsed(log);
    parsed.Ok? && parsed.value.Some? && ids == WorkIds(parsed.value.value, redo)
  }

  /** What a resume selects from the log of a server that was killed in the given state. */
  ghost predicate SelectedFrom(s: Sys, redo: bool, ids: seq<nat>) {
    SelectedFromLog(s.server.log, redo, ids)
  }

  predicate NoDuplicates(ids: seq<nat>) {
    forall i, j :: 0 <= i < j < |ids| ==> ids[i] != ids[j]
  }

  lemma ConcatDistinct(x: seq<nat>, y: seq<nat>)
    requires Increasing(x) && Increasing(y) && forall id :: id in x ==> id !in y
    ensures NoDuplicates(x + y)
  {
    var ids := x + y;
    forall i, j | 0 <= i < j < |ids| ensures ids[i] != ids[j] {
      if i < |x| <= j {
        assert ids[i] in x && ids[j] == y[j - |x|] && ids[j] in y;
      }
    }
  }

  lemma ListsJoined(a: set<nat>, b: set<nat>)
    requires a !! b
    ensures var ids := Ascending(a) + Ascending(b);
      NoDuplicates(ids) && forall id: nat :: id in ids <==> id in a || id in b
  {
    var x, y := Ascending(a), Ascending(b);
    assert Increasing(x) && forall id :: id in x <==> id in a by { AscendingMembers(a); }
    assert Increasing(y) && forall id :: id in y <==> id in b by { AscendingMembers(b); }
    ConcatDistinct(x, y);
  }

  /** Wherever the job was killed, exactly the open items are selected, and with --redo the
      processed ones that failed; each of them once, and never one that succeeded. */
  lemma SelectionIsSafe(r: Run, k: nat, redo: bool, ids: seq<nat>)
    requires IsRun(r) && k < |r.states| && SelectedFrom(r.states[k], redo, ids)
    requires r.states[k].server.nrItems > 0
    ensures NoDuplicates(ids)
    ensures ids == Ascending(r.states[k].server.toDo)
                   + (if redo then Ascending(WithStatus(r.states[k].done, false)) else [])
    ensures var s := r.states[k]; forall id: nat ::
      id in ids <==> id in s.server.toDo || (redo && id in WithStatus(s.done, false))
    ensures forall id: nat :: id in WithStatus(r.states[k].done, true) ==> id !in ids
  {
    var s := r.states[k];
    LogTellsState(r, k);
    RunInv(r, k);
    SplitByStatus(s.server.nrItems, s.server.toDo, s.done);
    ListsJoined(s.server.toDo, if redo then WithStatus(s.done, false) else {});
    assert Ascending({}) == [];
    assert ids == Ascending(s.server.toDo) + Ascending(if redo then WithStatus(s.done, false) else {});
  }

  lemma CountsAt(r: Run, i: nat)
    requires IsRun(r) && i < |r.steps|
    ensures var s, t := r.states[i], r.states[i + 1];
      && s.server.nrItems <= t.server.nrItems <= s.server.nrItems + 1
      && (t.done == s.done || (t.done != [] && s.done == t.done[..|t.done| - 1]
                               && t.done[|t.done| - 1].id in s.server.toDo))
  {
    RunInv(r, i);
    assert StepAt(r, i);
    NodeOkAt(r, i, r.steps[i].c);
    StepCounts(r.states[i], r.steps[i], r.states[i + 1]);
  }

  lemma NewlyDone(done: seq<Completed>, more: seq<Completed>, toDo: set<nat>, id: nat)
    requires more == done || (more != [] && done == more[..|more| - 1] && more[|more| - 1].id in toDo)
    requires id in WithStatus(more, true)
    ensures id in toDo || id in WithStatus(done, true)
  {
    var j :| 0 <= j < |more| && more[j].result.exitStatus == 0 && more[j].id == id;
    if j < |done| {
      assert done[j] == more[j];
    }
  }

  /** The same when the job is killed within a round, with n lines in its log: what is
      selected is what would be in the state the log tells, before or after the round. At most
      one item that was sent is not known. An item that succeeded is selected only if its
      result was being processed in that round and is not logged. */
  lemma KilledWithinRound(r: Run, i: nat, n: nat, redo: bool, ids: seq<nat>)
    requires IsRun(r) && i < |r.steps|
    requires |r.states[i].server.log| <= n <= |r.states[i + 1].server.log|
    requires SelectedFromLog(r.states[i + 1].server.log[..n], redo, ids)
    ensures var before, after, told := r.states[i], r.states[i + 1], r.states[Told(r, i, n)];
      && NoDuplicates(ids) && SelectedFrom(told, redo, ids)
      && told.server.nrItems <= after.server.nrItems <= told.server.nrItems + 1
      && (forall id: nat :: id in WithStatus(after.done, true) ==>
            (id in ids <==> Told(r, i, n) == i && id !in WithStatus(before.done, true)))
  {
    var k := Told(r, i, n);
    CutReport(r, i, n);
    SelectionIsSafe(r, k, redo, ids);
    CountsAt(r, i);
    if k == i {
      forall id: nat | id in WithStatus(r.states[i + 1].done, true)
        ensures id in ids <==> id !in WithStatus(r.states[i].done, true)
      {
        NewlyDone(r.states[i].done, r.states[i + 1].done, r.states[i].server.toDo, id);
      }
    }
  }

  /** Items that were never given out are not selected, although they are not finished: a
      resume covers all the unfinished items exactly when none was left to give out. */
  lemma WhenResumeIsComplete(r: Run, k: nat, ids: seq<nat>)
    requires IsRun(r) && k < |r.states| && SelectedFrom(r.states[k], false, ids)
    requires r.states[k].server.nrItems > 0
    ensures var s := r.states[k];
      (forall id: nat :: 1 <= id <= |s.items| && !IsDone(s.done, id) ==> id in ids)
      <==> s.server.pending == []
  {
    SelectionIsSafe(r, k, false, ids);
    RunInv(r, k);
    var s := r.states[k];
    if s.server.pending != [] {
      var id := |s.items|;
      assert id !in s.server.toDo && !IsDone(s.done, id);
    }
  }

  // ------------------------------------------------------------ the new job

  lemma DefaultSeparator()
    ensures IsSeparator(DEFAULT_SEP)
  {
    assert StripEnd(DEFAULT_SEP) == DEFAULT_SEP;
  }

  /** What the filter makes of a workfile: the text each number stands for. */
  function Yielded(workfile: string): seq<string> {
    Yields(workfile, "", DEFAULT_SEP)
  }

  /** The selected numbers from 1 to n. */
  function Closed(ids: seq<nat>, n: nat): set<nat> {
    set id | id in ids && 1 <= id <= n
  }

  /** The selected numbers that stand for a text, in order. */
  function Kept(workfile: string, ids: seq<nat>): seq<nat> {
    Ascending(Closed(ids, |Yielded(workfile)|))
  }

  lemma ClosedInOrder(ids: seq<nat>, n: nat)
    ensures InOrder(Ascending(Closed(ids, n)), ids, n)
  {
    var ordered := Ascending(Closed(ids, n));
    AscendingMembers(Closed(ids, n));
    forall i | 0 <= i < |ordered| ensures 1 <= ordered[i] <= n && ordered[i] in ids {
      assert ordered[i] in ordered;
    }
  }

  /** The work items of the new job are, for any workfile, the texts the selected numbers
      stand for in the filter; if no line is the separator only after stripping, these are the
      segments with these numbers but the last. */
  lemma RefilteredItems(workfile: string, ids: seq<nat>)
    ensures var yielded, segments, kept := Yielded(workfile), Split(workfile, DEFAULT_SEP), Kept(workfile, ids);
      && InOrder(kept, ids, |yielded|)
      && WorkItems(Refiltered(workfile, ids), DEFAULT_SEP) == Numbered(yielded, kept)
      && (SeparatorsAgree(workfile, DEFAULT_SEP) ==>
            |yielded| == |segments| - 1 && Numbered(yielded, kept) == Numbered(segments, kept))
  {
    var yielded, segments, kept := Yielded(workfile), Split(workfile, DEFAULT_SEP), Kept(workfile, ids);
    DefaultSeparator();
    FilteredItems(workfile, ids, DEFAULT_SEP);
    ReadersAgree(workfile, DEFAULT_SEP);
    ClosedInOrder(ids, |yielded|);
    SelectedInOrder(yielded, ids, kept);
    if SeparatorsAgree(workfile, DEFAULT_SEP) {
      NumberedPrefix(segments, |segments| - 1, kept);
    }
  }

  lemma DispatchedNumber(s: Sys, id: nat)
    requires Inv(s) && (id in s.server.toDo || id in WithStatus(s.done, false))
    ensures 1 <= id <= |s.items|
  {
    if id !in s.server.toDo {
      assert IsDone(s.done, id);
    }
  }

  /** The numbers that are selected are numbers of the workfile the job has run on. */
  lemma SelectedNumbers(r: Run, k: nat, workfile: string, redo: bool, ids: seq<nat>)
    requires IsRun(r) && k < |r.states| && SelectedFrom(r.states[k], redo, ids)
    requires r.states[k].server.nrItems > 0
    requires r.states[0].items == WorkItems(workfile, DEFAULT_SEP)
    ensures var items, segments := r.states[k].items, Split(workfile, DEFAULT_SEP);
      && |items| <= |segments| && items == segments[..|items|]
      && forall id :: id in ids ==> 1 <= id <= |items|
  {
    var s := r.states[k];
    RunInv(r, k);
    RunConstants(r, k);
    SelectionIsSafe(r, k, redo, ids);
    forall id | id in ids ensures 1 <= id <= |s.items| {
      DispatchedNumber(s, id);
    }
  }

  lemma {:induction false} SelectedUpTo(segments: seq<string>, n: nat, ids: seq<nat>)
    requires n <= |segments| && AllUpTo(ids, n)
    ensures Selected(segments, ids) == Selected(segments[..n], ids)
  {
    var m := |segments|;
    if m == n {
      assert segments[..n] == segments;
    } else {
      SelectedUpTo(segments[..m - 1], n, ids);
      assert segments[..m - 1][..n] == segments[..n];
      assert Selected(segments[..m - 1], ids) + [] == Selected(segments[..m - 1], ids);
    }
  }

  /** Whether a filtered workfile holds the selected items. */
  predicate Resumes(workfile: string, items: seq<string>, ids: seq<nat>) {
    WorkItems(Refiltered(workfile, ids), DEFAULT_SEP) == Selected(items, ids)
  }

  lemma ResumesWhenSame(workfile: string, ids: seq<nat>, items: seq<string>)
    requires |items| <= |Split(workfile, DEFAULT_SEP)| && items == Split(workfile, DEFAULT_SEP)[..|items|]
    requires forall id :: id in ids ==> 1 <= id <= |items|
    ensures Resumes(workfile, items, ids) <==> AllSame(Yielded(workfile), Split(workfile, DEFAULT_SEP), ids)
    ensures SeparatorsAgree(workfile, DEFAULT_SEP) ==>
      (Resumes(workfile, items, ids) <==> |Split(workfile, DEFAULT_SEP)| !in ids)
  {
    SelectedUpTo(Split(workfile, DEFAULT_SEP), |items|, ids);
    DefaultSeparator();
    FilteredItems(workfile, ids, DEFAULT_SEP);
    FilterComplete(workfile, ids, DEFAULT_SEP);
  }

  lemma SameUpTo(workfile: string, ids: seq<nat>)
    ensures var c := Agreeing(workfile, DEFAULT_SEP);
      var same := AllSame(Yielded(workfile), Split(workfile, DEFAULT_SEP), ids);
      (AllUpTo(ids, c) ==> same) && (c + 1 in ids ==> !same)
  {
    var c := Agreeing(workfile, DEFAULT_SEP);
    DefaultSeparator();
    SameNumbers(workfile, DEFAULT_SEP, c + 1);
    forall id | id in ids && id <= c ensures SameAt(Yielded(workfile), Split(workfile, DEFAULT_SEP), id) {
      SameNumbers(workfile, DEFAULT_SEP, id);
    }
  }

  /** From one job to the next: a job on some workfile is killed in any state. The items of
      the job that resumes it are the selected items of the old one exactly when each selected
      number stands for the same text in the filter and in the server. So it is for all the
      numbers before the first line that is the separator only after stripping, and not for
      the next one; without such a line, for all but the number of the last segment. */
  lemma NextJobItems(r: Run, k: nat, workfile: string, redo: bool, ids: seq<nat>)
    requires IsRun(r) && k < |r.states| && SelectedFrom(r.states[k], redo, ids)
    requires r.states[k].server.nrItems > 0
    requires r.states[0].items == WorkItems(workfile, DEFAULT_SEP)
    ensures var right, c := Resumes(workfile, r.states[k].items, ids), Agreeing(workfile, DEFAULT_SEP);
      && (right <==> AllSame(Yielded(workfile), Split(workfile, DEFAULT_SEP), ids))
      && (AllUpTo(ids, c) ==> right) && (c + 1 in ids ==> !right)
      && (SeparatorsAgree(workfile, DEFAULT_SEP) ==> (right <==> |Split(workfile, DEFAULT_SEP)| !in ids))
  {
    SelectedNumbers(r, k, workfile, redo, ids);
    ResumesWhenSame(workfile, ids, r.states[k].items);
    SameUpTo(workfile, ids);
  }

  ghost predicate KeepsItems(workfile: string, ids: seq<nat>, items: seq<string>) {
    var kept := Kept(workfile, ids);
    && (forall i :: 0 <= i < |kept| ==> 1 <= kept[i] <= |items|)
    && Increasing(kept)
    && (SeparatorsAgree(workfile, DEFAULT_SEP) ==>
          && WorkItems(Refiltered(workfile, ids), DEFAULT_SEP) == Numbered(items, kept)
          && forall id: nat :: id in kept <==> id in ids && id != |Split(workfile, DEFAULT_SEP)|)
  }

  lemma KeptTexts(workfile: string, ids: seq<nat>, items: seq<string>)
    requires |items| <= |Split(workfile, DEFAULT_SEP)| && items == Split(workfile, DEFAULT_SEP)[..|items|]
    requires forall id :: id in ids ==> 1 <= id <= |items|
    ensures KeepsItems(workfile, ids, items)
  {
    var segments, kept := Split(workfile, DEFAULT_SEP), Kept(workfile, ids);
    RefilteredItems(workfile, ids);
    AscendingMembers(Closed(ids, |Yielded(workfile)|));
    NumberedPrefix(segments, |items|, kept);
  }

  /** What the new job keeps are numbers of the old one; its items are, if no line is the
      separator only after stripping, the selected items of the old one, in order, except the
      one behind the last separator line. */
  lemma NextJobKeeps(r: Run, k: nat, workfile: string, redo: bool, ids: seq<nat>)
    requires IsRun(r) && k < |r.states| && SelectedFrom(r.states[k], redo, ids)
    requires r.states[k].server.nrItems > 0
    requires r.states[0].items == WorkItems(workfile, DEFAULT_SEP)
    ensures KeepsItems(workfile, ids, r.states[k].items)
  {
    SelectedNumbers(r, k, workfile, redo, ids);
    KeptTexts(workfile, ids, r.states[k].items);
  }

  /** The number in the old job of an item of the new one. */
  function OldNumber(workfile: string, ids: seq<nat>, id: nat): nat
    requires 1 <= id <= |Kept(workfile, ids)|
  {
    Kept(workfile, ids)[id - 1]
  }

  predicate IsNumberOf(workfile: string, ids: seq<nat>, id: nat, number: nat) {
    1 <= id <= |Kept(workfile, ids)| && OldNumber(workfile, ids, id) == number
  }

  lemma NumberedAt(items: seq<string>, texts: seq<string>, kept: seq<nat>, ids: seq<nat>, i: nat)
    requires InOrder(kept, ids, |texts|) && items == Numbered(texts, kept) && i < |kept|
    ensures |items| == |kept| && kept[i] in ids && 1 <= kept[i] <= |texts|
    ensures items[i] == texts[kept[i] - 1] + "\n"
  {
  }

  lemma OldNumberIs(workfile: string, ids: seq<nat>, items: seq<string>, id: nat)
    requires items == WorkItems(Refiltered(workfile, ids), DEFAULT_SEP) && 1 <= id <= |items|
    ensures |items| == |Kept(workfile, ids)|
    ensures var number := OldNumber(workfile, ids, id);
      && number in ids && 1 <= number <= |Yielded(workfile)|
      && items[id - 1] == Yielded(workfile)[number - 1] + "\n"
  {
    assert InOrder(Kept(workfile, ids), ids, |Yielded(workfile)|)
        && items == Numbered(Yielded(workfile), Kept(workfile, ids)) by { RefilteredItems(workfile, ids); }
    NumberedAt(items, Yielded(workfile), Kept(workfile, ids), ids, id - 1);
  }

  lemma OldText(workfile: string, items: seq<string>, number: nat)
    requires |items| <= |Split(workfile, DEFAULT_SEP)| && items == Split(workfile, DEFAULT_SEP)[..|items|]
    requires 1 <= number <= |items| && number <= |Yielded(workfile)| && SeparatorsAgree(workfile, DEFAULT_SEP)
    ensures Yielded(workfile)[number - 1] == items[number - 1]
  {
    DefaultSeparator();
    ReadersAgree(workfile, DEFAULT_SEP);
  }

  lemma ExecutedItem(q: Run, j: nat, c: Uuid)
    requires IsRun(q) && j < |q.states| && c in q.states[j].nodes && q.states[j].nodes[c].stage.Executing?
    ensures var stage, items := q.states[j].nodes[c].stage, q.states[0].items;
      1 <= stage.id <= |items| && stage.item == items[stage.id - 1]
  {
    RightItem(q, j, c);
    RunConstants(q, j);
  }

  lemma ExecutedText(workfile: string, ids: seq<nat>, q: Run, j: nat, c: Uuid)
    requires IsRun(q) && j < |q.states| && c in q.states[j].nodes && q.states[j].nodes[c].stage.Executing?
    requires q.states[0].items == WorkItems(Refiltered(workfile, ids), DEFAULT_SEP)
    ensures var stage := q.states[j].nodes[c].stage;
      && 1 <= stage.id <= |Kept(workfile, ids)|
      && var number := OldNumber(workfile, ids, stage.id);
         && number in ids && 1 <= number <= |Yielded(workfile)|
         && stage.item == Yielded(workfile)[number - 1] + "\n"
  {
    ExecutedItem(q, j, c);
    OldNumberIs(workfile, ids, q.states[0].items, q.states[j].nodes[c].stage.id);
  }

  /** What is executed has the text of a selected number that has not succeeded, with one more
      newline; if no line is the separator only after stripping, that of the item itself. */
  predicate Redoes(workfile: string, ids: seq<nat>, items: seq<string>, done: seq<Completed>, stage: Stage) {
    && stage.Executing? && 1 <= stage.id <= |Kept(workfile, ids)|
    && var number := OldNumber(workfile, ids, stage.id);
       && number in ids && number !in WithStatus(done, true)
       && 1 <= number <= |items| && number <= |Yielded(workfile)|
       && stage.item == Yielded(workfile)[number - 1] + "\n"
       && (SeparatorsAgree(workfile, DEFAULT_SEP) ==> stage.item == items[number - 1] + "\n")
  }

  lemma RedoesOld(workfile: string, ids: seq<nat>, items: seq<string>, done: seq<Completed>, stage: Stage)
    requires stage.Executing? && 1 <= stage.id <= |Kept(workfile, ids)|
    requires |items| <= |Split(workfile, DEFAULT_SEP)| && items == Split(workfile, DEFAULT_SEP)[..|items|]
    requires var number := OldNumber(workfile, ids, stage.id);
      && number in ids && number !in WithStatus(done, true)
      && 1 <= number <= |items| && number <= |Yielded(workfile)|
      && stage.item == Yielded(workfile)[number - 1] + "\n"
    ensures Redoes(workfile, ids, items, done, stage)
  {
    if SeparatorsAgree(workfile, DEFAULT_SEP) {
      OldText(workfile, items, OldNumber(workfile, ids, stage.id));
    }
  }

  lemma SelectedSafely(r: Run, k: nat, workfile: string, redo: bool, ids: seq<nat>, number: nat)
    requires IsRun(r) && k < |r.states| && SelectedFrom(r.states[k], redo, ids)
    requires r.states[k].server.nrItems > 0 && number in ids
    requires r.states[0].items == WorkItems(workfile, DEFAULT_SEP)
    ensures var items, segments := r.states[k].items, Split(workfile, DEFAULT_SEP);
      |items| <= |segments| && items == segments[..|items|] && 1 <= number <= |items|
    ensures number !in WithStatus(r.states[k].done, true)
  {
    SelectionIsSafe(r, k, redo, ids);
    SelectedNumbers(r, k, workfile, redo, ids);
  }

  /** Two jobs: the first is killed in any state, and the second runs on what a resume makes
      of its workfile. Whatever a client executes in the second job, it is the text of a
      selected number of the first one, with one more newline, and that number has not
      succeeded; if no line is the separator only after stripping, the text is that item. */
  lemma SecondJobExecutes(r: Run, k: nat, workfile: string, redo: bool, ids: seq<nat>, q: Run, j: nat, c: Uuid)
    requires IsRun(r) && k < |r.states| && SelectedFrom(r.states[k], redo, ids)
    requires r.states[k].server.nrItems > 0
    requires r.states[0].items == WorkItems(workfile, DEFAULT_SEP)
    requires IsRun(q) && j < |q.states| && c in q.states[j].nodes && q.states[j].nodes[c].stage.Executing?
    requires q.states[0].items == WorkItems(Refiltered(workfile, ids), DEFAULT_SEP)
    ensures Redoes(workfile, ids, r.states[k].items, r.states[k].done, q.states[j].nodes[c].stage)
  {
    var stage, items := q.states[j].nodes[c].stage, r.states[k].items;
    ExecutedText(workfile, ids, q, j, c);
    SelectedSafely(r, k, workfile, redo, ids, OldNumber(workfile, ids, stage.id));
    RedoesOld(workfile, ids, items, r.states[k].done, stage);
  }

  lemma AllProcessed(q: Run, j: nat, id: nat)
    requires IsRun(q) && j < |q.states| && q.states[j].server.status == Finished
    requires 1 <= id <= |q.states[j].items|
    ensures IsDone(q.states[j].done, id)
  {
    RunInv(q, j);
  }

  /** When the second job has left its loop, every selected number that stands for a text was
      executed in it and its result processed, and each only once. */
  lemma SecondJobCompletes(workfile: string, ids: seq<nat>, q: Run, j: nat, number: nat)
    requires IsRun(q) && j < |q.states| && q.states[j].server.status == Finished
    requires q.states[0].items == WorkItems(Refiltered(workfile, ids), DEFAULT_SEP)
    requires number in ids && 1 <= number <= |Yielded(workfile)|
    ensures exists id: nat :: IsNumberOf(workfile, ids, id, number) && IsDone(q.states[j].done, id)
    ensures var done := q.states[j].done;
      forall i, i' :: 0 <= i < i' < |done| ==> done[i].id != done[i'].id
  {
    RefilteredItems(workfile, ids);
    RunConstants(q, j);
    Conservation(q, j, 1);
    var kept := Kept(workfile, ids);
    assert number in kept;
    var p :| 0 <= p < |kept| && kept[p] == number;
    AllProcessed(q, j, p + 1);
    assert IsNumberOf(workfile, ids, p + 1, number);
  }

  lemma RefilteredCount(workfile: string, ids: seq<nat>)
    ensures |WorkItems(Refiltered(workfile, ids), DEFAULT_SEP)| == |Ascending(Closed(ids, |Yielded(workfile)|))|
  {
    RefilteredItems(workfile, ids);
  }

  lemma {:induction false} AscendingCount(s: set<nat>)
    ensures |Ascending(s)| == |s|
  {
    if s == {} {
    } else {
      AscendingCount(s - {Least(s)});
    }
  }

  lemma ClosedAppend(ids: seq<nat>, last: nat, n: nat)
    requires 1 <= last
    ensures Closed(ids + [last], n) == Closed(ids, n) + (if last <= n then {last} else {})
  {
    var a, b := Closed(ids + [last], n), Closed(ids, n) + (if last <= n then {last} else {});
    forall id: nat ensures id in a <==> id in b {
    }
  }

  lemma {:induction false} DistinctCount(ids: seq<nat>, n: nat)
    requires NoDuplicates(ids) && forall id :: id in ids ==> 1 <= id
    ensures |Closed(ids, n)| <= |ids|
    ensures |Closed(ids, n)| == |ids| <==> AllUpTo(ids, n)
  {
    if ids == [] {
    } else {
      var init, last := ids[..|ids| - 1], ids[|ids| - 1];
      assert ids == init + [last];
      assert last in ids && forall id: nat :: id in ids <==> id in init || id == last;
      DistinctCount(init, n);
      ClosedAppend(init, last, n);
      assert last !in init;
    }
  }

  lemma CountClosed(ids: seq<nat>, n: nat)
    requires NoDuplicates(ids) && forall id :: id in ids ==> 1 <= id
    ensures |Ascending(Closed(ids, n))| == |ids| <==> AllUpTo(ids, n)
  {
    AscendingCount(Closed(ids, n));
    DistinctCount(ids, n);
  }

  lemma YieldedCount(workfile: string)
    ensures var n := |Split(workfile, DEFAULT_SEP)|;
      if SeparatorsAgree(workfile, DEFAULT_SEP) then |Yielded(workfile)| == n - 1 else n <= |Yielded(workfile)|
  {
    DefaultSeparator();
    ReadersDiffer(workfile, "", DEFAULT_SEP);
    ExtendEmpty(Split(workfile, DEFAULT_SEP));
  }

  lemma UpToLast(ids: seq<nat>, yielded: nat, n: nat, agree: bool)
    requires forall id :: id in ids ==> id <= n
    requires if agree then yielded == n - 1 else n <= yielded
    ensures AllUpTo(ids, yielded) <==> !agree || n !in ids
  {
  }

  lemma CountResumed(workfile: string, ids: seq<nat>)
    requires NoDuplicates(ids)
    requires forall id :: id in ids ==> 1 <= id <= |Split(workfile, DEFAULT_SEP)|
    ensures |WorkItems(Refiltered(workfile, ids), DEFAULT_SEP)| == |ids|
       <==> !SeparatorsAgree(workfile, DEFAULT_SEP) || |Split(workfile, DEFAULT_SEP)| !in ids
  {
    RefilteredCount(workfile, ids);
    CountClosed(ids, |Yielded(workfile)|);
    YieldedCount(workfile);
    UpToLast(ids, |Yielded(workfile)|, |Split(workfile, DEFAULT_SEP)|, SeparatorsAgree(workfile, DEFAULT_SEP));
  }

  /** The number of items that is announced is the number in the new workfile, for any
      workfile, unless no line is the separator only after stripping and the segment behind
      the last separator line is among the selected ones. */
  lemma WhenAnnouncedIsRight(r: Run, k: nat, workfile: string, redo: bool, ids: seq<nat>)
    requires IsRun(r) && k < |r.states| && SelectedFrom(r.states[k], redo, ids)
    requires r.states[k].server.nrItems > 0
    requires r.states[0].items == WorkItems(workfile, DEFAULT_SEP)
    ensures |WorkItems(Refiltered(workfile, ids), DEFAULT_SEP)| == |ids|
       <==> !SeparatorsAgree(workfile, DEFAULT_SEP) || |Split(workfile, DEFAULT_SEP)| !in ids
  {
    SelectedNumbers(r, k, workfile, redo, ids);
    SelectionIsSafe(r, k, redo, ids);
    CountResumed(workfile, ids);
  }

  lemma CreatedSegments(rows: seq<Row>, script: string)
    requires rows != []
    requires forall i :: 0 <= i < |rows| ==> !HasLine(ItemText(rows[i], script), DEFAULT_SEP)
    ensures var workfile := Join(ItemTexts(rows, script), DEFAULT_SEP);
      && WorkItems(workfile, DEFAULT_SEP) == ItemTexts(rows, script)
      && |Split(workfile, DEFAULT_SEP)| == |rows|
  {
    var texts := ItemTexts(rows, script);
    CreatedItems(rows, script, DEFAULT_SEP);
    assert Clean(texts, DEFAULT_SEP) by {
      forall i | 0 <= i < |texts| ensures Terminated(texts[i]) && !HasLine(texts[i], DEFAULT_SEP) {
        assert texts[i] == ItemText(rows[i], script);
      }
    }
    SplitJoin(texts, DEFAULT_SEP);
  }

  lemma LastKept(workfile: string, ids: seq<nat>)
    ensures var n := |Split(workfile, DEFAULT_SEP)|;
      n in Kept(workfile, ids) <==> n in ids && !SeparatorsAgree(workfile, DEFAULT_SEP)
  {
    AscendingMembers(Closed(ids, |Yielded(workfile)|));
    YieldedCount(workfile);
  }

  /** A workfile as it is created for n rows has n segments, and the last one, item number n,
      is kept exactly when it is selected and some line is the separator after stripping. */
  lemma LastRowIsNotResumed(rows: seq<Row>, script: string, ids: seq<nat>)
    requires rows != []
    requires forall i :: 0 <= i < |rows| ==> !HasLine(ItemText(rows[i], script), DEFAULT_SEP)
    ensures var workfile := Join(ItemTexts(rows, script), DEFAULT_SEP);
      && WorkItems(workfile, DEFAULT_SEP) == ItemTexts(rows, script)
      && |Split(workfile, DEFAULT_SEP)| == |rows|
      && (|rows| in Kept(workfile, ids) <==> |rows| in ids && !SeparatorsAgree(workfile, DEFAULT_SEP))
  {
    CreatedSegments(rows, script);
    LastKept(Join(ItemTexts(rows, script), DEFAULT_SEP), ids);
  }
}
