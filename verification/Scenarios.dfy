/** Runs that reach the cases in which a resume does not do what it is meant to. */
module Scenarios {
  import opened Outcomes
  import opened Text
  import opened Segments
  import opened Messages
  import opened LogParsers
  import opened Workfiles
  import opened IndentedSeparators
  import opened WorkParsers
  import opened Servers
  import opened Clients
  import opened Protocol
  import opened Safety
  import opened Guarantees
  import opened Resumption
  import Liveness
  import Results

  // ------------------------------------------------------ building runs

  function Last(r: Run): Sys
    requires r.states != []
  {
    r.states[|r.states| - 1]
  }

  lemma Continued(r: Run, step: Step) returns (next: Run)
    requires IsRun(r) && Enabled(Last(r), step)
    ensures IsRun(next) && Last(next) == Do(Last(r), step) && next.states[0] == r.states[0]
  {
    next := Run(r.states + [Do(Last(r), step)], r.steps + [step]);
    forall i | 0 <= i < |next.steps| ensures StepAt(next, i) {
      assert i < |r.steps| ==> StepAt(r, i);
    }
  }

  lemma Begun(s: Sys) returns (r: Run)
    requires Init(s)
    ensures IsRun(r) && r.states == [s]
  {
    r := Run([s], []);
  }

  /** A client that can ask for work, and a server that has some. */
  predicate CanAsk(s: Sys, c: Uuid) {
    c in s.nodes && s.nodes[c] == Node(true, Ready, Idle) && s.server.status == Running && s.server.pending != []
  }

  /** The client has been sent the last item that was given out. */
  predicate IsGiven(s: Sys, c: Uuid) {
    && c in s.nodes && s.nodes[c].alive && s.nodes[c].stage == AwaitReply
    && s.nodes[c].wire.Reply? && s.nodes[c].wire.msg.subject == Work && s.nodes[c].wire.msg.id == s.server.nrItems
    && s.server.status == Running && s.server.nrItems > 0
  }

  lemma AskStep(s: Sys, c: Uuid, t: Sys)
    requires CanAsk(s, c) && Enabled(s, SendQuery(c)) && t == Do(s, SendQuery(c))
    ensures t == Put(s, c, Node(true, AwaitReply, Request(QueryMessage(c, s.server.id))))
  {
  }

  lemma GiveStep(s: Sys, c: Uuid, now: int)
    requires c in s.nodes && s.nodes[c] == Node(true, AwaitReply, Request(QueryMessage(c, s.server.id)))
    requires s.server.status == Running && s.server.pending != [] && s.server.nrItems + 1 < SIZE_LIMIT
    ensures var t := Serving(s, c, now);
      && IsGiven(t, c)
      && t.items == s.items && t.done == s.done
      && t.server.nrItems == s.server.nrItems + 1 && t.server.pending == s.server.pending[1..]
      && t.server.toDo == s.server.toDo + {t.server.nrItems}
  {
    assert s.done + [] == s.done;
  }

  /** A client asks for work and is sent the next item. */
  lemma ItemGiven(r: Run, c: Uuid) returns (next: Run)
    requires IsRun(r) && CanAsk(Last(r), c)
    ensures IsRun(next) && next.states[0] == r.states[0] && IsGiven(Last(next), c)
    ensures var s, t := Last(r), Last(next);
      && t.items == s.items && t.done == s.done
      && t.server.nrItems == s.server.nrItems + 1 && t.server.pending == s.server.pending[1..]
      && t.server.toDo == s.server.toDo + {t.server.nrItems}
  {
    RunInv(r, |r.states| - 1);
    var asked := Continued(r, SendQuery(c));
    AskStep(Last(r), c, Last(asked));
    next := Continued(asked, Serve(c, 0));
    GiveStep(Last(asked), c, 0);
  }

  lemma TakeStep(s: Sys, c: Uuid, id: SizeT, now: int)
    requires c in s.nodes && s.nodes[c].alive && s.nodes[c].stage == AwaitAck
    requires s.nodes[c].wire == Request(ResultMessage(c, s.server.id, id, Liveness.NOTHING))
    requires s.server.status == Running && s.server.pending != []
    ensures var t := Serving(s, c, now);
      && t.nodes == s.nodes[c := s.nodes[c].(wire := Reply(Message(s.server.id, c, Ack, 0, "")))]
      && t.items == s.items && t.done == s.done + [Completed(id, Liveness.NOTHING)]
      && t.server.status == Running && t.server.nrItems == s.server.nrItems
      && t.server.pending == s.server.pending && t.server.toDo == s.server.toDo - {id}
  {
    Liveness.NothingFits();
    Results.RoundTrip(Liveness.NOTHING);
  }

  /** The client executes its item with exit status 0, and is acknowledged. */
  lemma ItemDone(r: Run, c: Uuid) returns (next: Run)
    requires IsRun(r) && IsGiven(Last(r), c) && Last(r).server.pending != []
    ensures IsRun(next) && next.states[0] == r.states[0] && CanAsk(Last(next), c)
    ensures var s, t := Last(r), Last(next);
      && t.items == s.items
      && t.done == s.done + [Completed(s.server.nrItems, Liveness.NOTHING)]
      && t.server.nrItems == s.server.nrItems && t.server.pending == s.server.pending
      && t.server.toDo == s.server.toDo - {s.server.nrItems}
  {
    Liveness.NothingFits();
    var received := Continued(r, Receive(c));
    var executed := Continued(received, Execute(c, Liveness.NOTHING));
    var taken := Continued(executed, Serve(c, 0));
    TakeStep(Last(executed), c, Last(r).server.nrItems, 0);
    next := Continued(taken, Receive(c));
  }

  // -------------------------------------------------------- the selection

  /** What a resume selects at the end of a run with only one open item and no failed ones. */
  lemma OneSelected(r: Run, id: nat) returns (ids: seq<nat>)
    requires IsRun(r) && Last(r).server.nrItems > 0 && Last(r).server.toDo == {id}
    ensures SelectedFrom(Last(r), false, ids) && ids == [id]
  {
    var s := Last(r);
    LogTellsState(r, |r.states| - 1);
    ids := Ascending({id}) + [];
    AscendingMembers({id});
    AscendingCount({id});
    assert Ascending({id})[0] in Ascending({id});
    assert ids == [id];
  }

  /** A job that is killed when the first item was given out. */
  lemma FirstIsOpen(s: Sys, c: Uuid) returns (r: Run, ids: seq<nat>)
    requires Init(s) && c in s.nodes && s.items != []
    ensures IsRun(r) && r.states[0] == s && SelectedFrom(Last(r), false, ids) && ids == [1]
    ensures Last(r).done == [] && Last(r).server.pending == s.items[1..]
  {
    r := Begun(s);
    r := ItemGiven(r, c);
    ids := OneSelected(r, 1);
  }

  /** A job with at least two items that is killed when the first one was given out: only
      that one is resumed. */
  lemma SomeNeverStarted(s: Sys, c: Uuid) returns (r: Run, ids: seq<nat>)
    requires Init(s) && c in s.nodes && |s.items| >= 2
    ensures IsRun(r) && r.states[0] == s && SelectedFrom(Last(r), false, ids) && ids == [1]
    ensures !IsDone(Last(r).done, 2) && Last(r).server.pending != []
  {
    r, ids := FirstIsOpen(s, c);
  }

  lemma FilteredNothing()
    ensures WorkItems(Refiltered("echo\n", [1]), DEFAULT_SEP) == []
    ensures |WorkItems("echo\n", DEFAULT_SEP)| == 1
  {
    LastItemLost();
    DefaultSeparator();
    FilteredItems("echo\n", [1], DEFAULT_SEP);
  }

  /** The same job with a workfile of a single item: one item is announced, and the new
      workfile has none. */
  lemma NothingResumed(s: Sys, c: Uuid) returns (r: Run, ids: seq<nat>)
    requires Init(s) && c in s.nodes && s.items == WorkItems("echo\n", DEFAULT_SEP)
    ensures IsRun(r) && r.states[0] == s && SelectedFrom(Last(r), false, ids) && |ids| == 1
    ensures WorkItems(Refiltered("echo\n", ids), DEFAULT_SEP) == []
  {
    assert s.items != [] && WorkItems(Refiltered("echo\n", [1]), DEFAULT_SEP) == [] by { FilteredNothing(); }
    r, ids := FirstIsOpen(s, c);
  }

  // ------------------------------------- a line with the separator in it

  lemma OneInOrder(id: nat, n: nat)
    requires 1 <= id <= n
    ensures InOrder([id], [id], n)
  {
  }

  lemma NumberedOne(texts: seq<string>, id: nat)
    requires 1 <= id <= |texts|
    ensures Numbered(texts, [id]) == [texts[id - 1] + "\n"]
  {
  }

  lemma SelectedOne(texts: seq<string>, id: nat)
    requires 1 <= id <= |texts|
    ensures Selected(texts, [id]) == [texts[id - 1] + "\n"]
  {
    OneInOrder(id, |texts|);
    SelectedInOrder(texts, [id], [id]);
    NumberedOne(texts, id);
  }

  /** What a resume of a single number makes of a workfile. */
  lemma OneRefiltered(workfile: string, id: nat)
    requires 1 <= id <= |Yielded(workfile)|
    ensures WorkItems(Refiltered(workfile, [id]), DEFAULT_SEP) == [Yielded(workfile)[id - 1] + "\n"]
  {
    SelectedOne(Yielded(workfile), id);
    DefaultSeparator();
    FilteredItems(workfile, [id], DEFAULT_SEP);
  }

  /** A job with three items: two succeed, and the third is open when it is killed. */
  lemma ThirdIsOpen(s: Sys, c: Uuid) returns (r: Run)
    requires Init(s) && c in s.nodes && |s.items| == 3
    ensures IsRun(r) && r.states[0] == s && Last(r).server.nrItems == 3 && Last(r).server.toDo == {3}
    ensures Last(r).done == [Completed(1, Liveness.NOTHING), Completed(2, Liveness.NOTHING)]
  {
    r := Begun(s);
    r := ItemGiven(r, c);
    r := ItemDone(r, c);
    r := ItemGiven(r, c);
    r := ItemDone(r, c);
    r := ItemGiven(r, c);
  }

  predicate IsPlainItem(text: string) {
    text != "" && IsPart(text, DEFAULT_SEP)
  }

  /** The items of a workfile with three rows, the first of which is cut. */
  predicate CutsFirst(items: seq<string>, first: string, m: string, second: string) {
    && |items| == 3 && items[0] == Cut(first, m, second)
    && IsPart(first, DEFAULT_SEP) && IsMark(m, DEFAULT_SEP) && m != DEFAULT_SEP && IsPlainItem(second)
    && IsPlainItem(items[1]) && IsPlainItem(items[2])
  }

  lemma PlainIsItem(text: string)
    requires IsPlainItem(text)
    ensures IsItemText(text, DEFAULT_SEP)
  {
    DefaultSeparator();
    PlainHasNone(text, DEFAULT_SEP);
  }

  lemma CutIsItem(first: string, m: string, second: string)
    requires IsPart(first, DEFAULT_SEP) && IsMark(m, DEFAULT_SEP) && m != DEFAULT_SEP && IsPlainItem(second)
    ensures IsItemText(Cut(first, m, second), DEFAULT_SEP)
  {
    var text := Cut(first, m, second);
    DefaultSeparator();
    CutHasNone(first, m, second, DEFAULT_SEP);
    assert text[|text| - 1] == second[|second| - 1];
  }

  lemma ItemsRead(items: seq<string>)
    requires AllItems(items, DEFAULT_SEP)
    ensures WorkItems(Join(items, DEFAULT_SEP), DEFAULT_SEP) == items
  {
    assert Clean(items, DEFAULT_SEP) by {
      forall i | 0 <= i < |items| ensures Terminated(items[i]) && !HasLine(items[i], DEFAULT_SEP) {
        assert IsItemText(items[i], DEFAULT_SEP);
      }
    }
    forall i | 0 <= i < |items| ensures items[i] != "" && Terminated(items[i]) {
      assert IsItemText(items[i], DEFAULT_SEP);
    }
    ItemsOfJoin(items, DEFAULT_SEP);
  }

  lemma ThreeAre(items: seq<string>)
    requires |items| == 3 && IsItemText(items[0], DEFAULT_SEP)
    requires IsItemText(items[1], DEFAULT_SEP) && IsItemText(items[2], DEFAULT_SEP)
    ensures AllItems(items, DEFAULT_SEP)
  {
    forall i | 0 <= i < |items| ensures IsItemText(items[i], DEFAULT_SEP) {
      assert i == 0 || i == 1 || i == 2;
    }
  }

  lemma CutItemsRead(items: seq<string>, first: string, m: string, second: string)
    requires CutsFirst(items, first, m, second)
    ensures WorkItems(Join(items, DEFAULT_SEP), DEFAULT_SEP) == items
  {
    assert AllItems(items, DEFAULT_SEP) by {
      assert IsItemText(items[0], DEFAULT_SEP) by { CutIsItem(first, m, second); }
      assert IsItemText(items[1], DEFAULT_SEP) by { PlainIsItem(items[1]); }
      assert IsItemText(items[2], DEFAULT_SEP) by { PlainIsItem(items[2]); }
      ThreeAre(items);
    }
    ItemsRead(items);
  }

  lemma ThreeYielded(first: string, m: string, second: string, others: seq<string>)
    requires IsPart(first, DEFAULT_SEP) && IsMark(m, DEFAULT_SEP) && IsPart(second, DEFAULT_SEP)
    requires |others| == 2 && IsPlainItem(others[0]) && IsPlainItem(others[1])
    ensures Yielded(Join([Cut(first, m, second)] + others, DEFAULT_SEP)) == [first, second] + others[..1]
  {
    DefaultSeparator();
    assert AllParts(others, DEFAULT_SEP) by {
      assert IsPlainItem(others[0]) && IsPlainItem(others[1]);
    }
    FirstIsCut(first, m, second, others, DEFAULT_SEP);
  }

  lemma OneAndTwo(items: seq<string>)
    requires |items| == 3
    ensures items == [items[0]] + items[1..] && items[1..][..1] == [items[1]]
  {
  }

  lemma CutItemsYielded(items: seq<string>, first: string, m: string, second: string)
    requires CutsFirst(items, first, m, second)
    ensures Yielded(Join(items, DEFAULT_SEP)) == [first, second, items[1]]
  {
    ThreeYielded(first, m, second, items[1..]);
    OneAndTwo(items);
  }

  /** A job on such a workfile that is killed while its third item is open, the others having
      succeeded: the job that resumes it executes the second one, and not the third. */
  lemma SecondIsRepeated(s: Sys, c: Uuid, items: seq<string>, first: string, m: string, second: string)
    returns (r: Run, ids: seq<nat>)
    requires Init(s) && c in s.nodes && s.items == items && CutsFirst(items, first, m, second)
    ensures IsRun(r) && r.states[0] == s && SelectedFrom(Last(r), false, ids)
    ensures ids == [3] && 2 in WithStatus(Last(r).done, true)
    ensures WorkItems(Refiltered(Join(items, DEFAULT_SEP), ids), DEFAULT_SEP) == [items[1] + "\n"]
  {
    CutItemsYielded(items, first, m, second);
    OneRefiltered(Join(items, DEFAULT_SEP), 3);
    r := ThirdIsOpen(s, c);
    assert Last(r).done[1].id == 2;
    ids := OneSelected(r, 3);
  }

  // ------------------------------------------------ created workfiles

  /** A line that starts with a visible character other than a hash. */
  predicate IsVisible(line: string) {
    '\n' !in line && line != "" && !IsSpace(line[0]) && line[0] != '#'
  }

  lemma {:induction false} VisibleKept(line: string)
    requires line != "" && !IsSpace(line[0])
    ensures StripEnd(line) != "" && StripEnd(line)[0] == line[0]
  {
    if !IsSpace(line[|line| - 1]) {
    } else {
      VisibleKept(line[..|line| - 1]);
    }
  }

  lemma VisibleLine(line: string)
    requires IsVisible(line)
    ensures Strip(line) != DEFAULT_SEP
  {
    VisibleKept(line);
  }

  lemma ExportVisible(name: string, value: string, end: string)
    requires '\n' !in name && '\n' !in value && '\n' !in end
    ensures IsVisible("export " + name + "='" + value + end)
  {
    var line := "export " + name + "='" + value + end;
    assert line[0] == 'e';
  }

  /** A line, an empty line, and a script of one line. */
  function LineAndScript(line: string, script: string): string {
    line + "\n" + ("" + "\n" + (script + "\n" + ""))
  }

  lemma LineAndScriptPlain(line: string, script: string)
    requires IsVisible(line) && IsVisible(script)
    ensures IsPlainItem(LineAndScript(line, script))
  {
    VisibleLine(line);
    VisibleLine(script);
    PartLine(script, "", DEFAULT_SEP);
    PartLine("", script + "\n" + "", DEFAULT_SEP);
    PartLine(line, "" + "\n" + (script + "\n" + ""), DEFAULT_SEP);
  }

  lemma OneVariable(name: string, value: string, script: string)
    ensures ItemText([(name, value)], script) == LineAndScript("export " + name + "='" + value + "'", script)
  {
    assert Exports([(name, value)]) == ExportLine((name, value)) by {
      assert [(name, value)][..0] == [];
    }
  }

  /** A value of three lines. */
  function ThreeLines(a: string, m: string, b: string): string {
    a + "\n" + (m + "\n" + b)
  }

  lemma ThreeLinesCut(name: string, a: string, m: string, b: string, script: string)
    ensures ItemText([(name, ThreeLines(a, m, b))], script)
         == Cut("export " + name + "='" + a + "" + "\n" + "", m, LineAndScript(b + "'", script))
  {
    OneVariable(name, ThreeLines(a, m, b), script);
  }

  /** Three rows of one variable, the first with a value of three lines. */
  function ThreeRows(name: string, a: string, m: string, b: string, value2: string, value3: string): seq<Row> {
    [[(name, ThreeLines(a, m, b))], [(name, value2)], [(name, value3)]]
  }

  lemma FirstRowCut(name: string, a: string, m: string, b: string, script: string)
    requires '\n' !in name && '\n' !in a && IsVisible(b) && IsVisible(script)
    ensures var first, second := "export " + name + "='" + a + "" + "\n" + "", LineAndScript(b + "'", script);
      && ItemText([(name, ThreeLines(a, m, b))], script) == Cut(first, m, second)
      && IsPart(first, DEFAULT_SEP) && IsPlainItem(second)
  {
    ThreeLinesCut(name, a, m, b, script);
    ExportVisible(name, a, "");
    VisibleLine("export " + name + "='" + a + "");
    PartLine("export " + name + "='" + a + "", "", DEFAULT_SEP);
    assert IsVisible(b + "'");
    LineAndScriptPlain(b + "'", script);
  }

  lemma OtherRowPlain(name: string, value: string, script: string)
    requires '\n' !in name && '\n' !in value && IsVisible(script)
    ensures IsPlainItem(ItemText([(name, value)], script))
  {
    OneVariable(name, value, script);
    ExportVisible(name, value, "'");
    LineAndScriptPlain("export " + name + "='" + value + "'", script);
  }

  lemma ThreeTexts(x: Row, y: Row, z: Row, script: string)
    ensures ItemTexts([x, y, z], script) == [ItemText(x, script), ItemText(y, script), ItemText(z, script)]
  {
  }

  lemma ThreeRowsCut(name: string, a: string, m: string, b: string, value2: string, value3: string, script: string)
    requires '\n' !in name && '\n' !in a && '\n' !in value2 && '\n' !in value3
    requires IsVisible(b) && IsVisible(script) && IsMark(m, DEFAULT_SEP) && m != DEFAULT_SEP
    ensures CutsFirst(ItemTexts(ThreeRows(name, a, m, b, value2, value3), script),
                      "export " + name + "='" + a + "" + "\n" + "", m, LineAndScript(b + "'", script))
  {
    ThreeTexts([(name, ThreeLines(a, m, b))], [(name, value2)], [(name, value3)], script);
    FirstRowCut(name, a, m, b, script);
    OtherRowPlain(name, value2, script);
    OtherRowPlain(name, value3, script);
  }

  const MARK := " #WORKER----"

  lemma MarkIsMark()
    ensures IsMark(MARK, DEFAULT_SEP) && MARK != DEFAULT_SEP
  {
    DefaultSeparator();
    assert StripEnd(MARK) == MARK && MARK[1..] == DEFAULT_SEP;
  }

  /** Three rows, the first with an indented separator in its value, and a script. */
  const ROWS := ThreeRows("x", "1", MARK, "2", "3", "4")
  const SCRIPT := "run"

  /** A job on the workfile that is created for these rows: its second item has succeeded and
      its third one is open when it is killed. The job that resumes it executes the second
      one, and not the third. */
  lemma WrongItemResumed(s: Sys, c: Uuid) returns (r: Run, ids: seq<nat>)
    requires Init(s) && c in s.nodes && s.items == ItemTexts(ROWS, SCRIPT)
    ensures var workfile, items := Join(ItemTexts(ROWS, SCRIPT), DEFAULT_SEP), ItemTexts(ROWS, SCRIPT);
      && WorkItems(workfile, DEFAULT_SEP) == items && |items| == 3
      && IsRun(r) && r.states[0] == s && SelectedFrom(Last(r), false, ids)
      && ids == [3] && 2 in WithStatus(Last(r).done, true)
      && WorkItems(Refiltered(workfile, ids), DEFAULT_SEP) == [items[1] + "\n"]
  {
    var first, second := "export " + "x" + "='" + "1" + "" + "\n" + "", LineAndScript("2" + "'", SCRIPT);
    MarkIsMark();
    ThreeRowsCut("x", "1", MARK, "2", "3", "4", SCRIPT);
    CutItemsRead(ItemTexts(ROWS, SCRIPT), first, MARK, second);
    r, ids := SecondIsRepeated(s, c, ItemTexts(ROWS, SCRIPT), first, MARK, second);
  }

  /** A job whose script has such a line, killed while its first item is open: the job that
      resumes it executes only the first half of that item. */
  lemma HalfItemResumed(s: Sys, c: Uuid, rows: seq<Row>, before: string, m: string, after: string)
    returns (r: Run, ids: seq<nat>)
    requires Init(s) && c in s.nodes && rows != []
    requires s.items == ItemTexts(rows, before + (m + "\n" + after))
    requires IsMark(m, DEFAULT_SEP) && IsPart(after + "\n", DEFAULT_SEP)
    requires AllParts(FirstHalves(rows, before), DEFAULT_SEP)
    ensures IsRun(r) && r.states[0] == s && SelectedFrom(Last(r), false, ids) && ids == [1]
    ensures WorkItems(Refiltered(Join(s.items, DEFAULT_SEP), ids), DEFAULT_SEP)
         == [FirstHalves(rows, before)[0] + "\n"]
    ensures s.items[0] == Cut(FirstHalves(rows, before)[0], m, after + "\n")
  {
    DefaultSeparator();
    ScriptCutsItems(rows, before, m, after, DEFAULT_SEP);
    CutScript(rows[0], before, m, after);
    OneRefiltered(Join(s.items, DEFAULT_SEP), 1);
    r, ids := FirstIsOpen(s, c);
  }
}
