/** Replaying a server log: the parser of event lines and the report made from them. */
module LogParsers {
  import opened Outcomes
  import opened Text

  /** A line with the time stamp and level the logger puts in front of every message, or a
      line without them. */
  datatype LogLine = LogLine(time: int, text: string) | Garbage(raw: string)

  predicate IsLogLine(line: LogLine) {
    line.LogLine? && line.text != ""
  }

  predicate AllLogLines(log: seq<LogLine>) {
    forall i :: 0 <= i < |log| ==> IsLogLine(log[i])
  }

  function CountLogLines(log: seq<LogLine>): nat {
    if log == [] then 0
    else CountLogLines(log[..|log| - 1]) + (if IsLogLine(log[|log| - 1]) then 1 else 0)
  }

  lemma {:induction false} CountAll(log: seq<LogLine>)
    ensures CountLogLines(log) <= |log|
    ensures CountLogLines(log) == |log| <==> AllLogLines(log)
  {
    if log == [] {
    } else {
      CountAll(log[..|log| - 1]);
    }
  }

  // ------------------------------------------------------------ event lines

  datatype Event = Started(id: nat, client: string) | Done(id: nat, status: int) | Other

  predicate IsWordChar(c: char) {
    IsDigit(c) || 'a' <= c <= 'z' || 'A' <= c <= 'Z' || c == '_' || c == '-'
  }

  function Spaces1(s: string): Option<string> {
    if s != "" && IsSpace(s[0]) then Some(SkipSpaces(s)) else None
  }

  function Literal(word: string, s: string): Option<string> {
    if word <= s then Some(s[|word|..]) else None
  }

  function Digits1(s: string): Option<(nat, string)> {
    var k := DigitRun(s);
    if k == 0 then None else Some((Value(s[..k]), s[k..]))
  }

  function WordRun(s: string): (k: nat)
    ensures k <= |s| && forall i :: 0 <= i < k ==> IsWordChar(s[i])
    ensures k < |s| ==> !IsWordChar(s[k])
  {
    if s != "" && IsWordChar(s[0]) then 1 + WordRun(s[1..]) else 0
  }

  /** `workitem\s+(\d+)\s+`, behind any white space. */
  function ItemNumber(text: string): Option<(nat, string)> {
    var s1 :- Literal("workitem", SkipSpaces(text));
    var s2 :- Spaces1(s1);
    var (id, s3) :- Digits1(s2);
    var s4 :- Spaces1(s3);
    Some((id, s4))
  }

  /** An item number, then `<verb>\s*:\s*`. */
  function ItemPrefix(text: string, verb: string): Option<(nat, string)> {
    var (id, s4) :- ItemNumber(text);
    var s5 :- Literal(verb, s4);
    var s6 :- Literal(":", SkipSpaces(s5));
    Some((id, SkipSpaces(s6)))
  }

  function MatchStarted(text: string): Option<(nat, string)> {
    var (id, rest) :- ItemPrefix(text, "started");
    var k := WordRun(rest);
    if k == 0 then None else Some((id, rest[..k]))
  }

  function MatchDone(text: string): Option<(nat, int)> {
    var (id, rest) :- ItemPrefix(text, "done");
    var negative := rest != "" && rest[0] == '-';
    var (status, _) :- Digits1(if negative then rest[1..] else rest);
    Some((id, if negative then -(status as int) else status))
  }

  function Classify(line: LogLine): Event {
    if line.Garbage? then Other
    else
      match MatchStarted(line.text)
      case Some((id, client)) => Started(id, client)
      case None =>
        match MatchDone(line.text)
        case Some((id, status)) => Done(id, status)
        case None => Other
  }

  // ----------------------------------------------------------------- replay

  /** What is known of a work item. Its number is the key it is stored under. */
  datatype WorkItem = WorkItem(client: Option<string>, start: Option<int>,
                               duration: Option<int>, status: Option<int>)

  const NEW_ITEM := WorkItem(None, None, None, None)

  /** The dictionary filled so far; or the exception raised by subtracting a missing time. */
  datatype Table = Items(items: map<nat, WorkItem>) | TypeError

  function Lookup(items: map<nat, WorkItem>, id: nat): WorkItem {
    if id in items then items[id] else NEW_ITEM
  }

  /** An event and the time in front of it. */
  datatype Stamped = Stamped(event: Event, time: int)

  function Stamp(line: LogLine): Stamped {
    Stamped(Classify(line), if line.LogLine? then line.time else 0)
  }

  function ApplyEvent(table: Table, e: Stamped): Table {
    match table
    case TypeError => TypeError
    case Items(items) =>
      match e.event
      case Other => table
      case Started(id, client) =>
        Items(items[id := Lookup(items, id).(client := Some(client), start := Some(e.time))])
      case Done(id, status) =>
        var item := Lookup(items, id);
        if item.start.None? then TypeError
        else Items(items[id := item.(status := Some(status),
                                     duration := Some(e.time - item.start.value))])
  }

  function Apply(table: Table, line: LogLine): Table {
    ApplyEvent(table, Stamp(line))
  }

  function Replay(log: seq<LogLine>): Table {
    if log == [] then Items(map[])
    else Apply(Replay(log[..|log| - 1]), log[|log| - 1])
  }

  datatype ParseError = EmptyLog | IllFormedLog | MissingStart

  // ----------------------------------------------------------------- report

  predicate IsLeast(x: nat, s: set<nat>) {
    x in s && forall y :: y in s ==> x <= y
  }

  lemma {:induction false} LeastExists(s: set<nat>)
    requires s != {}
    ensures exists x :: IsLeast(x, s)
  {
    var x :| x in s;
    if s == {x} {
      assert IsLeast(x, s);
    } else {
      LeastExists(s - {x});
      var y :| IsLeast(y, s - {x});
      var least := if x < y then x else y;
      forall z | z in s ensures least <= z {
        assert z == x || z in s - {x};
      }
      assert IsLeast(least, s);
    }
  }

  function Least(s: set<nat>): (x: nat)
    requires s != {}
    ensures IsLeast(x, s)
  {
    LeastExists(s);
    var x :| IsLeast(x, s);
    x
  }

  /** The members in increasing order. */
  function Ascending(s: set<nat>): seq<nat> {
    if s == {} then [] else [Least(s)] + Ascending(s - {Least(s)})
  }

  datatype Report = Report(items: map<nat, WorkItem>) {

    function Successful(): set<nat> {
      set id | id in items && items[id].status == Some(0)
    }

    /** Rows without any missing value whose status is not zero. */
    function Failed(): set<nat> {
      set id | id in items
        && items[id].client.Some? && items[id].start.Some? && items[id].duration.Some?
        && items[id].status.Some? && items[id].status != Some(0)
    }

    function Incomplete(): set<nat> {
      set id | id in items && items[id].status.None?
    }

    function Successes(): seq<nat> { Ascending(Successful()) }

    function Failures(): seq<nat> { Ascending(Failed()) }

    function Incompletes(): seq<nat> { Ascending(Incomplete()) }
  }

  /** The exceptions of the parser, no report when no item was started, or the report. */
  function Parsed(log: seq<LogLine>): Outcome<Option<Report>, ParseError> {
    match Replay(log)
    case TypeError => Err(MissingStart)
    case Items(items) =>
      if log == [] then Err(EmptyLog)
      else if !AllLogLines(log) then Err(IllFormedLog)
      else if items == map[] then Ok(None)
      else Ok(Some(Report(items)))
  }

  // ---------------------------------------------------------- reading a log

  lemma ReplayNext(log: seq<LogLine>, i: nat)
    requires i < |log|
    ensures Replay(log[..i + 1]) == Apply(Replay(log[..i]), log[i])
    ensures CountLogLines(log[..i + 1]) == CountLogLines(log[..i]) + (if IsLogLine(log[i]) then 1 else 0)
  {
    assert log[..i + 1][..i] == log[..i];
  }

  lemma {:induction false} ReplayStaysFailed(log: seq<LogLine>, n: nat)
    requires n <= |log| && Replay(log[..n]).TypeError?
    ensures Replay(log).TypeError?
  {
    if n < |log| {
      assert log[..|log| - 1][..n] == log[..n];
      ReplayStaysFailed(log[..|log| - 1], n);
    } else {
      assert log[..n] == log;
    }
  }

  /** The loop over the lines. */
  method ReadLines(file: seq<LogLine>) returns (table: Table, nrLogLines: nat)
    ensures table == Replay(file)
    ensures table.Items? ==> nrLogLines == CountLogLines(file)
  {
    var workitems: map<nat, WorkItem> := map[];
    nrLogLines := 0;
    for i := 0 to |file|
      invariant nrLogLines == CountLogLines(file[..i])
      invariant Replay(file[..i]) == Items(workitems)
    {
      ReplayNext(file, i);
      if IsLogLine(file[i]) {
        nrLogLines := nrLogLines + 1;
      }
      var e := Stamp(file[i]);
      match e.event
      case Other =>
      case Started(id, client) =>
        var item := Lookup(workitems, id);
        workitems := workitems[id := item.(client := Some(client), start := Some(e.time))];
      case Done(id, status) =>
        var item := Lookup(workitems, id);
        if item.start.None? {
          ReplayStaysFailed(file, i + 1);
          return TypeError, nrLogLines;
        }
        var duration := e.time - item.start.value;
        workitems := workitems[id := item.(status := Some(status), duration := Some(duration))];
    }
    assert file[..|file|] == file;
    return Items(workitems), nrLogLines;
  }

  function StartedIds(log: seq<LogLine>): set<nat> {
    if log == [] then {}
    else
      var last := |log| - 1;
      StartedIds(log[..last]) + (match Classify(log[last]) case Started(id, _) => {id} case _ => {})
  }

  /** Every done line is preceded by a started line of the same item. */
  predicate DoneAfterStarted(log: seq<LogLine>) {
    forall j :: 0 <= j < |log| && Classify(log[j]).Done? ==> Classify(log[j]).id in StartedIds(log[..j])
  }

  /** An item has a client and a start time, and a duration once it has a status. */
  predicate CompleteRows(items: map<nat, WorkItem>) {
    forall id :: id in items ==>
      items[id].client.Some? && items[id].start.Some? && items[id].duration.Some? == items[id].status.Some?
  }

  lemma {:induction false} ReplayRows(log: seq<LogLine>)
    ensures var table := Replay(log); table.Items? ==> CompleteRows(table.items)
  {
    if log == [] {
    } else {
      ReplayRows(log[..|log| - 1]);
    }
  }

  lemma DoneAfterStartedPrefix(log: seq<LogLine>)
    requires log != []
    ensures var last := |log| - 1;
      DoneAfterStarted(log) <==>
        && DoneAfterStarted(log[..last])
        && (Classify(log[last]).Done? ==> Classify(log[last]).id in StartedIds(log[..last]))
  {
    var init := log[..|log| - 1];
    assert forall j :: 0 <= j < |init| ==> init[j] == log[j] && init[..j] == log[..j];
  }

  /** The parser fails on a missing start time exactly when a done line comes too early. */
  lemma {:induction false} ReplayFails(log: seq<LogLine>)
    ensures Replay(log).Items? <==> DoneAfterStarted(log)
    ensures Replay(log).Items? ==> Replay(log).items.Keys == StartedIds(log)
  {
    if log == [] {
    } else {
      var init := log[..|log| - 1];
      ReplayFails(init);
      ReplayRows(init);
      DoneAfterStartedPrefix(log);
    }
  }

  /** When a log gives a report or None: if it is not empty, each line is a log line, and no
      done line comes too early. Otherwise it gives the first of the three errors in the order
      in which they are found, and None exactly if no item was started. */
  lemma WhenParsed(log: seq<LogLine>)
    ensures Parsed(log).Ok? <==> log != [] && AllLogLines(log) && DoneAfterStarted(log)
    ensures !DoneAfterStarted(log) ==> Parsed(log) == Err(MissingStart)
    ensures log == [] ==> Parsed(log) == Err(EmptyLog)
    ensures log != [] && DoneAfterStarted(log) && !AllLogLines(log) ==> Parsed(log) == Err(IllFormedLog)
    ensures Parsed(log).Ok? ==> (Parsed(log).value == None <==> StartedIds(log) == {})
    ensures Parsed(log).Ok? && Parsed(log).value.Some? ==> Parsed(log).value.value.items.Keys == StartedIds(log)
  {
    ReplayFails(log);
  }

  method Parse(file: seq<LogLine>) returns (r: Outcome<Option<Report>, ParseError>)
    ensures r == Parsed(file)
    ensures r.Ok? <==> file != [] && (forall i :: 0 <= i < |file| ==> file[i].LogLine? && file[i].text != "")
                       && DoneAfterStarted(file)
  {
    WhenParsed(file);
    var table, nrLogLines := ReadLines(file);
    if table.TypeError? {
      return Err(MissingStart);
    }
    if |file| == 0 {
      return Err(EmptyLog);
    }
    CountAll(file);
    if nrLogLines < |file| {
      return Err(IllFormedLog);
    }
    if |table.items| == 0 {
      return Ok(None);
    }
    return Ok(Some(Report(table.items)));
  }

  predicate Increasing(r: seq<nat>) {
    forall i, j :: 0 <= i < j < |r| ==> r[i] < r[j]
  }

  lemma FirstIsLeast(least: nat, tail: seq<nat>)
    requires Increasing(tail) && forall x :: x in tail ==> least < x
    ensures Increasing([least] + tail)
    ensures forall x :: x in [least] + tail <==> x == least || x in tail
  {
    var r := [least] + tail;
    assert forall j :: 0 < j < |r| ==> r[j] == tail[j - 1] && r[j] in tail;
  }

  lemma {:induction false} AscendingMembers(s: set<nat>)
    ensures forall x :: x in Ascending(s) <==> x in s
    ensures Increasing(Ascending(s))
  {
    if s == {} {
    } else {
      var least, rest := Least(s), s - {Least(s)};
      AscendingMembers(rest);
      FirstIsLeast(least, Ascending(rest));
    }
  }

  /** The three lists of a report have no number in common and hold all the numbers. */
  lemma ReportPartition(log: seq<LogLine>)
    requires Parsed(log).Ok? && Parsed(log).value.Some?
    ensures var report := Parsed(log).value.value;
      && report.Successful() !! report.Failed() !! report.Incomplete()
      && report.Successful() + report.Failed() + report.Incomplete() == report.items.Keys
  {
    ReplayRows(log);
  }

  /** The numbers with a started line. */
  lemma {:induction false} StartedIdsAre(log: seq<LogLine>, id: nat)
    ensures id in StartedIds(log)
       <==> exists i :: 0 <= i < |log| && Classify(log[i]).Started? && Classify(log[i]).id == id
  {
    if log == [] {
    } else {
      var init, last := log[..|log| - 1], log[|log| - 1];
      StartedIdsAre(init, id);
      if i :| 0 <= i < |log| && Classify(log[i]).Started? && Classify(log[i]).id == id {
        assert i < |init| ==> init[i] == log[i];
      }
      if i :| 0 <= i < |init| && Classify(init[i]).Started? && Classify(init[i]).id == id {
        assert log[i] == init[i];
      }
    }
  }

  // -------------------------------------------- what the rows of a report tell

  predicate StartOf(e: Stamped, id: nat) {
    e.event.Started? && e.event.id == id
  }

  predicate DoneOf(e: Stamped, id: nat) {
    e.event.Done? && e.event.id == id
  }

  /** Event i is the last start of the item among the first n events. */
  ghost predicate LastStart(es: seq<Stamped>, id: nat, i: nat, n: nat)
    requires n <= |es|
  {
    i < n && StartOf(es[i], id) && forall j :: i < j < n ==> !StartOf(es[j], id)
  }

  ghost predicate LastDone(es: seq<Stamped>, id: nat, i: nat, n: nat)
    requires n <= |es|
  {
    i < n && DoneOf(es[i], id) && forall j :: i < j < n ==> !DoneOf(es[j], id)
  }

  ghost predicate NoDone(es: seq<Stamped>, id: nat, n: nat)
    requires n <= |es|
  {
    forall j :: 0 <= j < n ==> !DoneOf(es[j], id)
  }

  /** Client and start time are those of the last start, event i. */
  ghost predicate StartedBy(es: seq<Stamped>, n: nat, id: nat, row: WorkItem, i: nat)
    requires n <= |es|
  {
    LastStart(es, id, i, n) && row.client == Some(es[i].event.client) && row.start == Some(es[i].time)
  }

  /** The status is that of the last done event, j; the duration runs from the last start
      before it, k. */
  ghost predicate DoneBy(es: seq<Stamped>, n: nat, id: nat, row: WorkItem, j: nat, k: nat)
    requires n <= |es|
  {
    && LastDone(es, id, j, n) && LastStart(es, id, k, j)
    && row.status == Some(es[j].event.status) && row.duration == Some(es[j].time - es[k].time)
  }

  ghost predicate StatusFrom(es: seq<Stamped>, n: nat, id: nat, row: WorkItem)
    requires n <= |es|
  {
    if row.status.None? then row.duration.None? && NoDone(es, id, n)
    else exists j: nat, k: nat :: DoneBy(es, n, id, row, j, k)
  }

  ghost predicate RowFrom(es: seq<Stamped>, n: nat, id: nat, row: WorkItem)
    requires n <= |es|
  {
    (exists i: nat :: StartedBy(es, n, id, row, i)) && StatusFrom(es, n, id, row)
  }

  lemma StatusKept(es: seq<Stamped>, n: nat, id: nat, row: WorkItem, next: WorkItem)
    requires n < |es| && StatusFrom(es, n, id, row) && !DoneOf(es[n], id)
    requires next.status == row.status && next.duration == row.duration
    ensures StatusFrom(es, n + 1, id, next)
  {
    if row.status.Some? {
      var j: nat, k: nat :| DoneBy(es, n, id, row, j, k);
      assert DoneBy(es, n + 1, id, next, j, k);
    }
  }

  lemma RowKept(es: seq<Stamped>, n: nat, id: nat, row: WorkItem)
    requires n < |es| && RowFrom(es, n, id, row)
    requires !StartOf(es[n], id) && !DoneOf(es[n], id)
    ensures RowFrom(es, n + 1, id, row)
  {
    var i: nat :| StartedBy(es, n, id, row, i);
    assert StartedBy(es, n + 1, id, row, i);
    StatusKept(es, n, id, row, row);
  }

  lemma RowStarted(es: seq<Stamped>, n: nat, id: nat, row: WorkItem)
    requires n < |es| && StartOf(es[n], id) && StatusFrom(es, n, id, row)
    ensures RowFrom(es, n + 1, id, row.(client := Some(es[n].event.client), start := Some(es[n].time)))
  {
    var next := row.(client := Some(es[n].event.client), start := Some(es[n].time));
    assert StartedBy(es, n + 1, id, next, n);
    StatusKept(es, n, id, row, next);
  }

  lemma RowDone(es: seq<Stamped>, n: nat, id: nat, row: WorkItem)
    requires n < |es| && DoneOf(es[n], id) && RowFrom(es, n, id, row)
    ensures row.start.Some?
    ensures RowFrom(es, n + 1, id, row.(status := Some(es[n].event.status),
                                        duration := Some(es[n].time - row.start.value)))
  {
    var i: nat :| StartedBy(es, n, id, row, i);
    var next := row.(status := Some(es[n].event.status), duration := Some(es[n].time - row.start.value));
    assert StartedBy(es, n + 1, id, next, i);
    assert DoneBy(es, n + 1, id, next, n, i);
  }

  /** What holds of the table after n events. */
  ghost predicate RowsFrom(es: seq<Stamped>, n: nat, items: map<nat, WorkItem>)
    requires n <= |es|
  {
    && (forall id :: id in items ==> RowFrom(es, n, id, items[id]))
    && (forall id: nat :: id !in items ==> NoDone(es, id, n))
  }

  lemma RowsStep(es: seq<Stamped>, n: nat, items: map<nat, WorkItem>, next: map<nat, WorkItem>)
    requires n < |es| && RowsFrom(es, n, items)
    requires ApplyEvent(Items(items), es[n]) == Items(next)
    ensures RowsFrom(es, n + 1, next)
  {
    var e := es[n].event;
    forall id | id in next ensures RowFrom(es, n + 1, id, next[id]) {
      if e.Started? && e.id == id {
        RowStarted(es, n, id, Lookup(items, id));
      } else if e.Done? && e.id == id {
        RowDone(es, n, id, items[id]);
      } else {
        RowKept(es, n, id, items[id]);
      }
    }
  }

  function Events(log: seq<LogLine>): (es: seq<Stamped>)
    ensures |es| == |log| && forall i :: 0 <= i < |log| ==> es[i] == Stamp(log[i])
  {
    seq(|log|, i requires 0 <= i < |log| => Stamp(log[i]))
  }

  predicate Updates(items: map<nat, WorkItem>, e: Stamped, next: map<nat, WorkItem>) {
    ApplyEvent(Items(items), e) == Items(next)
  }

  /** The dictionaries before and after each event. */
  ghost predicate Along(es: seq<Stamped>, tables: seq<map<nat, WorkItem>>) {
    && |tables| == |es| + 1 && tables[0] == map[]
    && forall i :: 0 <= i < |es| ==> Updates(tables[i], es[i], tables[i + 1])
  }

  lemma {:induction false} RowsAlong(es: seq<Stamped>, tables: seq<map<nat, WorkItem>>, n: nat)
    requires Along(es, tables) && n <= |es|
    ensures RowsFrom(es, n, tables[n])
  {
    if n == 0 {
    } else {
      RowsAlong(es, tables, n - 1);
      assert Updates(tables[n - 1], es[n - 1], tables[n]);
      RowsStep(es, n - 1, tables[n - 1], tables[n]);
    }
  }

  /** The dictionary after n lines of a log that is parsed. */
  function TableAt(log: seq<LogLine>, n: nat): map<nat, WorkItem>
    requires n <= |log| && Replay(log).Items?
  {
    if Replay(log[..n]).Items? then Replay(log[..n]).items else map[]
  }

  lemma TableAtNext(log: seq<LogLine>, n: nat)
    requires n < |log| && Replay(log).Items?
    ensures Updates(TableAt(log, n), Stamp(log[n]), TableAt(log, n + 1))
  {
    ReplayNext(log, n);
    if Replay(log[..n + 1]).TypeError? {
      ReplayStaysFailed(log, n + 1);
    }
  }

  /** Every row of a report tells what the lines of its item say: who started it last and
      when, how it ended last, and how long that took. An item without a row never ended. */
  lemma RowsTellLines(log: seq<LogLine>)
    requires Parsed(log).Ok? && Parsed(log).value.Some?
    ensures RowsFrom(Events(log), |log|, Parsed(log).value.value.items)
  {
    var es := Events(log);
    var tables := seq(|log| + 1, i requires 0 <= i <= |log| => TableAt(log, i));
    assert log[..|log|] == log;
    forall i | 0 <= i < |es| ensures Updates(tables[i], es[i], tables[i + 1]) {
      TableAtNext(log, i);
    }
    RowsAlong(es, tables, |log|);
  }

  // -------------------------------------------------- reading printed events

  lemma {:induction false} WordRunAll(s: string)
    requires forall i :: 0 <= i < |s| ==> IsWordChar(s[i])
    ensures WordRun(s) == |s|
  {
    if s == "" {
    } else {
      WordRunAll(s[1..]);
    }
  }

  lemma Digits1Printed(n: nat, tail: string)
    requires !StartsWithDigit(tail)
    ensures Digits1(Decimal(n) + tail) == Some((n, tail))
  {
    ReadDigits(n, tail);
  }

  lemma ItemNumberPrinted(id: nat, s4: string)
    requires s4 != "" && !IsSpace(s4[0])
    ensures ItemNumber("workitem " + (Decimal(id) + (" " + s4))) == Some((id, s4))
  {
    var s3 := " " + s4;
    var s2 := Decimal(id) + s3;
    var text := "workitem " + s2;
    assert SkipSpaces(text) == text;
    assert text[8..] == " " + s2 && (" " + s2)[1..] == s2;
    assert SkipSpaces(s2) == s2;
    assert Spaces1(" " + s2) == Some(s2);
    Digits1Printed(id, s3);
    assert s3[1..] == s4;
    assert SkipSpaces(s4) == s4;
  }

  lemma ItemPrefixPrinted(id: nat, verb: string, rest: string)
    requires rest != "" && !IsSpace(rest[0])
    requires verb != "" && !IsSpace(verb[0])
    ensures ItemPrefix("workitem " + (Decimal(id) + (" " + (verb + (": " + rest)))), verb) == Some((id, rest))
  {
    var s5 := ": " + rest;
    var s4 := verb + s5;
    ItemNumberPrinted(id, s4);
    assert Literal(verb, s4) == Some(s5);
    assert s5[1..] == " " + rest && (" " + rest)[1..] == rest;
    assert SkipSpaces(" " + rest) == SkipSpaces(rest) == rest;
  }

  /** The event line the server writes when it hands out an item is read as that event. */
  lemma StartedPrinted(id: nat, client: string, time: int)
    requires client != "" && forall i :: 0 <= i < |client| ==> IsWordChar(client[i])
    ensures Classify(LogLine(time, "workitem " + (Decimal(id) + (" " + ("started" + (": " + client))))))
         == Started(id, client)
  {
    assert IsWordChar(client[0]);
    ItemPrefixPrinted(id, "started", client);
    WordRunAll(client);
  }

  lemma ItemVerb(id: nat, verb: string, other: string, rest: string)
    requires verb != "" && other != "" && !IsSpace(verb[0]) && verb[0] != other[0]
    ensures ItemPrefix("workitem " + (Decimal(id) + (" " + (verb + (": " + rest)))), other) == None
  {
    ItemNumberPrinted(id, verb + (": " + rest));
  }

  /** The event line written for a processed result is read as that event. */
  lemma DonePrinted(id: nat, status: int, time: int)
    ensures Classify(LogLine(time, "workitem " + (Decimal(id) + (" " + ("done" + (": " + PrintInt(status)))))))
         == Done(id, status)
  {
    var printed := PrintInt(status);
    assert printed[0] == '-' || IsDigit(printed[0]);
    ItemPrefixPrinted(id, "done", printed);
    ItemVerb(id, "done", "started", printed);
    var digits := Decimal(if status < 0 then -status else status);
    Digits1Printed(if status < 0 then -status else status, "");
    assert digits + "" == digits;
    assert digits == if status < 0 then printed[1..] else printed;
  }

  /** A message that does not start with "workitem" is no event. */
  lemma OtherPrinted(time: int, text: string)
    requires text != "" && !IsSpace(text[0]) && !("workitem" <= text)
    ensures Classify(LogLine(time, text)) == Other
  {
  }
}
