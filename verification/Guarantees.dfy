/** The promises of the protocol, for every state of every run. */
module Guarantees {
  import opened Outcomes
  import opened Text
  import opened Messages
  import opened LogParsers
  import opened Servers
  import opened Clients
  import opened Protocol
  import opened Safety
  import Results
  import Segments
  import WorkParsers

  /** A new server with clients that have not sent anything: where runs start. */
  function Fresh(server: ServerState, clients: set<Uuid>): Sys {
    Sys(server.pending, server, map c | c in clients :: Node(true, Ready, Idle), [], 0)
  }

  lemma ServerStartsRun(id: Uuid, workfile: string, bind: string, address: string, infoFile: string, now: int,
                        clients: set<Uuid>)
    requires |Segments.WorkItems(workfile, WorkParsers.DEFAULT_SEP)| < SIZE_LIMIT
    requires ShortItems(Segments.WorkItems(workfile, WorkParsers.DEFAULT_SEP))
    ensures Init(Fresh(ServerState(id, Segments.WorkItems(workfile, WorkParsers.DEFAULT_SEP), 0, {}, "", "",
                                     Preamble(id, bind, address, infoFile, now), Running), clients))
  {
    PreambleQuiet(id, bind, address, infoFile, now);
  }

  predicate Holds(s: Sys, c: Uuid, id: nat) {
    c in s.nodes && Held(s.nodes[c]) == Some(id)
  }

  /** Every item that was given out is either open, and then one client holds it, or
      processed, and then no client does; a client never holds anything else, and nothing
      is processed twice. */
  lemma Conservation(r: Run, k: nat, id: nat)
    requires IsRun(r) && k < |r.states|
    ensures var s := r.states[k];
      && (1 <= id <= s.server.nrItems <==> id in s.server.toDo || IsDone(s.done, id))
      && !(id in s.server.toDo && IsDone(s.done, id))
      && (id in s.server.toDo <==> exists c :: Holds(s, c, id))
      && (forall c, d :: Holds(s, c, id) && Holds(s, d, id) ==> c == d)
      && (forall i, j :: 0 <= i < j < |s.done| ==> s.done[i].id != s.done[j].id)
  {
    RunInv(r, k);
    var s := r.states[k];
    if id in s.server.toDo {
      var c :| c in s.nodes && Held(s.nodes[c]) == Some(id);
      assert Holds(s, c, id);
    }
  }

  /** What a client works on is the item with that number in the workfile. */
  lemma RightItem(r: Run, k: nat, c: Uuid)
    requires IsRun(r) && k < |r.states| && c in r.states[k].nodes
    requires r.states[k].nodes[c].stage.Executing?
    ensures var s := r.states[k]; var stage := s.nodes[c].stage;
      1 <= stage.id <= |s.items| && stage.item == s.items[stage.id - 1]
  {
    RunInv(r, k);
    assert NodeOk(c, r.states[k].nodes[c], r.states[k].items, r.states[k].server);
  }

  /** No client ever gets a message it cannot handle, and neither does the server. */
  lemma NobodyBreaks(r: Run, k: nat)
    requires IsRun(r) && k < |r.states|
    ensures r.states[k].server.status != Failed
    ensures forall c :: c in r.states[k].nodes ==> r.states[k].nodes[c].stage != Broken
  {
    RunInv(r, k);
    var s := r.states[k];
    forall c | c in s.nodes ensures s.nodes[c].stage != Broken {
      assert NodeOk(c, s.nodes[c], s.items, s.server);
    }
  }

  // ----------------------------------------------------- on the wire

  /** What is under way survives being printed and parsed: the objects that exchange bytes
      make the same steps as the system does. */
  lemma WireFaithful(r: Run, k: nat, c: Uuid)
    requires IsRun(r) && k < |r.states| && c in r.states[k].nodes
    ensures var s := r.states[k]; var n := s.nodes[c];
      && (n.wire.Request? ==> forall now ::
            HandleWire(s.server, Print(n.wire.msg), now)
            == (match Handle(s.server, n.wire.msg, now)
                case Err(dead) => (dead, None)
                case Ok((next, reply)) => (next, Some(Print(reply)))))
      && (n.wire.Reply? ==>
            && OnWire(OnReply, Print(n.wire.msg)) == OnReply(n.wire.msg)
            && OnWire(OnAck, Print(n.wire.msg)) == OnAck(n.wire.msg))
  {
    RunInv(r, k);
    var s := r.states[k];
    assert NodeOk(c, s.nodes[c], s.items, s.server);
    if s.nodes[c].wire != Idle {
      Messages.RoundTrip(s.nodes[c].wire.msg);
    }
  }

  // -------------------------------------------------- results reach the log

  lemma NodeOkAt(r: Run, k: nat, c: Uuid)
    requires IsRun(r) && k < |r.states| && c in r.states[k].nodes
    ensures NodeOk(c, r.states[k].nodes[c], r.states[k].items, r.states[k].server)
  {
    RunInv(r, k);
  }

  /** The client waits with the given request under way. */
  predicate Waiting(s: Sys, c: Uuid, stage: Stage, msg: Message) {
    c in s.nodes && s.nodes[c].stage == stage && s.nodes[c].wire == Request(msg)
  }

  lemma RequestKept(s: Sys, step: Step, t: Sys, c: Uuid, stage: Stage, msg: Message)
    requires Enabled(s, step) && t == Do(s, step) && Waiting(s, c, stage, msg)
    requires NodeOk(c, s.nodes[c], s.items, s.server)
    requires !(step.Serve? && step.c == c)
    ensures Waiting(t, c, stage, msg)
  {
  }

  /** A request stays under way until the server takes it. */
  lemma {:induction false} RequestWaits(r: Run, c: Uuid, i: nat, j: nat, stage: Stage, msg: Message)
    requires IsRun(r) && i <= j < |r.states| && Waiting(r.states[i], c, stage, msg)
    requires forall k :: i <= k < j ==> !(r.steps[k].Serve? && r.steps[k].c == c)
    ensures Waiting(r.states[j], c, stage, msg)
  {
    if i == j {
    } else {
      RequestWaits(r, c, i, j - 1, stage, msg);
      NodeOkAt(r, j - 1, c);
      assert StepAt(r, j - 1);
      RequestKept(r.states[j - 1], r.steps[j - 1], r.states[j], c, stage, msg);
    }
  }

  lemma ExecuteSends(s: Sys, step: Step, t: Sys)
    requires Enabled(s, step) && step.Execute? && t == Do(s, step)
    ensures s.nodes[step.c].stage.Executing?
    ensures Waiting(t, step.c, AwaitAck, ResultMessage(step.c, s.server.id, s.nodes[step.c].stage.id, step.result))
  {
  }

  lemma ServerProcesses(s: Sys, step: Step, t: Sys, msg: Message, result: Results.WorkResult)
    requires Enabled(s, step) && step.Serve? && t == Do(s, step)
    requires Waiting(s, step.c, AwaitAck, msg) && Results.Parse(msg.content) == Ok(result)
    requires NodeOk(step.c, s.nodes[step.c], s.items, s.server)
    ensures t.done == s.done + [Completed(msg.id, result)]
  {
    ServingResult(s, step.c, step.now);
  }

  /** What a client obtained for an item is what the server processes for it, whatever
      happens in between: the result of that very item, with that very exit status. */
  lemma ResultReachesServer(r: Run, c: Uuid, i: nat, j: nat)
    requires IsRun(r) && i < j < |r.steps|
    requires r.steps[i].Execute? && r.steps[i].c == c
    requires r.steps[j].Serve? && r.steps[j].c == c
    requires forall k :: i < k < j ==> !(r.steps[k].Serve? && r.steps[k].c == c)
    ensures c in r.states[i].nodes && r.states[i].nodes[c].stage.Executing?
    ensures r.states[j + 1].done
         == r.states[j].done + [Completed(r.states[i].nodes[c].stage.id, r.steps[i].result)]
  {
    assert StepAt(r, i);
    assert StepAt(r, j);
    ExecuteSends(r.states[i], r.steps[i], r.states[i + 1]);
    var msg := ResultMessage(c, r.states[i].server.id, r.states[i].nodes[c].stage.id, r.steps[i].result);
    RequestWaits(r, c, i + 1, j, AwaitAck, msg);
    NodeOkAt(r, j, c);
    Results.RoundTrip(r.steps[i].result);
    ServerProcesses(r.states[j], r.steps[j], r.states[j + 1], msg, r.steps[i].result);
  }

  // ---------------------------------------------------------- stopping

  lemma PendingShrinks(s: Sys, step: Step)
    requires Enabled(s, step) && s.server.pending == []
    ensures Do(s, step).server.pending == []
  {
  }

  lemma {:induction false} PendingStaysEmpty(r: Run, i: nat, j: nat)
    requires IsRun(r) && i <= j < |r.states| && r.states[i].server.pending == []
    ensures r.states[j].server.pending == []
  {
    if i == j {
    } else {
      PendingStaysEmpty(r, i, j - 1);
      assert StepAt(r, j - 1);
      PendingShrinks(r.states[j - 1], r.steps[j - 1]);
    }
  }

  /** The subject of the reply the server has sent in a step. */
  function ReplySubject(r: Run, i: nat): Subject
    requires IsRun(r) && i < |r.steps| && r.steps[i].Serve?
    requires r.steps[i].c in r.states[i + 1].nodes && r.states[i + 1].nodes[r.steps[i].c].wire.Reply?
  {
    r.states[i + 1].nodes[r.steps[i].c].wire.msg.subject
  }

  /** What the server replies: to a query the next item or a stop, to a result an
      acknowledgement that says whether there is more. */
  lemma Replied(r: Run, i: nat)
    requires IsRun(r) && i < |r.steps| && r.steps[i].Serve?
    ensures r.steps[i].c in r.states[i].nodes && r.steps[i].c in r.states[i + 1].nodes
    ensures r.states[i + 1].nodes[r.steps[i].c].wire.Reply?
    ensures var more := r.states[i].server.pending != []; var stage := r.states[i].nodes[r.steps[i].c].stage;
      && stage in {AwaitReply, AwaitAck}
      && ReplySubject(r, i) == if stage == AwaitReply then (if more then Work else Stop)
                               else (if more then Ack else AckStop)
  {
    RunInv(r, i);
    var s, c := r.states[i], r.steps[i].c;
    assert StepAt(r, i);
    assert NodeOk(c, s.nodes[c], s.items, s.server);
    if s.nodes[c].stage == AwaitAck {
      ServingResult(s, c, r.steps[i].now);
    } else {
      ServingQuery(s, c, r.steps[i].now);
    }
  }

  /** Stop messages of either kind are sent only when nothing is left to give out, and no
      work message follows one. */
  lemma StopIsFinal(r: Run, i: nat, j: nat)
    requires IsRun(r) && i < j < |r.steps| && r.steps[i].Serve? && r.steps[j].Serve?
    ensures r.steps[i].c in r.states[i + 1].nodes && r.states[i + 1].nodes[r.steps[i].c].wire.Reply?
    ensures r.steps[j].c in r.states[j + 1].nodes && r.states[j + 1].nodes[r.steps[j].c].wire.Reply?
    ensures ReplySubject(r, i) in {Stop, AckStop} ==>
      r.states[i].server.pending == [] && ReplySubject(r, j) != Work
  {
    Replied(r, i);
    Replied(r, j);
    if ReplySubject(r, i) in {Stop, AckStop} {
      PendingStaysEmpty(r, i, j);
    }
  }

  // ------------------------------------------------------- normal exit

  function Ids(done: seq<Completed>): seq<nat> {
    seq(|done|, i requires 0 <= i < |done| => done[i].id)
  }

  lemma {:induction false} DistinctMultiset(s: seq<nat>, x: nat)
    requires forall i, j :: 0 <= i < j < |s| ==> s[i] != s[j]
    ensures multiset(s)[x] == if x in s then 1 else 0
  {
    if s == [] {
    } else {
      var init, last := s[..|s| - 1], s[|s| - 1];
      assert s == init + [last];
      DistinctMultiset(init, x);
    }
  }

  lemma MultisetEqual(a: multiset<nat>, b: multiset<nat>)
    requires forall x :: a[x] == b[x]
    ensures a == b
  {
  }

  lemma AllDone(n: nat, done: seq<Completed>)
    requires Accounting(n, {}, done)
    ensures multiset(Ids(done)) == multiset(UpTo(n))
  {
    var ids, all := Ids(done), UpTo(n);
    forall x: nat ensures multiset(ids)[x] == multiset(all)[x] {
      DistinctMultiset(ids, x);
      DistinctMultiset(all, x);
      if x in all {
        assert IsDone(done, x);
        var i :| 0 <= i < |done| && done[i].id == x;
        assert ids[i] == x;
      }
      if x in ids {
        var i :| 0 <= i < |ids| && ids[i] == x;
        assert done[i].id == x && IsDone(done, x);
        assert all[x - 1] == x;
      }
    }
    MultisetEqual(multiset(ids), multiset(all));
  }

  /** What is written for the results, one behind the other: the output and a newline each. */
  lemma WrittenNext(done: seq<Completed>, d: Completed)
    ensures Stdouts(done + [d]) == Stdouts(done) + d.result.stdout + "\n" && Stdouts([]) == ""
    ensures Stderrs(done + [d]) == Stderrs(done) + d.result.stderr + "\n" && Stderrs([]) == ""
  {
    assert (done + [d])[..|done|] == done;
    Reassociate(Stdouts(done), d.result.stdout, "\n");
    Reassociate(Stderrs(done), d.result.stderr, "\n");
  }

  /** When the server leaves its loop, every item was given out once, in the order of the
      workfile, and its result was processed once; the output is that of the results in the
      order of processing, and nobody, dead or alive, holds an item. */
  lemma ExitIsComplete(r: Run, k: nat)
    requires IsRun(r) && k < |r.states| && r.states[k].server.status == Finished
    ensures var s := r.states[k]; var n := |s.items|;
      && Dispatched(s.server.log) == UpTo(n)
      && multiset(Ids(s.done)) == multiset(UpTo(n))
      && Reported(s.server.log) == Statuses(s.done)
      && s.server.out == Stdouts(s.done) && s.server.err == Stderrs(s.done)
      && (forall c :: c in s.nodes ==> Held(s.nodes[c]) == None)
  {
    RunInv(r, k);
    var s := r.states[k];
    assert s.server.nrItems == |s.items|;
    AllDone(|s.items|, s.done);
  }

  /** The server leaves its loop exactly when it has handled a message, nothing is left to
      give out and nothing is held; an item lost with a crashed client keeps it waiting. */
  lemma ExitCondition(r: Run, k: nat)
    requires IsRun(r) && k < |r.states|
    ensures var s := r.states[k];
      s.server.status == Finished <==>
        s.handled > 0 && s.server.pending == [] && forall c :: c in s.nodes ==> Held(s.nodes[c]) == None
  {
    RunInv(r, k);
    var s := r.states[k];
    if s.server.toDo != {} {
      var id :| id in s.server.toDo;
      var c :| c in s.nodes && Held(s.nodes[c]) == Some(id);
    }
  }

  // ---------------------------------------------------------- the log

  /** The numbers of the processed results with a zero or a non-zero exit status. */
  function WithStatus(done: seq<Completed>, zero: bool): set<nat> {
    set i | 0 <= i < |done| && (done[i].result.exitStatus == 0) == zero :: done[i].id
  }

  lemma StatusSets(table: map<nat, WorkItem>, nrItems: nat, toDo: set<nat>, done: seq<Completed>)
    requires TableOk(table, nrItems, toDo, done) && Accounting(nrItems, toDo, done)
    ensures Report(table).Successful() == WithStatus(done, true)
    ensures Report(table).Failed() == WithStatus(done, false)
  {
    forall id | id in table && table[id].status.Some?
      ensures id in WithStatus(done, table[id].status == Some(0))
    {
      assert IsDone(done, id);
      var i :| 0 <= i < |done| && done[i].id == id;
    }
  }

  /** Wherever the server is killed, its log tells what it knew: the items not finished are
      the open ones, the others are split by exit status. */
  lemma LogTellsState(r: Run, k: nat)
    requires IsRun(r) && k < |r.states| && r.states[k].server.nrItems > 0
    ensures var s := r.states[k]; var parsed := Parsed(s.server.log);
      && parsed.Ok? && parsed.value.Some?
      && parsed.value.value.Incompletes() == Ascending(s.server.toDo)
      && parsed.value.value.Successes() == Ascending(WithStatus(s.done, true))
      && parsed.value.value.Failures() == Ascending(WithStatus(s.done, false))
  {
    RunInv(r, k);
    var s := r.states[k];
    var table := Replay(s.server.log).items;
    assert 1 in table;
    var report := Report(table);
    assert Parsed(s.server.log) == Ok(Some(report));
    assert report.Incomplete() == s.server.toDo;
    StatusSets(table, s.server.nrItems, s.server.toDo, s.done);
  }

  lemma SplitByStatus(nrItems: nat, toDo: set<nat>, done: seq<Completed>)
    requires Accounting(nrItems, toDo, done)
    ensures toDo !! WithStatus(done, true) !! WithStatus(done, false)
    ensures forall id: nat :: 1 <= id <= nrItems <==>
      id in toDo || id in WithStatus(done, true) || id in WithStatus(done, false)
  {
    forall id: nat
      ensures IsDone(done, id) <==> id in WithStatus(done, true) || id in WithStatus(done, false)
    {
      if IsDone(done, id) {
        var i :| 0 <= i < |done| && done[i].id == id;
        assert id in WithStatus(done, done[i].result.exitStatus == 0);
      }
    }
  }

  /** The three lists of the log together are the numbers that were given out. */
  lemma ListsPartition(r: Run, k: nat)
    requires IsRun(r) && k < |r.states|
    ensures var s := r.states[k]; var ok, failed := WithStatus(s.done, true), WithStatus(s.done, false);
      && s.server.toDo !! ok !! failed
      && forall id: nat :: 1 <= id <= s.server.nrItems <==> id in s.server.toDo || id in ok || id in failed
  {
    RunInv(r, k);
    SplitByStatus(r.states[k].server.nrItems, r.states[k].server.toDo, r.states[k].done);
  }

  /** A log without a started line gives no report; and no done line ever comes before the
      started line of its item. */
  lemma LogInOrder(r: Run, k: nat)
    requires IsRun(r) && k < |r.states|
    ensures DoneAfterStarted(r.states[k].server.log)
    ensures r.states[k].server.nrItems == 0 && r.states[k].server.log != [] ==>
      Parsed(r.states[k].server.log) == Ok(None)
  {
    RunInv(r, k);
    ReplayFails(r.states[k].server.log);
  }

  // -------------------------------------------- killed within a round

  lemma {:induction false} QuietLines(log: seq<LogLine>, lines: seq<LogLine>)
    requires QuietLog(lines)
    ensures Replay(log + lines) == Replay(log)
  {
    if lines == [] {
      assert log + lines == log;
    } else {
      var init, last := lines[..|lines| - 1], lines[|lines| - 1];
      assert log + lines == (log + init) + [last];
      QuietLines(log, init);
      assert ((log + init) + [last])[..|log + init|] == log + init;
    }
  }

  /** A log with one more event and quiet lines around it, cut anywhere in the new lines. */
  lemma CutAtEvent(log: seq<LogLine>, a: seq<LogLine>, e: LogLine, b: seq<LogLine>, n: nat)
    requires QuietLog(a) && QuietLog(b) && |log| <= n <= |log + a + [e] + b|
    ensures var full := log + a + [e] + b;
      Replay(full[..n]) == if n <= |log| + |a| then Replay(log) else Replay(full)
  {
    var full := log + a + [e] + b;
    if n <= |log| + |a| {
      assert full[..n] == log + a[..n - |log|];
      QuietLines(log, a[..n - |log|]);
    } else {
      var known := log + a + [e];
      assert full[..n] == known + b[..n - |known|];
      QuietLines(known, b[..n - |known|]);
      QuietLines(known, b);
    }
  }

  /** How many lines the server writes in a round before the one that counts: the query and
      the work message, or the result message. */
  function Lead(n: Node): nat {
    if n.stage == AwaitAck then 1 else 2
  }

  lemma QuietPair(log: seq<LogLine>, x: LogLine, y: LogLine)
    requires IsQuiet(x) && IsQuiet(y)
    ensures QuietLog([x, y]) && log + [x, y] == log + [x] + [y]
  {
    assert [x, y] == [x] + [y];
  }

  lemma ExitLines(server: ServerState, now: int) returns (b: seq<LogLine>)
    ensures QuietLog(b) && ExitTest(server, now).log == server.log + b
  {
    if server.pending == [] && server.toDo == {} {
      var x, y := LogLine(now, DONE_TEXT), LogLine(now, EXIT_TEXT);
      QuietText(now, DONE_TEXT);
      QuietText(now, EXIT_TEXT);
      QuietPair(server.log, x, y);
      b := [x, y];
    } else {
      b := [];
      assert server.log + b == server.log;
    }
  }

  lemma QueryLines(server: ServerState, c: Uuid, now: int) returns (a: seq<LogLine>, e: LogLine)
    ensures QuietLog(a) && |a| == 2 && HandleQuery(server, c, now).0.log == server.log + a + [e]
  {
    var id := Increment(server.nrItems);
    var q := LogLine(now, QueryText(c));
    QuietText(now, QueryText(c));
    if server.pending != [] {
      assert WorkText(id, c)[4] == ' ';
      QuietText(now, WorkText(id, c));
      QuietPair(server.log, q, LogLine(now, WorkText(id, c)));
      a, e := [q, LogLine(now, WorkText(id, c))], LogLine(now, StartedText(id, c));
    } else {
      QuietText(now, StopText(c));
      QuietPair(server.log, q, LogLine(now, StopText(c)));
      a, e := [q, LogLine(now, StopText(c))], LogLine(now, StopText(c));
    }
  }

  lemma ResultLines(server: ServerState, c: Uuid, id: nat, result: Results.WorkResult, now: int)
    returns (a: seq<LogLine>, e: LogLine, b: seq<LogLine>)
    ensures QuietLog(a) && |a| == 1 && QuietLog(b)
    ensures HandleResult(server, c, id, result, now).0.log == server.log + a + [e] + b
  {
    ServerLines(now, id, result.exitStatus, c);
    a, e := [LogLine(now, ResultText(id, c))], LogLine(now, DoneText(id, result.exitStatus));
    b := [LogLine(now, if server.pending != [] then AckText(c) else AckStopText(c))];
  }

  lemma QueryRound(server: ServerState, c: Uuid, now: int) returns (a: seq<LogLine>, e: LogLine, b: seq<LogLine>)
    ensures QuietLog(a) && QuietLog(b) && |a| == 2
    ensures ExitTest(HandleQuery(server, c, now).0, now).log == server.log + a + [e] + b
  {
    a, e := QueryLines(server, c, now);
    b := ExitLines(HandleQuery(server, c, now).0, now);
  }

  lemma FiveParts(log: seq<LogLine>, a: seq<LogLine>, e: LogLine, b: seq<LogLine>, x: seq<LogLine>)
    ensures log + a + [e] + b + x == log + a + [e] + (b + x)
  {
  }

  lemma ResultRound(server: ServerState, c: Uuid, id: nat, result: Results.WorkResult, now: int)
    returns (a: seq<LogLine>, e: LogLine, b: seq<LogLine>)
    ensures QuietLog(a) && QuietLog(b) && |a| == 1
    ensures ExitTest(HandleResult(server, c, id, result, now).0, now).log == server.log + a + [e] + b
  {
    var ack;
    a, e, ack := ResultLines(server, c, id, result, now);
    var exit := ExitLines(HandleResult(server, c, id, result, now).0, now);
    b := ack + exit;
    FiveParts(server.log, a, e, ack, exit);
  }

  /** The server after a round, whatever the client has sent. */
  lemma ServedServer(s: Sys, c: Uuid, now: int)
    requires c in s.nodes && s.nodes[c].wire.Request? && NodeOk(c, s.nodes[c], s.items, s.server)
    ensures var n := s.nodes[c]; var m := n.wire.msg;
      Serving(s, c, now).server
      == ExitTest(if n.stage == AwaitAck then HandleResult(s.server, c, m.id, Results.Parse(m.content).value, now).0
                  else HandleQuery(s.server, c, now).0, now)
  {
    if s.nodes[c].stage == AwaitAck {
      ServingResult(s, c, now);
    } else {
      ServingQuery(s, c, now);
    }
  }

  lemma RoundLines(s: Sys, c: Uuid, now: int) returns (a: seq<LogLine>, e: LogLine, b: seq<LogLine>)
    requires c in s.nodes && s.nodes[c].wire.Request? && NodeOk(c, s.nodes[c], s.items, s.server)
    ensures QuietLog(a) && QuietLog(b) && |a| == Lead(s.nodes[c])
    ensures Serving(s, c, now).server.log == s.server.log + a + [e] + b
  {
    ServedServer(s, c, now);
    if s.nodes[c].stage == AwaitAck {
      var m := s.nodes[c].wire.msg;
      a, e, b := ResultRound(s.server, c, m.id, Results.Parse(m.content).value, now);
    } else {
      a, e, b := QueryRound(s.server, c, now);
    }
  }

  /** The state a log tells that was cut after n lines, within the step after state i. */
  function Told(r: Run, i: nat, n: nat): nat
    requires IsRun(r) && i < |r.steps|
  {
    var s, step := r.states[i], r.steps[i];
    if step.Serve? && step.c in s.nodes && n > |s.server.log| + Lead(s.nodes[step.c]) then i + 1 else i
  }

  lemma LogLinesAt(r: Run, k: nat)
    requires IsRun(r) && k < |r.states|
    ensures AllLogLines(r.states[k].server.log)
  {
    RunInv(r, k);
  }

  lemma ClientKeepsServer(s: Sys, step: Step)
    requires Enabled(s, step) && !step.Serve?
    ensures Do(s, step).server == s.server
  {
  }

  /** A round of the server, cut after n lines. */
  lemma CutRound(s: Sys, c: Uuid, now: int, log: seq<LogLine>, n: nat)
    requires c in s.nodes && s.nodes[c].wire.Request? && NodeOk(c, s.nodes[c], s.items, s.server)
    requires log == Serving(s, c, now).server.log && |s.server.log| <= n <= |log|
    ensures s.server.log <= log[..n]
    ensures Replay(log[..n])
         == if n > |s.server.log| + Lead(s.nodes[c]) then Replay(log) else Replay(s.server.log)
  {
    var a, e, b := RoundLines(s, c, now);
    CutAtEvent(s.server.log, a, e, b, n);
  }

  lemma CutStep(s: Sys, step: Step, t: Sys, n: nat)
    requires Enabled(s, step) && t == Do(s, step) && NodeOk(step.c, s.nodes[step.c], s.items, s.server)
    requires |s.server.log| <= n <= |t.server.log|
    ensures s.server.log <= t.server.log[..n]
    ensures Replay(t.server.log[..n])
         == if step.Serve? && n > |s.server.log| + Lead(s.nodes[step.c]) then Replay(t.server.log)
            else Replay(s.server.log)
  {
    var log := t.server.log;
    if step.Serve? {
      CutRound(s, step.c, step.now, log, n);
    } else {
      ClientKeepsServer(s, step);
      assert log[..n] == log;
    }
  }

  /** A server that is killed within a round has written some of the lines of that round: the
      log tells the state before the round until its event is logged, then the state after. */
  lemma CutWithinRound(r: Run, i: nat, n: nat)
    requires IsRun(r) && i < |r.steps|
    requires |r.states[i].server.log| <= n <= |r.states[i + 1].server.log|
    ensures var cut := r.states[i + 1].server.log[..n];
      && r.states[i].server.log <= cut && AllLogLines(cut)
      && Replay(cut) == Replay(r.states[Told(r, i, n)].server.log)
  {
    LogLinesAt(r, i + 1);
    assert StepAt(r, i);
    NodeOkAt(r, i, r.steps[i].c);
    CutStep(r.states[i], r.steps[i], r.states[i + 1], n);
  }

  lemma LogGrowsStep(s: Sys, step: Step, t: Sys)
    requires Enabled(s, step) && t == Do(s, step) && NodeOk(step.c, s.nodes[step.c], s.items, s.server)
    ensures s.server.log <= t.server.log
  {
    if step.Serve? {
      var a, e, b := RoundLines(s, step.c, step.now);
    } else {
      ClientKeepsServer(s, step);
    }
  }

  lemma LogGrows(r: Run, i: nat)
    requires IsRun(r) && i < |r.steps|
    ensures r.states[i].server.log <= r.states[i + 1].server.log
  {
    assert StepAt(r, i);
    NodeOkAt(r, i, r.steps[i].c);
    LogGrowsStep(r.states[i], r.steps[i], r.states[i + 1]);
  }

  /** Every log that is longer than what is written before the first message is cut within
      some round. */
  lemma {:induction false} CutSomewhere(r: Run, k: nat, n: nat) returns (i: nat)
    requires IsRun(r) && 0 < k < |r.states|
    requires |r.states[0].server.log| <= n <= |r.states[k].server.log|
    ensures i < k && |r.states[i].server.log| <= n <= |r.states[i + 1].server.log|
    ensures r.states[k].server.log[..n] == r.states[i + 1].server.log[..n]
  {
    if |r.states[k - 1].server.log| <= n {
      i := k - 1;
    } else {
      i := CutSomewhere(r, k - 1, n);
      LogGrows(r, k - 1);
    }
  }

  lemma SameReport(cut: seq<LogLine>, log: seq<LogLine>, nrItems: nat)
    requires AllLogLines(cut) && AllLogLines(log) && Replay(cut) == Replay(log) && Replay(log).Items?
    requires forall id: nat :: id in Replay(log).items <==> 1 <= id <= nrItems
    ensures Parsed(cut) == if nrItems > 0 then Parsed(log) else if cut == [] then Err(EmptyLog) else Ok(None)
  {
    if nrItems > 0 {
      assert 1 in Replay(log).items;
    } else {
      assert Replay(log).items == map[];
    }
  }

  /** The report on such a log is the report on the state it tells; without any item in it
      there is none. */
  lemma CutReport(r: Run, i: nat, n: nat)
    requires IsRun(r) && i < |r.steps|
    requires |r.states[i].server.log| <= n <= |r.states[i + 1].server.log|
    ensures var cut, told := r.states[i + 1].server.log[..n], r.states[Told(r, i, n)].server;
      Parsed(cut) == if told.nrItems > 0 then Parsed(told.log)
                     else if cut == [] then Err(EmptyLog) else Ok(None)
  {
    CutWithinRound(r, i, n);
    RunInv(r, Told(r, i, n));
    var told := r.states[Told(r, i, n)].server;
    SameReport(r.states[i + 1].server.log[..n], told.log, told.nrItems);
  }

  /** At most one item is given out in a step, and at most one open one is processed. */
  lemma StepCounts(s: Sys, step: Step, t: Sys)
    requires Enabled(s, step) && t == Do(s, step) && |s.items| < SIZE_LIMIT
    requires NodeOk(step.c, s.nodes[step.c], s.items, s.server) && Ownership(s.nodes, s.server.toDo)
    requires s.server.nrItems <= |s.items| && s.server.pending == s.items[s.server.nrItems..]
    ensures s.server.nrItems <= t.server.nrItems <= s.server.nrItems + 1
    ensures t.done == s.done || (t.done != [] && s.done == t.done[..|t.done| - 1]
                                 && t.done[|t.done| - 1].id in s.server.toDo)
  {
    if step.Serve? && s.nodes[step.c].stage == AwaitAck {
      ServingResult(s, step.c, step.now);
    } else if step.Serve? {
      ServingQuery(s, step.c, step.now);
    }
  }
}
