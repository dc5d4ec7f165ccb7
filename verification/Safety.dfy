/** What every step of the system keeps, and what holds in every state of every run. */
module Safety {
  import opened Outcomes
  import opened Text
  import opened Messages
  import opened LogParsers
  import opened Servers
  import opened Clients
  import opened Protocol
  import Results

  // ------------------------------------------------------------ the log

  lemma ClassifyUuid(text: string, time: int, id: nat, to: Uuid)
    requires text == StartedText(id, to)
    ensures Classify(LogLine(time, text)) == Started(id, to.text)
  {
    forall i | 0 <= i < |to.text| ensures IsWordChar(to.text[i]) {
      assert if IsHyphenPosition(i) then to.text[i] == '-' else IsHexDigit(to.text[i]);
    }
    StartedPrinted(id, to.text, time);
  }

  /** A message that starts with another word than "workitem" is no event. */
  lemma QuietText(time: int, text: string)
    requires |text| > 4 && !IsSpace(text[0]) && (text[0] != 'w' || text[4] == ' ')
    ensures Classify(LogLine(time, text)) == Other
  {
    OtherPrinted(time, text);
  }

  /** What a server logs before its first message. */
  lemma PreambleQuiet(id: Uuid, bind: string, address: string, infoFile: string, now: int)
    ensures QuietLog(Preamble(id, bind, address, infoFile, now))
  {
    var log := Preamble(id, bind, address, infoFile, now);
    forall i | 0 <= i < |log| ensures IsLogLine(log[i]) && Classify(log[i]) == Other {
      assert log[i].text[0] != 'w';
      OtherPrinted(now, log[i].text);
    }
  }

  predicate IsQuiet(line: LogLine) {
    IsLogLine(line) && Classify(line) == Other
  }

  lemma QuietAppend(server: ServerState, line: LogLine, done: seq<Completed>)
    requires LogOk(server, done) && IsQuiet(line)
    ensures LogOk(server.(log := server.log + [line]), done)
    ensures Replay(server.log + [line]) == Replay(server.log)
  {
    assert (server.log + [line])[..|server.log|] == server.log;
  }

  lemma TableStarted(table: map<nat, WorkItem>, nrItems: nat, toDo: set<nat>, done: seq<Completed>, item: WorkItem)
    requires TableOk(table, nrItems, toDo, done)
    requires item.client.Some? && item.start.Some? && item.duration == None == item.status
    ensures TableOk(table[nrItems + 1 := item], nrItems + 1, toDo + {nrItems + 1}, done)
  {
  }

  lemma StartedAppend(server: ServerState, line: LogLine, client: string, done: seq<Completed>)
    requires LogOk(server, done) && server.nrItems + 1 < SIZE_LIMIT
    requires IsLogLine(line) && Classify(line) == Started(server.nrItems + 1, client)
    ensures var id := server.nrItems + 1; var log := server.log + [line];
      && LogOk(server.(nrItems := id, toDo := server.toDo + {id}, log := log), done)
      && Replay(log) == Items(Replay(server.log).items[id := WorkItem(Some(client), Some(line.time), None, None)])
  {
    var id := server.nrItems + 1;
    var item := WorkItem(Some(client), Some(line.time), None, None);
    assert (server.log + [line])[..|server.log|] == server.log;
    assert UpTo(id) == UpTo(server.nrItems) + [id];
    TableStarted(Replay(server.log).items, server.nrItems, server.toDo, done, item);
  }

  predicate SameClients(a: Table, b: Table) {
    a.Items? && b.Items? && a.items.Keys == b.items.Keys
    && forall id :: id in a.items ==> a.items[id].client == b.items[id].client
  }

  lemma TableDone(table: map<nat, WorkItem>, nrItems: nat, toDo: set<nat>, done: seq<Completed>,
                  d: Completed, item: WorkItem)
    requires TableOk(table, nrItems, toDo, done) && d.id in table && d.id in toDo
    requires forall i :: 0 <= i < |done| ==> done[i].id !in toDo
    requires item.client.Some? && item.start.Some? && item.duration.Some?
    requires item.status == Some(d.result.exitStatus)
    ensures TableOk(table[d.id := item], nrItems, toDo - {d.id}, done + [d])
    ensures item.client == table[d.id].client ==> SameClients(Items(table[d.id := item]), Items(table))
  {
  }

  /** A row after a done line. */
  function FinishedRow(row: WorkItem, status: int, line: LogLine): WorkItem
    requires row.start.Some? && line.LogLine?
  {
    row.(status := Some(status), duration := Some(line.time - row.start.value))
  }

  lemma DoneReplay(log: seq<LogLine>, line: LogLine, id: nat, status: int, table: map<nat, WorkItem>)
    requires AllLogLines(log) && Replay(log) == Items(table) && id in table && table[id].start.Some?
    requires IsLogLine(line) && Classify(line) == Done(id, status)
    ensures AllLogLines(log + [line])
    ensures Replay(log + [line]) == Items(table[id := FinishedRow(table[id], status, line)])
    ensures Dispatched(log + [line]) == Dispatched(log)
    ensures Reported(log + [line]) == Reported(log) + [(id, status)]
  {
    assert (log + [line])[..|log|] == log;
  }

  lemma StatusesAppend(done: seq<Completed>, d: Completed)
    ensures Statuses(done + [d]) == Statuses(done) + [(d.id, d.result.exitStatus as int)]
  {
  }

  /** The same log with a done line at its end, given by what the line adds. */
  lemma DoneLogOk(server: ServerState, log: seq<LogLine>, row: WorkItem, d: Completed, done: seq<Completed>)
    requires LogOk(server, done) && d.id in server.toDo && 1 <= d.id <= server.nrItems
    requires forall i :: 0 <= i < |done| ==> done[i].id !in server.toDo
    requires var table := Replay(server.log).items;
      && Replay(log) == Items(table[d.id := row]) && row.client == table[d.id].client && row.start.Some?
    requires row.duration.Some? && row.status == Some(d.result.exitStatus as int)
    requires AllLogLines(log) && Dispatched(log) == Dispatched(server.log)
    requires Reported(log) == Reported(server.log) + [(d.id, d.result.exitStatus as int)]
    ensures LogOk(server.(toDo := server.toDo - {d.id}, log := log), done + [d])
    ensures SameClients(Replay(log), Replay(server.log))
  {
    TableDone(Replay(server.log).items, server.nrItems, server.toDo, done, d, row);
    StatusesAppend(done, d);
  }

  lemma DoneAppend(server: ServerState, line: LogLine, d: Completed, done: seq<Completed>)
    requires LogOk(server, done) && d.id in server.toDo && 1 <= d.id <= server.nrItems
    requires forall i :: 0 <= i < |done| ==> done[i].id !in server.toDo
    requires IsLogLine(line) && Classify(line) == Done(d.id, d.result.exitStatus)
    ensures LogOk(server.(toDo := server.toDo - {d.id}, log := server.log + [line]), done + [d])
    ensures SameClients(Replay(server.log + [line]), Replay(server.log))
  {
    var table := Replay(server.log).items;
    DoneReplay(server.log, line, d.id, d.result.exitStatus, table);
    DoneLogOk(server, server.log + [line], FinishedRow(table[d.id], d.result.exitStatus, line), d, done);
  }

  // ------------------------------------------------------------ the server

  /** The log lines for an item that is given out. */
  lemma LogGivesWork(server: ServerState, q: LogLine, w: LogLine, line: LogLine, client: string,
                     done: seq<Completed>)
    requires LogOk(server, done) && server.nrItems + 1 < SIZE_LIMIT
    requires IsQuiet(q) && IsQuiet(w)
    requires IsLogLine(line) && Classify(line) == Started(server.nrItems + 1, client)
    ensures var id := server.nrItems + 1; var log := server.log + [q] + [w] + [line];
      && LogOk(server.(nrItems := id, toDo := server.toDo + {id}, log := log), done)
      && Replay(log) == Items(Replay(server.log).items[id := WorkItem(Some(client), Some(line.time), None, None)])
  {
    QuietAppend(server, q, done);
    QuietAppend(server.(log := server.log + [q]), w, done);
    StartedAppend(server.(log := server.log + [q] + [w]), line, client, done);
  }

  lemma LogStays(server: ServerState, a: LogLine, b: LogLine, done: seq<Completed>)
    requires LogOk(server, done) && IsQuiet(a) && IsQuiet(b)
    ensures LogOk(server.(log := server.log + [a] + [b]), done)
    ensures Replay(server.log + [a] + [b]) == Replay(server.log)
  {
    QuietAppend(server, a, done);
    QuietAppend(server.(log := server.log + [a]), b, done);
  }

  lemma LogTakesResult(server: ServerState, a: LogLine, line: LogLine, b: LogLine, d: Completed,
                       done: seq<Completed>)
    requires LogOk(server, done) && Accounting(server.nrItems, server.toDo, done) && d.id in server.toDo
    requires IsQuiet(a) && IsQuiet(b)
    requires IsLogLine(line) && Classify(line) == Done(d.id, d.result.exitStatus)
    ensures var log := server.log + [a] + [line] + [b];
      && LogOk(server.(toDo := server.toDo - {d.id}, log := log), done + [d])
      && SameClients(Replay(log), Replay(server.log))
  {
    QuietAppend(server, a, done);
    var s1 := server.(log := server.log + [a]);
    DoneAppend(s1, line, d, done);
    QuietAppend(s1.(toDo := server.toDo - {d.id}, log := s1.log + [line]), b, done + [d]);
  }

  /** The log lines the server writes, as the log parser sees them. */
  lemma ServerLines(now: int, id: nat, status: int, c: Uuid)
    ensures IsQuiet(LogLine(now, QueryText(c))) && IsQuiet(LogLine(now, WorkText(id, c)))
    ensures IsQuiet(LogLine(now, StopText(c))) && IsQuiet(LogLine(now, ResultText(id, c)))
    ensures IsQuiet(LogLine(now, AckText(c))) && IsQuiet(LogLine(now, AckStopText(c)))
    ensures IsQuiet(LogLine(now, DONE_TEXT)) && IsQuiet(LogLine(now, EXIT_TEXT))
    ensures Classify(LogLine(now, StartedText(id, c))) == Started(id, c.text)
    ensures Classify(LogLine(now, DoneText(id, status))) == Done(id, status)
  {
    QuietText(now, QueryText(c));
    assert WorkText(id, c)[4] == ' ';
    QuietText(now, WorkText(id, c));
    QuietText(now, StopText(c));
    QuietText(now, ResultText(id, c));
    QuietText(now, AckText(c));
    QuietText(now, AckStopText(c));
    QuietText(now, DONE_TEXT);
    QuietText(now, EXIT_TEXT);
    ClassifyUuid(StartedText(id, c), now, id, c);
    DonePrinted(id, status, now);
  }

  lemma AccountingWork(nrItems: nat, toDo: set<nat>, done: seq<Completed>)
    requires Accounting(nrItems, toDo, done)
    ensures nrItems + 1 !in toDo && Accounting(nrItems + 1, toDo + {nrItems + 1}, done)
  {
    forall i | 0 <= i < |done| ensures done[i].id != nrItems + 1 {
      assert IsDone(done, done[i].id);
    }
  }

  /** The next item is given out. */
  lemma ServerGivesWork(items: seq<string>, server: ServerState, c: Uuid, now: int, done: seq<Completed>)
    requires ServerOk(items, server, done) && server.pending != []
    ensures var (next, reply) := HandleQuery(server, c, now); var id := server.nrItems + 1;
      && ServerOk(items, next, done)
      && next.nrItems == id && next.toDo == server.toDo + {id} && id !in server.toDo
      && next.id == server.id && next.status == server.status
      && reply == Message(server.id, c, Work, id, items[id - 1])
      && Replay(next.log) == Items(Replay(server.log).items[id := WorkItem(Some(c.text), Some(now), None, None)])
  {
    var id := server.nrItems + 1;
    AccountingWork(server.nrItems, server.toDo, done);
    ServerLines(now, id, 0, c);
    LogGivesWork(server, LogLine(now, QueryText(c)), LogLine(now, WorkText(id, c)),
                 LogLine(now, StartedText(id, c)), c.text, done);
  }

  /** No item is left to give out. */
  lemma ServerSaysStop(items: seq<string>, server: ServerState, c: Uuid, now: int, done: seq<Completed>)
    requires ServerOk(items, server, done) && server.pending == []
    ensures var (next, reply) := HandleQuery(server, c, now);
      && ServerOk(items, next, done)
      && next == server.(log := next.log) && Replay(next.log) == Replay(server.log)
  {
    ServerLines(now, 0, 0, c);
    var q, stop := LogLine(now, QueryText(c)), LogLine(now, StopText(c));
    QuietAppend(server, q, done);
    LogStays(server.(log := server.log + [q]), stop, stop, done);
  }

  lemma AccountingDone(nrItems: nat, toDo: set<nat>, done: seq<Completed>, d: Completed)
    requires Accounting(nrItems, toDo, done) && d.id in toDo
    ensures Accounting(nrItems, toDo - {d.id}, done + [d])
  {
    var done' := done + [d];
    assert forall id :: IsDone(done', id) <==> IsDone(done, id) || id == d.id by {
      assert done'[|done|] == d;
      forall id | IsDone(done, id) ensures IsDone(done', id) {
        var i :| 0 <= i < |done| && done[i].id == id;
        assert done'[i].id == id;
      }
    }
  }

  /** A result is processed. */
  lemma ServerTakesResult(items: seq<string>, server: ServerState, c: Uuid, id: nat,
                          result: Results.WorkResult, now: int, done: seq<Completed>)
    requires ServerOk(items, server, done) && id in server.toDo
    ensures var (next, reply) := HandleResult(server, c, id, result, now);
      && ServerOk(items, next, done + [Completed(id, result)])
      && next == server.(log := next.log, out := next.out, err := next.err, toDo := server.toDo - {id})
      && SameClients(Replay(next.log), Replay(server.log))
  {
    var d := Completed(id, result);
    ServerLines(now, id, result.exitStatus, c);
    LogTakesResult(server, LogLine(now, ResultText(id, c)), LogLine(now, DoneText(id, result.exitStatus)),
                   LogLine(now, if server.pending != [] then AckText(c) else AckStopText(c)), d, done);
    AccountingDone(server.nrItems, server.toDo, done, d);
    assert (done + [d])[..|done|] == done;
  }

  /** The exit test changes nothing but the log and the status. */
  lemma ServerTestsExit(items: seq<string>, server: ServerState, now: int, done: seq<Completed>)
    requires ServerOk(items, server, done)
    ensures var next := ExitTest(server, now);
      && ServerOk(items, next, done)
      && next == server.(log := next.log, status := next.status)
      && Replay(next.log) == Replay(server.log)
  {
    QuietText(now, DONE_TEXT);
    QuietText(now, EXIT_TEXT);
    LogStays(server, LogLine(now, DONE_TEXT), LogLine(now, EXIT_TEXT), done);
  }

  // ------------------------------------------------------- ownership

  lemma OwnershipKeeps(nodes: map<Uuid, Node>, toDo: set<nat>, c: Uuid, n: Node)
    requires Ownership(nodes, toDo) && c in nodes && Held(n) == Held(nodes[c])
    ensures Ownership(nodes[c := n], toDo)
  {
    var nodes' := nodes[c := n];
    assert forall d :: d in nodes' ==> Held(nodes'[d]) == Held(nodes[d]);
    forall id | id in toDo ensures exists d :: d in nodes' && Held(nodes'[d]) == Some(id) {
      var d :| d in nodes && Held(nodes[d]) == Some(id);
      assert d in nodes' && Held(nodes'[d]) == Some(id);
    }
  }

  lemma OwnershipTakes(nodes: map<Uuid, Node>, toDo: set<nat>, c: Uuid, n: Node, id: nat)
    requires Ownership(nodes, toDo) && c in nodes && Held(nodes[c]) == None
    requires id !in toDo && Held(n) == Some(id)
    ensures Ownership(nodes[c := n], toDo + {id})
  {
    var nodes' := nodes[c := n];
    forall k | k in toDo + {id} ensures exists d :: d in nodes' && Held(nodes'[d]) == Some(k) {
      if k == id {
        assert c in nodes' && Held(nodes'[c]) == Some(k);
      } else {
        var d :| d in nodes && Held(nodes[d]) == Some(k);
        assert d in nodes' && Held(nodes'[d]) == Some(k);
      }
    }
  }

  lemma OwnershipGives(nodes: map<Uuid, Node>, toDo: set<nat>, c: Uuid, n: Node, id: nat)
    requires Ownership(nodes, toDo) && c in nodes && Held(nodes[c]) == Some(id) && Held(n) == None
    ensures Ownership(nodes[c := n], toDo - {id})
  {
    var nodes' := nodes[c := n];
    forall k | k in toDo - {id} ensures exists d :: d in nodes' && Held(nodes'[d]) == Some(k) {
      var d :| d in nodes && Held(nodes[d]) == Some(k);
      assert d in nodes' && Held(nodes'[d]) == Some(k);
    }
  }

  lemma OwnersKept(nodes: map<Uuid, Node>, table: Table, c: Uuid, n: Node, table': Table)
    requires OwnersLogged(nodes, table) && SameClients(table', table)
    requires c in nodes && (Held(n).Some? ==> Held(n) == Held(nodes[c]))
    ensures OwnersLogged(nodes[c := n], table')
  {
    var nodes' := nodes[c := n];
    assert forall d :: d in nodes' ==> d in nodes && (Held(nodes'[d]).Some? ==> Held(nodes'[d]) == Held(nodes[d]));
  }

  lemma NodesKept(nodes: map<Uuid, Node>, items: seq<string>, server: ServerState,
                  c: Uuid, n: Node, server': ServerState)
    requires NodesOk(nodes, items, server) && NodeOk(c, n, items, server')
    requires server'.id == server.id && server.nrItems <= server'.nrItems <= |items|
    requires server.pending == [] ==> server'.pending == []
    ensures NodesOk(nodes[c := n], items, server')
  {
    forall d | d in nodes && d != c ensures NodeOk(d, nodes[d], items, server') {
      assert NodeOk(d, nodes[d], items, server);
    }
  }

  // ------------------------------------------------------------ the steps

  lemma {:induction false} QuietReplay(log: seq<LogLine>)
    requires QuietLog(log)
    ensures AllLogLines(log) && Replay(log) == Items(map[]) && Dispatched(log) == [] && Reported(log) == []
  {
    if log == [] {
    } else {
      QuietReplay(log[..|log| - 1]);
    }
  }

  lemma InitLog(server: ServerState)
    requires QuietLog(server.log) && server.nrItems == 0 && server.toDo == {}
    ensures LogOk(server, []) && Replay(server.log) == Items(map[])
  {
    QuietReplay(server.log);
    assert UpTo(0) == [];
  }

  lemma InitServer(items: seq<string>, server: ServerState)
    requires |items| < SIZE_LIMIT && QuietLog(server.log)
    requires server == ServerState(server.id, items, 0, {}, "", "", server.log, Running)
    ensures ServerOk(items, server, []) && Replay(server.log) == Items(map[])
  {
    InitLog(server);
    assert items[0..] == items;
  }

  lemma InitNodes(s: Sys)
    requires Init(s)
    ensures NodesOk(s.nodes, s.items, s.server) && Ownership(s.nodes, {})
    ensures forall c :: c in s.nodes ==> Held(s.nodes[c]) == None && s.nodes[c].stage == Ready
  {
  }

  lemma InitInv(s: Sys)
    requires Init(s)
    ensures Inv(s)
  {
    InitServer(s.items, s.server);
    InitNodes(s);
  }

  /** A step of a client that keeps what it holds. */
  lemma ClientStep(s: Sys, c: Uuid, n: Node)
    requires Inv(s) && c in s.nodes
    requires NodeOk(c, n, s.items, s.server) && Held(n) == Held(s.nodes[c])
    requires s.handled == 0 ==> n.wire.Request? || n.stage == Ready
    ensures Inv(Put(s, c, n))
  {
    OwnershipKeeps(s.nodes, s.server.toDo, c, n);
    OwnersKept(s.nodes, Replay(s.server.log), c, n, Replay(s.server.log));
    NodesKept(s.nodes, s.items, s.server, c, n, s.server);
  }

  /** After a round of the loop: the exit test on top of what the reply has changed. */
  lemma RoundStep(s: Sys, c: Uuid, n: Node, now: int, next: ServerState, done: seq<Completed>)
    requires ShortItems(s.items) && ServerOk(s.items, next, done)
    requires NodesOk(s.nodes[c := n], s.items, next)
    requires Ownership(s.nodes[c := n], next.toDo)
    requires OwnersLogged(s.nodes[c := n], Replay(next.log))
    requires next.status == Running
    ensures Inv(Put(s, c, n).(server := ExitTest(next, now), done := done, handled := s.handled + 1))
  {
    ServerTestsExit(s.items, next, now, done);
    var last := ExitTest(next, now);
    var nodes := s.nodes[c := n];
    assert NodesOk(nodes, s.items, last) by {
      forall d | d in nodes ensures NodeOk(d, nodes[d], s.items, last) {
        assert NodeOk(d, nodes[d], s.items, next);
      }
    }
  }

  /** A round in which the client is given an item. */
  lemma GivingStep(s: Sys, c: Uuid, n: Node, now: int, next: ServerState, id: nat)
    requires Inv(s) && c in s.nodes && Held(s.nodes[c]) == None && Held(n) == Some(id)
    requires ServerOk(s.items, next, s.done) && NodeOk(c, n, s.items, next)
    requires next.id == s.server.id && next.status == Running
    requires s.server.nrItems <= next.nrItems <= |s.items| && s.server.pending != []
    requires id !in s.server.toDo && next.toDo == s.server.toDo + {id}
    requires exists item: WorkItem ::
      item.client == Some(c.text) && Replay(next.log) == Items(Replay(s.server.log).items[id := item])
    ensures Inv(Put(s, c, n).(server := ExitTest(next, now), done := s.done, handled := s.handled + 1))
  {
    OwnershipTakes(s.nodes, s.server.toDo, c, n, id);
    NodesKept(s.nodes, s.items, s.server, c, n, next);
    assert OwnersLogged(s.nodes[c := n], Replay(next.log));
    RoundStep(s, c, n, now, next, s.done);
  }

  /** A round in which the client is told to stop. */
  lemma StoppingStep(s: Sys, c: Uuid, n: Node, now: int, next: ServerState)
    requires Inv(s) && c in s.nodes && Held(n) == Held(s.nodes[c])
    requires ServerOk(s.items, next, s.done) && NodeOk(c, n, s.items, next)
    requires next == s.server.(log := next.log) && next.status == Running
    requires Replay(next.log) == Replay(s.server.log)
    ensures Inv(Put(s, c, n).(server := ExitTest(next, now), done := s.done, handled := s.handled + 1))
  {
    OwnershipKeeps(s.nodes, s.server.toDo, c, n);
    NodesKept(s.nodes, s.items, s.server, c, n, next);
    OwnersKept(s.nodes, Replay(s.server.log), c, n, Replay(next.log));
    RoundStep(s, c, n, now, next, s.done);
  }

  /** A round in which the result of the client is taken. */
  lemma TakingStep(s: Sys, c: Uuid, n: Node, now: int, next: ServerState, id: nat, done: seq<Completed>)
    requires Inv(s) && c in s.nodes && Held(s.nodes[c]) == Some(id) && Held(n) == None
    requires ServerOk(s.items, next, done) && NodeOk(c, n, s.items, next)
    requires next == s.server.(log := next.log, out := next.out, err := next.err, toDo := s.server.toDo - {id})
    requires next.status == Running && SameClients(Replay(next.log), Replay(s.server.log))
    ensures Inv(Put(s, c, n).(server := ExitTest(next, now), done := done, handled := s.handled + 1))
  {
    OwnershipGives(s.nodes, s.server.toDo, c, n, id);
    NodesKept(s.nodes, s.items, s.server, c, n, next);
    OwnersKept(s.nodes, Replay(s.server.log), c, n, Replay(next.log));
    RoundStep(s, c, n, now, next, done);
  }

  /** What a round does to a client whose query is answered. */
  lemma ServingQuery(s: Sys, c: Uuid, now: int)
    requires c in s.nodes && s.nodes[c].wire.Request? && s.nodes[c].stage == AwaitReply
    requires NodeOk(c, s.nodes[c], s.items, s.server)
    ensures var (next, reply) := HandleQuery(s.server, c, now); var n := s.nodes[c];
      && Held(n) == None
      && Serving(s, c, now) == Put(s, c, n.(wire := Reply(reply)))
           .(server := ExitTest(next, now), done := s.done, handled := s.handled + 1)
  {
    assert s.done + [] == s.done;
  }

  /** What a round does to a client whose result is acknowledged. */
  lemma ServingResult(s: Sys, c: Uuid, now: int)
    requires c in s.nodes && s.nodes[c].wire.Request? && s.nodes[c].stage == AwaitAck
    requires NodeOk(c, s.nodes[c], s.items, s.server)
    ensures var n := s.nodes[c]; var m := n.wire.msg; var result := Results.Parse(m.content).value;
      var (next, reply) := HandleResult(s.server, c, m.id, result, now); var n' := n.(wire := Reply(reply));
      && Held(n) == Some(m.id) && Held(n') == None && NodeOk(c, n', s.items, next)
      && Serving(s, c, now) == Put(s, c, n')
           .(server := ExitTest(next, now), done := s.done + [Completed(m.id, result)], handled := s.handled + 1)
  {
  }

  lemma WorkStep(s: Sys, c: Uuid, now: int)
    requires Inv(s) && c in s.nodes && s.server.status == Running && s.server.pending != []
    requires s.nodes[c].wire.Request? && s.nodes[c].stage == AwaitReply
    ensures Inv(Serving(s, c, now))
  {
    assert NodeOk(c, s.nodes[c], s.items, s.server);
    ServingQuery(s, c, now);
    ServerGivesWork(s.items, s.server, c, now, s.done);
    var (next, reply) := HandleQuery(s.server, c, now);
    var item := WorkItem(Some(c.text), Some(now), None, None);
    assert Replay(next.log) == Items(Replay(s.server.log).items[reply.id := item]);
    GivingStep(s, c, s.nodes[c].(wire := Reply(reply)), now, next, reply.id);
  }

  lemma StopStep(s: Sys, c: Uuid, now: int)
    requires Inv(s) && c in s.nodes && s.server.status == Running && s.server.pending == []
    requires s.nodes[c].wire.Request? && s.nodes[c].stage == AwaitReply
    ensures Inv(Serving(s, c, now))
  {
    assert NodeOk(c, s.nodes[c], s.items, s.server);
    ServingQuery(s, c, now);
    ServerSaysStop(s.items, s.server, c, now, s.done);
    var (next, reply) := HandleQuery(s.server, c, now);
    StoppingStep(s, c, s.nodes[c].(wire := Reply(reply)), now, next);
  }

  lemma ResultStep(s: Sys, c: Uuid, now: int)
    requires Inv(s) && c in s.nodes && s.server.status == Running
    requires s.nodes[c].wire.Request? && s.nodes[c].stage == AwaitAck
    ensures Inv(Serving(s, c, now))
  {
    var m := s.nodes[c].wire.msg;
    assert NodeOk(c, s.nodes[c], s.items, s.server);
    ServingResult(s, c, now);
    var result := Results.Parse(m.content).value;
    ServerTakesResult(s.items, s.server, c, m.id, result, now, s.done);
    var (next, reply) := HandleResult(s.server, c, m.id, result, now);
    TakingStep(s, c, s.nodes[c].(wire := Reply(reply)), now, next, m.id, s.done + [Completed(m.id, result)]);
  }

  lemma ClientStepNode(s: Sys, step: Step)
    requires Enabled(s, step) && !step.Serve?
    requires NodeOk(step.c, s.nodes[step.c], s.items, s.server)
    ensures var n := Do(s, step).nodes[step.c];
      && Do(s, step) == Put(s, step.c, n)
      && NodeOk(step.c, n, s.items, s.server) && Held(n) == Held(s.nodes[step.c])
      && ((s.nodes[step.c].wire.Request? || s.nodes[step.c].stage == Ready)
          ==> n.wire.Request? || n.stage == Ready)
  {
    if step.Execute? {
      Results.RoundTrip(step.result);
    }
  }

  /** Every step keeps the invariant. */
  lemma StepInv(s: Sys, step: Step)
    requires Inv(s) && Enabled(s, step)
    ensures Inv(Do(s, step))
  {
    var c := step.c;
    if step.Serve? {
      assert NodeOk(c, s.nodes[c], s.items, s.server);
      if s.nodes[c].stage == AwaitAck {
        ResultStep(s, c, step.now);
      } else if s.server.pending != [] {
        WorkStep(s, c, step.now);
      } else {
        StopStep(s, c, step.now);
      }
    } else {
      assert NodeOk(c, s.nodes[c], s.items, s.server);
      ClientStepNode(s, step);
      ClientStep(s, c, Do(s, step).nodes[c]);
    }
  }

  // -------------------------------------------------------------- runs

  datatype Run = Run(states: seq<Sys>, steps: seq<Step>)

  predicate StepAt(r: Run, i: nat)
    requires i < |r.steps| && i + 1 < |r.states|
  {
    Enabled(r.states[i], r.steps[i]) && r.states[i + 1] == Do(r.states[i], r.steps[i])
  }

  /** A run starts in an initial state, and each step leads from one state to the next. */
  predicate IsRun(r: Run) {
    && |r.states| == |r.steps| + 1
    && Init(r.states[0])
    && forall i :: 0 <= i < |r.steps| ==> StepAt(r, i)
  }

  lemma NextInv(s: Sys, step: Step, t: Sys)
    requires Inv(s) && Enabled(s, step) && t == Do(s, step)
    ensures Inv(t)
  {
    StepInv(s, step);
  }

  /** The invariant holds in every state of every run. */
  lemma {:induction false} RunInv(r: Run, k: nat)
    requires IsRun(r) && k < |r.states|
    ensures Inv(r.states[k])
  {
    if k == 0 {
      InitInv(r.states[0]);
    } else {
      RunInv(r, k - 1);
      assert StepAt(r, k - 1);
      NextInv(r.states[k - 1], r.steps[k - 1], r.states[k]);
    }
  }

  lemma StepConstants(s: Sys, step: Step)
    requires Enabled(s, step)
    ensures var t := Do(s, step); t.items == s.items && t.nodes.Keys == s.nodes.Keys
  {
  }

  /** Items and clients are the same in all the states of a run. */
  lemma {:induction false} RunConstants(r: Run, k: nat)
    requires IsRun(r) && k < |r.states|
    ensures r.states[k].items == r.states[0].items && r.states[k].nodes.Keys == r.states[0].nodes.Keys
  {
    if k == 0 {
    } else {
      RunConstants(r, k - 1);
      assert StepAt(r, k - 1);
      StepConstants(r.states[k - 1], r.steps[k - 1]);
    }
  }
}
