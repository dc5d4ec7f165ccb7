/** One server and any number of clients as a system of atomic steps.
    A client has at most one request under way. The server takes a request and sends its
    reply in one step. A crashed client takes no more steps, but a request it has sent may
    still reach the server. */
module Protocol {
  import opened Outcomes
  import opened Text
  import opened Messages
  import opened LogParsers
  import opened Servers
  import opened Clients
  import Results

  /** What is between a client and the server. */
  datatype Wire = Idle | Request(msg: Message) | Reply(msg: Message)

  datatype Node = Node(alive: bool, stage: Stage, wire: Wire)

  /** A result the server has processed. */
  datatype Completed = Completed(id: nat, result: Results.WorkResult)

  /** `done` and `handled` record what the server has processed and how many messages. */
  datatype Sys = Sys(items: seq<string>, server: ServerState, nodes: map<Uuid, Node>,
                     done: seq<Completed>, handled: nat)

  datatype Step =
    | SendQuery(c: Uuid)
    | Serve(c: Uuid, now: int)
    | Receive(c: Uuid)
    | Execute(c: Uuid, result: Results.WorkResult)
    | Crash(c: Uuid)

  predicate QuietLog(log: seq<LogLine>) {
    forall i :: 0 <= i < |log| ==> IsLogLine(log[i]) && Classify(log[i]) == Other
  }

  predicate ShortItems(items: seq<string>) {
    forall i :: 0 <= i < |items| ==> |items[i]| < SIZE_LIMIT
  }

  predicate Init(s: Sys) {
    && |s.items| < SIZE_LIMIT && ShortItems(s.items)
    && s.server == ServerState(s.server.id, s.items, 0, {}, "", "", s.server.log, Running)
    && QuietLog(s.server.log)
    && (forall c :: c in s.nodes ==> s.nodes[c] == Node(true, Ready, Idle))
    && s.done == [] && s.handled == 0
  }

  predicate Enabled(s: Sys, step: Step) {
    && step.c in s.nodes
    && var n := s.nodes[step.c];
       match step
       case SendQuery(_) => n.alive && n.stage == Ready
       case Serve(_, _) => s.server.status == Running && n.wire.Request?
       case Receive(_) => n.alive && n.wire.Reply? && (n.stage == AwaitReply || n.stage == AwaitAck)
       case Execute(_, result) => n.alive && n.stage.Executing? && Results.Fits(result)
       case Crash(_) => n.alive && n.stage != Stopped && n.stage != Broken
  }

  function Put(s: Sys, c: Uuid, n: Node): Sys {
    s.(nodes := s.nodes[c := n])
  }

  function Serving(s: Sys, c: Uuid, now: int): Sys
    requires c in s.nodes && s.nodes[c].wire.Request?
  {
    var n := s.nodes[c];
    match Handle(s.server, n.wire.msg, now)
    case Err(dead) => s.(server := dead, handled := s.handled + 1)
    case Ok((next, reply)) =>
      var finished := if n.wire.msg.subject == Result
                      then [Completed(n.wire.msg.id, Results.Parse(n.wire.msg.content).value)] else [];
      Put(s, c, n.(wire := Reply(reply))).(server := next, done := s.done + finished, handled := s.handled + 1)
  }

  function Do(s: Sys, step: Step): Sys
    requires Enabled(s, step)
  {
    var n := s.nodes[step.c];
    match step
    case SendQuery(c) => Put(s, c, n.(stage := AwaitReply, wire := Request(QueryMessage(c, s.server.id))))
    case Serve(c, now) => Serving(s, c, now)
    case Receive(c) =>
      var handler := if n.stage == AwaitReply then OnReply(n.wire.msg) else OnAck(n.wire.msg);
      Put(s, c, n.(stage := handler, wire := Idle))
    case Execute(c, result) =>
      Put(s, c, n.(stage := AwaitAck,
                   wire := Request(ResultMessage(c, s.server.id, n.stage.id, result))))
    case Crash(c) => Put(s, c, n.(alive := false))
  }

  // ------------------------------------------------------------- invariants

  /** The item a client is responsible for: it is on its way to the client, being executed,
      or in a result the server has not processed; also when the client has crashed. */
  function Held(n: Node): Option<nat> {
    match n.wire
    case Reply(m) => if m.subject == Work then Some(m.id) else None
    case Request(m) => if m.subject == Result then Some(m.id) else None
    case Idle => if n.stage.Executing? then Some(n.stage.id) else None
  }

  predicate IsItem(m: Message, items: seq<string>, nrItems: nat) {
    1 <= m.id <= nrItems <= |items| && m.content == items[m.id - 1]
  }

  /** What a client in each stage has under way. A client is never broken, and one that is
      told to stop is told the truth. */
  predicate NodeOk(c: Uuid, n: Node, items: seq<string>, server: ServerState) {
    match n.wire
    case Idle =>
      (match n.stage
       case Ready => true
       case Stopped => server.pending == []
       case Executing(id, item) => 1 <= id <= server.nrItems <= |items| && item == items[id - 1]
       case _ => false)
    case Request(m) =>
      (m.from == c && m.to == server.id) &&
      (match n.stage
       case AwaitReply => m == QueryMessage(c, server.id)
       case AwaitAck => m.subject == Result && 1 <= m.id <= server.nrItems
                        && |m.content| < SIZE_LIMIT && Results.Parse(m.content).Ok?
       case _ => false)
    case Reply(m) =>
      (m.from == server.id && m.to == c) &&
      (match n.stage
       case AwaitReply => (m.subject == Work && IsItem(m, items, server.nrItems))
                       || (m.subject == Stop && m.id == 0 && m.content == "" && server.pending == [])
       case AwaitAck => m.id == 0 && m.content == ""
                        && (m.subject == Ack || (m.subject == AckStop && server.pending == []))
       case _ => false)
  }

  predicate NodesOk(nodes: map<Uuid, Node>, items: seq<string>, server: ServerState) {
    forall c :: c in nodes ==> NodeOk(c, nodes[c], items, server)
  }

  /** Every open item has exactly one holder, and nothing else is held. */
  ghost predicate Ownership(nodes: map<Uuid, Node>, toDo: set<nat>) {
    && (forall c :: c in nodes && Held(nodes[c]).Some? ==> Held(nodes[c]).value in toDo)
    && (forall id :: id in toDo ==> exists c :: c in nodes && Held(nodes[c]) == Some(id))
    && (forall c, d :: c in nodes && d in nodes && Held(nodes[c]).Some? && Held(nodes[c]) == Held(nodes[d])
          ==> c == d)
  }

  predicate IsDone(done: seq<Completed>, id: nat) {
    exists i :: 0 <= i < |done| && done[i].id == id
  }

  /** The numbers given out are the open ones and the processed ones, each only once. */
  ghost predicate Accounting(nrItems: nat, toDo: set<nat>, done: seq<Completed>) {
    && (forall id: nat :: 1 <= id <= nrItems <==> id in toDo || IsDone(done, id))
    && (forall i :: 0 <= i < |done| ==> done[i].id !in toDo)
    && (forall i, j :: 0 <= i < j < |done| ==> done[i].id != done[j].id)
  }

  function Stdouts(done: seq<Completed>): string {
    if done == [] then "" else Stdouts(done[..|done| - 1]) + (done[|done| - 1].result.stdout + "\n")
  }

  function Stderrs(done: seq<Completed>): string {
    if done == [] then "" else Stderrs(done[..|done| - 1]) + (done[|done| - 1].result.stderr + "\n")
  }

  /** What was given out is a prefix of the items; each result was written once. */
  predicate Streams(items: seq<string>, server: ServerState, done: seq<Completed>) {
    && server.nrItems <= |items| < SIZE_LIMIT && server.pending == items[server.nrItems..]
    && server.out == Stdouts(done) && server.err == Stderrs(done)
  }

  /** The server ends its loop as soon as it can, and in no other way. */
  predicate StatusOk(s: Sys) {
    && s.server.status != Failed
    && (s.server.status == Finished <==> s.handled > 0 && s.server.pending == [] && s.server.toDo == {})
    && (s.handled == 0 ==> forall c :: c in s.nodes ==> s.nodes[c].wire.Request? || s.nodes[c].stage == Ready)
  }

  /** The dictionary that a log parser makes of the log. */
  ghost predicate TableOk(table: map<nat, WorkItem>, nrItems: nat, toDo: set<nat>, done: seq<Completed>) {
    && (forall id: nat :: id in table <==> 1 <= id <= nrItems)
    && CompleteRows(table)
    && (forall id :: id in table ==> (table[id].status == None <==> id in toDo))
    && (forall i :: 0 <= i < |done| ==>
          done[i].id in table && table[done[i].id].status == Some(done[i].result.exitStatus))
  }

  /** The numbers of the started lines, and the numbers and statuses of the done lines. */
  function Dispatched(log: seq<LogLine>): seq<nat> {
    if log == [] then []
    else
      Dispatched(log[..|log| - 1])
      + (match Classify(log[|log| - 1]) case Started(id, _) => [id] case _ => [])
  }

  function Reported(log: seq<LogLine>): seq<(nat, int)> {
    if log == [] then []
    else
      Reported(log[..|log| - 1])
      + (match Classify(log[|log| - 1]) case Done(id, status) => [(id, status)] case _ => [])
  }

  function UpTo(n: nat): seq<nat> {
    seq(n, i => i + 1)
  }

  function Statuses(done: seq<Completed>): seq<(nat, int)> {
    seq(|done|, i requires 0 <= i < |done| => (done[i].id, done[i].result.exitStatus as int))
  }

  ghost predicate LogOk(server: ServerState, done: seq<Completed>) {
    && AllLogLines(server.log)
    && Replay(server.log).Items?
    && TableOk(Replay(server.log).items, server.nrItems, server.toDo, done)
    && Dispatched(server.log) == UpTo(server.nrItems)
    && Reported(server.log) == Statuses(done)
  }

  /** The log names the client that holds an item. */
  predicate OwnersLogged(nodes: map<Uuid, Node>, table: Table) {
    table.Items? && forall c :: c in nodes && Held(nodes[c]).Some? ==>
      var id := Held(nodes[c]).value;
      id in table.items && table.items[id].client == Some(c.text)
  }

  ghost predicate ServerOk(items: seq<string>, server: ServerState, done: seq<Completed>) {
    && Streams(items, server, done)
    && Accounting(server.nrItems, server.toDo, done)
    && LogOk(server, done)
  }

  ghost predicate Inv(s: Sys) {
    && ShortItems(s.items)
    && ServerOk(s.items, s.server, s.done)
    && NodesOk(s.nodes, s.items, s.server)
    && Ownership(s.nodes, s.server.toDo)
    && OwnersLogged(s.nodes, Replay(s.server.log))
    && StatusOk(s)
  }
}
