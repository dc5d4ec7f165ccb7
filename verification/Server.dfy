/** The server: what one message changes, and the object whose loop does it. */
module Servers {
  import opened Outcomes
  import opened Text
  import opened Messages
  import opened LogParsers
  import opened WorkParsers
  import Segments
  import Results

  datatype Status = Running | Finished | Failed

  /** The state of the message loop. `pending` are the items the parser can still produce. */
  datatype ServerState = ServerState(id: Uuid, pending: seq<string>, nrItems: SizeT, toDo: set<nat>,
                                     out: string, err: string, log: seq<LogLine>, status: Status)

  // ---------------------------------------------------------------- log lines

  function QueryText(from: Uuid): string { "query message from " + from.text }

  function WorkText(id: nat, to: Uuid): string { "work message " + Decimal(id) + " to " + to.text }

  function StartedText(id: nat, to: Uuid): string {
    "workitem " + (Decimal(id) + (" " + ("started" + (": " + to.text))))
  }

  function StopText(to: Uuid): string { "stop message to " + to.text }

  function ResultText(id: nat, from: Uuid): string { "result message for " + Decimal(id) + " from " + from.text }

  function DoneText(id: nat, status: int): string {
    "workitem " + (Decimal(id) + (" " + ("done" + (": " + PrintInt(status)))))
  }

  function AckText(to: Uuid): string { "ack message to " + to.text }

  function AckStopText(to: Uuid): string { "ack_stop message to " + to.text }

  const INVALID_TEXT := "invalid message"
  const DONE_TEXT := "processing done"
  const EXIT_TEXT := "exiting normally"

  /** What is logged before the first message. */
  function Preamble(id: Uuid, bind: string, address: string, infoFile: string, now: int): seq<LogLine> {
    [LogLine(now, "server ID " + id.text),
     LogLine(now, "socket boundi on " + bind),
     LogLine(now, "server address " + address),
     LogLine(now, "created server_info file '" + infoFile + "'")]
  }

  // ------------------------------------------------------- handling a message

  function HandleQuery(s: ServerState, from: Uuid, now: int): (ServerState, Message) {
    if s.pending != [] then
      var id := Increment(s.nrItems);
      (s.(pending := s.pending[1..], nrItems := id, toDo := s.toDo + {id},
          log := s.log + [LogLine(now, QueryText(from))] + [LogLine(now, WorkText(id, from))]
                 + [LogLine(now, StartedText(id, from))]),
       Message(s.id, from, Work, id, s.pending[0]))
    else
      (s.(log := s.log + [LogLine(now, QueryText(from))] + [LogLine(now, StopText(from))]
                 + [LogLine(now, StopText(from))]),
       Message(s.id, from, Stop, 0, ""))
  }

  function HandleResult(s: ServerState, from: Uuid, id: nat, result: Results.WorkResult, now: int)
    : (ServerState, Message)
  {
    var more := s.pending != [];
    var ackText := if more then AckText(from) else AckStopText(from);
    (s.(toDo := s.toDo - {id},
        out := s.out + (result.stdout + "\n"), err := s.err + (result.stderr + "\n"),
        log := s.log + [LogLine(now, ResultText(id, from))] + [LogLine(now, DoneText(id, result.exitStatus))]
               + [LogLine(now, ackText)]),
     Message(s.id, from, if more then Ack else AckStop, 0, ""))
  }

  /** The exit test at the end of the loop. */
  function ExitTest(s: ServerState, now: int): ServerState {
    if s.pending == [] && s.toDo == {} then
      s.(log := s.log + [LogLine(now, DONE_TEXT)] + [LogLine(now, EXIT_TEXT)], status := Finished)
    else s
  }

  /** One round of the loop: the new state and the reply, or the state the server dies in. */
  function Handle(s: ServerState, msg: Message, now: int): Outcome<(ServerState, Message), ServerState> {
    match msg.subject
    case Query =>
      var (next, reply) := HandleQuery(s, msg.from, now);
      Ok((ExitTest(next, now), reply))
    case Result =>
      (match Results.Parse(msg.content)
       case Err(_) =>
         Err(s.(log := s.log + [LogLine(now, ResultText(msg.id, msg.from))], status := Failed))
       case Ok(result) =>
         var (next, reply) := HandleResult(s, msg.from, msg.id, result, now);
         Ok((ExitTest(next, now), reply)))
    case _ => Err(s.(log := s.log + [LogLine(now, INVALID_TEXT)], status := Failed))
  }

  /** The same on the bytes of the message; a message that cannot be read is fatal. */
  function HandleWire(s: ServerState, request: string, now: int): (ServerState, Option<string>) {
    match Messages.Parse(request)
    case Err(_) => (s.(status := Failed), None)
    case Ok(msg) =>
      match Handle(s, msg, now)
      case Err(dead) => (dead, None)
      case Ok((next, reply)) => (next, Some(Print(reply)))
  }

  function Receive(before: (ServerState, seq<string>), request: (string, int)): (ServerState, seq<string>) {
    var (next, reply) := HandleWire(before.0, request.0, request.1);
    (next, if reply.Some? then before.1 + [reply.value] else before.1)
  }

  /** The message loop over the requests in the order of their arrival. */
  function HandleAll(s: ServerState, inbox: seq<(string, int)>): (ServerState, seq<string>) {
    if inbox == [] then (s, [])
    else
      var last := |inbox| - 1;
      var before := HandleAll(s, inbox[..last]);
      if before.0.status == Running then Receive(before, inbox[last]) else before
  }

  lemma HandleAllAppend(s: ServerState, inbox: seq<(string, int)>, n: nat)
    requires n < |inbox| && HandleAll(s, inbox[..n]).0.status == Running
    ensures HandleAll(s, inbox[..n + 1]) == Receive(HandleAll(s, inbox[..n]), inbox[n])
  {
    assert inbox[..n + 1][..n] == inbox[..n];
  }

  lemma {:induction false} HandleAllStopped(s: ServerState, inbox: seq<(string, int)>, n: nat)
    requires n <= |inbox| && HandleAll(s, inbox[..n]).0.status != Running
    ensures HandleAll(s, inbox) == HandleAll(s, inbox[..n])
  {
    if n < |inbox| {
      assert inbox[..|inbox| - 1][..n] == inbox[..n];
      HandleAllStopped(s, inbox[..|inbox| - 1], n);
    } else {
      assert inbox[..n] == inbox;
    }
  }

  // -------------------------------------------------- what is written

  lemma ThreeLines(log: seq<LogLine>, a: LogLine, b: LogLine, c: LogLine)
    ensures log + [a] + [b] + [c] == log + [a, b, c]
  {
  }

  lemma StartedTextIs(id: nat, to: Uuid)
    ensures StartedText(id, to) == "workitem " + Decimal(id) + " started: " + to.text
  {
    assert "started" + (": " + to.text) == "started: " + to.text;
    assert " " + ("started: " + to.text) == " started: " + to.text;
  }

  /** The log of a round in which an item is given out, and of one that ends in a stop. */
  lemma QueryLogged(s: ServerState, from: Uuid, now: int)
    ensures var id := Decimal(Increment(s.nrItems)); var log := HandleQuery(s, from, now).0.log;
      if s.pending != [] then
        log == s.log + [LogLine(now, "query message from " + from.text),
                        LogLine(now, "work message " + id + " to " + from.text),
                        LogLine(now, "workitem " + id + " started: " + from.text)]
      else
        log == s.log + [LogLine(now, "query message from " + from.text),
                        LogLine(now, "stop message to " + from.text),
                        LogLine(now, "stop message to " + from.text)]
  {
    var id := Increment(s.nrItems);
    var q, stop := LogLine(now, QueryText(from)), LogLine(now, StopText(from));
    ThreeLines(s.log, q, LogLine(now, WorkText(id, from)), LogLine(now, StartedText(id, from)));
    ThreeLines(s.log, q, stop, stop);
    StartedTextIs(id, from);
  }

  lemma DoneTextIs(id: nat, status: int)
    ensures DoneText(id, status) == "workitem " + Decimal(id) + " done: " + PrintInt(status)
  {
    assert "done" + (": " + PrintInt(status)) == "done: " + PrintInt(status);
    assert " " + ("done: " + PrintInt(status)) == " done: " + PrintInt(status);
  }

  /** The log of a round in which a result is processed. */
  lemma ResultLogged(s: ServerState, from: Uuid, id: nat, result: Results.WorkResult, now: int)
    ensures var ack := if s.pending != [] then "ack message to " + from.text else "ack_stop message to " + from.text;
      HandleResult(s, from, id, result, now).0.log
         == s.log + [LogLine(now, "result message for " + Decimal(id) + " from " + from.text),
                     LogLine(now, "workitem " + Decimal(id) + " done: " + PrintInt(result.exitStatus)),
                     LogLine(now, ack)]
  {
    var ack := LogLine(now, if s.pending != [] then AckText(from) else AckStopText(from));
    DoneTextIs(id, result.exitStatus);
    ThreeLines(s.log, LogLine(now, ResultText(id, from)), LogLine(now, DoneText(id, result.exitStatus)), ack);
  }

  /** Each output is written behind what was written before, and closed by a newline. */
  lemma ResultWritten(s: ServerState, from: Uuid, id: nat, result: Results.WorkResult, now: int)
    ensures var next := HandleResult(s, from, id, result, now).0;
      next.out == s.out + result.stdout + "\n" && next.err == s.err + result.stderr + "\n"
  {
  }

  /** The log when the server leaves its loop. */
  lemma ExitLogged(s: ServerState, now: int)
    ensures ExitTest(s, now).log == s.log + (if s.pending == [] && s.toDo == {}
      then [LogLine(now, "processing done"), LogLine(now, "exiting normally")] else [])
  {
    assert s.log + [LogLine(now, DONE_TEXT), LogLine(now, EXIT_TEXT)]
        == s.log + [LogLine(now, DONE_TEXT)] + [LogLine(now, EXIT_TEXT)];
    assert s.log + [] == s.log;
  }

  /** A round is fatal exactly when the request cannot be read, is neither a query nor a
      result, or carries a result that cannot be read. Then there is no reply, and nothing
      has changed but the log and the status. */
  lemma FatalRound(s: ServerState, request: string, now: int)
    requires s.status == Running
    ensures var (next, reply) := HandleWire(s, request, now);
      && (reply.None? <==> next.status == Failed)
      && (reply.Some? <==>
            match Messages.Parse(request)
            case Err(_) => false
            case Ok(m) => m.subject == Query || (m.subject == Result && Results.Parse(m.content).Ok?))
      && (reply.None? ==>
            && next == s.(log := next.log, status := Failed)
            && next.log == s.log + (match Messages.Parse(request)
                                    case Err(_) => []
                                    case Ok(m) =>
                                      if m.subject != Result then [LogLine(now, "invalid message")]
                                      else [LogLine(now, ResultText(m.id, m.from))]))
  {
    assert s.log + [] == s.log;
  }

  /** The i-th round: the server was in its loop, and what it made of the request is the next
      state and the next reply, or no reply if there is none left. */
  predicate Answered(states: seq<ServerState>, inbox: seq<(string, int)>, replies: seq<string>, i: nat)
    requires i < |inbox| && i + 1 < |states|
  {
    && states[i].status == Running
    && HandleWire(states[i], inbox[i].0, inbox[i].1)
       == (states[i + 1], if i < |replies| then Some(replies[i]) else None)
  }

  /** The states of a loop, from the first to the last: each handled request leads from one to
      the next and is replied to, the one that ends the loop included; only a fatal one is
      not. The loop goes on as long as the server runs and there are requests. */
  predicate LoopStates(states: seq<ServerState>, inbox: seq<(string, int)>, replies: seq<string>) {
    && 0 < |states| <= |inbox| + 1
    && (forall i :: 0 <= i < |states| - 1 ==> Answered(states, inbox, replies, i))
    && (|states| <= |inbox| ==> states[|states| - 1].status != Running)
    && |replies| == (if |states| > 1 && states[|states| - 1].status == Failed then |states| - 2 else |states| - 1)
  }

  /** The loop leads from one state to another with these replies. */
  ghost predicate LoopLeads(first: ServerState, inbox: seq<(string, int)>, last: ServerState, replies: seq<string>) {
    exists states: seq<ServerState> ::
      LoopStates(states, inbox, replies) && states[0] == first && states[|states| - 1] == last
  }

  lemma LoopStatesNext(states: seq<ServerState>, inbox: seq<(string, int)>, replies: seq<string>,
                       next: ServerState, reply: Option<string>)
    requires inbox != [] && LoopStates(states, inbox[..|inbox| - 1], replies)
    requires states[|states| - 1].status == Running
    requires HandleWire(states[|states| - 1], inbox[|inbox| - 1].0, inbox[|inbox| - 1].1) == (next, reply)
    requires reply.None? <==> next.status == Failed
    ensures LoopStates(states + [next], inbox, if reply.Some? then replies + [reply.value] else replies)
  {
    var all, sent := states + [next], if reply.Some? then replies + [reply.value] else replies;
    assert |states| == |inbox| && |replies| == |states| - 1;
    forall i | 0 <= i < |all| - 1 ensures Answered(all, inbox, sent, i) {
      if i < |states| - 1 {
        assert Answered(states, inbox[..|inbox| - 1], replies, i);
      }
    }
  }

  lemma LoopStatesStopped(states: seq<ServerState>, inbox: seq<(string, int)>, replies: seq<string>)
    requires inbox != [] && LoopStates(states, inbox[..|inbox| - 1], replies)
    requires states[|states| - 1].status != Running
    ensures LoopStates(states, inbox, replies)
  {
    forall i | 0 <= i < |states| - 1 ensures Answered(states, inbox, replies, i) {
      assert Answered(states, inbox[..|inbox| - 1], replies, i);
    }
  }

  lemma {:induction false} LoopHasStates(s: ServerState, inbox: seq<(string, int)>)
    returns (states: seq<ServerState>)
    ensures LoopStates(states, inbox, HandleAll(s, inbox).1)
    ensures states[0] == s && states[|states| - 1] == HandleAll(s, inbox).0
  {
    if inbox == [] {
      states := [s];
    } else {
      var last := |inbox| - 1;
      states := LoopHasStates(s, inbox[..last]);
      var before := HandleAll(s, inbox[..last]);
      if before.0.status == Running {
        var (next, reply) := HandleWire(before.0, inbox[last].0, inbox[last].1);
        FatalRound(before.0, inbox[last].0, inbox[last].1);
        LoopStatesNext(states, inbox, before.1, next, reply);
        states := states + [next];
      } else {
        LoopStatesStopped(states, inbox, before.1);
      }
    }
  }

  class Server {
    const id: Uuid
    const parser: WorkParser
    const builder: MessageBuilder
    var toDo: set<nat>
    var outStream: string
    var errStream: string
    var log: seq<LogLine>
    var status: Status

    constructor (id: Uuid, workfile: string, bind: string, address: string, infoFile: string, now: int)
      ensures Valid() && fresh(parser) && fresh(builder)
      ensures State() == ServerState(id, Segments.WorkItems(workfile, DEFAULT_SEP), 0, {}, "", "",
                                     Preamble(id, bind, address, infoFile, now), Running)
    {
      this.id := id;
      parser := new WorkParser(workfile, DEFAULT_SEP);
      builder := new MessageBuilder(id);
      toDo, outStream, errStream := {}, "", "";
      log := Preamble(id, bind, address, infoFile, now);
      status := Running;
    }

    /** Between two rounds nothing is left over in the message builder. */
    ghost predicate Valid()
      reads this, builder
    {
      builder.from == id && builder.Clean()
    }

    ghost function State(): ServerState
      reads this, parser
    {
      ServerState(id, parser.Upcoming(), parser.nrItems, toDo, outStream, errStream, log, status)
    }

    method Log(now: int, text: string)
      modifies this`log
      ensures log == old(log) + [LogLine(now, text)]
    {
      log := log + [LogLine(now, text)];
    }

    method SendWork(dest: Uuid, now: int) returns (workId: SizeT, reply: string)
      requires Valid() && parser.HasNext()
      modifies this`log, parser, builder
      ensures Valid()
      ensures workId == Increment(old(parser.nrItems)) == parser.nrItems
      ensures parser.Upcoming() == old(parser.Upcoming())[1..]
      ensures reply == Print(Message(id, dest, Work, workId, old(parser.Upcoming())[0]))
      ensures log == old(log) + [LogLine(now, WorkText(workId, dest))]
    {
      var workItem := parser.Next();
      workId := parser.nrItems;
      builder.SetTo(dest);
      builder.SetSubject(Work);
      builder.SetId(workId);
      builder.SetContent(workItem);
      var msg := builder.Build();
      assert msg == Message(id, dest, Work, workId, workItem);
      Log(now, WorkText(workId, msg.to));
      reply := Print(msg);
    }

    /** A message without id and content. */
    method SendPlain(dest: Uuid, subject: Subject) returns (reply: string)
      requires Valid()
      modifies builder
      ensures Valid() && reply == Print(Message(id, dest, subject, 0, ""))
    {
      builder.SetTo(dest);
      builder.SetSubject(subject);
      var msg := builder.Build();
      reply := Print(msg);
    }

    method OnQuery(from: Uuid, now: int) returns (reply: string)
      requires Valid()
      modifies this`toDo, this`log, parser, builder
      ensures Valid()
      ensures var (next, answer) := HandleQuery(old(State()), from, now);
              State() == next && reply == Print(answer)
    {
      Log(now, QueryText(from));
      if parser.HasNext() {
        var workId;
        workId, reply := SendWork(from, now);
        toDo := toDo + {workId};
        Log(now, StartedText(workId, from));
      } else {
        Log(now, StopText(from));
        reply := SendPlain(from, Stop);
        Log(now, StopText(from));
      }
    }

    method OnResult(from: Uuid, msgId: nat, content: string, now: int) returns (reply: Option<string>)
      requires Valid()
      modifies this, builder
      ensures Valid()
      ensures match Results.Parse(content)
        case Ok(result) =>
          var (next, answer) := HandleResult(old(State()), from, msgId, result, now);
          State() == next && reply == Some(Print(answer))
        case Err(_) =>
          State() == old(State()).(log := old(log) + [LogLine(now, ResultText(msgId, from))], status := Failed)
          && reply == None
    {
      Log(now, ResultText(msgId, from));
      var result := Results.FromString(content);
      if result.Err? {
        status := Failed;
        return None;
      }
      outStream := outStream + (result.value.stdout + "\n");
      errStream := errStream + (result.value.stderr + "\n");
      Log(now, DoneText(msgId, result.value.exitStatus));
      toDo := toDo - {msgId};
      if parser.HasNext() {
        var ack := SendPlain(from, Ack);
        Log(now, AckText(from));
        return Some(ack);
      } else {
        var ack := SendPlain(from, AckStop);
        Log(now, AckStopText(from));
        return Some(ack);
      }
    }

    /** One round of the message loop. */
    method HandleRequest(request: string, now: int) returns (reply: Option<string>)
      requires Valid() && status == Running
      modifies this, parser, builder
      ensures Valid()
      ensures (State(), reply) == HandleWire(old(State()), request, now)
    {
      var received := builder.BuildFrom(request);
      if received.Err? {
        status := Failed;
        return None;
      }
      var msg := received.value;
      if msg.subject == Query {
        var answer := OnQuery(msg.from, now);
        reply := Some(answer);
      } else if msg.subject == Result {
        reply := OnResult(msg.from, msg.id, msg.content, now);
        if reply.None? {
          return;
        }
      } else {
        Log(now, INVALID_TEXT);
        status := Failed;
        return None;
      }
      if !parser.HasNext() && toDo == {} {
        Log(now, DONE_TEXT);
        Log(now, EXIT_TEXT);
        status := Finished;
      }
    }

    /** The endless loop, on the requests that arrive: it ends with the exit test, with a
        fatal message, or keeps waiting when no more requests come. */
    method MessageLoop(inbox: seq<(string, int)>) returns (replies: seq<string>)
      requires Valid() && status == Running
      modifies this, parser, builder
      ensures Valid()
      ensures (State(), replies) == HandleAll(old(State()), inbox)
      ensures LoopLeads(old(State()), inbox, State(), replies)
    {
      replies := [];
      var i := 0;
      while status == Running && i < |inbox|
        invariant i <= |inbox| && Valid()
        invariant (State(), replies) == HandleAll(old(State()), inbox[..i])
        decreases |inbox| - i
      {
        HandleAllAppend(old(State()), inbox, i);
        var reply := HandleRequest(inbox[i].0, inbox[i].1);
        if reply.Some? {
          replies := replies + [reply.value];
        }
        i := i + 1;
      }
      if i < |inbox| {
        HandleAllStopped(old(State()), inbox, i);
      } else {
        assert inbox[..i] == inbox;
      }
      ghost var states := LoopHasStates(old(State()), inbox);
    }
  }
}
