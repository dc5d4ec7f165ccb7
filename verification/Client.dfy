/** The client: what a reply makes of it, and the object whose loop does it. */
module Clients {
  import opened Outcomes
  import opened Text
  import opened Messages
  import Results

  /** Where the client is in its message loop. */
  datatype Stage =
    | Ready
    | AwaitReply
    | Executing(id: SizeT, item: string)
    | AwaitAck
    | Stopped
    | Broken

  function QueryMessage(self: Uuid, server: Uuid): Message {
    Message(self, server, Query, 0, "")
  }

  function ResultMessage(self: Uuid, server: Uuid, id: SizeT, result: Results.WorkResult): Message {
    Message(self, server, Result, id, Results.Print(result))
  }

  /** The reply to a query. */
  function OnReply(msg: Message): Stage {
    match msg.subject
    case Stop => Stopped
    case Work => Executing(msg.id, msg.content)
    case _ => Broken
  }

  /** The reply to a result. */
  function OnAck(msg: Message): Stage {
    if msg.subject == AckStop then Stopped else Ready
  }

  /** A reply that cannot be read, as after a time-out, ends the client. */
  function OnWire(handler: Message -> Stage, reply: string): Stage {
    match Messages.Parse(reply)
    case Ok(msg) => handler(msg)
    case Err(_) => Broken
  }

  // ------------------------------------------------------------- the loop

  /** What reaches a client in a round of its loop: a reply to its query, and if that is work,
      the result of executing it and the reply to that result. */
  datatype Round = Round(reply: string, result: Results.WorkResult, ack: string)

  /** The messages sent in a round, and the stage behind it. */
  function RoundOf(self: Uuid, server: Uuid, round: Round): (seq<string>, Stage) {
    var stage := OnWire(OnReply, round.reply);
    if stage.Executing? then
      ([Print(QueryMessage(self, server)), Print(ResultMessage(self, server, stage.id, round.result))],
       OnWire(OnAck, round.ack))
    else ([Print(QueryMessage(self, server))], stage)
  }

  /** The same for all the rounds, until the client has stopped or is broken. */
  function AllRounds(self: Uuid, server: Uuid, rounds: seq<Round>): (seq<string>, Stage) {
    if rounds == [] then ([], Ready)
    else
      var before := AllRounds(self, server, rounds[..|rounds| - 1]);
      var round := RoundOf(self, server, rounds[|rounds| - 1]);
      if before.1 == Ready then (before.0 + round.0, round.1) else before
  }

  lemma RoundsAppend(self: Uuid, server: Uuid, rounds: seq<Round>, n: nat)
    requires n < |rounds| && AllRounds(self, server, rounds[..n]).1 == Ready
    ensures var before, round := AllRounds(self, server, rounds[..n]), RoundOf(self, server, rounds[n]);
      AllRounds(self, server, rounds[..n + 1]) == (before.0 + round.0, round.1)
  {
    assert rounds[..n + 1][..n] == rounds[..n];
  }

  /** A client that is no longer in its loop sends nothing more. */
  lemma {:induction false} RoundsStopped(self: Uuid, server: Uuid, rounds: seq<Round>, n: nat)
    requires n <= |rounds| && AllRounds(self, server, rounds[..n]).1 != Ready
    ensures AllRounds(self, server, rounds) == AllRounds(self, server, rounds[..n])
  {
    if n == |rounds| {
      assert rounds[..n] == rounds;
    } else {
      assert rounds[..|rounds| - 1][..n] == rounds[..n];
      RoundsStopped(self, server, rounds[..|rounds| - 1], n);
    }
  }

  /** The messages of a round in which an item is executed: a query without number and
      content, and the result of that very item. */
  predicate SentInRound(self: Uuid, server: Uuid, round: Round, query: string, answer: string) {
    var stage := OnWire(OnReply, round.reply);
    && stage.Executing? && query == Print(QueryMessage(self, server))
    && answer == Print(ResultMessage(self, server, stage.id, round.result))
  }

  /** No reply to a query puts a client back where it can ask. */
  lemma OnReplyLeaves(reply: string)
    ensures OnWire(OnReply, reply) != Ready
  {
  }

  lemma RoundOfReady(self: Uuid, server: Uuid, round: Round)
    requires RoundOf(self, server, round).1 == Ready
    ensures var sent := RoundOf(self, server, round).0;
      |sent| == 2 && SentInRound(self, server, round, sent[0], sent[1])
  {
    OnReplyLeaves(round.reply);
  }

  /** The i-th round has sent the i-th pair of messages, and what is said of them holds. */
  predicate Paired(rounds: seq<Round>, sent: seq<string>, holds: (Round, string, string) -> bool) {
    |sent| == 2 * |rounds| && forall i :: 0 <= i < |rounds| ==> holds(rounds[i], sent[2 * i], sent[2 * i + 1])
  }

  lemma PairAppended(rounds: seq<Round>, before: seq<string>, pair: seq<string>,
                     holds: (Round, string, string) -> bool)
    requires rounds != [] && Paired(rounds[..|rounds| - 1], before, holds)
    requires |pair| == 2 && holds(rounds[|rounds| - 1], pair[0], pair[1])
    ensures Paired(rounds, before + pair, holds)
  {
    var init, sent := rounds[..|rounds| - 1], before + pair;
    forall i | 0 <= i < |rounds| ensures holds(rounds[i], sent[2 * i], sent[2 * i + 1]) {
      if i < |init| {
        assert holds(init[i], before[2 * i], before[2 * i + 1]);
      }
    }
  }

  /** As long as a client is in its loop, each round has given it an item; it has sent a query
      and a result in turn, each query clean, and each result that of the item of its round. */
  lemma {:induction false} RoundsAlternate(self: Uuid, server: Uuid, rounds: seq<Round>)
    requires AllRounds(self, server, rounds).1 == Ready
    ensures Paired(rounds, AllRounds(self, server, rounds).0,
                   (round, query, answer) => SentInRound(self, server, round, query, answer))
  {
    if rounds == [] {
    } else {
      var last := |rounds| - 1;
      RoundsAlternate(self, server, rounds[..last]);
      RoundOfReady(self, server, rounds[last]);
      PairAppended(rounds, AllRounds(self, server, rounds[..last]).0, RoundOf(self, server, rounds[last]).0,
                   (round, query, answer) => SentInRound(self, server, round, query, answer));
    }
  }

  /** The messages of a round and the stage behind it, for each of the replies that can come:
      a query, and behind it, exactly if the reply is work, the result for that number. */
  predicate RoundIs(self: Uuid, server: Uuid, round: Round, messages: seq<string>, after: Stage) {
    var query := Print(Message(self, server, Query, 0, ""));
    match Messages.Parse(round.reply)
    case Err(_) => messages == [query] && after == Broken
    case Ok(m) =>
      if m.subject == Work then
        && messages == [query, Print(Message(self, server, Result, m.id, Results.Print(round.result)))]
        && after == (match Messages.Parse(round.ack)
                     case Err(_) => Broken
                     case Ok(a) => if a.subject == AckStop then Stopped else Ready)
      else messages == [query] && after == if m.subject == Stop then Stopped else Broken
  }

  lemma RoundOfIs(self: Uuid, server: Uuid, round: Round)
    ensures RoundIs(self, server, round, RoundOf(self, server, round).0, RoundOf(self, server, round).1)
  {
  }

  predicate IsWork(reply: string) {
    match Messages.Parse(reply)
    case Err(_) => false
    case Ok(m) => m.subject == Work
  }

  /** How many of the rounds give the client an item. */
  function CountWork(rounds: seq<Round>): nat {
    if rounds == [] then 0
    else CountWork(rounds[..|rounds| - 1]) + (if IsWork(rounds[|rounds| - 1].reply) then 1 else 0)
  }

  function Flatten(messages: seq<seq<string>>): seq<string> {
    if messages == [] then [] else Flatten(messages[..|messages| - 1]) + messages[|messages| - 1]
  }

  /** The messages of each round that was entered, and the stages before and behind them: the
      client enters a round when it is ready, and it does so as long as something comes. */
  predicate Chained(rounds: seq<Round>, messages: seq<seq<string>>, stages: seq<Stage>,
                    holds: (Round, seq<string>, Stage) -> bool)
  {
    && |stages| == |messages| + 1 <= |rounds| + 1 && stages[0] == Ready
    && (forall i :: 0 <= i < |messages| ==> stages[i] == Ready && holds(rounds[i], messages[i], stages[i + 1]))
    && (|messages| < |rounds| ==> stages[|messages|] != Ready)
  }

  predicate LoopRounds(self: Uuid, server: Uuid, rounds: seq<Round>, messages: seq<seq<string>>, stages: seq<Stage>) {
    Chained(rounds, messages, stages, (round, sent, after) => RoundIs(self, server, round, sent, after))
  }

  /** What a client sends on what reaches it, and the stage it ends in. */
  ghost predicate LoopSends(self: Uuid, server: Uuid, rounds: seq<Round>, sent: seq<string>, last: Stage) {
    exists messages: seq<seq<string>>, stages: seq<Stage> ::
      LoopRounds(self, server, rounds, messages, stages) && sent == Flatten(messages) && last == stages[|messages|]
  }

  lemma ChainedNext(rounds: seq<Round>, messages: seq<seq<string>>, stages: seq<Stage>,
                    sent: seq<string>, after: Stage, holds: (Round, seq<string>, Stage) -> bool)
    requires rounds != [] && Chained(rounds[..|rounds| - 1], messages, stages, holds)
    requires stages[|messages|] == Ready && holds(rounds[|rounds| - 1], sent, after)
    ensures Chained(rounds, messages + [sent], stages + [after], holds)
  {
    var more, next := messages + [sent], stages + [after];
    assert |messages| == |rounds| - 1;
    forall i | 0 <= i < |more| ensures next[i] == Ready && holds(rounds[i], more[i], next[i + 1]) {
      if i < |messages| {
        assert holds(rounds[..|rounds| - 1][i], messages[i], stages[i + 1]);
      }
    }
  }

  lemma ChainedStopped(rounds: seq<Round>, messages: seq<seq<string>>, stages: seq<Stage>,
                       holds: (Round, seq<string>, Stage) -> bool)
    requires rounds != [] && Chained(rounds[..|rounds| - 1], messages, stages, holds)
    requires stages[|messages|] != Ready
    ensures Chained(rounds, messages, stages, holds)
  {
    forall i | 0 <= i < |messages| ensures stages[i] == Ready && holds(rounds[i], messages[i], stages[i + 1]) {
      assert holds(rounds[..|rounds| - 1][i], messages[i], stages[i + 1]);
    }
  }

  lemma FlattenNext(messages: seq<seq<string>>, sent: seq<string>)
    ensures Flatten(messages + [sent]) == Flatten(messages) + sent
  {
    assert (messages + [sent])[..|messages|] == messages;
  }

  lemma {:induction false} LoopHasRounds(self: Uuid, server: Uuid, rounds: seq<Round>)
    returns (messages: seq<seq<string>>, stages: seq<Stage>)
    ensures LoopRounds(self, server, rounds, messages, stages)
    ensures AllRounds(self, server, rounds) == (Flatten(messages), stages[|messages|])
  {
    if rounds == [] {
      messages, stages := [], [Ready];
    } else {
      var init, round := rounds[..|rounds| - 1], rounds[|rounds| - 1];
      messages, stages := LoopHasRounds(self, server, init);
      if stages[|messages|] == Ready {
        var (sent, after) := RoundOf(self, server, round);
        RoundOfIs(self, server, round);
        ChainedNext(rounds, messages, stages, sent, after, (r, m, a) => RoundIs(self, server, r, m, a));
        FlattenNext(messages, sent);
        messages, stages := messages + [sent], stages + [after];
      } else {
        ChainedStopped(rounds, messages, stages, (r, m, a) => RoundIs(self, server, r, m, a));
      }
    }
  }

  lemma ChainedBefore(rounds: seq<Round>, messages: seq<seq<string>>, stages: seq<Stage>,
                      holds: (Round, seq<string>, Stage) -> bool)
    requires messages != [] && Chained(rounds, messages, stages, holds)
    ensures var n := |messages| - 1;
      Chained(rounds[..n], messages[..n], stages[..n + 1], holds) && holds(rounds[n], messages[n], stages[n + 1])
  {
    var n := |messages| - 1;
    forall i | 0 <= i < n
      ensures stages[..n + 1][i] == Ready && holds(rounds[..n][i], messages[..n][i], stages[..n + 1][i + 1])
    {
      assert stages[i] == Ready && holds(rounds[i], messages[i], stages[i + 1]);
    }
  }

  lemma RoundCounts(self: Uuid, server: Uuid, round: Round, messages: seq<string>, after: Stage)
    requires RoundIs(self, server, round, messages, after)
    ensures |messages| == if IsWork(round.reply) then 2 else 1
  {
  }

  /** As many messages are sent as rounds are entered and items are executed, and those of the
      last round are the last. */
  lemma {:induction false} LoopCounts(self: Uuid, server: Uuid, rounds: seq<Round>, messages: seq<seq<string>>,
                                      stages: seq<Stage>)
    requires LoopRounds(self, server, rounds, messages, stages)
    ensures |Flatten(messages)| == |messages| + CountWork(rounds[..|messages|])
    ensures messages != [] ==>
      Flatten(messages) == Flatten(messages[..|messages| - 1]) + messages[|messages| - 1]
  {
    if messages == [] {
    } else {
      var n := |messages| - 1;
      ChainedBefore(rounds, messages, stages, (r, m, a) => RoundIs(self, server, r, m, a));
      LoopCounts(self, server, rounds[..n], messages[..n], stages[..n + 1]);
      assert rounds[..n + 1][..n] == rounds[..n] == rounds[..n][..n];
      RoundCounts(self, server, rounds[n], messages[n], stages[n + 1]);
    }
  }

  class Client {
    const id: Uuid
    const server: Uuid
    const builder: MessageBuilder
    var env: map<string, string>
    var stage: Stage

    constructor (id: Uuid, server: Uuid, env: map<string, string>)
      ensures Valid() && fresh(builder) && stage == Ready
      ensures this.id == id && this.server == server
      ensures this.env == env["WORKER_CLIENT_ID" := id.text]["WORKER_SERVER_ID" := server.text]
    {
      this.id, this.server := id, server;
      this.env := env["WORKER_CLIENT_ID" := id.text]["WORKER_SERVER_ID" := server.text];
      builder := new MessageBuilder(id);
      stage := Ready;
    }

    /** The builder carries nothing over, and an executing item finds its own number in
        the environment. */
    ghost predicate Valid()
      reads this, builder
    {
      && builder.from == id && builder.Clean()
      && (stage.Executing? ==>
            "WORKER_ITEM_ID" in env && env["WORKER_ITEM_ID"] == Decimal(stage.id))
    }

    method SendQuery() returns (request: string)
      requires Valid() && stage == Ready
      modifies this`stage, builder
      ensures Valid() && stage == AwaitReply
      ensures request == Print(QueryMessage(id, server))
    {
      builder.SetTo(server);
      builder.SetSubject(Query);
      var msg := builder.Build();
      stage := AwaitReply;
      request := Print(msg);
    }

    method ReceiveReply(reply: string)
      requires Valid() && stage == AwaitReply
      modifies this
      ensures Valid() && stage == OnWire(OnReply, reply)
      ensures env == if stage.Executing? then old(env)["WORKER_ITEM_ID" := Decimal(stage.id)] else old(env)
    {
      var received := builder.BuildFrom(reply);
      if received.Err? {
        stage := Broken;
        return;
      }
      var msg := received.value;
      if msg.subject == Stop {
        stage := Stopped;
      } else if msg.subject == Work {
        env := env["WORKER_ITEM_ID" := Decimal(msg.id)];
        stage := Executing(msg.id, msg.content);
      } else {
        stage := Broken;
      }
    }

    /** The work item has been processed with the given result. */
    method SendResult(result: Results.WorkResult) returns (request: string)
      requires Valid() && stage.Executing?
      modifies this`stage, builder
      ensures Valid() && stage == AwaitAck
      ensures request == Print(ResultMessage(id, server, old(stage).id, result))
    {
      builder.SetTo(server);
      builder.SetSubject(Result);
      builder.SetId(stage.id);
      builder.SetContent(Results.Print(result));
      var msg := builder.Build();
      stage := AwaitAck;
      request := Print(msg);
    }

    method ReceiveAck(reply: string)
      requires Valid() && stage == AwaitAck
      modifies this`stage
      ensures Valid() && stage == OnWire(OnAck, reply)
    {
      var received := builder.BuildFrom(reply);
      if received.Err? {
        stage := Broken;
      } else if received.value.subject == AckStop {
        stage := Stopped;
      } else {
        stage := Ready;
      }
    }

    /** One round of the loop: the messages that are sent. */
    method OneRound(round: Round) returns (sent: seq<string>)
      requires Valid() && stage == Ready
      modifies this, builder
      ensures Valid() && (sent, stage) == RoundOf(id, server, round)
      ensures RoundIs(id, server, round, sent, stage)
    {
      RoundOfIs(id, server, round);
      var query := SendQuery();
      sent := [query];
      ReceiveReply(round.reply);
      if stage.Executing? {
        var answer := SendResult(round.result);
        sent := [query, answer];
        ReceiveAck(round.ack);
      }
    }

    /** The endless loop, on what reaches the client: it ends when the client is told to stop
        or cannot read a reply, or keeps waiting when nothing more comes. */
    method MessageLoop(rounds: seq<Round>) returns (sent: seq<string>)
      requires Valid() && stage == Ready
      modifies this, builder
      ensures Valid() && (sent, stage) == AllRounds(id, server, rounds)
      ensures LoopSends(id, server, rounds, sent, stage)
    {
      sent := [];
      var i := 0;
      while stage == Ready && i < |rounds|
        invariant i <= |rounds| && Valid()
        invariant (sent, stage) == AllRounds(id, server, rounds[..i])
        decreases |rounds| - i
      {
        RoundsAppend(id, server, rounds, i);
        var messages := OneRound(rounds[i]);
        sent := sent + messages;
        i := i + 1;
      }
      if i < |rounds| {
        RoundsStopped(id, server, rounds, i);
      } else {
        assert rounds[..i] == rounds;
      }
      ghost var messages, stages := LoopHasRounds(id, server, rounds);
    }
  }

  /** A time-out on a query leaves an empty reply, and that ends the client. */
  lemma TimeOutBreaks()
    ensures OnWire(OnReply, "") == Broken
  {
    EmptyReplyFails();
  }
}
