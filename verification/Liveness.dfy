/** Every run ends; without crashes it ends with the server leaving its loop. */
module Liveness {
  import opened Outcomes
  import opened Text
  import opened Messages
  import opened Servers
  import opened Clients
  import opened Protocol
  import opened Safety
  import opened Guarantees
  import Results

  // --------------------------------------------------- sums over the clients

  ghost function Sum(nodes: map<Uuid, Node>, weight: Node -> nat): nat
    decreases |nodes|
  {
    if nodes == map[] then 0
    else
      var c :| c in nodes;
      weight(nodes[c]) + Sum(nodes - {c}, weight)
  }

  lemma {:induction false} SumAt(nodes: map<Uuid, Node>, c: Uuid, weight: Node -> nat)
    requires c in nodes
    ensures Sum(nodes, weight) == weight(nodes[c]) + Sum(nodes - {c}, weight)
    decreases |nodes|
  {
    var d :| d in nodes && Sum(nodes, weight) == weight(nodes[d]) + Sum(nodes - {d}, weight);
    if d != c {
      SumAt(nodes - {d}, c, weight);
      SumAt(nodes - {c}, d, weight);
      assert nodes - {d} - {c} == nodes - {c} - {d};
    }
  }

  lemma SumPut(nodes: map<Uuid, Node>, c: Uuid, n: Node, weight: Node -> nat)
    requires c in nodes
    ensures Sum(nodes[c := n], weight) + weight(nodes[c]) == Sum(nodes, weight) + weight(n)
  {
    SumAt(nodes, c, weight);
    SumAt(nodes[c := n], c, weight);
    assert nodes[c := n] - {c} == nodes - {c};
  }

  lemma {:induction false} SumConstant(nodes: map<Uuid, Node>, weight: Node -> nat, w: nat)
    requires forall c :: c in nodes ==> weight(nodes[c]) == w
    ensures Sum(nodes, weight) == w * |nodes|
    decreases |nodes|
  {
    if nodes == map[] {
    } else {
      var c :| c in nodes;
      SumAt(nodes, c, weight);
      SumConstant(nodes - {c}, weight, w);
      assert |nodes - {c}| == |nodes| - 1 by {
        assert (nodes - {c}).Keys == nodes.Keys - {c};
      }
    }
  }

  // ------------------------------------------------------- the measure

  /** How many steps a client can take before it needs another item. */
  function Steps(n: Node): nat {
    (if n.alive then 1 else 0) +
    match n.wire
    case Idle => (match n.stage case Ready => 3 case Executing(_, _) => 6 case _ => 0)
    case Request(m) => if m.subject == Result then 5 else 2
    case Reply(m) => (match m.subject case Work => 7 case Ack => 4 case _ => 1)
  }

  /** How many messages a client can send before it needs another item. */
  function Requests(n: Node): nat {
    match n.wire
    case Idle => (match n.stage case Ready => 1 case Executing(_, _) => 2 case _ => 0)
    case Request(m) => if m.subject == Result then 2 else 1
    case Reply(m) => (match m.subject case Work => 2 case Ack => 1 case _ => 0)
  }

  ghost function Measure(s: Sys): nat {
    6 * |s.server.pending| + Sum(s.nodes, Steps)
  }

  /** The messages handled so far and those that may still come. */
  ghost function Traffic(s: Sys): nat {
    s.handled + 2 * |s.server.pending| + Sum(s.nodes, Requests)
  }

  /** A step in terms of the client it concerns and of the items left. */
  predicate Decreases(s: Sys, c: Uuid, t: Sys)
    requires c in s.nodes && c in t.nodes
  {
    var n, m := s.nodes[c], t.nodes[c];
    && t.nodes == s.nodes[c := m]
    && 6 * |t.server.pending| + Steps(m) < 6 * |s.server.pending| + Steps(n)
    && t.handled + 2 * |t.server.pending| + Requests(m) <= s.handled + 2 * |s.server.pending| + Requests(n)
  }

  lemma ClientDecreases(s: Sys, step: Step)
    requires Enabled(s, step) && !step.Serve?
    requires NodeOk(step.c, s.nodes[step.c], s.items, s.server)
    ensures Decreases(s, step.c, Do(s, step))
  {
  }

  lemma QueryDecreases(s: Sys, c: Uuid, now: int)
    requires c in s.nodes && s.nodes[c].wire.Request? && s.nodes[c].stage == AwaitReply
    requires NodeOk(c, s.nodes[c], s.items, s.server)
    ensures c in Serving(s, c, now).nodes && Decreases(s, c, Serving(s, c, now))
  {
    ServingQuery(s, c, now);
  }

  lemma ResultDecreases(s: Sys, c: Uuid, now: int)
    requires c in s.nodes && s.nodes[c].wire.Request? && s.nodes[c].stage == AwaitAck
    requires NodeOk(c, s.nodes[c], s.items, s.server)
    ensures c in Serving(s, c, now).nodes && Decreases(s, c, Serving(s, c, now))
  {
    ServingResult(s, c, now);
  }

  lemma StepOfNode(s: Sys, step: Step)
    requires Inv(s) && Enabled(s, step)
    ensures step.c in Do(s, step).nodes && Decreases(s, step.c, Do(s, step))
  {
    var c := step.c;
    assert NodeOk(c, s.nodes[c], s.items, s.server);
    if !step.Serve? {
      ClientDecreases(s, step);
    } else if s.nodes[c].stage == AwaitAck {
      ResultDecreases(s, c, step.now);
    } else {
      QueryDecreases(s, c, step.now);
    }
  }

  /** Every step, a crash included, makes the measure smaller, and no step makes more
      messages possible than were possible before. */
  lemma StepDecreases(s: Sys, step: Step)
    requires Inv(s) && Enabled(s, step)
    ensures Measure(Do(s, step)) < Measure(s)
    ensures Traffic(Do(s, step)) <= Traffic(s)
  {
    StepOfNode(s, step);
    var m := Do(s, step).nodes[step.c];
    SumPut(s.nodes, step.c, m, Steps);
    SumPut(s.nodes, step.c, m, Requests);
  }

  lemma InitMeasure(s: Sys)
    requires Init(s)
    ensures Measure(s) == 6 * |s.items| + 4 * |s.nodes|
    ensures Traffic(s) == 2 * |s.items| + |s.nodes|
  {
    SumConstant(s.nodes, Steps, 4);
    SumConstant(s.nodes, Requests, 1);
  }

  lemma NextDecreases(s: Sys, step: Step, t: Sys)
    requires Inv(s) && Enabled(s, step) && t == Do(s, step)
    ensures Measure(t) < Measure(s) && Traffic(t) <= Traffic(s)
  {
    StepDecreases(s, step);
  }

  lemma {:induction false} RunMeasure(r: Run, k: nat)
    requires IsRun(r) && k < |r.states|
    ensures k + Measure(r.states[k]) <= Measure(r.states[0])
    ensures Traffic(r.states[k]) <= Traffic(r.states[0])
  {
    if k == 0 {
    } else {
      RunMeasure(r, k - 1);
      RunInv(r, k - 1);
      assert StepAt(r, k - 1);
      NextDecreases(r.states[k - 1], r.steps[k - 1], r.states[k]);
    }
  }

  /** With N items and C clients a run has at most 6 N + 4 C steps, crashes included, and
      the server handles at most 2 N + C messages. */
  lemma RunsAreBounded(r: Run, k: nat)
    requires IsRun(r) && k < |r.states|
    ensures |r.steps| <= 6 * |r.states[0].items| + 4 * |r.states[0].nodes|
    ensures r.states[k].handled <= 2 * |r.states[0].items| + |r.states[0].nodes|
  {
    InitMeasure(r.states[0]);
    RunMeasure(r, |r.steps|);
    RunMeasure(r, k);
  }

  // -------------------------------------------------------- progress

  predicate AllAlive(s: Sys) {
    forall c :: c in s.nodes ==> s.nodes[c].alive
  }

  /** A result that fits on the wire. */
  const NOTHING := Results.WorkResult(0, "", "")

  lemma NothingFits()
    ensures Results.Fits(NOTHING)
  {
    assert PrintInt(0) == "0" && Decimal(0) == "0";
  }

  /** The step that a live client that has not stopped is waiting for. */
  lemma NodeCanStep(s: Sys, c: Uuid) returns (step: Step)
    requires c in s.nodes && NodeOk(c, s.nodes[c], s.items, s.server)
    requires s.server.status == Running && s.nodes[c].alive && s.nodes[c].stage != Stopped
    ensures Enabled(s, step) && !step.Crash?
  {
    NothingFits();
    match s.nodes[c].wire
    case Idle => step := if s.nodes[c].stage == Ready then SendQuery(c) else Execute(c, NOTHING);
    case Request(_) => step := Serve(c, 0);
    case Reply(_) => step := Receive(c);
  }

  /** If all the clients have stopped, the server has left its loop. */
  lemma AllStopped(s: Sys, c: Uuid)
    requires Inv(s) && c in s.nodes
    requires forall d :: d in s.nodes ==> s.nodes[d].stage == Stopped
    ensures s.server.status == Finished
  {
    forall d | d in s.nodes ensures Held(s.nodes[d]) == None && s.server.pending == [] {
      assert NodeOk(d, s.nodes[d], s.items, s.server);
    }
  }

  /** Before the server has left its loop, a system without crashed clients is not stuck. */
  lemma Progress(s: Sys) returns (step: Step)
    requires Inv(s) && AllAlive(s) && s.nodes != map[] && s.server.status == Running
    ensures Enabled(s, step) && !step.Crash?
  {
    var c: Uuid;
    if exists d :: d in s.nodes && s.nodes[d].stage != Stopped {
      c :| c in s.nodes && s.nodes[c].stage != Stopped;
    } else {
      c :| c in s.nodes;
      AllStopped(s, c);
    }
    assert NodeOk(c, s.nodes[c], s.items, s.server);
    step := NodeCanStep(s, c);
  }

  predicate CrashFree(r: Run) {
    forall i :: 0 <= i < |r.steps| ==> !r.steps[i].Crash?
  }

  ghost predicate OnlyCrashesLeft(s: Sys) {
    forall step :: Enabled(s, step) ==> step.Crash?
  }

  lemma StepKeepsAlive(s: Sys, step: Step, t: Sys)
    requires AllAlive(s) && Enabled(s, step) && !step.Crash? && t == Do(s, step)
    ensures AllAlive(t)
  {
  }

  lemma {:induction false} StayAlive(r: Run, k: nat)
    requires IsRun(r) && CrashFree(r) && k < |r.states|
    ensures AllAlive(r.states[k])
  {
    if k == 0 {
    } else {
      StayAlive(r, k - 1);
      assert StepAt(r, k - 1);
      StepKeepsAlive(r.states[k - 1], r.steps[k - 1], r.states[k]);
    }
  }

  /** A run without crashes that can not be continued without one: the server has left its
      loop and all the items are done. Together with RunsAreBounded: every run without
      crashes, continued as long as possible, ends like this. */
  lemma CrashFreeRunsFinish(r: Run)
    requires IsRun(r) && CrashFree(r) && r.states[0].nodes != map[]
    requires OnlyCrashesLeft(r.states[|r.steps|])
    ensures var s := r.states[|r.steps|];
      s.server.status == Finished && multiset(Ids(s.done)) == multiset(UpTo(|s.items|))
  {
    var k := |r.steps|;
    var s := r.states[k];
    RunInv(r, k);
    RunConstants(r, k);
    StayAlive(r, k);
    if s.server.status == Running {
      assert s.nodes != map[] by { assert s.nodes.Keys == r.states[0].nodes.Keys; }
      var step := Progress(s);
      assert false;
    }
    ExitIsComplete(r, k);
  }

  /** A number that was lost: a crashed client holds it. */
  predicate Lost(s: Sys, id: nat) {
    exists c :: c in s.nodes && !s.nodes[c].alive && Held(s.nodes[c]) == Some(id)
  }

  lemma LiveHaveStopped(s: Sys, c: Uuid)
    requires Inv(s) && OnlyCrashesLeft(s) && s.server.status == Running
    requires c in s.nodes && s.nodes[c].alive
    ensures s.nodes[c].stage == Stopped && s.server.pending == [] && Held(s.nodes[c]) == None
  {
    assert NodeOk(c, s.nodes[c], s.items, s.server);
    if s.nodes[c].stage != Stopped {
      var step := NodeCanStep(s, c);
    }
  }

  /** A stopped client was told so. */
  lemma StoppedHandled(s: Sys, c: Uuid)
    requires Inv(s) && c in s.nodes && s.nodes[c].stage == Stopped
    ensures s.handled > 0
  {
    assert NodeOk(c, s.nodes[c], s.items, s.server);
  }

  lemma HeldIsLost(s: Sys)
    requires Inv(s) && s.server.pending == []
    requires forall d :: d in s.nodes && s.nodes[d].alive ==> Held(s.nodes[d]) == None
    ensures forall id: nat :: 1 <= id <= |s.items| ==> (IsDone(s.done, id) <==> !Lost(s, id))
    ensures s.server.toDo == {} <==> forall id: nat :: 1 <= id <= |s.items| ==> !Lost(s, id)
  {
    assert s.server.nrItems == |s.items|;
    forall id: nat ensures id in s.server.toDo <==> Lost(s, id) {
    }
    if s.server.toDo != {} {
      var id :| id in s.server.toDo;
      assert Lost(s, id) && 1 <= id <= |s.items|;
    }
  }

  /** Any run with a client that has not crashed, continued until only crashes are possible:
      everything was given out, and each item is processed or lost with a crashed client. The
      server has left its loop exactly when none was lost. */
  lemma RunsFinishButForCrashes(r: Run, c: Uuid)
    requires IsRun(r) && OnlyCrashesLeft(r.states[|r.steps|])
    requires c in r.states[|r.steps|].nodes && r.states[|r.steps|].nodes[c].alive
    ensures var s := r.states[|r.steps|];
      && s.server.pending == []
      && (forall id: nat :: 1 <= id <= |s.items| ==> (IsDone(s.done, id) <==> !Lost(s, id)))
      && (s.server.status == Finished <==> forall id: nat :: 1 <= id <= |s.items| ==> !Lost(s, id))
  {
    var s := r.states[|r.steps|];
    RunInv(r, |r.steps|);
    if s.server.status == Running {
      LiveHaveStopped(s, c);
      StoppedHandled(s, c);
    }
    forall d | d in s.nodes && s.nodes[d].alive ensures Held(s.nodes[d]) == None {
      if s.server.status == Running {
        LiveHaveStopped(s, d);
      }
    }
    HeldIsLost(s);
  }
}
