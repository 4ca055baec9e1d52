/** The agent's scheduler: `syncTransactions` called again and again, and what becomes of a batch that
    was not answered. */
module AgentRuns {
  import opened CloudIngest
  import opened OutboxProtocol
  import opened SyncAgent
  import Backoff
  import RetryQueue

  predicate CallsOk(calls: seq<Call>) {
    forall i :: 0 <= i < |calls| ==> calls[i].net.answered ==> calls[i].net.deliveries != []
  }

  function RunCalls(w: World, calls: seq<Call>, stringify: seq<Record> -> string, parse: string -> seq<Record>): World
    requires CallsOk(calls)
  {
    if calls == [] then w
    else CallStep(RunCalls(w, calls[..|calls| - 1], stringify, parse), calls[|calls| - 1], stringify, parse)
  }

  /** The calls of a schedule, one after the other: `guard` lets no two overlap. */
  method RunSchedule(agent: Agent, calls: seq<Call>)
    requires agent.Ready() && CallsOk(calls)
    requires forall batch :: agent.parse(agent.stringify(batch)) == batch
    modifies agent, agent.pos, agent.cloud, agent.retry, agent.timer
    ensures agent.Ready()
    ensures agent.Everything() == RunCalls(old(agent.Everything()), calls, agent.stringify, agent.parse)
  {
    for i := 0 to |calls|
      invariant agent.Ready()
      invariant agent.Everything() == RunCalls(old(agent.Everything()), calls[..i], agent.stringify, agent.parse)
    {
      hide RunCalls, CallStep, Run, RetryQueue.Run, ReplayEvents, CycleEvents, Batch, RetryQueue.OfEntity;
      RunCallsSnoc(old(agent.Everything()), calls, i, agent.stringify, agent.parse);
      var c := calls[i];
      ghost var w := agent.Everything();
      var items := RetryQueue.OfEntity(agent.retry.queue, ENTITY);
      CallStepParts(w, c, agent.stringify, agent.parse);
      agent.SyncTransactions(c.limit, c.key, Replays(items, c.replay), c.net, c.now, c.random);
    }
    assert calls[..|calls|] == calls;
  }

  lemma RunCallsSnoc(w: World, calls: seq<Call>, i: nat, stringify: seq<Record> -> string, parse: string -> seq<Record>)
    requires CallsOk(calls) && i < |calls|
    ensures RunCalls(w, calls[..i + 1], stringify, parse)
      == CallStep(RunCalls(w, calls[..i], stringify, parse), calls[i], stringify, parse)
  {
    assert calls[..i + 1][..i] == calls[..i];
  }

  /** What a call leaves, part by part. */
  lemma CallStepParts(w: World, c: Call, stringify: seq<Record> -> string, parse: string -> seq<Record>)
    requires c.net.answered ==> c.net.deliveries != []
    ensures var w' := CallStep(w, c, stringify, parse);
      var items := RetryQueue.OfEntity(w.tables.queue, ENTITY);
      var replays := Replays(items, c.replay);
      var replayed := Run(w.protocol, ReplayEvents(items, replays, parse));
      var drained := RetryQueue.Run(w.tables, RetryQueue.DrainEvents(items, Outcomes(replays)));
      var batch := Batch(w.protocol.sales, c.limit);
      && (c.now < w.nextAllowedAt ==> w' == w)
      && (c.now >= w.nextAllowedAt ==>
        && w'.protocol == Run(replayed, CycleEvents(replayed, c.limit, c.net))
        && w'.tables == (if batch == [] || c.net.answered then drained
          else RetryQueue.Apply(drained, RetryQueue.Pushed(ENTITY, c.key, stringify(batch), c.net.pushOk)))
        && w'.failures == (if batch == [] then w.failures else if c.net.answered then 0 else w.failures + 1)
        && w'.nextAllowedAt == (if batch == [] then w.nextAllowedAt else if c.net.answered then 0.0
          else c.now + Backoff.Delay(w.failures + 1, c.random)))
  {
    hide Run, RetryQueue.Run, ReplayEvents, CycleEvents, RetryQueue.OfEntity, RetryQueue.DrainEvents, RetryQueue.Apply;
  }

  // ---------- What becomes of an unanswered batch ----------

  /** The retry queue's events of one call. */
  function QueueEventsOf(w: World, c: Call, stringify: seq<Record> -> string): seq<RetryQueue.Event> {
    if c.now < w.nextAllowedAt then []
    else
      var batch := Batch(w.protocol.sales, c.limit);
      DrainedEvents(w.tables, c) + if batch == [] || c.net.answered then []
        else [RetryQueue.Pushed(ENTITY, c.key, stringify(batch), c.net.pushOk)]
  }

  function QueueEvents(w: World, calls: seq<Call>, stringify: seq<Record> -> string, parse: string -> seq<Record>)
    : seq<RetryQueue.Event>
    requires CallsOk(calls)
  {
    if calls == [] then []
    else
      var n := |calls| - 1;
      var mid := RunCalls(w, calls[..n], stringify, parse);
      QueueEvents(w, calls[..n], stringify, parse) + QueueEventsOf(mid, calls[n], stringify)
  }

  lemma CallRunsQueue(w: World, c: Call, stringify: seq<Record> -> string, parse: string -> seq<Record>)
    requires c.net.answered ==> c.net.deliveries != []
    ensures CallStep(w, c, stringify, parse).tables == RetryQueue.Run(w.tables, QueueEventsOf(w, c, stringify))
  {
    hide RetryQueue.Apply, RetryQueue.OfEntity, RetryQueue.DrainEvents, CycleEvents, ReplayEvents, Batch, Run;
    var drained := DrainedEvents(w.tables, c);
    var batch := Batch(w.protocol.sales, c.limit);
    assert drained + [] == drained;
    var push := RetryQueue.Pushed(ENTITY, c.key, stringify(batch), c.net.pushOk);
    assert (drained + [push])[..|drained|] == drained;
  }

  lemma {:induction false} CallsRunQueue(w: World, calls: seq<Call>, stringify: seq<Record> -> string,
                                         parse: string -> seq<Record>)
    requires CallsOk(calls)
    ensures RunCalls(w, calls, stringify, parse).tables
      == RetryQueue.Run(w.tables, QueueEvents(w, calls, stringify, parse))
  {
    hide CallStep, RetryQueue.Apply, QueueEventsOf;
    if calls != [] {
      var n := |calls| - 1;
      var mid := RunCalls(w, calls[..n], stringify, parse);
      CallsRunQueue(w, calls[..n], stringify, parse);
      CallRunsQueue(mid, calls[n], stringify, parse);
      var earlier := QueueEvents(w, calls[..n], stringify, parse);
      RetryQueue.RunConcat(w.tables, earlier, QueueEventsOf(mid, calls[n], stringify));
    }
  }

  /** A call that is not backed off and whose batch goes unanswered, with a queue write that works: its
      batch is stored if it was stored before or its key was free after the drain. */
  lemma UnansweredBatchIsStoredIff(w: World, c: Call, stringify: seq<Record> -> string, parse: string -> seq<Record>)
    requires w.nextAllowedAt <= c.now && !c.net.answered && c.net.pushOk && Batch(w.protocol.sales, c.limit) != []
    ensures var b := RetryQueue.Batch(ENTITY, c.key, stringify(Batch(w.protocol.sales, c.limit)));
      var drained := RetryQueue.Run(w.tables, DrainedEvents(w.tables, c));
      var w' := CallStep(w, c, stringify, parse);
      && (RetryQueue.BatchKept(w'.tables, b) <==>
        RetryQueue.BatchKept(drained, b) || !RetryQueue.HasKey(drained.queue, c.key))
      && w'.failures == w.failures + 1
  {
    hide RetryQueue.Apply, RetryQueue.Run, RetryQueue.OfEntity, RetryQueue.DrainEvents, CycleEvents, ReplayEvents, Run;
    var drained := RetryQueue.Run(w.tables, DrainedEvents(w.tables, c));
    RetryQueue.PushedIsKeptIff(drained, RetryQueue.Batch(ENTITY, c.key, stringify(Batch(w.protocol.sales, c.limit))));
  }

  /** From then on, over any further calls, the batch stays stored until a replay of it is answered or
      another batch under its key is promoted in its place. */
  lemma StoredBatchStays(w: World, calls: seq<Call>, b: RetryQueue.Batch, stringify: seq<Record> -> string,
                         parse: string -> seq<Record>)
    requires CallsOk(calls) && RetryQueue.WellFormed(w.tables) && RetryQueue.BatchKept(w.tables, b)
    ensures var events := QueueEvents(w, calls, stringify, parse);
      var final := RunCalls(w, calls, stringify, parse).tables;
      && final == RetryQueue.Run(w.tables, events) && RetryQueue.WellFormed(final)
      && (|| RetryQueue.BatchKept(final, b)
          || RetryQueue.AnsweredIn(w.tables, events, b)
          || RetryQueue.ReplacedIn(w.tables, events, b))
  {
    hide RetryQueue.Run, RunCalls, QueueEvents, RetryQueue.AnsweredIn, RetryQueue.ReplacedIn;
    CallsRunQueue(w, calls, stringify, parse);
    RetryQueue.NoBatchDisappears(w.tables, QueueEvents(w, calls, stringify, parse), b);
  }

  /** The two together, on every schedule of a new agent: any call of it whose batch went unanswered, was
      written, and had a free key, and any calls after it. */
  lemma UnansweredBatchIsKept(before: seq<Call>, c: Call, after: seq<Call>, stringify: seq<Record> -> string,
                              parse: string -> seq<Record>)
    requires CallsOk(before) && CallsOk(after)
    requires var w := RunCalls(World(INITIAL, RetryQueue.EMPTY, 0, 0.0), before, stringify, parse);
      && w.nextAllowedAt <= c.now && !c.net.answered && c.net.pushOk && Batch(w.protocol.sales, c.limit) != []
      && !RetryQueue.HasKey(RetryQueue.Run(w.tables, DrainedEvents(w.tables, c)).queue, c.key)
    ensures var w := RunCalls(World(INITIAL, RetryQueue.EMPTY, 0, 0.0), before, stringify, parse);
      var b := RetryQueue.Batch(ENTITY, c.key, stringify(Batch(w.protocol.sales, c.limit)));
      var w' := CallStep(w, c, stringify, parse);
      var events := QueueEvents(w', after, stringify, parse);
      && RetryQueue.BatchKept(w'.tables, b)
      && (|| RetryQueue.BatchKept(RunCalls(w', after, stringify, parse).tables, b)
          || RetryQueue.AnsweredIn(w'.tables, events, b)
          || RetryQueue.ReplacedIn(w'.tables, events, b))
  {
    hide RunCalls, CallStep, QueueEvents;
    hide RetryQueue.Run, RetryQueue.AnsweredIn, RetryQueue.ReplacedIn, RetryQueue.WellFormed;
    var start := World(INITIAL, RetryQueue.EMPTY, 0, 0.0);
    var w := RunCalls(start, before, stringify, parse);
    EmptyIsWellFormed();
    CallsRunQueue(start, before, stringify, parse);
    RunKeepsWellFormed(RetryQueue.EMPTY, QueueEvents(start, before, stringify, parse));
    CallRunsQueue(w, c, stringify, parse);
    RunKeepsWellFormed(w.tables, QueueEventsOf(w, c, stringify));
    UnansweredBatchIsStoredIff(w, c, stringify, parse);
    StoredBatchStays(CallStep(w, c, stringify, parse), after,
      RetryQueue.Batch(ENTITY, c.key, stringify(Batch(w.protocol.sales, c.limit))), stringify, parse);
  }

  lemma EmptyIsWellFormed()
    ensures RetryQueue.WellFormed(RetryQueue.EMPTY)
  {
  }

  lemma {:induction false} RunKeepsWellFormed(t: RetryQueue.Tables, events: seq<RetryQueue.Event>)
    requires RetryQueue.WellFormed(t)
    ensures RetryQueue.WellFormed(RetryQueue.Run(t, events))
  {
    hide RetryQueue.WellFormed, RetryQueue.Apply;
    if events != [] {
      RunKeepsWellFormed(t, events[..|events| - 1]);
      RetryQueue.StepKeepsWellFormed(RetryQueue.Run(t, events[..|events| - 1]), events[|events| - 1]);
    }
  }
}
