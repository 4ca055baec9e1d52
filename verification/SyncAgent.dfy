/** The agent's transaction cycle as a program over the till's table, the cloud and the retry
    queue, proved to follow the protocol of OutboxProtocol step by step. */
module SyncAgent {
  import opened CloudIngest
  import opened OutboxProtocol
  import Backoff
  import RetryQueue

  const ENTITY := "transactions"

  datatype Delivery = Delivery(faults: set<nat>, commitOk: bool)

  /** What the network does to one cycle: how often the post reaches the cloud (the HTTP client
      repeats it), whether the last answer comes back, and whether the two later writes work. */
  datatype Network = Network(deliveries: seq<Delivery>, answered: bool, markOk: bool, pushOk: bool)

  function DeliverEvents(batch: seq<Record>, ds: seq<Delivery>): seq<Event> {
    seq(|ds|, i requires 0 <= i < |ds| => Deliver(batch, ds[i].faults, ds[i].commitOk))
  }

  /** The cloud's answer to the last delivery. */
  function LastReply(s: State, batch: seq<Record>, ds: seq<Delivery>): Reply
    requires ds != []
  {
    var n := |ds| - 1;
    ReplyOf(Ingest(Run(s, DeliverEvents(batch, ds[..n])).cloud, batch, ds[n].faults), ds[n].commitOk)
  }

  /** What the network and the disk do to one row of the retry queue. */
  datatype Replay = Replay(deliveries: seq<Delivery>, answered: bool, writeOk: bool, promotion: RetryQueue.Progress)

  function OutcomeOf(replay: Replay): RetryQueue.Outcome {
    RetryQueue.Outcome(replay.answered, replay.writeOk, replay.promotion)
  }

  function Outcomes(replays: seq<Replay>): seq<RetryQueue.Outcome> {
    seq(|replays|, i requires 0 <= i < |replays| => OutcomeOf(replays[i]))
  }

  /** The protocol steps of replaying one row: below the limit it is posted again, otherwise not. */
  function ReplayOf(item: RetryQueue.Item, replay: Replay, parse: string -> seq<Record>): seq<Event> {
    if item.attempts >= RetryQueue.MAX_ATTEMPTS then [] else DeliverEvents(parse(item.payload), replay.deliveries)
  }

  function ReplayEvents(items: seq<RetryQueue.Item>, replays: seq<Replay>, parse: string -> seq<Record>): seq<Event>
    requires |replays| == |items|
  {
    if items == [] then []
    else
      var n := |items| - 1;
      ReplayEvents(items[..n], replays[..n], parse) + ReplayOf(items[n], replays[n], parse)
  }

  /** Every queued transaction batch was posted before. */
  ghost predicate QueueSent(queue: seq<RetryQueue.Item>, sent: set<seq<Record>>, parse: string -> seq<Record>) {
    forall r :: r in queue && r.entity == ENTITY ==> parse(r.payload) in sent
  }

  /** The protocol steps of one cycle that is not backed off. */
  function CycleEvents(s: State, limit: nat, net: Network): seq<Event>
    requires net.answered ==> net.deliveries != []
  {
    var batch := Batch(s.sales, limit);
    if batch == [] then []
    else
      [Read(limit)] + DeliverEvents(batch, net.deliveries) +
      if net.answered then [Receive(LastReply(Apply(s, Read(limit)), batch, net.deliveries)), Mark(net.markOk)]
      else [GiveUp]
  }

  // ---------- Whole calls ----------

  /** Everything a call of `syncTransactions` works on. */
  datatype World = World(protocol: State, tables: RetryQueue.Tables, failures: nat, nextAllowedAt: real)

  /** One call: the batch size, the batch's idempotency key, what happens to each row of the retry queue
      and to the post, the clock and the random draw. */
  datatype Call = Call(limit: nat, key: string, replay: nat -> Replay, net: Network, now: real, random: real)

  function Replays(items: seq<RetryQueue.Item>, replay: nat -> Replay): seq<Replay> {
    seq(|items|, i requires 0 <= i < |items| => replay(items[i].id))
  }

  /** The retry queue's events while it drains. */
  function DrainedEvents(t: RetryQueue.Tables, c: Call): seq<RetryQueue.Event> {
    var items := RetryQueue.OfEntity(t.queue, ENTITY);
    RetryQueue.DrainEvents(items, Outcomes(Replays(items, c.replay)))
  }

  function CallStep(w: World, c: Call, stringify: seq<Record> -> string, parse: string -> seq<Record>): World
    requires c.net.answered ==> c.net.deliveries != []
  {
    if c.now < w.nextAllowedAt then w
    else
      var items := RetryQueue.OfEntity(w.tables.queue, ENTITY);
      var replayed := Run(w.protocol, ReplayEvents(items, Replays(items, c.replay), parse));
      var protocol := Run(replayed, CycleEvents(replayed, c.limit, c.net));
      var drained := RetryQueue.Run(w.tables, DrainedEvents(w.tables, c));
      var batch := Batch(w.protocol.sales, c.limit);
      if batch == [] then World(protocol, drained, w.failures, w.nextAllowedAt)
      else if c.net.answered then World(protocol, drained, 0, 0.0)
      else World(protocol, RetryQueue.Apply(drained, RetryQueue.Pushed(ENTITY, c.key, stringify(batch), c.net.pushOk)),
        w.failures + 1, c.now + Backoff.Delay(w.failures + 1, c.random))
  }

  lemma {:induction false} RunConcat(s: State, a: seq<Event>, b: seq<Event>)
    ensures Run(s, a + b) == Run(Run(s, a), b)
  {
    if b == [] {
      assert a + b == a;
    } else {
      RunConcat(s, a, b[..|b| - 1]);
      assert (a + b)[..|a + b| - 1] == a + b[..|b| - 1];
    }
  }

  lemma RunOne(s: State, e: Event)
    ensures Run(s, [e]) == Apply(s, e)
  {
    assert [e][..0] == [];
  }

  /** The till's transactions table. */
  class PosDb {
    var sales: seq<Sale>

    constructor ()
      ensures sales == []
    {
      sales := [];
    }

    method MarkSynced(batch: seq<Record>)
      modifies this
      ensures sales == MarkAll(old(sales), batch)
    {
      for i := 0 to |sales|
        invariant |sales| == |old(sales)|
        invariant forall k :: 0 <= k < i ==> sales[k] == MarkOne(old(sales)[k], batch)
        invariant forall k :: i <= k < |sales| ==> sales[k] == old(sales)[k]
      {
        if Holds(batch, sales[i].number) {
          sales := sales[i := sales[i].(sync := Synced)];
        }
      }
    }
  }

  class Agent {
    const pos: PosDb
    const cloud: CloudDb
    const retry: RetryQueue.RetryStore
    const timer: Backoff.Timer
    const stringify: seq<Record> -> string
    const parse: string -> seq<Record>
    ghost var sent: set<seq<Record>>
    ghost var answers: set<Answer>
    ghost var phase: Phase

    ghost function Snapshot(): State
      reads this, pos, cloud
    {
      State(pos.sales, cloud.rows, sent, answers, phase)
    }

    ghost function Everything(): World
      reads this, pos, cloud, retry, timer
    {
      World(Snapshot(), retry.Contents(), timer.failures, timer.nextAllowedAt)
    }

    /** Between cycles: no open session, and the retry queue holds only batches posted before. */
    ghost predicate Ready()
      reads this, cloud, retry
    {
      cloud.pending == [] && phase == Idle && QueueSent(retry.queue, sent, parse)
    }

    constructor (pos: PosDb, cloud: CloudDb, retry: RetryQueue.RetryStore, timer: Backoff.Timer,
                 stringify: seq<Record> -> string, parse: string -> seq<Record>)
      requires pos.sales == [] && cloud.rows == [] && cloud.pending == [] && retry.queue == []
      ensures Snapshot() == INITIAL && Ready()
      ensures this.pos == pos && this.cloud == cloud && this.retry == retry && this.timer == timer
      ensures this.stringify == stringify && this.parse == parse
    {
      this.pos, this.cloud, this.retry, this.timer := pos, cloud, retry, timer;
      this.stringify, this.parse := stringify, parse;
      sent, answers, phase := {}, {}, Idle;
    }

    /** One post of the batch, repeated by the HTTP client; the reply is the last answer. */
    method Post(batch: seq<Record>, deliveries: seq<Delivery>) returns (reply: Reply)
      requires cloud.pending == [] && batch in sent
      modifies this`answers, cloud
      ensures cloud.pending == []
      ensures Snapshot() == Run(old(Snapshot()), DeliverEvents(batch, deliveries))
      ensures deliveries != [] ==> reply == LastReply(old(Snapshot()), batch, deliveries)
    {
      reply := Reply(0, 0, []);
      for i := 0 to |deliveries|
        invariant cloud.pending == [] && batch in sent
        invariant Snapshot() == Run(old(Snapshot()), DeliverEvents(batch, deliveries[..i]))
        invariant i > 0 ==> reply == LastReply(old(Snapshot()), batch, deliveries[..i])
      {
        var d := deliveries[i];
        assert deliveries[..i + 1][..i] == deliveries[..i];
        assert DeliverEvents(batch, deliveries[..i + 1])[..i] == DeliverEvents(batch, deliveries[..i]);
        reply := cloud.SyncTransactions(batch, d.faults, d.commitOk);
        answers := answers + {Answer(batch, reply)};
      }
      assert deliveries[..|deliveries|] == deliveries;
    }

    /** The batch was answered with 200: mark its sales, whatever the reply says. */
    method OnAnswer(batch: seq<Record>, reply: Reply, markOk: bool)
      requires phase == Posting(batch) && Answer(batch, reply) in answers
      modifies this`phase, pos, timer
      ensures phase == Idle
      ensures Snapshot() == Run(old(Snapshot()), [Receive(reply), Mark(markOk)])
      ensures pos.sales == if markOk then MarkAll(old(pos.sales), batch) else old(pos.sales)
      ensures timer.failures == 0 && timer.nextAllowedAt == 0.0
    {
      ghost var s := Snapshot();
      phase := Marking(batch);
      RunOne(s, Receive(reply));
      assert Snapshot() == Run(s, [Receive(reply)]);
      assert [Receive(reply), Mark(markOk)][..1] == [Receive(reply)];
      if markOk {
        pos.MarkSynced(batch);
      }
      phase := Idle;
      timer.RecordSuccess();
    }

    /** The post failed: queue the batch for replay and back off. */
    method OnFailure(batch: seq<Record>, key: string, pushOk: bool, now: real, random: real)
      requires phase.Posting?
      modifies this`phase, retry, timer
      ensures phase == Idle
      ensures Snapshot() == Run(old(Snapshot()), [GiveUp])
      ensures retry.Contents()
        == RetryQueue.Apply(old(retry.Contents()), RetryQueue.Pushed(ENTITY, key, stringify(batch), pushOk))
      ensures timer.failures == old(timer.failures) + 1
      ensures timer.nextAllowedAt == now + Backoff.Delay(timer.failures, random)
    {
      ghost var s := Snapshot();
      RunOne(s, GiveUp);
      phase := Idle;
      retry.Push(ENTITY, key, stringify(batch), pushOk);
      timer.RecordFailure(now, random);
    }

    /** One row: posted again, then cleared or counted; at the limit it is promoted instead. */
    method ReplayOne(item: RetryQueue.Item, replay: Replay)
      requires Ready() && parse(item.payload) in sent
      modifies this`answers, cloud, retry
      ensures Ready()
      ensures retry.Contents()
        == RetryQueue.Apply(old(retry.Contents()), RetryQueue.DrainEvent(item, OutcomeOf(replay)))
      ensures Snapshot() == Run(old(Snapshot()), ReplayOf(item, replay, parse))
    {
      hide QueueSent, RetryQueue.Apply, Apply, DeliverEvents;
      DrainKeepsQueueSent(retry.Contents(), item, OutcomeOf(replay), sent, parse);
      if item.attempts < RetryQueue.MAX_ATTEMPTS {
        var _ := Post(parse(item.payload), replay.deliveries);
      }
      retry.DrainOne(item, OutcomeOf(replay));
    }

    /** `drainRetryQueue`: the rows of a snapshot, in order. */
    method DrainRetryQueue(replays: seq<Replay>)
      requires Ready() && |replays| == |RetryQueue.OfEntity(retry.queue, ENTITY)|
      modifies this`answers, cloud, retry
      ensures Ready()
      ensures retry.Contents() == RetryQueue.Run(old(retry.Contents()),
        RetryQueue.DrainEvents(RetryQueue.OfEntity(old(retry.queue), ENTITY), Outcomes(replays)))
      ensures Snapshot()
        == Run(old(Snapshot()), ReplayEvents(RetryQueue.OfEntity(old(retry.queue), ENTITY), replays, parse))
    {
      hide ReplayOf, RetryQueue.Apply, RetryQueue.DrainEvent, RetryQueue.OfEntity, Apply;
      var items := RetryQueue.OfEntity(retry.queue, ENTITY);
      ghost var outcomes := Outcomes(replays);
      SnapshotWasSent(retry.queue, sent, parse);
      for i := 0 to |items|
        invariant Ready() && sent == old(sent)
        invariant retry.Contents()
          == RetryQueue.Run(old(retry.Contents()), RetryQueue.DrainEvents(items[..i], outcomes[..i]))
        invariant Snapshot() == Run(old(Snapshot()), ReplayEvents(items[..i], replays[..i], parse))
      {
        hide QueueSent, Run, RetryQueue.Run, RetryQueue.DrainEvents, ReplayEvents;
        ReplaySnoc(old(Snapshot()), items, replays, parse, i);
        RetryQueue.DrainSnoc(old(retry.Contents()), items, outcomes, i);
        ReplayOne(items[i], replays[i]);
      }
      assert items[..|items|] == items && outcomes[..|items|] == outcomes && replays[..|items|] == replays;
    }

    /** The part of `syncTransactions` from the outbox query on. */
    method SyncOutbox(limit: nat, key: string, net: Network, now: real, random: real)
      requires Ready() && parse(stringify(Batch(pos.sales, limit))) == Batch(pos.sales, limit)
      requires net.answered ==> net.deliveries != []
      modifies this, pos, cloud, retry, timer
      ensures Ready()
      ensures Snapshot() == Run(old(Snapshot()), CycleEvents(old(Snapshot()), limit, net))
      ensures var batch := Batch(old(pos.sales), limit);
        && pos.sales == (if net.answered && net.markOk then MarkAll(old(pos.sales), batch) else old(pos.sales))
        && retry.Contents() == (if batch == [] || net.answered then old(retry.Contents())
          else RetryQueue.Apply(old(retry.Contents()), RetryQueue.Pushed(ENTITY, key, stringify(batch), net.pushOk)))
        && timer.failures == (if batch == [] then old(timer.failures) else if net.answered then 0
          else old(timer.failures) + 1)
        && timer.nextAllowedAt == (if batch == [] then old(timer.nextAllowedAt) else if net.answered then 0.0
          else now + Backoff.Delay(old(timer.failures) + 1, random))
    {
      ghost var s0 := Snapshot();
      var batch := Batch(pos.sales, limit);
      if batch == [] {
        assert MarkAll(pos.sales, batch) == pos.sales;
        return;
      }
      sent, phase := sent + {batch}, Posting(batch);
      ghost var s1 := Snapshot();
      assert s1 == Apply(s0, Read(limit));
      var reply := Post(batch, net.deliveries);
      ghost var s2 := Snapshot();
      DeliveriesKeepPhase(s1, batch, net.deliveries);
      ghost var end :=
        if net.answered then [Receive(LastReply(s1, batch, net.deliveries)), Mark(net.markOk)] else [GiveUp];
      if net.answered {
        ReplyIsAnswer(s1, batch, net.deliveries);
        OnAnswer(batch, reply, net.markOk);
      } else {
        OnFailure(batch, key, net.pushOk, now, random);
      }
      assert Snapshot() == Run(s2, end);
      RunThreeParts(s0, Read(limit), DeliverEvents(batch, net.deliveries), end);
    }

    /** `syncTransactions`: nothing while backed off; otherwise the retry queue first, then one batch of
        the outbox. The whole call is a run of protocol steps. Afterwards the retry queue is the drained
        one, with the batch pushed under its key exactly when a batch went unanswered, and failures in a
        row are counted, reset or left alone. `JSON.parse` must read back what `JSON.stringify` wrote. */
    method SyncTransactions(limit: nat, key: string, replays: seq<Replay>, net: Network, now: real, random: real)
      requires Ready() && |replays| == |RetryQueue.OfEntity(retry.queue, ENTITY)|
      requires parse(stringify(Batch(pos.sales, limit))) == Batch(pos.sales, limit)
      requires net.answered ==> net.deliveries != []
      modifies this, pos, cloud, retry, timer
      ensures Ready()
      ensures old(timer.IsBackedOff(now)) ==> Everything() == old(Everything())
      ensures !old(timer.IsBackedOff(now)) ==>
        var items := RetryQueue.OfEntity(old(retry.queue), ENTITY);
        var replayed := Run(old(Snapshot()), ReplayEvents(items, replays, parse));
        Snapshot() == Run(replayed, CycleEvents(replayed, limit, net))
      ensures !old(timer.IsBackedOff(now)) ==>
        var items := RetryQueue.OfEntity(old(retry.queue), ENTITY);
        var drained := RetryQueue.Run(old(retry.Contents()), RetryQueue.DrainEvents(items, Outcomes(replays)));
        var batch := Batch(old(pos.sales), limit);
        && pos.sales == (if net.answered && net.markOk then MarkAll(old(pos.sales), batch) else old(pos.sales))
        && retry.Contents() == (if batch == [] || net.answered then drained
          else RetryQueue.Apply(drained, RetryQueue.Pushed(ENTITY, key, stringify(batch), net.pushOk)))
        && timer.failures == (if batch == [] then old(timer.failures) else if net.answered then 0
          else old(timer.failures) + 1)
        && timer.nextAllowedAt == (if batch == [] then old(timer.nextAllowedAt) else if net.answered then 0.0
          else now + Backoff.Delay(old(timer.failures) + 1, random))
    {
      if timer.IsBackedOff(now) {
        return;
      }
      hide ReplayEvents, CycleEvents, Run, Inv, RetryQueue.OfEntity, RetryQueue.DrainEvents, Batch, RetryQueue.Apply,
        RetryQueue.Run, Outcomes, Backoff.Delay, QueueSent;
      SnapshotWasSent(retry.queue, sent, parse);
      DrainRetryQueue(replays);
      ReplaysKeepPhase(old(Snapshot()), RetryQueue.OfEntity(old(retry.queue), ENTITY), replays, parse);
      SyncOutbox(limit, key, net, now, random);
    }
  }

  lemma ReplaySnoc(s: State, items: seq<RetryQueue.Item>, replays: seq<Replay>, parse: string -> seq<Record>, i: nat)
    requires |replays| == |items| && i < |items|
    ensures Run(s, ReplayEvents(items[..i + 1], replays[..i + 1], parse))
      == Run(Run(s, ReplayEvents(items[..i], replays[..i], parse)), ReplayOf(items[i], replays[i], parse))
  {
    assert items[..i + 1][..i] == items[..i] && replays[..i + 1][..i] == replays[..i];
    RunConcat(s, ReplayEvents(items[..i], replays[..i], parse), ReplayOf(items[i], replays[i], parse));
  }

  lemma SnapshotWasSent(queue: seq<RetryQueue.Item>, sent: set<seq<Record>>, parse: string -> seq<Record>)
    requires QueueSent(queue, sent, parse)
    ensures var items := RetryQueue.OfEntity(queue, ENTITY);
      forall i :: 0 <= i < |items| ==> parse(items[i].payload) in sent
  {
    RetryQueue.SnapshotRows(queue, ENTITY);
    var items := RetryQueue.OfEntity(queue, ENTITY);
    assert forall i | 0 <= i < |items| :: items[i] in items;
  }

  lemma DrainKeepsQueueSent(t: RetryQueue.Tables, item: RetryQueue.Item, o: RetryQueue.Outcome, sent: set<seq<Record>>,
                            parse: string -> seq<Record>)
    requires QueueSent(t.queue, sent, parse)
    ensures QueueSent(RetryQueue.Apply(t, RetryQueue.DrainEvent(item, o)).queue, sent, parse)
  {
    var t' := RetryQueue.Apply(t, RetryQueue.DrainEvent(item, o));
    forall r | r in t'.queue && r.entity == ENTITY
      ensures parse(r.payload) in sent
    {
      RetryQueue.DrainKeepsPayloads(t, item, o, r);
    }
  }

  lemma RunThreeParts(s: State, first: Event, middle: seq<Event>, last: seq<Event>)
    ensures Run(s, [first] + middle + last) == Run(Run(Apply(s, first), middle), last)
  {
    RunOne(s, first);
    RunConcat(s, [first], middle);
    RunConcat(s, [first] + middle, last);
  }

  lemma {:induction false} DeliveriesKeepPhase(s: State, batch: seq<Record>, ds: seq<Delivery>)
    requires batch in s.sent
    ensures var s' := Run(s, DeliverEvents(batch, ds));
      s'.phase == s.phase && s'.sent == s.sent && s'.sales == s.sales
  {
    if ds != [] {
      var n := |ds| - 1;
      DeliveriesKeepPhase(s, batch, ds[..n]);
      assert DeliverEvents(batch, ds)[..n] == DeliverEvents(batch, ds[..n]);
    }
  }

  /** The answer that comes back is one the cloud gave. */
  lemma ReplyIsAnswer(s: State, batch: seq<Record>, ds: seq<Delivery>)
    requires batch in s.sent && ds != []
    ensures Answer(batch, LastReply(s, batch, ds)) in Run(s, DeliverEvents(batch, ds)).answers
  {
    var n := |ds| - 1;
    DeliveriesKeepPhase(s, batch, ds[..n]);
    assert DeliverEvents(batch, ds)[..n] == DeliverEvents(batch, ds[..n]);
  }

  lemma {:induction false} DeliveriesKeepInv(s: State, batch: seq<Record>, ds: seq<Delivery>)
    requires Inv(s) && batch in s.sent
    ensures Inv(Run(s, DeliverEvents(batch, ds)))
  {
    if ds != [] {
      var n := |ds| - 1;
      DeliveriesKeepInv(s, batch, ds[..n]);
      DeliveriesKeepPhase(s, batch, ds[..n]);
      assert DeliverEvents(batch, ds)[..n] == DeliverEvents(batch, ds[..n]);
      StepKeepsInv(Run(s, DeliverEvents(batch, ds[..n])), DeliverEvents(batch, ds)[n]);
    }
  }

  /** A replay is a delivery of a batch posted before: it keeps the invariant, the sales and the
      agent's own position. */
  lemma {:induction false} ReplaysKeepPhase(s: State, items: seq<RetryQueue.Item>, replays: seq<Replay>,
                                            parse: string -> seq<Record>)
    requires |replays| == |items| && forall i :: 0 <= i < |items| ==> parse(items[i].payload) in s.sent
    ensures var s' := Run(s, ReplayEvents(items, replays, parse));
      && s'.phase == s.phase && s'.sent == s.sent && s'.sales == s.sales
      && (Inv(s) ==> Inv(s'))
  {
    hide Inv, Apply;
    if items != [] {
      var n := |items| - 1;
      assert items[..n + 1] == items && replays[..n + 1] == replays;
      ReplaySnoc(s, items, replays, parse, n);
      ReplaysKeepPhase(s, items[..n], replays[..n], parse);
      var s1 := Run(s, ReplayEvents(items[..n], replays[..n], parse));
      var batch := parse(items[n].payload);
      DeliveriesKeepPhase(s1, batch, replays[n].deliveries);
      if Inv(s1) {
        DeliveriesKeepInv(s1, batch, replays[n].deliveries);
      }
    }
  }

  /** Just before its last delivery a cycle is posting, in a state that keeps the invariant. */
  lemma BeforeLastDelivery(s: State, limit: nat, ds: seq<Delivery>)
    requires Inv(s) && s.phase == Idle && Batch(s.sales, limit) != [] && ds != []
    ensures var batch := Batch(s.sales, limit);
      var s2 := Run(Apply(s, Read(limit)), DeliverEvents(batch, ds[..|ds| - 1]));
      Inv(s2) && s2.phase == Posting(batch)
  {
    StepKeepsInv(s, Read(limit));
    DeliveriesKeepInv(Apply(s, Read(limit)), Batch(s.sales, limit), ds[..|ds| - 1]);
    DeliveriesKeepPhase(Apply(s, Read(limit)), Batch(s.sales, limit), ds[..|ds| - 1]);
  }

  /** The cycle's run is: everything before the last delivery, then delivery, answer and mark. */
  lemma CycleEndsWith(s: State, limit: nat, net: Network)
    requires Batch(s.sales, limit) != [] && net.answered && net.markOk && net.deliveries != []
    ensures var batch, ds := Batch(s.sales, limit), net.deliveries;
      var s2 := Run(Apply(s, Read(limit)), DeliverEvents(batch, ds[..|ds| - 1]));
      var last := ds[|ds| - 1];
      var reply := ReplyOf(Ingest(s2.cloud, batch, last.faults), last.commitOk);
      && reply == LastReply(Apply(s, Read(limit)), batch, ds)
      && Run(s, CycleEvents(s, limit, net))
        == Apply(Apply(Apply(s2, Deliver(batch, last.faults, last.commitOk)), Receive(reply)), Mark(true))
  {
    hide Ingest, Batch;
    var batch, ds := Batch(s.sales, limit), net.deliveries;
    var n := |ds| - 1;
    var s1 := Apply(s, Read(limit));
    var reply := LastReply(s1, batch, ds);
    assert DeliverEvents(batch, ds)[..n] == DeliverEvents(batch, ds[..n]);
    var end := [Receive(reply), Mark(true)];
    RunThreeParts(s, Read(limit), DeliverEvents(batch, ds), end);
    assert end[..1] == [Receive(reply)];
    RunOne(Run(s1, DeliverEvents(batch, ds)), Receive(reply));
  }

  /** A whole answered cycle, however often the post was repeated: every sale marked SYNCED is in
      the cloud afterwards if and only if the last answer listed no error or skipped the batch. */
  lemma CycleIsSafeIff(s: State, limit: nat, net: Network)
    requires Inv(s) && s.phase == Idle && Batch(s.sales, limit) != []
    requires net.answered && net.markOk && net.deliveries != []
    ensures var batch := Batch(s.sales, limit);
      SyncedInCloud(Run(s, CycleEvents(s, limit, net)))
      <==> Clean(LastReply(Apply(s, Read(limit)), batch, net.deliveries), |batch|)
  {
    hide Ingest, Inv, SyncedInCloud, Apply, Run, Batch, CycleEvents, LastReply, Clean, ReplyOf;
    var ds := net.deliveries;
    BeforeLastDelivery(s, limit, ds);
    CycleEndsWith(s, limit, net);
    MarkingIsSafeIff(Run(Apply(s, Read(limit)), DeliverEvents(Batch(s.sales, limit), ds[..|ds| - 1])),
      ds[|ds| - 1].faults, ds[|ds| - 1].commitOk);
  }
}
