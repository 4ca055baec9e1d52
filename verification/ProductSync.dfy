/** Product sync end to end: the till's checkpoint over its product table, the batches on the network,
    and the cloud's catalogue. The till moves its checkpoint on any 200; the question is what the
    cloud has then. */
module ProductSync {
  import opened Checkpoint
  import Cloud = ProductIngest

  /** What the cloud answered to the batch that was read `read`-th. */
  datatype Answer = Answer(read: nat, reply: Cloud.Reply)

  datatype System = System(point: State, cloud: Cloud.Catalogue, answers: set<Answer>)

  /** `Local` is a step of the till that no answer is needed for; a posted batch may reach the cloud
      any number of times, at any later time. */
  datatype Step =
    | Local(e: Event)
    | Deliver(read: nat, commitOk: bool)
    | Receive(reply: Cloud.Reply, written: bool)
    | ReceiveReplay(read: nat, reply: Cloud.Reply)

  const START := System(INITIAL, map[], {})

  /** `row` gives the record that a version of a product is sent as. */
  function Records(row: Version -> Cloud.Record, batch: seq<Version>): seq<Cloud.Record> {
    seq(|batch|, i requires 0 <= i < |batch| => row(batch[i]))
  }

  ghost function Next(name: string, row: Version -> Cloud.Record, s: System, e: Step): System {
    match e
    case Local(event) =>
      if event.Answered? || event.Replayed? then s else s.(point := Apply(name, s.point, event))
    case Deliver(read, commitOk) =>
      if read >= |s.point.sent| then s
      else
        var records := Records(row, s.point.sent[read]);
        s.(cloud := Cloud.Sync(s.cloud, records, commitOk),
           answers := s.answers + {Answer(read, Cloud.ReplyTo(s.cloud, records, commitOk))})
    case Receive(reply, written) =>
      if s.point.phase.Posting? && s.point.sent != [] && Answer(|s.point.sent| - 1, reply) in s.answers
      then s.(point := Apply(name, s.point, Answered(written))) else s
    case ReceiveReplay(read, reply) =>
      if Answer(read, reply) in s.answers then s.(point := Apply(name, s.point, Replayed(read))) else s
  }

  ghost function RunSteps(name: string, row: Version -> Cloud.Record, s: System, steps: seq<Step>): System {
    if steps == [] then s else Next(name, row, RunSteps(name, row, s, steps[..|steps| - 1]), steps[|steps| - 1])
  }

  predicate Committed(reply: Cloud.Reply) {
    Cloud.CommitFailed !in reply.errors
  }

  /** The answers acted on report no failed commit, and the till's table is orderly. */
  ghost predicate GoodStep(s: System, e: Step) {
    && (e.Local? ==> Orderly(s.point, e.e))
    && (e.Receive? || e.ReceiveReplay? ==> Committed(e.reply))
  }

  ghost predicate GoodRun(name: string, row: Version -> Cloud.Record, s: System, steps: seq<Step>) {
    steps != [] ==>
      var n := |steps| - 1;
      GoodRun(name, row, s, steps[..n]) && GoodStep(RunSteps(name, row, s, steps[..n]), steps[n])
  }

  /** The catalogue has a product for the record. */
  predicate Listed(cloud: Cloud.Catalogue, rec: Cloud.Record) {
    rec.sku != "" ==> rec.sku in cloud
  }

  ghost predicate AllListed(row: Version -> Cloud.Record, cloud: Cloud.Catalogue, batch: seq<Version>) {
    forall i :: 0 <= i < |batch| ==> Listed(cloud, row(batch[i]))
  }

  ghost predicate SystemInv(name: string, row: Version -> Cloud.Record, s: System) {
    && Inv(name, s.point)
    && (s.point.phase.Posting? ==> s.point.sent != [] && s.point.sent[|s.point.sent| - 1] == s.point.phase.batch)
    && (forall a :: a in s.answers ==> a.read < |s.point.sent|)
    && (forall a :: a in s.answers && Committed(a.reply) ==> AllListed(row, s.cloud, s.point.sent[a.read]))
    && (forall v :: v in s.point.acked ==> Listed(s.cloud, row(v)))
  }

  /** What the checkpoint promises: every product row at or below it is in the catalogue. */
  ghost predicate CatalogueCovers(row: Version -> Cloud.Record, s: System, point: nat) {
    forall id :: id in s.point.table && s.point.table[id] <= point ==>
      Listed(s.cloud, row(Version(id, s.point.table[id])))
  }

  /** A request never removes a product, and lists its whole batch if and only if it was committed or
      the batch was listed before. */
  lemma SyncListsIff(row: Version -> Cloud.Record, cloud: Cloud.Catalogue, batch: seq<Version>, commitOk: bool)
    ensures var records := Records(row, batch);
      var after := Cloud.Sync(cloud, records, commitOk);
      && (forall sku :: sku in cloud ==> sku in after)
      && (AllListed(row, after, batch)
        <==> Committed(Cloud.ReplyTo(cloud, records, commitOk)) || AllListed(row, cloud, batch))
  {
    var records := Records(row, batch);
    Cloud.UpsertsKeys(cloud, records);
    if commitOk && !Cloud.RepeatsNew(cloud, records) {
      Cloud.OnlyMissing(records);
      forall i | 0 <= i < |batch|
        ensures Listed(Cloud.Upserts(cloud, records), row(batch[i]))
      {
        assert records[i] == row(batch[i]);
        NamedIsOf(records, i);
      }
    } else {
      assert Cloud.CommitFailed in Cloud.ReplyTo(cloud, records, commitOk).errors;
    }
  }

  lemma {:induction false} NamedIsOf(records: seq<Cloud.Record>, i: nat)
    requires i < |records|
    ensures Cloud.Of(records, records[i].sku) != []
  {
    if i < |records| - 1 {
      NamedIsOf(records[..|records| - 1], i);
    }
  }

  lemma DeliverKeepsInv(name: string, row: Version -> Cloud.Record, s: System, read: nat, commitOk: bool)
    requires SystemInv(name, row, s)
    ensures SystemInv(name, row, Next(name, row, s, Deliver(read, commitOk)))
  {
    hide Inv, Cloud.Sync, Cloud.ReplyTo, Committed;
    if read < |s.point.sent| {
      SyncListsIff(row, s.cloud, s.point.sent[read], commitOk);
    }
  }

  lemma LocalKeepsInv(name: string, row: Version -> Cloud.Record, s: System, e: Event)
    requires SystemInv(name, row, s) && Orderly(s.point, e)
    ensures SystemInv(name, row, Next(name, row, s, Local(e)))
  {
    hide Inv, AllListed, Listed, IsBatch;
    StepKeepsInv(name, s.point, e);
  }

  lemma ReceiveKeepsInv(name: string, row: Version -> Cloud.Record, s: System, reply: Cloud.Reply, written: bool)
    requires SystemInv(name, row, s) && Committed(reply)
    ensures SystemInv(name, row, Next(name, row, s, Receive(reply, written)))
  {
    hide Inv, Committed;
    StepKeepsInv(name, s.point, Answered(written));
  }

  lemma ReplayKeepsInv(name: string, row: Version -> Cloud.Record, s: System, read: nat, reply: Cloud.Reply)
    requires SystemInv(name, row, s) && Committed(reply)
    ensures SystemInv(name, row, Next(name, row, s, ReceiveReplay(read, reply)))
  {
    hide Inv, Committed;
    StepKeepsInv(name, s.point, Replayed(read));
  }

  /** Over every run of writes, reads, deliveries, lost and late answers, replays, failed checkpoint
      writes and restarts, on an orderly table and with no failed commit among the answers acted on:
      each product row at or below the checkpoint, in memory and on disk, is in the catalogue. */
  lemma {:induction false} CheckpointMeansListed(name: string, row: Version -> Cloud.Record, s: System,
                                                 steps: seq<Step>)
    requires SystemInv(name, row, s) && GoodRun(name, row, s, steps)
    ensures var s' := RunSteps(name, row, s, steps);
      && SystemInv(name, row, s')
      && CatalogueCovers(row, s', Get(s'.point.cache, name)) && CatalogueCovers(row, s', Get(s'.point.file, name))
  {
    hide Next, AllListed;
    if steps != [] {
      var n := |steps| - 1;
      CheckpointMeansListed(name, row, s, steps[..n]);
      var mid := RunSteps(name, row, s, steps[..n]);
      match steps[n]
      case Local(e) => LocalKeepsInv(name, row, mid, e);
      case Deliver(read, commitOk) => DeliverKeepsInv(name, row, mid, read, commitOk);
      case Receive(reply, written) => ReceiveKeepsInv(name, row, mid, reply, written);
      case ReceiveReplay(read, reply) => ReplayKeepsInv(name, row, mid, read, reply);
    }
  }

  /** The same on every such run of a new till and an empty catalogue. */
  lemma EveryGoodRunIsListed(name: string, row: Version -> Cloud.Record, steps: seq<Step>)
    requires GoodRun(name, row, START, steps)
    ensures var s := RunSteps(name, row, START, steps);
      CatalogueCovers(row, s, Get(s.point.cache, name)) && CatalogueCovers(row, s, Get(s.point.file, name))
  {
    CheckpointMeansListed(name, row, START, steps);
  }

  /** One new product, one failed commit answered with 200: the checkpoint passes a product that the
      cloud lacks. */
  lemma FailedCommitSkipsProduct(name: string, row: Version -> Cloud.Record)
    requires row(Version(1, 5000)).sku != ""
    ensures var batch := [Version(1, 5000)];
      var s1 := Next(name, row, Next(name, row, START, Local(Write(1, 5000))), Local(ReadBatch(500, batch)));
      var failed := Cloud.Reply(0, [], [Cloud.CommitFailed]);
      var s2 := Next(name, row, Next(name, row, s1, Deliver(0, false)), Receive(failed, true));
      Get(s2.point.cache, name) == 5000 && !CatalogueCovers(row, s2, 5000)
  {
    var batch := [Version(1, 5000)];
    assert Version(1, 5000) in batch;
    var s0 := Next(name, row, START, Local(Write(1, 5000)));
    assert IsBatch(s0.point.table, 0, 500, batch);
    var s1 := Next(name, row, s0, Local(ReadBatch(500, batch)));
    assert s1.point.sent == [batch] && s1.point.phase == Posting(batch) && s1.point.table == map[1 := 5000];
    var failed := Cloud.Reply(0, [], [Cloud.CommitFailed]);
    var s2 := Next(name, row, Next(name, row, s1, Deliver(0, false)), Receive(failed, true));
    assert s2.cloud == map[] && s2.point.table == map[1 := 5000];
    assert !Listed(s2.cloud, row(Version(1, s2.point.table[1])));
  }
}
