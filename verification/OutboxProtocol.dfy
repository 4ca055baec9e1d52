/** The outbox protocol between one till and the cloud: sales are read in batches, posted over a
    network that may lose, delay or repeat requests and replies, and marked as synced. The
    theorems hold for every interleaving of the agent's steps with the till's own writes. */
module OutboxProtocol {
  import opened CloudIngest

  datatype SaleStatus = Pending | Completed | Voided

  datatype SyncStatus = SyncPending | Synced | SyncFailed | LocalOnly

  datatype Sale = Sale(number: string, body: string, status: SaleStatus, sync: SyncStatus)

  datatype Answer = Answer(batch: seq<Record>, reply: Reply)

  /** Where the agent stands in `syncTransactions`. */
  datatype Phase = Idle | Posting(batch: seq<Record>) | Marking(batch: seq<Record>)

  /** `sent` is the network: any batch ever posted may reach the cloud again at any later time,
      from a retry, from the retry queue or as a late duplicate. */
  datatype State = State(
    sales: seq<Sale>, cloud: seq<Record>, sent: set<seq<Record>>, answers: set<Answer>, phase: Phase)

  datatype Event =
    | Ring(number: string, body: string, completed: bool)
    | Complete(number: string)
    | Void(number: string)
    | Read(limit: nat)
    | Deliver(batch: seq<Record>, faults: set<nat>, commitOk: bool)
    | Receive(reply: Reply)
    | GiveUp
    | Mark(ok: bool)
    | Crash

  const INITIAL := State([], [], {}, {}, Idle)

  predicate InOutbox(sale: Sale) {
    sale.status == Completed && (sale.sync == SyncPending || sale.sync == SyncFailed)
  }

  /** The rows the outbox query selects, oldest first. */
  function Outbox(sales: seq<Sale>): seq<Sale> {
    if sales == [] then []
    else
      var n := |sales| - 1;
      if InOutbox(sales[n]) then Outbox(sales[..n]) + [sales[n]] else Outbox(sales[..n])
  }

  function Payload(sales: seq<Sale>): seq<Record> {
    seq(|sales|, i requires 0 <= i < |sales| => Record(sales[i].number, sales[i].body))
  }

  function Batch(sales: seq<Sale>, limit: nat): seq<Record> {
    var rows := Outbox(sales);
    Payload(if |rows| <= limit then rows else rows[..limit])
  }

  predicate HasSale(sales: seq<Sale>, number: string) {
    exists i :: 0 <= i < |sales| && sales[i].number == number
  }

  function MarkOne(sale: Sale, batch: seq<Record>): Sale {
    if Holds(batch, sale.number) then sale.(sync := Synced) else sale
  }

  function MarkAll(sales: seq<Sale>, batch: seq<Record>): seq<Sale> {
    seq(|sales|, i requires 0 <= i < |sales| => MarkOne(sales[i], batch))
  }

  function SetStatus(sales: seq<Sale>, number: string, before: SaleStatus, after: SaleStatus): seq<Sale> {
    seq(|sales|, i requires 0 <= i < |sales| =>
      if sales[i].number == number && sales[i].status == before then sales[i].(status := after) else sales[i])
  }

  function Apply(s: State, e: Event): State {
    match e
    case Ring(number, body, completed) =>
      if number == "" || HasSale(s.sales, number) then s
      else s.(sales := s.sales + [Sale(number, body, if completed then Completed else Pending, SyncPending)])
    case Complete(number) => s.(sales := SetStatus(s.sales, number, Pending, Completed))
    case Void(number) =>
      s.(sales := SetStatus(SetStatus(s.sales, number, Pending, Voided), number, Completed, Voided))
    case Read(limit) =>
      var batch := Batch(s.sales, limit);
      if s.phase != Idle || batch == [] then s
      else s.(phase := Posting(batch), sent := s.sent + {batch})
    case Deliver(batch, faults, commitOk) =>
      if batch !in s.sent then s
      else
        var session := Ingest(s.cloud, batch, faults);
        s.(cloud := Committed(s.cloud, session, commitOk),
           answers := s.answers + {Answer(batch, ReplyOf(session, commitOk))})
    case Receive(reply) =>
      if s.phase.Posting? && Answer(s.phase.batch, reply) in s.answers then s.(phase := Marking(s.phase.batch)) else s
    case GiveUp => if s.phase.Posting? then s.(phase := Idle) else s
    case Mark(ok) =>
      if !s.phase.Marking? then s
      else s.(sales := if ok then MarkAll(s.sales, s.phase.batch) else s.sales, phase := Idle)
    case Crash => s.(phase := Idle)
  }

  function Run(s: State, events: seq<Event>): State {
    if events == [] then s else Apply(Run(s, events[..|events| - 1]), events[|events| - 1])
  }

  // ---------- What each step does to the till's table and to the agent ----------

  /** The till's own writes, sale by sale: a new number is added, a completion moves a pending sale of
      that number, a void moves any sale of it, and nothing else changes. */
  lemma TillSteps(s: State, number: string, body: string, completed: bool)
    ensures Apply(s, Ring(number, body, completed)) == (
      if number == "" || exists i :: 0 <= i < |s.sales| && s.sales[i].number == number then s
      else s.(sales := s.sales + [Sale(number, body, if completed then Completed else Pending, SyncPending)]))
    ensures var after := Apply(s, Complete(number));
      && after == s.(sales := after.sales) && |after.sales| == |s.sales|
      && forall i :: 0 <= i < |s.sales| ==>
        after.sales[i] == if s.sales[i].number == number && s.sales[i].status == Pending
          then s.sales[i].(status := Completed) else s.sales[i]
    ensures var after := Apply(s, Void(number));
      && after == s.(sales := after.sales) && |after.sales| == |s.sales|
      && forall i :: 0 <= i < |s.sales| ==>
        after.sales[i] == if s.sales[i].number == number then s.sales[i].(status := Voided) else s.sales[i]
  {
  }

  /** The agent's own steps: a read starts a post of the first rows of the outbox, an answer to that post
      may be acted on, a mark changes the `sync_status` of that batch's sales only, and the end of a
      cycle, however it comes, leaves the table as it is. */
  lemma AgentSteps(s: State, limit: nat, reply: Reply, ok: bool)
    ensures var rows := Outbox(s.sales);
      Apply(s, Read(limit)).phase == if s.phase == Idle && rows != [] && limit > 0
        then Posting(Payload(rows[..if |rows| <= limit then |rows| else limit])) else s.phase
    ensures s.phase.Posting? && Answer(s.phase.batch, reply) in s.answers ==>
      Apply(s, Receive(reply)) == s.(phase := Marking(s.phase.batch))
    ensures var after := Apply(s, Mark(ok));
      && |after.sales| == |s.sales| && after == s.(sales := after.sales, phase := after.phase)
      && after.phase == (if s.phase.Marking? then Idle else s.phase)
      && forall i :: 0 <= i < |s.sales| ==>
        after.sales[i] == if s.phase.Marking? && ok && (exists r :: r in s.phase.batch && r.number == s.sales[i].number)
          then s.sales[i].(sync := Synced) else s.sales[i]
    ensures Apply(s, Crash) == s.(phase := Idle)
    ensures Apply(s, GiveUp) == if s.phase.Posting? then s.(phase := Idle) else s
  {
    assert |Outbox(s.sales)| <= limit ==> Outbox(s.sales)[..|Outbox(s.sales)|] == Outbox(s.sales);
    if s.phase.Marking? {
      forall number
        ensures Holds(s.phase.batch, number) <==> exists r :: r in s.phase.batch && r.number == number
      {
        if r :| r in s.phase.batch && r.number == number {
          var i :| 0 <= i < |s.phase.batch| && s.phase.batch[i] == r;
        }
      }
    }
  }

  /** The newest completed, unsynced sale comes last in the outbox. */
  lemma OldestComesFirst(sales: seq<Sale>, sale: Sale)
    ensures Outbox(sales + [sale]) == Outbox(sales)
      + if sale.status == Completed && sale.sync in {SyncPending, SyncFailed} then [sale] else []
  {
    assert (sales + [sale])[..|sales|] == sales;
  }

  /** The agent acts on this answer, and the answer is clean. */
  predicate CleanIfActedOn(s: State, e: Event) {
    e.Receive? && s.phase.Posting? && Answer(s.phase.batch, e.reply) in s.answers ==> Clean(e.reply, |s.phase.batch|)
  }

  /** Every answer the agent acts on during the run is clean. */
  ghost predicate CleanRun(s: State, events: seq<Event>) {
    events != [] ==>
      var n := |events| - 1;
      CleanRun(s, events[..n]) && CleanIfActedOn(Run(s, events[..n]), events[n])
  }

  // ---------- The invariant ----------

  ghost predicate DistinctSales(sales: seq<Sale>) {
    && (forall i :: 0 <= i < |sales| ==> sales[i].number != "" && sales[i].sync != LocalOnly)
    && forall i, j :: 0 <= i < j < |sales| ==> sales[i].number != sales[j].number
  }

  /** The record is a sale of this till, with that sale's content, and no longer a pending one. */
  ghost predicate Genuine(sales: seq<Sale>, rec: Record) {
    exists i :: 0 <= i < |sales|
      && sales[i].number == rec.number && sales[i].body == rec.body && sales[i].status != Pending
  }

  ghost predicate AllGenuine(sales: seq<Sale>, records: seq<Record>) {
    forall i :: 0 <= i < |records| ==> Genuine(sales, records[i])
  }

  /** SYNCED means in the cloud. */
  ghost predicate SyncedInCloud(s: State) {
    forall i :: 0 <= i < |s.sales| && s.sales[i].sync == Synced ==> Holds(s.cloud, s.sales[i].number)
  }

  ghost predicate NetworkOk(s: State) {
    && (forall b :: b in s.sent ==> Numbered(b) && AllGenuine(s.sales, b))
    && (forall a :: a in s.answers ==> a.batch in s.sent && (Clean(a.reply, |a.batch|) ==> AllHeld(s.cloud, a.batch)))
    && (s.phase.Posting? ==> s.phase.batch in s.sent)
    && (s.phase.Marking? ==> s.phase.batch in s.sent)
  }

  ghost predicate Inv(s: State) {
    && DistinctSales(s.sales)
    && Unique(s.cloud)
    && AllGenuine(s.sales, s.cloud)
    && NetworkOk(s)
    && (s.phase.Marking? ==> AllHeld(s.cloud, s.phase.batch))
    && SyncedInCloud(s)
  }

  /** What the documentation promises for every completed sale. */
  ghost predicate NoSaleDropped(s: State) {
    forall i :: 0 <= i < |s.sales| && s.sales[i].status == Completed ==>
      InOutbox(s.sales[i]) || Holds(s.cloud, s.sales[i].number)
  }

  /** The till only adds sales and changes statuses. */
  ghost predicate Evolved(before: seq<Sale>, after: seq<Sale>) {
    && |before| <= |after|
    && forall i :: 0 <= i < |before| ==>
      && after[i].number == before[i].number && after[i].body == before[i].body
      && (before[i].status != Pending ==> after[i].status != Pending)
  }

  lemma GenuineEvolves(before: seq<Sale>, after: seq<Sale>)
    requires Evolved(before, after)
    ensures forall rec :: Genuine(before, rec) ==> Genuine(after, rec)
  {
    forall rec | Genuine(before, rec)
      ensures Genuine(after, rec)
    {
      var i :| 0 <= i < |before| && before[i].number == rec.number && before[i].body == rec.body
        && before[i].status != Pending;
      assert after[i].number == rec.number;
    }
  }

  lemma HeldGrows(rows: seq<Record>, more: seq<Record>)
    ensures forall number :: Holds(rows, number) ==> Holds(rows + more, number)
    ensures forall records :: AllHeld(rows, records) ==> AllHeld(rows + more, records)
  {
    forall number | Holds(rows, number)
      ensures Holds(rows + more, number)
    {
      HoldsConcat(rows, more, number);
    }
  }

  lemma {:induction false} OutboxRows(sales: seq<Sale>)
    ensures forall sale :: sale in Outbox(sales) <==> sale in sales && InOutbox(sale)
    ensures DistinctSales(sales) ==> DistinctSales(Outbox(sales))
  {
    if sales != [] {
      var n := |sales| - 1;
      OutboxRows(sales[..n]);
      assert sales == sales[..n] + [sales[n]];
      var rest := Outbox(sales[..n]);
      assert forall i | 0 <= i < |rest| :: rest[i] in sales[..n];
    }
  }

  lemma BatchIsGood(sales: seq<Sale>, limit: nat)
    requires DistinctSales(sales)
    ensures Numbered(Batch(sales, limit)) && AllGenuine(sales, Batch(sales, limit))
  {
    OutboxRows(sales);
    var rows, batch := Outbox(sales), Batch(sales, limit);
    forall i | 0 <= i < |batch|
      ensures Genuine(sales, batch[i])
    {
      assert rows[i] in sales;
      var k :| 0 <= k < |sales| && sales[k] == rows[i];
      assert sales[k].number == batch[i].number;
    }
  }

  lemma DeliverKeepsInv(s: State, batch: seq<Record>, faults: set<nat>, commitOk: bool)
    requires Inv(s) && batch in s.sent
    ensures Inv(Apply(s, Deliver(batch, faults, commitOk)))
    ensures s.cloud <= Apply(s, Deliver(batch, faults, commitOk)).cloud
  {
    var s' := Apply(s, Deliver(batch, faults, commitOk));
    var session := Ingest(s.cloud, batch, faults);
    var added := if commitOk then session.pending else [];
    assert s'.cloud == s.cloud + added;
    NumbersStayUnique(s.cloud, batch, faults);
    CleanReplyIff(s.cloud, batch, faults, commitOk);
    HeldGrows(s.cloud, added);
    var k := LastFailure(s.cloud, batch, faults);
    DurableExactly(s.cloud, batch, faults, k);
    forall i | 0 <= i < |added|
      ensures Genuine(s.sales, added[i])
    {
      assert added[i] in session.pending;
      var j: nat :| FirstAt(batch, k, j, added[i]);
      assert batch[j] == added[i];
    }
  }

  /** The till may add and change sales, as long as no sale becomes SYNCED before the cloud has it. */
  lemma SalesChangeKeepsInv(s: State, sales: seq<Sale>)
    requires Inv(s) && Evolved(s.sales, sales) && DistinctSales(sales)
    requires forall i :: 0 <= i < |sales| && sales[i].sync == Synced ==> Holds(s.cloud, sales[i].number)
    ensures Inv(s.(sales := sales))
  {
    GenuineEvolves(s.sales, sales);
  }

  lemma ReadKeepsInv(s: State, limit: nat)
    requires Inv(s)
    ensures Inv(Apply(s, Read(limit)))
  {
    BatchIsGood(s.sales, limit);
  }

  lemma TillKeepsInv(s: State, e: Event)
    requires Inv(s) && (e.Ring? || e.Complete? || e.Void?)
    ensures Inv(Apply(s, e)) && Evolved(s.sales, Apply(s, e).sales)
  {
    SalesChangeKeepsInv(s, Apply(s, e).sales);
  }

  lemma MarkKeepsInv(s: State, ok: bool)
    requires Inv(s)
    ensures Inv(Apply(s, Mark(ok))) && Evolved(s.sales, Apply(s, Mark(ok)).sales)
  {
    if s.phase.Marking? && ok {
      HeldNumbers(s.cloud, s.phase.batch);
      SalesChangeKeepsInv(s, MarkAll(s.sales, s.phase.batch));
    }
  }

  lemma StepKeepsInv(s: State, e: Event)
    requires Inv(s) && CleanIfActedOn(s, e)
    ensures Inv(Apply(s, e))
    ensures s.cloud <= Apply(s, e).cloud && Evolved(s.sales, Apply(s, e).sales)
  {
    match e
    case Ring(_, _, _) => TillKeepsInv(s, e);
    case Complete(_) => TillKeepsInv(s, e);
    case Void(_) => TillKeepsInv(s, e);
    case Read(limit) => ReadKeepsInv(s, limit);
    case Deliver(batch, faults, commitOk) =>
      if batch in s.sent {
        DeliverKeepsInv(s, batch, faults, commitOk);
      }
    case Mark(ok) => MarkKeepsInv(s, ok);
    case _ =>
  }

  lemma HeldNumbers(rows: seq<Record>, records: seq<Record>)
    requires AllHeld(rows, records)
    ensures forall number :: Holds(records, number) ==> Holds(rows, number)
  {
  }

  /** The documented guarantee, over every run in which the agent acts on clean answers only:
      requests and replies may be lost, repeated or late, mark calls may fail, the agent may crash.
      No completed sale leaves the outbox before the cloud has it, SYNCED implies in the cloud, the
      cloud has at most one row per number, only genuine sales, and never changes a row it has. */
  lemma {:induction false} NoSaleIsLost(s: State, events: seq<Event>)
    requires Inv(s) && CleanRun(s, events)
    ensures var s' := Run(s, events);
      && Inv(s') && NoSaleDropped(s') && SyncedInCloud(s') && Unique(s'.cloud) && AllGenuine(s'.sales, s'.cloud)
      && s.cloud <= s'.cloud && Evolved(s.sales, s'.sales)
  {
    if events != [] {
      var n := |events| - 1;
      NoSaleIsLost(s, events[..n]);
      StepKeepsInv(Run(s, events[..n]), events[n]);
    }
  }

  /** The same on every such run of a new till. */
  lemma EveryCleanRunIsSafe(events: seq<Event>)
    requires CleanRun(INITIAL, events)
    ensures var s := Run(INITIAL, events);
      NoSaleDropped(s) && SyncedInCloud(s) && Unique(s.cloud) && AllGenuine(s.sales, s.cloud)
  {
    NoSaleIsLost(INITIAL, events);
  }

  // ---------- Exactly when the agent's step is safe ----------

  /** Marking a batch of which one sale is missing in the cloud makes that sale SYNCED all the same. */
  lemma MarkingMissing(s: State, batch: seq<Record>, i: nat)
    requires AllGenuine(s.sales, batch) && s.phase == Marking(batch)
    requires i < |batch| && !Holds(s.cloud, batch[i].number)
    ensures !SyncedInCloud(Apply(s, Mark(true)))
  {
    var s' := Apply(s, Mark(true));
    assert Genuine(s.sales, batch[i]);
    var k :| 0 <= k < |s.sales| && s.sales[k].number == batch[i].number && s.sales[k].body == batch[i].body;
    assert s'.sales[k] == MarkOne(s.sales[k], batch);
  }

  /** The agent marks the batch after any 200. For one post, answer and mark, that keeps SYNCED
      meaning "in the cloud" if and only if the answer is clean, which the agent does not check. */
  lemma MarkingIsSafeIff(s: State, faults: set<nat>, commitOk: bool)
    requires Inv(s) && s.phase.Posting?
    ensures var batch := s.phase.batch;
      var reply := ReplyOf(Ingest(s.cloud, batch, faults), commitOk);
      var s' := Apply(Apply(Apply(s, Deliver(batch, faults, commitOk)), Receive(reply)), Mark(true));
      SyncedInCloud(s') <==> Clean(reply, |batch|)
  {
    hide Ingest;
    var batch := s.phase.batch;
    var reply := ReplyOf(Ingest(s.cloud, batch, faults), commitOk);
    if Clean(reply, |batch|) {
      AnsweredCycle(s, faults, commitOk);
    } else {
      var s1 := Apply(s, Deliver(batch, faults, commitOk));
      CleanReplyIff(s.cloud, batch, faults, commitOk);
      var i :| 0 <= i < |batch| && !Holds(s1.cloud, batch[i].number);
      MarkingMissing(Apply(s1, Receive(reply)), batch, i);
    }
  }

  /** A run of one sale that the guarantee fails on: the insert raises, the cloud still answers 200,
      the agent marks the sale, and a completed sale is neither in the outbox nor in the cloud. As
      shipped the agent's mark is refused, which leads to the other failure of OutboxStarvation. */
  lemma UncleanAnswerLosesASale(number: string, body: string)
    requires number != ""
    ensures var s := Run(INITIAL, [Ring(number, body, true), Read(500), Deliver([Record(number, body)], {0}, true),
        Receive(Reply(0, 0, [RecordFailed(number)])), Mark(true)]);
      !NoSaleDropped(s) && s.sales == [Sale(number, body, Completed, Synced)] && s.cloud == []
  {
    var batch, reply := [Record(number, body)], Reply(0, 0, [RecordFailed(number)]);
    RunFive(INITIAL, Ring(number, body, true), Read(500), Deliver(batch, {0}, true), Receive(reply), Mark(true));
    var sale := Sale(number, body, Completed, SyncPending);
    OneSaleOutbox(sale);
    var s1 := Apply(INITIAL, Ring(number, body, true));
    assert s1 == State([sale], [], {}, {}, Idle);
    var s2 := Apply(s1, Read(500));
    assert s2 == State([sale], [], {batch}, {}, Posting(batch));
    OneFailure(batch[0]);
    var s3 := Apply(s2, Deliver(batch, {0}, true));
    assert s3 == State([sale], [], {batch}, {Answer(batch, reply)}, Posting(batch));
    assert Holds(batch, batch[0].number);
    var s5 := Apply(Apply(s3, Receive(reply)), Mark(true));
    assert s5.sales == [sale.(sync := Synced)] && s5.sales[0].status == Completed;
  }

  lemma OneSaleOutbox(sale: Sale)
    requires InOutbox(sale)
    ensures Batch([sale], 500) == [Record(sale.number, sale.body)]
  {
    assert [sale][..0] == [];
    assert Outbox([sale]) == [sale];
  }

  lemma OneFailure(rec: Record)
    requires rec.number != ""
    ensures Ingest([], [rec], {0}) == Session([], 0, 0, [RecordFailed(rec.number)])
  {
    assert [rec][..0] == [];
  }

  lemma RunNothing(s: State)
    ensures Run(s, []) == s
  {
  }

  lemma RunSnoc(s: State, events: seq<Event>, e: Event)
    ensures Run(s, events + [e]) == Apply(Run(s, events), e)
  {
    assert (events + [e])[..|events|] == events;
  }

  lemma RunFive(s: State, e1: Event, e2: Event, e3: Event, e4: Event, e5: Event)
    ensures Run(s, [e1, e2, e3, e4, e5]) == Apply(Apply(Apply(Apply(Apply(s, e1), e2), e3), e4), e5)
  {
    hide Apply, Run;
    RunNothing(s);
    RunSnoc(s, [], e1);
    RunSnoc(s, [e1], e2);
    RunSnoc(s, [e1, e2], e3);
    RunSnoc(s, [e1, e2, e3], e4);
    RunSnoc(s, [e1, e2, e3, e4], e5);
    assert [] + [e1] == [e1] && [e1] + [e2] == [e1, e2] && [e1, e2] + [e3] == [e1, e2, e3];
    assert [e1, e2, e3] + [e4] == [e1, e2, e3, e4] && [e1, e2, e3, e4] + [e5] == [e1, e2, e3, e4, e5];
  }

  // ---------- Progress ----------

  /** A cycle in which nothing fails, as the agent runs it from `Idle`. */
  function QuietCycle(s: State, limit: nat): State {
    var batch := Batch(s.sales, limit);
    if batch == [] then s
    else
      var s2 := Apply(Apply(s, Read(limit)), Deliver(batch, {}, true));
      Apply(Apply(s2, Receive(ReplyOf(Ingest(s.cloud, batch, {}), true))), Mark(true))
  }

  function QuietCycles(s: State, limit: nat, n: nat): State
    decreases n
  {
    if n == 0 then s else QuietCycles(QuietCycle(s, limit), limit, n - 1)
  }

  /** The rows whose number is not in the batch. */
  function Remaining(rows: seq<Sale>, batch: seq<Record>): seq<Sale> {
    if rows == [] then []
    else
      var n := |rows| - 1;
      if Holds(batch, rows[n].number) then Remaining(rows[..n], batch) else Remaining(rows[..n], batch) + [rows[n]]
  }

  lemma {:induction false} MarkingRemoves(sales: seq<Sale>, batch: seq<Record>)
    ensures Outbox(MarkAll(sales, batch)) == Remaining(Outbox(sales), batch)
  {
    if sales != [] {
      var n := |sales| - 1;
      MarkingRemoves(sales[..n], batch);
      assert MarkAll(sales, batch)[..n] == MarkAll(sales[..n], batch);
      if InOutbox(sales[n]) {
        assert Outbox(sales)[..|Outbox(sales)| - 1] == Outbox(sales[..n]);
      }
    }
  }

  /** Of distinct rows, exactly the first `k` are in the batch of the first `k`. */
  lemma FirstRowsHeld(rows: seq<Sale>, k: nat, i: nat)
    requires DistinctSales(rows) && k <= |rows| && i < |rows|
    ensures Holds(Payload(rows[..k]), rows[i].number) <==> i < k
  {
    var batch := Payload(rows[..k]);
    assert forall j | 0 <= j < k :: batch[j].number == rows[j].number;
    if i < k {
      assert batch[i].number == rows[i].number;
    }
  }

  lemma {:induction false} FirstRowsRemoved(rows: seq<Sale>, k: nat, m: nat)
    requires DistinctSales(rows) && k <= |rows| && m <= |rows|
    ensures Remaining(rows[..m], Payload(rows[..k])) == if m <= k then [] else rows[k..m]
  {
    hide DistinctSales, Holds, Payload;
    if m > 0 {
      FirstRowsRemoved(rows, k, m - 1);
      FirstRowsHeld(rows, k, m - 1);
      assert rows[..m][..m - 1] == rows[..m - 1];
      if m - 1 >= k {
        assert rows[k..m - 1] + [rows[m - 1]] == rows[k..m];
      }
    }
  }

  /** Without faults nothing goes wrong on the cloud side. */
  lemma NoFaultsCleanReply(rows: seq<Record>, batch: seq<Record>)
    requires Numbered(batch)
    ensures Clean(ReplyOf(Ingest(rows, batch, {}), true), |batch|)
  {
    var k := LastFailure(rows, batch, {});
  }

  /** Posting, a clean answer and a successful mark, from any state in which the agent posts. */
  lemma AnsweredCycle(s: State, faults: set<nat>, commitOk: bool)
    requires Inv(s) && s.phase.Posting?
    requires Clean(ReplyOf(Ingest(s.cloud, s.phase.batch, faults), commitOk), |s.phase.batch|)
    ensures var batch := s.phase.batch;
      var s' := Apply(Apply(Apply(s, Deliver(batch, faults, commitOk)),
        Receive(ReplyOf(Ingest(s.cloud, batch, faults), commitOk))), Mark(true));
      && Inv(s') && s'.phase == Idle && s'.sales == MarkAll(s.sales, batch) && AllHeld(s'.cloud, batch)
  {
    hide Ingest, Evolved, SyncedInCloud;
    var batch := s.phase.batch;
    var reply := ReplyOf(Ingest(s.cloud, batch, faults), commitOk);
    DeliverKeepsInv(s, batch, faults, commitOk);
    var s1 := Apply(s, Deliver(batch, faults, commitOk));
    StepKeepsInv(s1, Receive(reply));
    var s2 := Apply(s1, Receive(reply));
    StepKeepsInv(s2, Mark(true));
  }

  lemma QuietCycleEffect(s: State, limit: nat)
    requires Inv(s) && s.phase == Idle
    ensures var s' := QuietCycle(s, limit);
      && Inv(s') && s'.phase == Idle
      && s'.sales == MarkAll(s.sales, Batch(s.sales, limit))
      && AllHeld(s'.cloud, Batch(s.sales, limit))
  {
    var batch := Batch(s.sales, limit);
    if batch == [] {
      assert MarkAll(s.sales, batch) == s.sales;
    } else {
      BatchIsGood(s.sales, limit);
      NoFaultsCleanReply(s.cloud, batch);
      StepKeepsInv(s, Read(limit));
      AnsweredCycle(Apply(s, Read(limit)), {}, true);
    }
  }

  /** A quiet cycle moves the oldest `limit` outbox sales into the cloud and out of the outbox. */
  lemma QuietCycleDrains(s: State, limit: nat)
    requires Inv(s) && s.phase == Idle
    ensures var k := if |Outbox(s.sales)| <= limit then |Outbox(s.sales)| else limit;
      && Outbox(QuietCycle(s, limit).sales) == Outbox(s.sales)[k..]
      && AllHeld(QuietCycle(s, limit).cloud, Payload(Outbox(s.sales)[..k]))
  {
    var rows := Outbox(s.sales);
    var k := if |rows| <= limit then |rows| else limit;
    QuietCycleEffect(s, limit);
    MarkingRemoves(s.sales, Batch(s.sales, limit));
    OutboxRows(s.sales);
    FirstRowsRemoved(rows, k, |rows|);
    assert rows[..|rows|] == rows;
    assert Batch(s.sales, limit) == Payload(rows[..k]);
  }

  /** How many sales `cycles` full batches can carry. */
  function Capacity(cycles: nat, limit: nat): nat {
    if cycles == 0 then 0 else limit + Capacity(cycles - 1, limit)
  }

  /** The outbox drains: enough quiet cycles leave it empty. */
  lemma {:induction false} OutboxDrains(s: State, limit: nat, cycles: nat)
    requires Inv(s) && s.phase == Idle && |Outbox(s.sales)| <= Capacity(cycles, limit)
    ensures Outbox(QuietCycles(s, limit, cycles).sales) == []
    decreases cycles
  {
    hide Inv, QuietCycle, Outbox;
    if cycles > 0 {
      QuietCycleEffect(s, limit);
      QuietCycleDrains(s, limit);
      OutboxDrains(QuietCycle(s, limit), limit, cycles - 1);
    }
  }
}
