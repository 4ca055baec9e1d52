/** The outbox while the mark call is refused. The agent's mark call needs a cashier login that the
    agent does not send, so this is what its cycles do as shipped: the oldest sales are sent again
    and again, and no sale behind them ever leaves the till. */
module OutboxStarvation {
  import opened CloudIngest
  import opened OutboxProtocol
  import RetryQueue
  import SyncAgent

  /** Any step but a mark that works and a void; the agent reads with its one batch size. */
  predicate Refused(e: Event, limit: nat) {
    !e.Void? && e != Mark(true) && (e.Read? ==> e.limit == limit)
  }

  ghost predicate RefusedRun(events: seq<Event>, limit: nat) {
    forall i :: 0 <= i < |events| ==> Refused(events[i], limit)
  }

  /** No request ever carried the number, and the cloud does not have it. */
  ghost predicate Unsent(s: State, number: string) {
    !Holds(s.cloud, number) && forall b :: b in s.sent ==> !Holds(b, number)
  }

  /** The number was never sent, and a full batch of outbox sales comes before its sale, or before
      the place where a sale of that number would be added. */
  ghost predicate Stuck(s: State, number: string, limit: nat) {
    && Unsent(s, number)
    && |Outbox(s.sales)| >= limit
    && forall k :: 0 <= k < |s.sales| && s.sales[k].number == number ==> |Outbox(s.sales[..k])| >= limit
  }

  lemma {:induction false} PendingFromBatch(rows: seq<Record>, records: seq<Record>, faults: set<nat>)
    ensures forall number :: Holds(Ingest(rows, records, faults).pending, number) ==> Holds(records, number)
  {
    if records != [] {
      var n := |records| - 1;
      PendingFromBatch(rows, records[..n], faults);
      forall number | Holds(Ingest(rows, records, faults).pending, number)
        ensures Holds(records, number)
      {
        HoldsConcat(records[..n], [records[n]], number);
        assert records == records[..n] + [records[n]];
        assert [records[n]][0] == records[n];
        HoldsConcat(Ingest(rows, records[..n], faults).pending, [records[n]], number);
      }
    }
  }

  lemma {:induction false} OutboxPrefix(sales: seq<Sale>, k: nat)
    requires k <= |sales|
    ensures Outbox(sales[..k]) <= Outbox(sales)
  {
    if k < |sales| {
      OutboxPrefix(sales[..|sales| - 1], k);
      assert sales[..|sales| - 1][..k] == sales[..k];
    } else {
      assert sales[..k] == sales;
    }
  }

  /** Completing a sale takes no other sale out of the outbox. */
  lemma {:induction false} CompletingKeepsOutbox(sales: seq<Sale>, number: string)
    ensures |Outbox(SetStatus(sales, number, Pending, Completed))| >= |Outbox(sales)|
  {
    if sales != [] {
      var n := |sales| - 1;
      CompletingKeepsOutbox(sales[..n], number);
      assert SetStatus(sales, number, Pending, Completed)[..n] == SetStatus(sales[..n], number, Pending, Completed);
    }
  }

  /** With `limit` outbox sales before position `k`, the first `limit` of the outbox are among them. */
  lemma FrontFillsBatch(sales: seq<Sale>, k: nat, limit: nat, i: nat)
    requires k <= |sales| && i < limit <= |Outbox(sales[..k])|
    ensures i < |Outbox(sales)| && Outbox(sales)[i] in sales[..k]
  {
    var front := sales[..k];
    OutboxPrefix(sales, k);
    OutboxRows(front);
    assert Outbox(front)[i] in Outbox(front);
  }

  /** So a stuck number is not in the batch. */
  lemma BatchSkips(s: State, number: string, limit: nat)
    requires DistinctSales(s.sales) && Stuck(s, number, limit)
    ensures !Holds(Batch(s.sales, limit), number)
  {
    var rows := Outbox(s.sales);
    OutboxRows(s.sales);
    forall i | 0 <= i < |Batch(s.sales, limit)|
      ensures Batch(s.sales, limit)[i].number != number
    {
      assert rows[i] in s.sales;
      if k :| 0 <= k < |s.sales| && s.sales[k].number == number {
        FrontFillsBatch(s.sales, k, limit, i);
        var j :| 0 <= j < k && s.sales[..k][j] == rows[i];
        assert s.sales[j].number != s.sales[k].number;
      }
    }
  }

  lemma CompleteKeepsStuck(s: State, done: string, number: string, limit: nat)
    requires Stuck(s, number, limit)
    ensures Stuck(Apply(s, Complete(done)), number, limit)
  {
    var s' := Apply(s, Complete(done));
    CompletingKeepsOutbox(s.sales, done);
    forall k | 0 <= k < |s'.sales| && s'.sales[k].number == number
      ensures |Outbox(s'.sales[..k])| >= limit
    {
      CompletingKeepsOutbox(s.sales[..k], done);
      assert s'.sales[..k] == SetStatus(s.sales[..k], done, Pending, Completed);
    }
  }

  lemma RingKeepsStuck(s: State, e: Event, number: string, limit: nat)
    requires e.Ring? && Stuck(s, number, limit)
    ensures Stuck(Apply(s, e), number, limit)
  {
    var s' := Apply(s, e);
    if s' != s {
      assert s'.sales[..|s.sales|] == s.sales;
      forall k | 0 <= k < |s'.sales| && s'.sales[k].number == number
        ensures |Outbox(s'.sales[..k])| >= limit
      {
        assert s'.sales[..k] == if k < |s.sales| then s.sales[..k] else s.sales;
      }
    }
  }

  lemma StepKeepsStuck(s: State, e: Event, number: string, limit: nat)
    requires DistinctSales(s.sales) && Refused(e, limit) && Stuck(s, number, limit)
    ensures Stuck(Apply(s, e), number, limit)
  {
    hide Outbox, Batch, Ingest, DistinctSales;
    match e
    case Ring(_, _, _) => RingKeepsStuck(s, e, number, limit);
    case Complete(done) => CompleteKeepsStuck(s, done, number, limit);
    case Read(_) => BatchSkips(s, number, limit);
    case Deliver(batch, faults, _) =>
      PendingFromBatch(s.cloud, batch, faults);
      HoldsConcat(s.cloud, Ingest(s.cloud, batch, faults).pending, number);
    case _ =>
  }

  /** Sales in the outbox stay there, and sales stay distinct. */
  lemma StepKeepsOutbox(s: State, e: Event, limit: nat)
    requires DistinctSales(s.sales) && Refused(e, limit)
    ensures var s' := Apply(s, e);
      && DistinctSales(s'.sales) && |s.sales| <= |s'.sales|
      && forall k :: 0 <= k < |s.sales| ==>
        && s'.sales[k].number == s.sales[k].number
        && (InOutbox(s.sales[k]) ==> s'.sales[k] == s.sales[k])
  {
    hide Ingest, Batch;
  }

  /** Over every run in which no mark works and nothing is voided, whatever is rung up, completed,
      sent, answered, lost or repeated: a number that was not sent and has a full batch of outbox
      sales in front of it never reaches the cloud, and every sale in the outbox stays there. */
  lemma {:induction false} RefusedMarksStarve(s: State, events: seq<Event>, number: string, limit: nat)
    requires DistinctSales(s.sales) && RefusedRun(events, limit) && Stuck(s, number, limit)
    ensures var s' := Run(s, events);
      && DistinctSales(s'.sales) && Stuck(s', number, limit) && !Holds(s'.cloud, number)
      && |s.sales| <= |s'.sales|
      && forall k :: 0 <= k < |s.sales| ==>
        && s'.sales[k].number == s.sales[k].number
        && (InOutbox(s.sales[k]) ==> s'.sales[k] == s.sales[k])
  {
    hide Apply, DistinctSales, Refused, InOutbox, Outbox;
    if events != [] {
      var n := |events| - 1;
      RefusedMarksStarve(s, events[..n], number, limit);
      StepKeepsStuck(Run(s, events[..n]), events[n], number, limit);
      StepKeepsOutbox(Run(s, events[..n]), events[n], limit);
    }
  }

  /** An outbox sale with fewer than `limit` in front of it is in the batch. */
  lemma NearSaleIsRead(sales: seq<Sale>, k: nat, limit: nat)
    requires k < |sales| && InOutbox(sales[k]) && |Outbox(sales[..k])| < limit
    ensures Holds(Batch(sales, limit), sales[k].number)
  {
    var front := Outbox(sales[..k]);
    OutboxPrefix(sales, k + 1);
    assert sales[..k + 1][..k] == sales[..k];
    assert Outbox(sales[..k + 1]) == front + [sales[k]];
    assert Outbox(sales)[|front|] == sales[k];
    assert Batch(sales, limit)[|front|].number == sales[k].number;
  }

  /** In particular any sale of the outbox behind the first `limit`, if it was not sent before. */
  lemma SaleOutsideBatchIsStuck(s: State, k: nat, events: seq<Event>, limit: nat)
    requires DistinctSales(s.sales) && RefusedRun(events, limit)
    requires k < |s.sales| && InOutbox(s.sales[k]) && Unsent(s, s.sales[k].number)
    requires !Holds(Batch(s.sales, limit), s.sales[k].number)
    ensures var s' := Run(s, events);
      && k < |s'.sales| && s'.sales[k] == s.sales[k] && InOutbox(s'.sales[k])
      && !Holds(s'.cloud, s'.sales[k].number)
  {
    OutboxPrefix(s.sales, k);
    if |Outbox(s.sales[..k])| < limit {
      NearSaleIsRead(s.sales, k, limit);
    }
    RefusedMarksStarve(s, events, s.sales[k].number, limit);
  }

  lemma GenuineNumbers(sales: seq<Sale>, records: seq<Record>)
    requires AllGenuine(sales, records)
    ensures forall number :: Holds(records, number) ==> HasSale(sales, number)
  {
    forall number | Holds(records, number)
      ensures HasSale(sales, number)
    {
      var i :| 0 <= i < |records| && records[i].number == number;
      assert Genuine(sales, records[i]);
    }
  }

  /** A sale rung up while a full batch waits is stuck from the start: from a state that keeps the
      protocol's invariant, its number was not sent, for the till had no such sale. */
  lemma LaterSaleIsStuck(s: State, number: string, events: seq<Event>, limit: nat)
    requires Inv(s) && RefusedRun(events, limit)
    requires |Outbox(s.sales)| >= limit && !HasSale(s.sales, number)
    ensures !Holds(Run(s, events).cloud, number)
  {
    GenuineNumbers(s.sales, s.cloud);
    forall b: seq<Record> | b in s.sent
      ensures !Holds(b, number)
    {
      GenuineNumbers(s.sales, b);
    }
    assert Stuck(s, number, limit);
    RefusedMarksStarve(s, events, number, limit);
  }

  lemma RefusedConcat(a: seq<Event>, b: seq<Event>, limit: nat)
    requires RefusedRun(a, limit) && RefusedRun(b, limit)
    ensures RefusedRun(a + b, limit)
  {
    forall i | 0 <= i < |a + b|
      ensures Refused((a + b)[i], limit)
    {
      assert (a + b)[i] == if i < |a| then a[i] else b[i - |a|];
    }
  }

  lemma DeliveriesAreRefused(batch: seq<Record>, ds: seq<SyncAgent.Delivery>, limit: nat)
    ensures RefusedRun(SyncAgent.DeliverEvents(batch, ds), limit)
  {
  }

  lemma {:induction false} ReplaysAreRefused(items: seq<RetryQueue.Item>, replays: seq<SyncAgent.Replay>,
                                             parse: string -> seq<Record>, limit: nat)
    requires |replays| == |items|
    ensures RefusedRun(SyncAgent.ReplayEvents(items, replays, parse), limit)
  {
    hide RefusedRun, SyncAgent.DeliverEvents;
    NothingIsRefused(limit);
    if items != [] {
      var n := |items| - 1;
      ReplaysAreRefused(items[..n], replays[..n], parse, limit);
      DeliveriesAreRefused(parse(items[n].payload), replays[n].deliveries, limit);
      RefusedConcat(SyncAgent.ReplayEvents(items[..n], replays[..n], parse),
        SyncAgent.ReplayOf(items[n], replays[n], parse), limit);
    }
  }

  lemma NothingIsRefused(limit: nat)
    ensures RefusedRun([], limit)
  {
  }

  lemma CycleIsRefused(s: State, limit: nat, net: SyncAgent.Network)
    requires !net.markOk && (net.answered ==> net.deliveries != [])
    ensures RefusedRun(SyncAgent.CycleEvents(s, limit, net), limit)
  {
    hide Batch, Apply, SyncAgent.LastReply, SyncAgent.DeliverEvents;
    var batch := Batch(s.sales, limit);
    if batch != [] {
      var posts := SyncAgent.DeliverEvents(batch, net.deliveries);
      DeliveriesAreRefused(batch, net.deliveries, limit);
      RefusedConcat([Read(limit)], posts, limit);
      var end :=
        if net.answered
        then [Receive(SyncAgent.LastReply(Apply(s, Read(limit)), batch, net.deliveries)), Mark(net.markOk)]
        else [GiveUp];
      RefusedConcat([Read(limit)] + posts, end, limit);
    }
  }

  /** The theorems are about the agent as shipped: with the mark refused, every step of its
      `syncTransactions`, replays of the retry queue included, is such a step. */
  lemma AgentCallIsRefusedRun(s: State, limit: nat, items: seq<RetryQueue.Item>, replays: seq<SyncAgent.Replay>,
                              parse: string -> seq<Record>, net: SyncAgent.Network)
    requires |replays| == |items| && !net.markOk && (net.answered ==> net.deliveries != [])
    ensures var replayed := Run(s, SyncAgent.ReplayEvents(items, replays, parse));
      RefusedRun(SyncAgent.ReplayEvents(items, replays, parse) + SyncAgent.CycleEvents(replayed, limit, net), limit)
  {
    hide RefusedRun, Run, SyncAgent.ReplayEvents, SyncAgent.CycleEvents;
    var drained := SyncAgent.ReplayEvents(items, replays, parse);
    ReplaysAreRefused(items, replays, parse, limit);
    CycleIsRefused(Run(s, drained), limit, net);
    RefusedConcat(drained, SyncAgent.CycleEvents(Run(s, drained), limit, net), limit);
  }

  // ---------- Exactly when a cycle makes progress ----------

  /** Reading, one post, its answer and the mark, from `Idle`; `markOk` says whether the mark works. */
  function Cycle(s: State, limit: nat, faults: set<nat>, commitOk: bool, markOk: bool): State {
    var batch := Batch(s.sales, limit);
    if batch == [] then s
    else
      var s2 := Apply(Apply(s, Read(limit)), Deliver(batch, faults, commitOk));
      Apply(Apply(s2, Receive(ReplyOf(Ingest(s.cloud, batch, faults), commitOk))), Mark(markOk))
  }

  lemma CycleSales(s: State, limit: nat, faults: set<nat>, commitOk: bool, markOk: bool)
    requires s.phase == Idle
    ensures var s' := Cycle(s, limit, faults, commitOk, markOk);
      && s'.phase == Idle
      && s'.sales == if markOk && Batch(s.sales, limit) != [] then MarkAll(s.sales, Batch(s.sales, limit)) else s.sales
  {
    hide Batch, Ingest, MarkAll;
  }

  /** An answered cycle takes the batch out of the outbox if and only if its mark works, whatever the
      cloud did with the batch; otherwise the next cycle reads the same sales again. */
  lemma OutboxShrinksIff(s: State, limit: nat, faults: set<nat>, commitOk: bool, markOk: bool)
    requires DistinctSales(s.sales) && s.phase == Idle && Batch(s.sales, limit) != []
    ensures var s' := Cycle(s, limit, faults, commitOk, markOk);
      var k := |Batch(s.sales, limit)|;
      && Outbox(s'.sales) == (if markOk then Outbox(s.sales)[k..] else Outbox(s.sales))
      && (|Outbox(s'.sales)| < |Outbox(s.sales)| <==> markOk)
      && (!markOk ==> Batch(s'.sales, limit) == Batch(s.sales, limit))
  {
    hide Cycle;
    CycleSales(s, limit, faults, commitOk, markOk);
    if markOk {
      MarkingRemovesBatch(s.sales, limit);
    }
  }

  lemma MarkingRemovesBatch(sales: seq<Sale>, limit: nat)
    requires DistinctSales(sales)
    ensures |Batch(sales, limit)| <= |Outbox(sales)|
    ensures Outbox(MarkAll(sales, Batch(sales, limit))) == Outbox(sales)[|Batch(sales, limit)|..]
  {
    hide InOutbox, MarkAll, Remaining;
    var rows := Outbox(sales);
    var k := |Batch(sales, limit)|;
    MarkingRemoves(sales, Batch(sales, limit));
    OutboxRows(sales);
    FirstRowsRemoved(rows, k, |rows|);
    assert rows[..|rows|] == rows;
    assert Batch(sales, limit) == Payload(rows[..k]);
  }

  function RefusedCycles(s: State, limit: nat, n: nat): State {
    if n == 0 then s else Cycle(RefusedCycles(s, limit, n - 1), limit, {}, true, false)
  }

  /** What the shipped agent does when nothing else fails: after any number of cycles the till is as
      it was, and nothing but the first batch was sent. */
  lemma {:induction false} RefusedCyclesChangeNothing(s: State, limit: nat, n: nat)
    requires s.phase == Idle
    ensures var s' := RefusedCycles(s, limit, n);
      && s'.phase == Idle && s'.sales == s.sales && s'.sent <= s.sent + {Batch(s.sales, limit)}
  {
    hide Batch, Ingest;
    if n > 0 {
      RefusedCyclesChangeNothing(s, limit, n - 1);
      CycleSales(RefusedCycles(s, limit, n - 1), limit, {}, true, false);
    }
  }

  lemma TwoRung(a: string, b: string, body: string)
    requires a != "" && b != "" && a != b
    ensures Run(INITIAL, [Ring(a, body, true), Ring(b, body, true)])
      == State([Sale(a, body, Completed, SyncPending), Sale(b, body, Completed, SyncPending)], [], {}, {}, Idle)
  {
    hide Run, Apply;
    var ringA, ringB := Ring(a, body, true), Ring(b, body, true);
    RunNothing(INITIAL);
    RunSnoc(INITIAL, [], ringA);
    RunSnoc(INITIAL, [ringA], ringB);
    assert [] + [ringA] == [ringA] && [ringA] + [ringB] == [ringA, ringB];
    var first := Sale(a, body, Completed, SyncPending);
    RingAdds([], a, body);
    assert [] + [first] == [first];
    assert !HasSale([first], b);
    RingAdds([first], b, body);
    assert [first] + [Sale(b, body, Completed, SyncPending)] == [first, Sale(b, body, Completed, SyncPending)];
  }

  lemma RingAdds(sales: seq<Sale>, number: string, body: string)
    requires number != "" && !HasSale(sales, number)
    ensures Apply(State(sales, [], {}, {}, Idle), Ring(number, body, true))
      == State(sales + [Sale(number, body, Completed, SyncPending)], [], {}, {}, Idle)
  {
  }

  lemma OneWaits(sale: Sale)
    requires InOutbox(sale)
    ensures Outbox([sale]) == [sale]
  {
    assert [sale][..0] == [];
  }

  /** Two waiting sales: the second has one in front of it. */
  lemma SecondIsStuck(first: Sale, second: Sale)
    requires InOutbox(first) && first.number != second.number
    ensures Stuck(State([first, second], [], {}, {}, Idle), second.number, 1)
  {
    hide Outbox;
    var sales := [first, second];
    assert sales[..1] == [first];
    OneWaits(first);
    OutboxPrefix(sales, 1);
  }

  /** Two sales and a batch size of one: the second never reaches the cloud, however the run goes on. */
  lemma SecondSaleNeverLeaves(a: string, b: string, body: string, events: seq<Event>)
    requires a != "" && b != "" && a != b && RefusedRun(events, 1)
    ensures var s := Run(Run(INITIAL, [Ring(a, body, true), Ring(b, body, true)]), events);
      && |s.sales| >= 2 && s.sales[1] == Sale(b, body, Completed, SyncPending) && !Holds(s.cloud, b)
  {
    hide Run, Stuck, RefusedRun;
    var first, second := Sale(a, body, Completed, SyncPending), Sale(b, body, Completed, SyncPending);
    var s := State([first, second], [], {}, {}, Idle);
    TwoRung(a, b, body);
    SecondIsStuck(first, second);
    RefusedMarksStarve(s, events, b, 1);
    assert s.sales[1] == second && InOutbox(second);
  }
}
