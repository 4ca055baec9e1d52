/** The agent's persistent retry queue and dead-letter queue (two SQLite tables) and the loop
    that replays them. Every write may fail, since the store catches its own errors, and
    promotion is two statements with no transaction around them. */
module RetryQueue {

  /** A queue row; `endpoint` and `error_msg` play no part and are left out. */
  datatype Item = Item(id: nat, entity: string, key: string, payload: string, attempts: nat)

  datatype DeadItem = DeadItem(entity: string, key: string, payload: string, attempts: nat)

  datatype Tables = Tables(queue: seq<Item>, dead: seq<DeadItem>, nextId: nat)

  const MAX_ATTEMPTS := 10

  /** How far a promotion got: not at all, past the insert only, or to the end. */
  datatype Progress = NotStarted | InsertedOnly | Done

  /** What happens to the queue, one durable statement (or failed statement) at a time. */
  datatype Event =
    | Pushed(entity: string, key: string, payload: string, writeOk: bool)
    | ReplayFailed(id: nat, writeOk: bool)
    | ReplayAnswered(id: nat, writeOk: bool)
    | Promoted(id: nat, progress: Progress)

  const EMPTY := Tables([], [], 1)

  predicate HasKey(queue: seq<Item>, key: string) {
    exists i :: 0 <= i < |queue| && queue[i].key == key
  }

  predicate HasDead(dead: seq<DeadItem>, key: string) {
    exists i :: 0 <= i < |dead| && dead[i].key == key
  }

  function Find(queue: seq<Item>, id: nat): (r: seq<Item>)
    ensures |r| <= 1
    ensures r == [] ==> forall i :: 0 <= i < |queue| ==> queue[i].id != id
    ensures r != [] ==> r[0] in queue && r[0].id == id
  {
    if queue == [] then []
    else if queue[0].id == id then [queue[0]]
    else Find(queue[1..], id)
  }

  function Without(queue: seq<Item>, id: nat): seq<Item> {
    if queue == [] then []
    else if queue[0].id == id then Without(queue[1..], id)
    else [queue[0]] + Without(queue[1..], id)
  }

  function Counted(queue: seq<Item>, id: nat): seq<Item> {
    if queue == [] then []
    else
      [if queue[0].id == id then queue[0].(attempts := queue[0].attempts + 1) else queue[0]] + Counted(queue[1..], id)
  }

  function WithoutKey(dead: seq<DeadItem>, key: string): seq<DeadItem> {
    if dead == [] then []
    else if dead[0].key == key then WithoutKey(dead[1..], key)
    else [dead[0]] + WithoutKey(dead[1..], key)
  }

  function Bury(dead: seq<DeadItem>, item: Item): seq<DeadItem> {
    WithoutKey(dead, item.key) + [DeadItem(item.entity, item.key, item.payload, item.attempts)]
  }

  function Apply(t: Tables, e: Event): Tables {
    match e
    case Pushed(entity, key, payload, writeOk) =>
      if !writeOk || HasKey(t.queue, key) then t
      else Tables(t.queue + [Item(t.nextId, entity, key, payload, 0)], t.dead, t.nextId + 1)
    case ReplayFailed(id, writeOk) =>
      if writeOk then t.(queue := Counted(t.queue, id)) else t
    case ReplayAnswered(id, writeOk) =>
      if writeOk then t.(queue := Without(t.queue, id)) else t
    case Promoted(id, progress) =>
      var found := Find(t.queue, id);
      if found == [] || progress == NotStarted then t
      else if progress == InsertedOnly then t.(dead := Bury(t.dead, found[0]))
      else t.(dead := Bury(t.dead, found[0]), queue := Without(t.queue, id))
  }

  function Run(t: Tables, events: seq<Event>): Tables {
    if events == [] then t else Apply(Run(t, events[..|events| - 1]), events[|events| - 1])
  }

  lemma {:induction false} RunConcat(t: Tables, a: seq<Event>, b: seq<Event>)
    ensures Run(t, a + b) == Run(Run(t, a), b)
  {
    hide Apply;
    if b == [] {
      assert a + b == a;
    } else {
      RunConcat(t, a, b[..|b| - 1]);
      assert (a + b)[..|a + b| - 1] == a + b[..|b| - 1];
    }
  }

  /** What the network and the disk do to one drained item. */
  datatype Outcome = Outcome(answered: bool, writeOk: bool, promotion: Progress)

  /** The event the drain loop causes for one row of its snapshot. */
  function DrainEvent(item: Item, o: Outcome): Event {
    if item.attempts >= MAX_ATTEMPTS then Promoted(item.id, o.promotion)
    else if o.answered then ReplayAnswered(item.id, o.writeOk)
    else ReplayFailed(item.id, o.writeOk)
  }

  function DrainEvents(items: seq<Item>, outcomes: seq<Outcome>): seq<Event>
    requires |outcomes| == |items|
  {
    if items == [] then []
    else
      var n := |items| - 1;
      DrainEvents(items[..n], outcomes[..n]) + [DrainEvent(items[n], outcomes[n])]
  }

  function OfEntity(queue: seq<Item>, entity: string): seq<Item> {
    if queue == [] then []
    else if queue[0].entity == entity then [queue[0]] + OfEntity(queue[1..], entity)
    else OfEntity(queue[1..], entity)
  }

  class RetryStore {
    var queue: seq<Item>
    var dead: seq<DeadItem>
    var nextId: nat

    ghost function Contents(): Tables
      reads this
    {
      Tables(queue, dead, nextId)
    }

    constructor ()
      ensures Contents() == EMPTY
    {
      queue, dead, nextId := [], [], 1;
    }

    method Push(entity: string, key: string, payload: string, writeOk: bool)
      modifies this
      ensures Contents() == Apply(old(Contents()), Pushed(entity, key, payload, writeOk))
      ensures queue == if writeOk && forall r :: r in old(queue) ==> r.key != key
        then old(queue) + [Item(old(nextId), entity, key, payload, 0)] else old(queue)
      ensures dead == old(dead)
    {
      if writeOk && !HasKey(queue, key) {
        queue, nextId := queue + [Item(nextId, entity, key, payload, 0)], nextId + 1;
      }
    }

    method MarkRetried(id: nat, writeOk: bool)
      modifies this`queue
      ensures Contents() == Apply(old(Contents()), ReplayFailed(id, writeOk))
      ensures if writeOk then CountedOnce(old(queue), queue, id) else queue == old(queue)
    {
      CountedRows(queue, id);
      if writeOk {
        queue := Counted(queue, id);
      }
    }

    method ClearItem(id: nat, writeOk: bool)
      modifies this`queue
      ensures Contents() == Apply(old(Contents()), ReplayAnswered(id, writeOk))
      ensures if writeOk then CutOut(old(queue), queue, id) else queue == old(queue)
    {
      WithoutCuts(queue, id);
      if writeOk {
        queue := Without(queue, id);
      }
    }

    method PromoteToDeadLetter(id: nat, progress: Progress)
      modifies this`queue, this`dead
      ensures Contents() == Apply(old(Contents()), Promoted(id, progress))
      ensures if progress == Done then CutOut(old(queue), queue, id) else queue == old(queue)
      ensures forall r :: r in old(queue) && r.id == id && DistinctItems(old(queue)) && progress != NotStarted ==>
        BuriedAs(old(dead), dead, r)
      ensures progress == NotStarted ==> dead == old(dead)
    {
      WithoutCuts(queue, id);
      SameIdSameRow(queue);
      var found := Find(queue, id);
      if found == [] || progress == NotStarted {
        return;
      }
      BuryKeeps(dead, found[0]);
      dead := Bury(dead, found[0]);
      if progress == InsertedOnly {
        return;
      }
      queue := Without(queue, id);
    }

    /** One turn of the drain loop, for a row of its snapshot. */
    method DrainOne(item: Item, o: Outcome)
      modifies this`queue, this`dead
      ensures Contents() == Apply(old(Contents()), DrainEvent(item, o))
      ensures item.attempts < 10 ==> dead == old(dead)
      ensures item.attempts < 10 && o.writeOk ==>
        if o.answered then CutOut(old(queue), queue, item.id) else CountedOnce(old(queue), queue, item.id)
      ensures item.attempts < 10 && !o.writeOk ==> queue == old(queue)
      ensures item.attempts >= 10 ==>
        if o.promotion == Done then CutOut(old(queue), queue, item.id) else queue == old(queue)
      ensures item.attempts >= 10 && o.promotion != NotStarted && DistinctItems(old(queue)) ==>
        forall r :: r in old(queue) && r.id == item.id ==> BuriedAs(old(dead), dead, r)
    {
      if item.attempts >= MAX_ATTEMPTS {
        PromoteToDeadLetter(item.id, o.promotion);
      } else if o.answered {
        ClearItem(item.id, o.writeOk);
      } else {
        MarkRetried(item.id, o.writeOk);
      }
    }

    /** Replay every row of one entity, oldest first, against the given outcomes. */
    method Drain(entity: string, outcomes: seq<Outcome>)
      requires |outcomes| == |OfEntity(queue, entity)|
      modifies this
      ensures Contents() == Run(old(Contents()), DrainEvents(OfEntity(old(queue), entity), outcomes))
    {
      var items := OfEntity(queue, entity);
      for i := 0 to |items|
        invariant Contents() == Run(old(Contents()), DrainEvents(items[..i], outcomes[..i]))
      {
        DrainSnoc(old(Contents()), items, outcomes, i);
        DrainOne(items[i], outcomes[i]);
      }
      assert items[..|items|] == items && outcomes[..|items|] == outcomes;
    }
  }

  // ---------- What each statement does to the rows ----------

  /** One more attempt on the row, and nothing else. */
  ghost predicate CountedOnce(before: seq<Item>, after: seq<Item>, id: nat) {
    && |after| == |before|
    && forall i :: 0 <= i < |before| ==>
      after[i] == if before[i].id == id then before[i].(attempts := before[i].attempts + 1) else before[i]
  }

  /** The row is gone, and the others are left in their order. */
  ghost predicate CutOut(before: seq<Item>, after: seq<Item>, id: nat) {
    && (forall r :: r in after <==> r in before && r.id != id)
    && ((forall r :: r in before ==> r.id != id) ==> after == before)
    && (DistinctItems(before) ==>
      forall k :: 0 <= k < |before| && before[k].id == id ==> after == before[..k] + before[k + 1..])
  }

  /** The row takes the place of the dead letter with its key. */
  ghost predicate BuriedAs(before: seq<DeadItem>, after: seq<DeadItem>, item: Item) {
    forall d :: d in after <==>
      d == DeadItem(item.entity, item.key, item.payload, item.attempts) || (d in before && d.key != item.key)
  }

  lemma {:induction false} WithoutAbsent(queue: seq<Item>, id: nat)
    requires forall r :: r in queue ==> r.id != id
    ensures Without(queue, id) == queue
  {
    if queue != [] {
      WithoutAbsent(queue[1..], id);
    }
  }

  lemma {:induction false} WithoutAt(queue: seq<Item>, id: nat, k: nat)
    requires DistinctItems(queue) && k < |queue| && queue[k].id == id
    ensures Without(queue, id) == queue[..k] + queue[k + 1..]
  {
    var rest := queue[1..];
    DistinctTail(queue);
    if k == 0 {
      WithoutAbsent(rest, id);
    } else {
      WithoutAt(rest, id, k - 1);
      assert queue[0].id != id;
      assert rest[..k - 1] == queue[1..k] && rest[k..] == queue[k + 1..];
      assert [queue[0]] + queue[1..k] == queue[..k];
    }
  }

  lemma WithoutCuts(queue: seq<Item>, id: nat)
    ensures CutOut(queue, Without(queue, id), id)
  {
    WithoutRows(queue, id);
    if forall r :: r in queue ==> r.id != id {
      WithoutAbsent(queue, id);
    }
    if DistinctItems(queue) {
      forall k | 0 <= k < |queue| && queue[k].id == id
        ensures Without(queue, id) == queue[..k] + queue[k + 1..]
      {
        WithoutAt(queue, id, k);
      }
    }
  }

  lemma SameIdSameRow(queue: seq<Item>)
    ensures DistinctItems(queue) ==> forall a, b :: a in queue && b in queue && a.id == b.id ==> a == b
  {
  }

  /** The rows of an entity are replayed in the order they were pushed in: the newest comes last. */
  lemma {:induction false} NewestIsLast(queue: seq<Item>, item: Item, entity: string)
    ensures OfEntity(queue + [item], entity)
      == if item.entity == entity then OfEntity(queue, entity) + [item] else OfEntity(queue, entity)
  {
    if queue != [] {
      NewestIsLast(queue[1..], item, entity);
      assert (queue + [item])[1..] == queue[1..] + [item];
    }
  }

  lemma DrainSnoc(t: Tables, items: seq<Item>, outcomes: seq<Outcome>, i: nat)
    requires |outcomes| == |items| && i < |items|
    ensures Run(t, DrainEvents(items[..i + 1], outcomes[..i + 1]))
      == Apply(Run(t, DrainEvents(items[..i], outcomes[..i])), DrainEvent(items[i], outcomes[i]))
  {
    hide Apply;
    assert items[..i + 1][..i] == items[..i] && outcomes[..i + 1][..i] == outcomes[..i];
    var events := DrainEvents(items[..i], outcomes[..i]);
    assert (events + [DrainEvent(items[i], outcomes[i])])[..|events|] == events;
  }

  // ---------- No pushed batch disappears ----------

  /** Keys of rows whose replay the cloud answered with a 200 during the run. */
  function Answered(t: Tables, events: seq<Event>): set<string> {
    if events == [] then {}
    else
      var n := |events| - 1;
      var e := events[n];
      var found := if e.ReplayAnswered? then Find(Run(t, events[..n]).queue, e.id) else [];
      Answered(t, events[..n]) + (if found == [] then {} else {found[0].key})
  }

  ghost predicate Kept(t: Tables, key: string) {
    HasKey(t.queue, key) || HasDead(t.dead, key)
  }

  ghost predicate DistinctItems(queue: seq<Item>) {
    forall i, j :: 0 <= i < j < |queue| ==> queue[i].id != queue[j].id && queue[i].key != queue[j].key
  }

  ghost predicate DistinctDead(dead: seq<DeadItem>) {
    forall i, j :: 0 <= i < j < |dead| ==> dead[i].key != dead[j].key
  }

  /** The tables' own constraints: primary keys, unique idempotency keys, ids never reused. */
  ghost predicate WellFormed(t: Tables) {
    && DistinctItems(t.queue)
    && DistinctDead(t.dead)
    && forall i :: 0 <= i < |t.queue| ==> t.queue[i].id < t.nextId
  }

  lemma {:induction false} WithoutRows(queue: seq<Item>, id: nat)
    ensures forall r :: r in Without(queue, id) <==> r in queue && r.id != id
  {
    if queue != [] {
      WithoutRows(queue[1..], id);
      assert queue == [queue[0]] + queue[1..];
    }
  }

  lemma DistinctTail(queue: seq<Item>)
    requires DistinctItems(queue) && queue != []
    ensures DistinctItems(queue[1..])
    ensures forall r :: r in queue[1..] ==> r.id != queue[0].id && r.key != queue[0].key
  {
  }

  lemma DistinctCons(item: Item, rest: seq<Item>)
    requires DistinctItems(rest) && forall r :: r in rest ==> r.id != item.id && r.key != item.key
    ensures DistinctItems([item] + rest)
  {
    assert forall i | 0 <= i < |rest| :: rest[i] in rest;
  }

  lemma {:induction false} WithoutKeepsOthers(queue: seq<Item>, id: nat)
    ensures forall r :: r in Without(queue, id) <==> r in queue && r.id != id
    ensures DistinctItems(queue) ==> DistinctItems(Without(queue, id))
  {
    hide DistinctItems;
    WithoutRows(queue, id);
    if queue != [] && DistinctItems(queue) {
      DistinctTail(queue);
      WithoutRows(queue[1..], id);
      WithoutKeepsOthers(queue[1..], id);
      if queue[0].id != id {
        DistinctCons(queue[0], Without(queue[1..], id));
      }
    }
  }

  lemma {:induction false} CountedRows(queue: seq<Item>, id: nat)
    ensures |Counted(queue, id)| == |queue|
    ensures forall i :: 0 <= i < |queue| ==>
      Counted(queue, id)[i] == if queue[i].id == id then queue[i].(attempts := queue[i].attempts + 1) else queue[i]
  {
    if queue != [] {
      CountedRows(queue[1..], id);
    }
  }

  lemma {:induction false} WithoutKeyKeepsOthers(dead: seq<DeadItem>, key: string)
    ensures forall d :: d in WithoutKey(dead, key) <==> d in dead && d.key != key
    ensures DistinctDead(dead) ==> DistinctDead(WithoutKey(dead, key))
  {
    if dead != [] {
      WithoutKeyKeepsOthers(dead[1..], key);
      assert dead == [dead[0]] + dead[1..];
      assert forall i | 0 <= i < |WithoutKey(dead[1..], key)| :: WithoutKey(dead[1..], key)[i] in dead[1..];
    }
  }

  lemma BuryKeeps(dead: seq<DeadItem>, item: Item)
    ensures forall d :: d in Bury(dead, item) <==>
      d == DeadItem(item.entity, item.key, item.payload, item.attempts) || (d in dead && d.key != item.key)
    ensures DistinctDead(dead) ==> DistinctDead(Bury(dead, item))
  {
    WithoutKeyKeepsOthers(dead, item.key);
    var rest := WithoutKey(dead, item.key);
    assert forall i | 0 <= i < |rest| :: rest[i] in rest;
  }

  lemma KeptIn(t: Tables, key: string)
    ensures HasKey(t.queue, key) <==> exists r :: r in t.queue && r.key == key
    ensures HasDead(t.dead, key) <==> exists d :: d in t.dead && d.key == key
  {
    if r :| r in t.queue && r.key == key {
      var i :| 0 <= i < |t.queue| && t.queue[i] == r;
    }
    if d :| d in t.dead && d.key == key {
      var i :| 0 <= i < |t.dead| && t.dead[i] == d;
    }
  }

  /** Rows of distinct ids: equal ids mean the same row. */
  lemma SameRow(queue: seq<Item>, a: Item, b: Item)
    requires DistinctItems(queue) && a in queue && b in queue
    ensures a.id == b.id ==> a == b
    ensures a.key == b.key ==> a == b
  {
    var i :| 0 <= i < |queue| && queue[i] == a;
    var j :| 0 <= j < |queue| && queue[j] == b;
  }

  lemma StepKeepsWellFormed(t: Tables, e: Event)
    requires WellFormed(t)
    ensures WellFormed(Apply(t, e))
  {
    match e
    case Pushed(_, _, _, _) =>
    case ReplayFailed(id, _) =>
      CountedRows(t.queue, id);
    case ReplayAnswered(id, _) =>
      WithoutKeepsOthers(t.queue, id);
      IdsBelow(t, id);
    case Promoted(id, _) =>
      WithoutKeepsOthers(t.queue, id);
      IdsBelow(t, id);
      var found := Find(t.queue, id);
      if found != [] {
        BuryKeeps(t.dead, found[0]);
      }
  }

  lemma IdsBelow(t: Tables, id: nat)
    requires WellFormed(t)
    ensures forall i :: 0 <= i < |Without(t.queue, id)| ==> Without(t.queue, id)[i].id < t.nextId
  {
    WithoutKeepsOthers(t.queue, id);
    forall i | 0 <= i < |Without(t.queue, id)|
      ensures Without(t.queue, id)[i].id < t.nextId
    {
      assert Without(t.queue, id)[i] in t.queue;
    }
  }

  /** Insert before delete: however far a promotion gets, each row is in one table at least. */
  lemma PromotionKeepsKey(t: Tables, id: nat, progress: Progress, key: string)
    requires WellFormed(t) && Kept(t, key)
    ensures Kept(Apply(t, Promoted(id, progress)), key)
  {
    var t' := Apply(t, Promoted(id, progress));
    KeptIn(t, key);
    KeptIn(t', key);
    WithoutKeepsOthers(t.queue, id);
    var found := Find(t.queue, id);
    if found != [] && progress != NotStarted {
      BuryKeeps(t.dead, found[0]);
      if key == found[0].key {
        assert DeadItem(found[0].entity, key, found[0].payload, found[0].attempts) in t'.dead;
      } else if r :| r in t.queue && r.key == key {
        if r.id == id {
          SameRow(t.queue, r, found[0]);
        }
        assert r in t'.queue;
      } else {
        var d :| d in t.dead && d.key == key;
        assert d in t'.dead;
      }
    }
  }

  /** One statement, whatever crash or write error hits it, drops a key only by clearing a row
      whose replay was answered: a promotion cut in two leaves the key in both tables. */
  lemma StepKeepsKey(t: Tables, e: Event, key: string)
    requires WellFormed(t) && Kept(t, key)
    ensures Kept(Apply(t, e), key) || key in Answered(t, [e])
  {
    var t' := Apply(t, e);
    KeptIn(t, key);
    KeptIn(t', key);
    assert Run(t, [e][..0]) == t;
    match e
    case Pushed(_, _, _, _) =>
      assert forall r | r in t.queue :: r in t'.queue;
    case ReplayFailed(id, _) =>
      CountedRows(t.queue, id);
      if i :| 0 <= i < |t.queue| && t.queue[i].key == key {
        assert t'.queue[i].key == key;
      }
    case ReplayAnswered(id, _) =>
      WithoutKeepsOthers(t.queue, id);
      if r :| r in t.queue && r.key == key {
        if r.id == id {
          SameRow(t.queue, r, Find(t.queue, id)[0]);
        }
      }
    case Promoted(id, progress) => PromotionKeepsKey(t, id, progress, key);
  }

  /** Over any run, with crashes and failed writes anywhere, a key that is in the retry queue or the
      dead-letter queue stays in one of them until the cloud answers a replay under it with 200. */
  lemma {:induction false} NoKeyDisappears(t: Tables, events: seq<Event>, key: string)
    requires WellFormed(t) && Kept(t, key)
    ensures WellFormed(Run(t, events))
    ensures Kept(Run(t, events), key) || key in Answered(t, events)
  {
    if events != [] {
      var n := |events| - 1;
      NoKeyDisappears(t, events[..n], key);
      var t' := Run(t, events[..n]);
      StepKeepsWellFormed(t', events[n]);
      if Kept(t', key) {
        StepKeepsKey(t', events[n], key);
        assert Run(t', [events[n]][..0]) == t';
      }
    }
  }

  /** A push whose write succeeds is covered by that guarantee. */
  lemma PushedIsKept(t: Tables, entity: string, key: string, payload: string)
    ensures Kept(Apply(t, Pushed(entity, key, payload, true)), key)
  {
    var t' := Apply(t, Pushed(entity, key, payload, true));
    if !HasKey(t.queue, key) {
      assert t'.queue[|t.queue|].key == key;
    }
  }

  // ---------- Which batches disappear ----------

  /** A batch as it was pushed. Different batches may have the same key. */
  datatype Batch = Batch(entity: string, key: string, payload: string)

  function BatchOf(item: Item): Batch {
    Batch(item.entity, item.key, item.payload)
  }

  function DeadBatch(d: DeadItem): Batch {
    Batch(d.entity, d.key, d.payload)
  }

  ghost predicate Queued(t: Tables, b: Batch) {
    exists r :: r in t.queue && BatchOf(r) == b
  }

  ghost predicate Buried(t: Tables, b: Batch) {
    exists d :: d in t.dead && DeadBatch(d) == b
  }

  ghost predicate BatchKept(t: Tables, b: Batch) {
    Queued(t, b) || Buried(t, b)
  }

  /** The step clears the batch's row, of which there is no dead letter, because a replay of it was
      answered with 200. */
  ghost predicate AnswersBatch(t: Tables, e: Event, b: Batch) {
    && e.ReplayAnswered? && e.writeOk && !Buried(t, b)
    && var found := Find(t.queue, e.id);
      found != [] && BatchOf(found[0]) == b
  }

  /** The step promotes another batch under the same key, whose dead letter takes the place. */
  ghost predicate ReplacesBatch(t: Tables, e: Event, b: Batch) {
    && e.Promoted? && e.progress != NotStarted
    && var found := Find(t.queue, e.id);
      found != [] && found[0].key == b.key && BatchOf(found[0]) != b
  }

  lemma PromotionLosesIff(t: Tables, id: nat, progress: Progress, b: Batch)
    requires WellFormed(t) && BatchKept(t, b)
    ensures BatchKept(Apply(t, Promoted(id, progress)), b) <==> !ReplacesBatch(t, Promoted(id, progress), b)
  {
    var found := Find(t.queue, id);
    if found != [] && progress != NotStarted {
      var t' := Apply(t, Promoted(id, progress));
      var letter := DeadItem(found[0].entity, found[0].key, found[0].payload, found[0].attempts);
      WithoutKeepsOthers(t.queue, id);
      BuryKeeps(t.dead, found[0]);
      assert letter in t'.dead && DeadBatch(letter) == BatchOf(found[0]);
      if found[0].key == b.key {
        forall r | r in t.queue && BatchOf(r) == b
          ensures r == found[0]
        {
          SameRow(t.queue, r, found[0]);
        }
      } else if r :| r in t.queue && BatchOf(r) == b {
        if r.id == id {
          SameRow(t.queue, r, found[0]);
        }
        assert r in t'.queue;
      } else {
        var d :| d in t.dead && DeadBatch(d) == b;
        assert d in t'.dead;
      }
    }
  }

  lemma AnswerLosesIff(t: Tables, id: nat, writeOk: bool, b: Batch)
    requires WellFormed(t) && BatchKept(t, b)
    ensures BatchKept(Apply(t, ReplayAnswered(id, writeOk)), b) <==> !AnswersBatch(t, ReplayAnswered(id, writeOk), b)
  {
    var t' := Apply(t, ReplayAnswered(id, writeOk));
    WithoutKeepsOthers(t.queue, id);
    var found := Find(t.queue, id);
    if r :| r in t.queue && BatchOf(r) == b {
      forall q | q in t.queue && BatchOf(q) == b
        ensures q == r
      {
        SameRow(t.queue, q, r);
      }
      if found != [] && r.id == id {
        SameRow(t.queue, r, found[0]);
      }
      assert r.id != id ==> r in t'.queue;
    }
  }

  /** Exactly what makes a stored batch disappear in one step, crash or write error included: its
      replay was answered and its row cleared, or another batch under its key was promoted. */
  lemma StepLosesBatchIff(t: Tables, e: Event, b: Batch)
    requires WellFormed(t) && BatchKept(t, b)
    ensures BatchKept(Apply(t, e), b) <==> !AnswersBatch(t, e, b) && !ReplacesBatch(t, e, b)
  {
    var t' := Apply(t, e);
    match e
    case Pushed(_, _, _, _) =>
      assert forall r | r in t.queue :: r in t'.queue;
    case ReplayFailed(id, _) =>
      CountedRows(t.queue, id);
      if r :| r in t.queue && BatchOf(r) == b {
        var i :| 0 <= i < |t.queue| && t.queue[i] == r;
        assert BatchOf(t'.queue[i]) == b && t'.queue[i] in t'.queue;
      }
    case ReplayAnswered(id, writeOk) => AnswerLosesIff(t, id, writeOk, b);
    case Promoted(id, progress) => PromotionLosesIff(t, id, progress, b);
  }

  /** Some step of the run was of that kind. */
  ghost predicate AnsweredIn(t: Tables, events: seq<Event>, b: Batch) {
    exists i :: 0 <= i < |events| && AnswersBatch(Run(t, events[..i]), events[i], b)
  }

  ghost predicate ReplacedIn(t: Tables, events: seq<Event>, b: Batch) {
    exists i :: 0 <= i < |events| && ReplacesBatch(Run(t, events[..i]), events[i], b)
  }

  /** Over any run, with crashes and failed writes anywhere: a batch that is stored stays stored, as it
      was pushed, until a replay of it is answered with 200 or another batch under its key is
      promoted in its place. */
  lemma {:induction false} NoBatchDisappears(t: Tables, events: seq<Event>, b: Batch)
    requires WellFormed(t) && BatchKept(t, b)
    ensures WellFormed(Run(t, events))
    ensures BatchKept(Run(t, events), b) || AnsweredIn(t, events, b) || ReplacedIn(t, events, b)
  {
    hide Apply, BatchKept, AnswersBatch, ReplacesBatch, WellFormed;
    if events != [] {
      var n := |events| - 1;
      var before := events[..n];
      NoBatchDisappears(t, before, b);
      StepKeepsWellFormed(Run(t, before), events[n]);
      assert forall i | 0 <= i < n :: before[..i] == events[..i] && before[i] == events[i];
      if BatchKept(Run(t, before), b) {
        StepLosesBatchIff(Run(t, before), events[n], b);
      }
    }
  }

  /** Every row and every push under the key has the one batch. */
  ghost predicate OneBatchPerKey(t: Tables, b: Batch) {
    && (forall r :: r in t.queue && r.key == b.key ==> BatchOf(r) == b)
    && (forall d :: d in t.dead && d.key == b.key ==> DeadBatch(d) == b)
  }

  ghost predicate PushesOnly(events: seq<Event>, b: Batch) {
    forall i :: 0 <= i < |events| && events[i].Pushed? && events[i].key == b.key ==>
      events[i].entity == b.entity && events[i].payload == b.payload
  }

  lemma StepKeepsOneBatch(t: Tables, e: Event, b: Batch)
    requires WellFormed(t) && OneBatchPerKey(t, b) && PushesOnly([e], b)
    ensures OneBatchPerKey(Apply(t, e), b) && !ReplacesBatch(t, e, b)
  {
    match e
    case Pushed(_, _, _, _) =>
      assert [e][0] == e;
    case ReplayFailed(id, _) =>
      CountedRows(t.queue, id);
      forall r | r in Counted(t.queue, id) && r.key == b.key
        ensures BatchOf(r) == b
      {
        var i :| 0 <= i < |t.queue| && Counted(t.queue, id)[i] == r;
        assert t.queue[i] in t.queue;
      }
    case ReplayAnswered(id, _) => WithoutKeepsOthers(t.queue, id);
    case Promoted(id, _) =>
      WithoutKeepsOthers(t.queue, id);
      if Find(t.queue, id) != [] {
        BuryKeeps(t.dead, Find(t.queue, id)[0]);
      }
  }

  /** So where a key stands for one batch, a stored batch stays until it is answered. The hash of sale
      numbers does while the sales' columns stay as they are; a checkpoint and a row count, the key of
      product and customer batches, does not. */
  lemma {:induction false} FixedKeyKeepsBatch(t: Tables, events: seq<Event>, b: Batch)
    requires WellFormed(t) && BatchKept(t, b) && OneBatchPerKey(t, b) && PushesOnly(events, b)
    ensures WellFormed(Run(t, events)) && OneBatchPerKey(Run(t, events), b)
    ensures BatchKept(Run(t, events), b) || AnsweredIn(t, events, b)
  {
    hide Apply, BatchKept, AnswersBatch, ReplacesBatch, WellFormed, OneBatchPerKey;
    if events != [] {
      var n := |events| - 1;
      var before := events[..n];
      FixedKeyKeepsBatch(t, before, b);
      StepKeepsWellFormed(Run(t, before), events[n]);
      StepKeepsOneBatch(Run(t, before), events[n], b);
      assert forall i | 0 <= i < n :: before[..i] == events[..i] && before[i] == events[i];
      if BatchKept(Run(t, before), b) {
        StepLosesBatchIff(Run(t, before), events[n], b);
      }
    }
  }

  /** A push whose write succeeds stores the batch if and only if it was stored or the queue did not
      have its key. */
  lemma PushedIsKeptIff(t: Tables, b: Batch)
    ensures BatchKept(Apply(t, Pushed(b.entity, b.key, b.payload, true)), b)
      <==> BatchKept(t, b) || !HasKey(t.queue, b.key)
  {
    var t' := Apply(t, Pushed(b.entity, b.key, b.payload, true));
    if HasKey(t.queue, b.key) {
      assert t' == t;
    } else {
      assert t'.queue[|t.queue|] in t'.queue;
    }
  }

  /** Pushing an existing key keeps the stored payload. So what was just pushed is what a replay
      will send if and only if the key was not queued before, or was queued with the same payload. */
  lemma PushStoresPayloadIff(t: Tables, entity: string, key: string, payload: string)
    requires WellFormed(t)
    ensures (exists r ::
        r in Apply(t, Pushed(entity, key, payload, true)).queue && r.key == key && r.payload == payload)
      <==> (forall r :: r in t.queue && r.key == key ==> r.payload == payload)
  {
    var t' := Apply(t, Pushed(entity, key, payload, true));
    KeptIn(t, key);
    if HasKey(t.queue, key) {
      var r :| r in t.queue && r.key == key;
      forall q | q in t.queue && q.key == key
        ensures q == r
      {
        SameRow(t.queue, q, r);
      }
    } else {
      assert t'.queue[|t.queue|] in t'.queue;
    }
  }

  /** A key pushed again with another payload: the queue still has the first. */
  lemma RepushKeepsOldPayload(entity: string, key: string, first: string, second: string)
    requires first != second
    ensures var t := Apply(Apply(EMPTY, Pushed(entity, key, first, true)), Pushed(entity, key, second, true));
      t.queue == [Item(1, entity, key, first, 0)] && !BatchKept(t, Batch(entity, key, second))
  {
    var t := Apply(EMPTY, Pushed(entity, key, first, true));
    assert t.queue[0].key == key;
  }

  // ---------- At most ten failed replays ----------

  /** The run is one the drain loop can cause: it replays rows below the limit and promotes the rest. */
  ghost predicate Legal(t: Tables, events: seq<Event>) {
    events != [] ==>
      var n := |events| - 1;
      && Legal(t, events[..n])
      && LegalNext(Run(t, events[..n]), events[n])
  }

  ghost predicate LegalNext(t: Tables, e: Event) {
    match e
    case Pushed(_, _, _, _) => true
    case ReplayFailed(id, _) => Find(t.queue, id) != [] && Find(t.queue, id)[0].attempts < MAX_ATTEMPTS
    case ReplayAnswered(id, _) => Find(t.queue, id) != [] && Find(t.queue, id)[0].attempts < MAX_ATTEMPTS
    case Promoted(id, _) => Find(t.queue, id) != [] && Find(t.queue, id)[0].attempts >= MAX_ATTEMPTS
  }

  /** How many failed replays of row `id` were recorded. */
  function Failures(events: seq<Event>, id: nat): nat {
    if events == [] then 0
    else
      var n := |events| - 1;
      Failures(events[..n], id) + if events[n] == ReplayFailed(id, true) then 1 else 0
  }

  /** `count` recorded failures for row `id`, which is what the row itself says while it lives. */
  ghost predicate Tracks(t: Tables, id: nat, count: nat) {
    && count <= MAX_ATTEMPTS
    && (id >= t.nextId ==> count == 0)
    && forall i :: 0 <= i < |t.queue| && t.queue[i].id == id ==> t.queue[i].attempts == count
  }

  lemma StepTracks(t: Tables, e: Event, id: nat, count: nat)
    requires WellFormed(t) && LegalNext(t, e) && Tracks(t, id, count)
    ensures Tracks(Apply(t, e), id, count + if e == ReplayFailed(id, true) then 1 else 0)
  {
    match e
    case Pushed(_, _, _, _) =>
    case ReplayFailed(i, _) =>
      CountedRows(t.queue, i);
      var row := Find(t.queue, i)[0];
      var k :| 0 <= k < |t.queue| && t.queue[k] == row;
    case ReplayAnswered(i, _) =>
      WithoutTracks(t, i, id, count);
    case Promoted(i, _) =>
      WithoutTracks(t, i, id, count);
  }

  lemma WithoutTracks(t: Tables, cleared: nat, id: nat, count: nat)
    requires Tracks(t, id, count)
    ensures Tracks(t.(queue := Without(t.queue, cleared)), id, count)
  {
    WithoutKeepsOthers(t.queue, cleared);
    forall i | 0 <= i < |Without(t.queue, cleared)|
      ensures Without(t.queue, cleared)[i] in t.queue
    {
    }
  }

  /** A queue row suffers at most ten recorded failed replays in its life, since re-pushing its key
      keeps the count; `attempts` is exactly that number while the row lives. */
  lemma {:induction false} AtMostTenFailures(events: seq<Event>, id: nat)
    requires Legal(EMPTY, events)
    ensures WellFormed(Run(EMPTY, events))
    ensures Tracks(Run(EMPTY, events), id, Failures(events, id))
  {
    if events != [] {
      var n := |events| - 1;
      AtMostTenFailures(events[..n], id);
      StepKeepsWellFormed(Run(EMPTY, events[..n]), events[n]);
      StepTracks(Run(EMPTY, events[..n]), events[n], id, Failures(events[..n], id));
    }
  }

  lemma DrainKeepsOther(t: Tables, item: Item, o: Outcome, r: Item)
    requires r in t.queue && r.id != item.id
    ensures r in Apply(t, DrainEvent(item, o)).queue
  {
    hide Without, Counted, Bury, Find;
    var k :| 0 <= k < |t.queue| && t.queue[k] == r;
    CountedRows(t.queue, item.id);
    WithoutKeepsOthers(t.queue, item.id);
    assert Counted(t.queue, item.id)[k] == r;
  }

  lemma LegalSnoc(t: Tables, events: seq<Event>, e: Event)
    requires Legal(t, events) && LegalNext(Run(t, events), e)
    ensures Legal(t, events + [e])
    ensures Run(t, events + [e]) == Apply(Run(t, events), e)
  {
    assert (events + [e])[..|events|] == events;
  }

  lemma DrainEventIsLegal(t: Tables, item: Item, o: Outcome)
    requires WellFormed(t) && item in t.queue
    ensures LegalNext(t, DrainEvent(item, o))
  {
    SameRow(t.queue, Find(t.queue, item.id)[0], item);
  }

  ghost predicate Mentions(items: seq<Item>, id: nat) {
    exists i :: 0 <= i < |items| && items[i].id == id
  }

  lemma MentionsPrefix(items: seq<Item>, id: nat)
    requires items != []
    ensures Mentions(items, id) <==> Mentions(items[..|items| - 1], id) || items[|items| - 1].id == id
  {
    var before := items[..|items| - 1];
    if i :| 0 <= i < |items| && items[i].id == id && i < |before| {
      assert before[i].id == id;
    }
    if i :| 0 <= i < |before| && before[i].id == id {
      assert items[i].id == id;
    }
  }

  /** Draining touches each row of its snapshot once, so the snapshot's view of a row is still
      true when its turn comes, and the loop's events form a legal run. */
  lemma {:induction false} DrainIsLegal(t: Tables, items: seq<Item>, outcomes: seq<Outcome>)
    requires WellFormed(t) && DistinctItems(items) && |outcomes| == |items|
    requires forall i :: 0 <= i < |items| ==> items[i] in t.queue
    ensures Legal(t, DrainEvents(items, outcomes))
    ensures WellFormed(Run(t, DrainEvents(items, outcomes)))
    ensures forall r :: r in t.queue && !Mentions(items, r.id) ==> r in Run(t, DrainEvents(items, outcomes)).queue
  {
    if items != [] {
      var n := |items| - 1;
      var item, o := items[n], outcomes[n];
      var earlier := DrainEvents(items[..n], outcomes[..n]);
      DrainIsLegal(t, items[..n], outcomes[..n]);
      var t' := Run(t, earlier);
      assert item in t'.queue;
      DrainEventIsLegal(t', item, o);
      LegalSnoc(t, earlier, DrainEvent(item, o));
      StepKeepsWellFormed(t', DrainEvent(item, o));
      forall r | r in t.queue && !Mentions(items, r.id)
        ensures r in Apply(t', DrainEvent(item, o)).queue
      {
        MentionsPrefix(items, r.id);
        DrainKeepsOther(t', item, o, r);
      }
    }
  }

  /** Draining adds no row and changes no row's entity, key or payload. */
  lemma DrainKeepsPayloads(t: Tables, item: Item, o: Outcome, r: Item)
    requires r in Apply(t, DrainEvent(item, o)).queue
    ensures exists q :: q in t.queue && q.entity == r.entity && q.key == r.key && q.payload == r.payload
  {
    hide Counted, Without, Bury, Find;
    CountedRows(t.queue, item.id);
    WithoutKeepsOthers(t.queue, item.id);
    if r !in t.queue {
      var k :| 0 <= k < |Counted(t.queue, item.id)| && Counted(t.queue, item.id)[k] == r;
      assert t.queue[k] in t.queue;
    }
  }

  lemma {:induction false} LegalConcat(t: Tables, a: seq<Event>, b: seq<Event>)
    requires Legal(t, a) && Legal(Run(t, a), b)
    ensures Legal(t, a + b)
  {
    hide LegalNext, Apply, Run;
    if b == [] {
      assert a + b == a;
    } else {
      var n := |b| - 1;
      LegalConcat(t, a, b[..n]);
      RunConcat(t, a, b[..n]);
      assert (a + b)[..|a + b| - 1] == a + b[..n];
    }
  }

  lemma {:induction false} SnapshotRows(queue: seq<Item>, entity: string)
    ensures forall r :: r in OfEntity(queue, entity) <==> r in queue && r.entity == entity
    ensures DistinctItems(queue) ==> DistinctItems(OfEntity(queue, entity))
  {
    if queue != [] {
      SnapshotRows(queue[1..], entity);
      assert queue == [queue[0]] + queue[1..];
      assert forall i | 0 <= i < |OfEntity(queue[1..], entity)| :: OfEntity(queue[1..], entity)[i] in queue[1..];
    }
  }

  // ---------- Drains that run at the same time ----------

  predicate Touches(e: Event, id: nat) {
    !e.Pushed? && e.id == id
  }

  /** Event `i` is a turn of some drain: its row is as the drain saw it at an earlier moment `seen`, and
      nothing touched the row since. Drains of different entities have no row in common, and the
      agent runs one drain of an entity at a time. */
  ghost predicate DrainTurn(t: Tables, events: seq<Event>, i: nat)
    requires i < |events|
  {
    exists seen: nat, item: Item, o: Outcome :: SeenAt(t, events, i, seen, item, o)
  }

  ghost predicate SeenAt(t: Tables, events: seq<Event>, i: nat, seen: nat, item: Item, o: Outcome)
    requires i < |events|
  {
    && seen <= i && item in Run(t, events[..seen]).queue && events[i] == DrainEvent(item, o)
    && forall j :: seen <= j < i ==> !Touches(events[j], item.id)
  }

  lemma StepKeepsUntouched(t: Tables, e: Event, item: Item)
    requires item in t.queue && !Touches(e, item.id)
    ensures item in Apply(t, e).queue
  {
    hide Without, Counted, Bury, Find;
    match e
    case Pushed(_, _, _, _) =>
    case ReplayFailed(id, _) =>
      CountedRows(t.queue, id);
      var k :| 0 <= k < |t.queue| && t.queue[k] == item;
      assert Counted(t.queue, id)[k] == item;
    case ReplayAnswered(id, _) => WithoutKeepsOthers(t.queue, id);
    case Promoted(id, _) => WithoutKeepsOthers(t.queue, id);
  }

  lemma {:induction false} UntouchedStays(t: Tables, events: seq<Event>, seen: nat, i: nat, item: Item)
    requires seen <= i <= |events| && item in Run(t, events[..seen]).queue
    requires forall j :: seen <= j < i ==> !Touches(events[j], item.id)
    ensures item in Run(t, events[..i]).queue
    decreases i
  {
    hide Apply;
    if seen < i {
      UntouchedStays(t, events, seen, i - 1, item);
      assert events[..i][..i - 1] == events[..i - 1];
      StepKeepsUntouched(Run(t, events[..i - 1]), events[i - 1], item);
    }
  }

  /** However pushes and the turns of any number of drains come between each other, every turn finds
      its row as the drain saw it, so the run is legal. */
  lemma {:induction false} InterleavedDrainsAreLegal(t: Tables, events: seq<Event>)
    requires WellFormed(t) && forall i :: 0 <= i < |events| ==> events[i].Pushed? || DrainTurn(t, events, i)
    ensures Legal(t, events) && WellFormed(Run(t, events))
  {
    hide Apply, LegalNext, WellFormed;
    if events != [] {
      var n := |events| - 1;
      var before := events[..n];
      forall i | 0 <= i < n
        ensures before[i].Pushed? || DrainTurn(t, before, i)
      {
        if !events[i].Pushed? {
          TurnOfPrefix(t, events, n, i);
        }
      }
      InterleavedDrainsAreLegal(t, before);
      StepKeepsWellFormed(Run(t, before), events[n]);
      if events[n].Pushed? {
        PushIsLegal(Run(t, before), events[n]);
      } else {
        var seen: nat, item: Item, o: Outcome :| SeenAt(t, events, n, seen, item, o);
        UntouchedStays(t, events, seen, n, item);
        DrainEventIsLegal(Run(t, before), item, o);
      }
    }
  }

  lemma PushIsLegal(t: Tables, e: Event)
    requires e.Pushed?
    ensures LegalNext(t, e)
  {
  }

  lemma TurnOfPrefix(t: Tables, events: seq<Event>, n: nat, i: nat)
    requires i < n <= |events| && DrainTurn(t, events, i)
    ensures DrainTurn(t, events[..n], i)
  {
    var seen: nat, item: Item, o: Outcome :| SeenAt(t, events, i, seen, item, o);
    assert events[..n][..seen] == events[..seen];
    assert SeenAt(t, events[..n], i, seen, item, o);
  }

  /** So on every run from the empty store, with drains of all entities at once, a row suffers at most
      ten recorded failed replays. */
  lemma AtMostTenFailuresInterleaved(events: seq<Event>, id: nat)
    requires forall i :: 0 <= i < |events| ==> events[i].Pushed? || DrainTurn(EMPTY, events, i)
    ensures Failures(events, id) <= MAX_ATTEMPTS
  {
    InterleavedDrainsAreLegal(EMPTY, events);
    AtMostTenFailures(events, id);
  }

  /** Rows of two entities are never one row. */
  lemma EntitiesShareNoRow(t: Tables, a: Item, b: Item)
    requires WellFormed(t) && a in t.queue && b in t.queue && a.entity != b.entity
    ensures a.id != b.id
  {
    if a.id == b.id {
      SameRow(t.queue, a, b);
    }
  }

  /** One batch from push to dead letter: ten failed replays, then the promotion. */
  function LifeEvents(id: nat, b: Batch): seq<Event> {
    [Pushed(b.entity, b.key, b.payload, true)] + FailedReplays(id, MAX_ATTEMPTS) + [Promoted(id, Done)]
  }

  function FailedReplays(id: nat, n: nat): seq<Event> {
    if n == 0 then [] else FailedReplays(id, n - 1) + [ReplayFailed(id, true)]
  }

  lemma OneRow(row: Item)
    ensures Find([row], row.id) == [row] && Without([row], row.id) == []
    ensures Counted([row], row.id) == [row.(attempts := row.attempts + 1)]
  {
    assert [row][1..] == [];
  }

  lemma {:induction false} FailedReplaysCount(t: Tables, row: Item, n: nat)
    requires t.queue == [row] && row.attempts == 0 && n <= MAX_ATTEMPTS
    ensures Run(t, FailedReplays(row.id, n)) == t.(queue := [row.(attempts := n)]) && Legal(t, FailedReplays(row.id, n))
  {
    hide Counted, Find, Legal, Run;
    if n > 0 {
      var before := t.(queue := [row.(attempts := n - 1)]);
      FailedReplaysCount(t, row, n - 1);
      OneRow(before.queue[0]);
      assert Apply(before, ReplayFailed(row.id, true)) == t.(queue := [row.(attempts := n)]);
      LegalSnoc(t, FailedReplays(row.id, n - 1), ReplayFailed(row.id, true));
    } else {
      assert row.(attempts := 0) == row;
      NothingIsLegal(t);
    }
  }

  lemma NothingIsLegal(t: Tables)
    ensures Legal(t, []) && Run(t, []) == t
  {
  }

  lemma LifeEndsBuried(t: Tables, b: Batch)
    requires t.queue == []
    ensures Legal(t, LifeEvents(t.nextId, b))
    ensures Run(t, LifeEvents(t.nextId, b))
      == Tables([], Bury(t.dead, Item(t.nextId, b.entity, b.key, b.payload, MAX_ATTEMPTS)), t.nextId + 1)
  {
    hide Legal, Run, Find, Without, Counted, Bury, FailedReplays;
    var row := Item(t.nextId, b.entity, b.key, b.payload, 0);
    var push := Pushed(b.entity, b.key, b.payload, true);
    NothingIsLegal(t);
    LegalSnoc(t, [], push);
    assert [] + [push] == [push];
    var t1 := Tables([row], t.dead, t.nextId + 1);
    assert Run(t, [push]) == t1;
    FailedReplaysCount(t1, row, MAX_ATTEMPTS);
    var replays := FailedReplays(row.id, MAX_ATTEMPTS);
    RunConcat(t, [push], replays);
    LegalConcat(t, [push], replays);
    OneRow(row.(attempts := MAX_ATTEMPTS));
    LegalSnoc(t, [push] + replays, Promoted(row.id, Done));
  }

  lemma BuryOne(item: Item, d: DeadItem)
    ensures Bury([], item) == [DeadItem(item.entity, item.key, item.payload, item.attempts)]
    ensures d.key == item.key ==> Bury([d], item) == Bury([], item)
  {
    assert [d][1..] == [];
  }

  /** A batch that goes unanswered: a later batch under its key takes its place among the dead letters.
      Every step is one that pushes and drains cause. */
  lemma DeadLetterIsReplaced(entity: string, key: string, first: string, second: string)
    requires first != second
    ensures var events := LifeEvents(1, Batch(entity, key, first)) + LifeEvents(2, Batch(entity, key, second));
      && Legal(EMPTY, events)
      && Run(EMPTY, events) == Tables([], [DeadItem(entity, key, second, MAX_ATTEMPTS)], 3)
      && !BatchKept(Run(EMPTY, events), Batch(entity, key, first))
  {
    hide Legal, Run, LifeEvents, Bury;
    var one, two := Batch(entity, key, first), Batch(entity, key, second);
    LifeEndsBuried(EMPTY, one);
    BuryOne(Item(1, entity, key, first, MAX_ATTEMPTS), DeadItem(entity, key, first, MAX_ATTEMPTS));
    var t := Run(EMPTY, LifeEvents(1, one));
    LifeEndsBuried(t, two);
    BuryOne(Item(2, entity, key, second, MAX_ATTEMPTS), t.dead[0]);
    RunConcat(EMPTY, LifeEvents(1, one), LifeEvents(2, two));
    LegalConcat(EMPTY, LifeEvents(1, one), LifeEvents(2, two));
  }

  /** Whatever legal history the store has, draining any entity against any outcomes extends it to
      a legal history, so the bound of ten holds over all runs of pushes and drains. */
  lemma DrainExtendsLegalRun(events: seq<Event>, entity: string, outcomes: seq<Outcome>)
    requires Legal(EMPTY, events)
    requires |outcomes| == |OfEntity(Run(EMPTY, events).queue, entity)|
    ensures Legal(EMPTY, events + DrainEvents(OfEntity(Run(EMPTY, events).queue, entity), outcomes))
  {
    var t := Run(EMPTY, events);
    AtMostTenFailures(events, 0);
    SnapshotRows(t.queue, entity);
    var items := OfEntity(t.queue, entity);
    assert forall i | 0 <= i < |items| :: items[i] in items;
    DrainIsLegal(t, items, outcomes);
    LegalConcat(EMPTY, events, DrainEvents(items, outcomes));
  }
}
