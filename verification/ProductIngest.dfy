/** The cloud side of product sync: `sync_products` upserts a batch by SKU, and the agent may send a
    batch again, at once or much later from its retry queue. Prices are in cents. */
module ProductIngest {
  import opened Common

  /** Catalogue fields that a record may leave out. */
  datatype Field = Name | VatExempt | TaxCode | ReorderLevel | IsActive

  /** `cost_price` is skipped when missing or zero, and falls back when it does not parse. */
  datatype Cost = Absent | Malformed | Given(cents: int)

  /** `price` is `None` when the field is missing or does not parse. */
  datatype Record = Record(sku: string, fields: map<Field, string>, price: Option<int>, cost: Cost, stock: int)

  datatype Product = Product(fields: map<Field, string>, price: int, cost: Option<int>, stock: int)

  type Catalogue = map<string, Product>

  datatype Conflict = Conflict(sku: string, before: int, after: int)

  datatype SyncError = MissingSku | CommitFailed

  datatype Reply = Reply(synced: nat, conflicts: seq<Conflict>, errors: seq<SyncError>)

  const DEFAULTS := map[Name := "", VatExempt := "false", TaxCode := "B", ReorderLevel := "10", IsActive := "true"]

  /** A product row takes every value the record gives, except the stock. */
  function Update(p: Product, rec: Record): Product {
    Product(
      p.fields + rec.fields,
      if rec.price.Some? then rec.price.value else p.price,
      if rec.cost.Given? then Some(rec.cost.cents) else p.cost,
      p.stock)
  }

  function Insert(rec: Record): Product {
    Product(
      DEFAULTS + rec.fields,
      if rec.price.Some? then rec.price.value else 0,
      match rec.cost case Absent => None case Malformed => Some(0) case Given(cents) => Some(cents),
      rec.stock)
  }

  function UpsertOne(c: Catalogue, rec: Record): Catalogue {
    if rec.sku == "" then c
    else c[rec.sku := if rec.sku in c then Update(c[rec.sku], rec) else Insert(rec)]
  }

  function Upserts(c: Catalogue, records: seq<Record>): Catalogue {
    if records == [] then c else UpsertOne(Upserts(c, records[..|records| - 1]), records[|records| - 1])
  }

  function ConflictOf(c: Catalogue, rec: Record): seq<Conflict> {
    if rec.sku != "" && rec.sku in c && rec.price.Some? && rec.price.value != c[rec.sku].price
    then [Conflict(rec.sku, c[rec.sku].price, rec.price.value)] else []
  }

  function Conflicts(c: Catalogue, records: seq<Record>): seq<Conflict> {
    if records == [] then []
    else
      var n := |records| - 1;
      Conflicts(c, records[..n]) + ConflictOf(Upserts(c, records[..n]), records[n])
  }

  function Missing(records: seq<Record>): (r: seq<SyncError>)
    ensures |r| <= |records|
  {
    if records == [] then []
    else Missing(records[..|records| - 1]) + if records[|records| - 1].sku == "" then [MissingSku] else []
  }

  /** A SKU the cloud does not have, more than once in the batch. Nothing is flushed before the commit,
      so the lookup misses the first insert, and the second one violates the unique constraint. */
  ghost predicate RepeatsNew(c: Catalogue, records: seq<Record>) {
    exists i, j :: 0 <= i < j < |records| && records[i].sku == records[j].sku != "" && records[i].sku !in c
  }

  /** The catalogue after a request; `commitOk` stands for every other reason a commit may fail. */
  ghost function Sync(c: Catalogue, records: seq<Record>, commitOk: bool): Catalogue {
    if commitOk && !RepeatsNew(c, records) then Upserts(c, records) else c
  }

  ghost function ReplyTo(c: Catalogue, records: seq<Record>, commitOk: bool): Reply {
    if commitOk && !RepeatsNew(c, records)
    then Reply(|records| - |Missing(records)|, Conflicts(c, records), Missing(records))
    else Reply(0, [], [CommitFailed])
  }

  // ---------- The session ----------

  /** The rows the cloud has, as the session changes them. */
  function Existing(c: Catalogue, records: seq<Record>): (r: Catalogue)
    ensures r.Keys == c.Keys
  {
    if records == [] then c
    else
      var before := Existing(c, records[..|records| - 1]);
      var last := records[|records| - 1];
      if last.sku != "" && last.sku in c then before[last.sku := Update(before[last.sku], last)] else before
  }

  /** The inserts that wait for the commit. */
  function News(c: Catalogue, records: seq<Record>): seq<Record> {
    if records == [] then []
    else
      var before := News(c, records[..|records| - 1]);
      var last := records[|records| - 1];
      if last.sku != "" && last.sku !in c then before + [last] else before
  }

  function InsertAll(c: Catalogue, news: seq<Record>): Catalogue {
    if news == [] then c
    else InsertAll(c, news[..|news| - 1])[news[|news| - 1].sku := Insert(news[|news| - 1])]
  }

  predicate Duplicate(news: seq<Record>) {
    exists i, j :: 0 <= i < j < |news| && news[i].sku == news[j].sku
  }

  lemma {:induction false} NewsAre(c: Catalogue, records: seq<Record>)
    ensures forall rec :: rec in News(c, records) <==> rec in records && rec.sku != "" && rec.sku !in c
  {
    if records != [] {
      var n := |records| - 1;
      NewsAre(c, records[..n]);
      assert records == records[..n] + [records[n]];
    }
  }

  lemma DuplicateSnoc(news: seq<Record>, last: Record)
    ensures Duplicate(news + [last]) <==> Duplicate(news) || exists rec :: rec in news && rec.sku == last.sku
  {
    var more := news + [last];
    if i, j :| 0 <= i < j < |news| && news[i].sku == news[j].sku {
      assert more[i].sku == more[j].sku;
    }
    if rec :| rec in news && rec.sku == last.sku {
      var i :| 0 <= i < |news| && news[i] == rec;
      assert more[i].sku == more[|news|].sku;
    }
    if i, j :| 0 <= i < j < |more| && more[i].sku == more[j].sku {
      if j < |news| {
        assert news[i].sku == news[j].sku;
      } else {
        assert news[i] in news;
      }
    }
  }

  lemma RepeatsSnoc(c: Catalogue, records: seq<Record>, last: Record)
    ensures RepeatsNew(c, records + [last]) <==>
      || RepeatsNew(c, records)
      || (last.sku != "" && last.sku !in c && exists rec :: rec in records && rec.sku == last.sku)
  {
    var more := records + [last];
    if i, j :| 0 <= i < j < |records| && records[i].sku == records[j].sku != "" && records[i].sku !in c {
      assert more[i].sku == more[j].sku;
    }
    if last.sku != "" && last.sku !in c {
      if rec :| rec in records && rec.sku == last.sku {
        var i :| 0 <= i < |records| && records[i] == rec;
        assert more[i].sku == more[|records|].sku;
      }
    }
    if i, j :| 0 <= i < j < |more| && more[i].sku == more[j].sku != "" && more[i].sku !in c {
      if j < |records| {
        assert records[i].sku == records[j].sku;
      } else {
        assert records[i] in records;
      }
    }
  }

  /** The unique constraint fails exactly for batches that repeat a new SKU. */
  lemma {:induction false} DuplicateIff(c: Catalogue, records: seq<Record>)
    ensures Duplicate(News(c, records)) <==> RepeatsNew(c, records)
  {
    hide Duplicate, RepeatsNew;
    if records != [] {
      var n := |records| - 1;
      DuplicateIff(c, records[..n]);
      NewsAre(c, records[..n]);
      DuplicateSnoc(News(c, records[..n]), records[n]);
      RepeatsSnoc(c, records[..n], records[n]);
      assert records == records[..n] + [records[n]];
    } else {
      NothingRepeats(c);
    }
  }

  lemma NothingRepeats(c: Catalogue)
    ensures !Duplicate([]) && !RepeatsNew(c, [])
  {
  }

  lemma {:induction false} InsertAllUpdate(c: Catalogue, news: seq<Record>, sku: string, p: Product)
    requires sku in c && forall rec :: rec in news ==> rec.sku != sku
    ensures InsertAll(c[sku := p], news) == InsertAll(c, news)[sku := p]
  {
    hide Insert;
    if news != [] {
      var n := |news| - 1;
      assert news == news[..n] + [news[n]];
      InsertAllUpdate(c, news[..n], sku, p);
      assert news[n] in news;
    }
  }

  /** The session's rows of products the cloud has are what the records say one after the other. */
  lemma {:induction false} ExistingSame(c: Catalogue, records: seq<Record>, sku: string)
    requires sku in c
    ensures sku in Upserts(c, records) && Upserts(c, records)[sku] == Existing(c, records)[sku]
  {
    hide Update, Insert;
    if records != [] {
      ExistingSame(c, records[..|records| - 1], sku);
    }
  }

  /** A record of a product the cloud has changes that row only. */
  lemma SessionUpdate(c: Catalogue, before: seq<Record>, last: Record)
    requires last.sku != "" && last.sku in c
    ensures InsertAll(Existing(c, before + [last]), News(c, before + [last]))
      == InsertAll(Existing(c, before), News(c, before))[last.sku := Update(Existing(c, before)[last.sku], last)]
  {
    hide Update, InsertAll;
    assert (before + [last])[..|before|] == before;
    NewsAre(c, before);
    InsertAllUpdate(Existing(c, before), News(c, before), last.sku, Update(Existing(c, before)[last.sku], last));
  }

  /** A record of a new product adds one insert. */
  lemma SessionInsert(c: Catalogue, before: seq<Record>, last: Record)
    requires last.sku != "" && last.sku !in c
    ensures InsertAll(Existing(c, before + [last]), News(c, before + [last]))
      == InsertAll(Existing(c, before), News(c, before))[last.sku := Insert(last)]
  {
    hide Update, Insert;
    assert (before + [last])[..|before|] == before;
    var news := News(c, before);
    assert (news + [last])[..|news|] == news;
  }

  /** Without a repeated new SKU, a product that is new and comes last was not in the catalogue yet. */
  lemma NewIsAbsent(c: Catalogue, before: seq<Record>, last: Record)
    requires !RepeatsNew(c, before + [last]) && last.sku != "" && last.sku !in c
    ensures last.sku !in Upserts(c, before)
  {
    RepeatsSnoc(c, before, last);
    UpsertsKeys(c, before);
    OfAreNamed(before, last.sku);
  }

  lemma {:induction false} OfAreNamed(records: seq<Record>, sku: string)
    ensures forall rec :: rec in Of(records, sku) ==> rec in records && rec.sku == sku
    ensures Of(records, sku) != [] ==> exists rec :: rec in records && rec.sku == sku
  {
    if records != [] {
      var n := |records| - 1;
      OfAreNamed(records[..n], sku);
      assert records == records[..n] + [records[n]];
    }
  }

  /** Without repeated new SKUs the session commits what the records say one after the other. */
  lemma {:induction false} SessionIsUpserts(c: Catalogue, records: seq<Record>)
    requires !RepeatsNew(c, records)
    ensures InsertAll(Existing(c, records), News(c, records)) == Upserts(c, records)
  {
    hide Update, Insert, RepeatsNew, InsertAll, Existing, News;
    if records == [] {
      SessionStart(c);
    } else {
      var n := |records| - 1;
      var before, last := records[..n], records[n];
      assert records == before + [last];
      RepeatsSnoc(c, before, last);
      SessionIsUpserts(c, before);
      if last.sku == "" {
        SessionNothing(c, before, last);
      } else if last.sku in c {
        ExistingSame(c, before, last.sku);
        SessionUpdate(c, before, last);
      } else {
        NewIsAbsent(c, before, last);
        SessionInsert(c, before, last);
      }
    }
  }

  lemma SessionNothing(c: Catalogue, before: seq<Record>, last: Record)
    requires last.sku == ""
    ensures Existing(c, before + [last]) == Existing(c, before) && News(c, before + [last]) == News(c, before)
  {
    assert (before + [last])[..|before|] == before;
  }

  lemma SessionStart(c: Catalogue)
    ensures Existing(c, []) == c && News(c, []) == [] && Conflicts(c, []) == [] && Missing([]) == []
    ensures InsertAll(c, []) == c
  {
  }

  lemma ConflictSame(c: Catalogue, before: seq<Record>, last: Record)
    requires !RepeatsNew(c, before + [last])
    ensures ConflictOf(Existing(c, before), last) == ConflictOf(Upserts(c, before), last)
  {
    if last.sku != "" && last.sku in c {
      ExistingSame(c, before, last.sku);
    } else if last.sku != "" {
      NewIsAbsent(c, before, last);
    }
  }

  /** The session and the reply after one more record. */
  lemma SessionSnoc(c: Catalogue, before: seq<Record>, last: Record)
    ensures Existing(c, before + [last])
      == if last.sku != "" && last.sku in c then UpsertOne(Existing(c, before), last) else Existing(c, before)
    ensures News(c, before + [last])
      == if last.sku != "" && last.sku !in c then News(c, before) + [last] else News(c, before)
    ensures Missing(before + [last]) == Missing(before) + if last.sku == "" then [MissingSku] else []
    ensures !RepeatsNew(c, before + [last]) ==>
      Conflicts(c, before + [last]) == Conflicts(c, before) + ConflictOf(Existing(c, before), last)
  {
    hide RepeatsNew, ConflictOf;
    assert (before + [last])[..|before|] == before;
    if !RepeatsNew(c, before + [last]) {
      ConflictSame(c, before, last);
    }
  }

  lemma RepeatsPrefix(c: Catalogue, records: seq<Record>, n: nat)
    requires n <= |records| && RepeatsNew(c, records[..n])
    ensures RepeatsNew(c, records)
  {
    var i, j :| 0 <= i < j < n && records[..n][i].sku == records[..n][j].sku != "" && records[..n][i].sku !in c;
    assert records[i].sku == records[j].sku;
  }

  class CloudCatalogue {
    var products: Catalogue   // committed rows, with the session's changes to them
    var pending: seq<Record>  // inserts of the session, not flushed

    constructor ()
      ensures products == map[] && pending == []
    {
      products, pending := map[], [];
    }

    /** One record with a SKU: the lookup sees `products` only. A price that changes is a conflict. */
    method Upsert(rec: Record) returns (conflict: seq<Conflict>)
      requires rec.sku != ""
      modifies this
      ensures conflict == ConflictOf(old(products), rec)
      ensures rec.sku in old(products) ==>
        var before := old(products)[rec.sku];
        && rec.sku in products && products == old(products)[rec.sku := products[rec.sku]]
        && var after := products[rec.sku];
        && after.stock == before.stock && after.fields == before.fields + rec.fields
        && after.price == (if rec.price.Some? then rec.price.value else before.price)
        && after.cost == (if rec.cost.Given? then Some(rec.cost.cents) else before.cost)
        && conflict == if after.price == before.price then [] else [Conflict(rec.sku, before.price, after.price)]
      ensures rec.sku !in old(products) ==> products == old(products) && conflict == []
      ensures products == if rec.sku in old(products) then UpsertOne(old(products), rec) else old(products)
      ensures pending == if rec.sku in old(products) then old(pending) else old(pending) + [rec]
    {
      conflict := [];
      if rec.sku in products {
        var existing := products[rec.sku];
        var price := if rec.price.Some? then rec.price.value else existing.price;
        if existing.price != price {
          conflict := [Conflict(rec.sku, existing.price, price)];
        }
        var cost := if rec.cost.Given? then Some(rec.cost.cents) else existing.cost;
        products := products[rec.sku := Product(existing.fields + rec.fields, price, cost, existing.stock)];
      } else {
        pending := pending + [rec];
      }
    }

    /** Flush and commit: the inserts become rows unless two of them have one SKU. */
    method Commit(saved: Catalogue, commitOk: bool) returns (ok: bool)
      modifies this
      ensures ok <==> commitOk && !Duplicate(old(pending))
      ensures products == (if ok then InsertAll(old(products), old(pending)) else saved) && pending == []
    {
      ok := commitOk && !Duplicate(pending);
      if !ok {
        products, pending := saved, [];
        return;
      }
      for i := 0 to |pending|
        invariant pending == old(pending) && products == InsertAll(old(products), pending[..i])
      {
        assert pending[..i + 1][..i] == pending[..i];
        products := products[pending[i].sku := Insert(pending[i])];
      }
      assert pending[..|pending|] == pending;
      pending := [];
    }

    method SyncProducts(records: seq<Record>, commitOk: bool) returns (reply: Reply)
      requires pending == []
      modifies this
      ensures pending == []
      ensures products == Sync(old(products), records, commitOk)
      ensures reply == ReplyTo(old(products), records, commitOk)
      ensures if commitOk && !RepeatsNew(old(products), records)
        then reply.synced == |Named(records)| && CommitFailed !in reply.errors
        else products == old(products) && reply == Reply(0, [], [CommitFailed])
    {
      NamedAreSynced(records);
      OnlyMissing(records);
      hide UpsertOne, ConflictOf, RepeatsNew, Duplicate, InsertAll, Upserts, Existing, News, Conflicts, Missing;
      var saved := products;
      var synced, conflicts, errors := 0, [], [];
      SessionStart(saved);
      for i := 0 to |records|
        invariant products == Existing(saved, records[..i]) && pending == News(saved, records[..i])
        invariant !RepeatsNew(saved, records) ==> conflicts == Conflicts(saved, records[..i])
        invariant errors == Missing(records[..i]) && synced + |errors| == i
      {
        assert records[..i + 1] == records[..i] + [records[i]];
        SessionSnoc(saved, records[..i], records[i]);
        if RepeatsNew(saved, records[..i + 1]) {
          RepeatsPrefix(saved, records, i + 1);
        }
        if records[i].sku == "" {
          NoSku(products, records[i]);
          errors := errors + [MissingSku];
        } else {
          var conflict := Upsert(records[i]);
          conflicts := conflicts + conflict;
          synced := synced + 1;
        }
      }
      assert records[..|records|] == records;
      DuplicateIff(saved, records);
      var ok := Commit(saved, commitOk);
      if !ok {
        return Reply(0, [], [CommitFailed]);
      }
      SessionIsUpserts(saved, records);
      return Reply(synced, conflicts, errors);
    }
  }

  /** The positions of the records that name a product. */
  ghost function Named(records: seq<Record>): set<int> {
    set i | 0 <= i < |records| && records[i].sku != ""
  }

  lemma {:induction false} NamedAreSynced(records: seq<Record>)
    ensures |Named(records)| + |Missing(records)| == |records|
  {
    if records == [] {
      assert Named(records) == {};
    } else {
      var n := |records| - 1;
      NamedAreSynced(records[..n]);
      assert Named(records) == Named(records[..n]) + if records[n].sku != "" then {n} else {};
    }
  }

  lemma NoSku(c: Catalogue, rec: Record)
    requires rec.sku == ""
    ensures UpsertOne(c, rec) == c && ConflictOf(c, rec) == []
  {
  }

  // ---------- A record's values and whether the cloud has them ----------

  /** The stored row has every value the record gives. */
  ghost predicate Has(c: Catalogue, rec: Record) {
    rec.sku != "" ==> rec.sku in c && Update(c[rec.sku], rec) == c[rec.sku]
  }

  ghost predicate HasAll(c: Catalogue, records: seq<Record>) {
    forall i :: 0 <= i < |records| ==> Has(c, records[i])
  }

  /** As the agent's query gives them: each product once. */
  ghost predicate DistinctSkus(records: seq<Record>) {
    forall i, j :: 0 <= i < j < |records| ==> records[i].sku != records[j].sku
  }

  lemma UpsertHas(c: Catalogue, rec: Record)
    ensures Has(UpsertOne(c, rec), rec)
    ensures Has(c, rec) ==> UpsertOne(c, rec) == c
  {
    if rec.sku != "" {
      var p := UpsertOne(c, rec)[rec.sku];
      assert p.fields + rec.fields == p.fields;
    }
  }

  /** A batch whose values the cloud has changes nothing and reports no conflict. */
  lemma {:induction false} HeldBatchIsNoop(c: Catalogue, records: seq<Record>)
    requires HasAll(c, records)
    ensures Upserts(c, records) == c && Conflicts(c, records) == []
  {
    if records != [] {
      var n := |records| - 1;
      assert forall i | 0 <= i < n :: records[..n][i] == records[i];
      HeldBatchIsNoop(c, records[..n]);
      UpsertHas(c, records[n]);
    }
  }

  /** Of products that occur once in a batch, each ends with the values of its record. */
  lemma {:induction false} DistinctBatchIsHeld(c: Catalogue, records: seq<Record>)
    requires DistinctSkus(records)
    ensures HasAll(Upserts(c, records), records)
  {
    if records != [] {
      var n := |records| - 1;
      var before := Upserts(c, records[..n]);
      DistinctBatchIsHeld(c, records[..n]);
      UpsertHas(before, records[n]);
      forall i | 0 <= i < n
        ensures Has(Upserts(c, records), records[i])
      {
        assert Has(before, records[..n][i]);
      }
    }
  }

  /** A batch that left the catalogue as it was, was held before. */
  lemma NoopMeansHeld(c: Catalogue, records: seq<Record>)
    requires DistinctSkus(records) && Upserts(c, records) == c
    ensures HasAll(c, records)
  {
    DistinctBatchIsHeld(c, records);
  }

  lemma DistinctNeverRepeats(c: Catalogue, records: seq<Record>)
    requires DistinctSkus(records)
    ensures !RepeatsNew(c, records)
  {
  }

  /** The agent moves its checkpoint past a batch on any 200. The cloud then has every value of the
      batch if and only if the reply lists no failed commit, or the batch brought nothing new. */
  lemma BatchIsInCloudIff(c: Catalogue, records: seq<Record>, commitOk: bool)
    requires DistinctSkus(records)
    ensures HasAll(Sync(c, records, commitOk), records)
      <==> CommitFailed !in ReplyTo(c, records, commitOk).errors || Upserts(c, records) == c
  {
    DistinctNeverRepeats(c, records);
    if commitOk {
      DistinctBatchIsHeld(c, records);
      OnlyMissing(records);
    } else if HasAll(c, records) {
      HeldBatchIsNoop(c, records);
    } else if Upserts(c, records) == c {
      NoopMeansHeld(c, records);
    }
  }

  /** A new product whose commit fails: the reply is a 200 all the same, and the cloud lacks it. */
  lemma FailedCommitLosesNewProduct(rec: Record)
    requires rec.sku != ""
    ensures ReplyTo(map[], [rec], false) == Reply(0, [], [CommitFailed])
    ensures Sync(map[], [rec], false) == map[] && !HasAll(map[], [rec])
  {
    assert !Has(map[], [rec][0]);
  }

  /** A new SKU named twice takes the whole batch down, other products included. */
  lemma RepeatedNewSkuLosesBatch(other: Record, a: Record, b: Record, commitOk: bool)
    requires other.sku != "" && a.sku == b.sku != ""
    ensures Sync(map[], [other, a, b], commitOk) == map[] && !HasAll(map[], [other, a, b])
  {
    var batch := [other, a, b];
    assert batch[1].sku == batch[2].sku;
    assert !Has(map[], batch[0]);
  }

  lemma {:induction false} OnlyMissing(records: seq<Record>)
    ensures CommitFailed !in Missing(records)
  {
    if records != [] {
      OnlyMissing(records[..|records| - 1]);
    }
  }

  // ---------- Replays ----------

  /** The records of one SKU, in order. */
  function Of(records: seq<Record>, sku: string): seq<Record> {
    if records == [] then []
    else
      var n := |records| - 1;
      if records[n].sku == sku then Of(records[..n], sku) + [records[n]] else Of(records[..n], sku)
  }

  function Updates(p: Product, records: seq<Record>): Product {
    if records == [] then p else Update(Updates(p, records[..|records| - 1]), records[|records| - 1])
  }

  const NOTHING := Record("", map[], None, Absent, 0)

  /** Two records read as one: the later one's values, else the earlier one's. */
  function Join(m: Record, last: Record): Record {
    Record("", m.fields + last.fields, if last.price.Some? then last.price else m.price,
      if last.cost.Given? then last.cost else m.cost, 0)
  }

  /** What several records together say: for each value, the last of them that gives it. */
  function Merge(records: seq<Record>): Record {
    if records == [] then NOTHING else Join(Merge(records[..|records| - 1]), records[|records| - 1])
  }

  lemma NothingChanges(p: Product)
    ensures Update(p, NOTHING) == p
  {
    assert p.fields + map[] == p.fields;
  }

  lemma UpdateJoin(p: Product, m: Record, last: Record)
    ensures Update(Update(p, m), last) == Update(p, Join(m, last))
  {
    assert (p.fields + m.fields) + last.fields == p.fields + (m.fields + last.fields);
  }

  lemma {:induction false} UpdatesMerge(p: Product, records: seq<Record>)
    ensures Updates(p, records) == Update(p, Merge(records))
  {
    hide Update, Join;
    if records != [] {
      var n := |records| - 1;
      UpdatesMerge(p, records[..n]);
      UpdateJoin(p, Merge(records[..n]), records[n]);
    } else {
      NothingChanges(p);
    }
  }

  /** What a batch does to a product the cloud has: the product's own records, one after the other. */
  lemma {:induction false} UpsertsPerSku(c: Catalogue, records: seq<Record>, sku: string)
    requires sku in c && sku != ""
    ensures sku in Upserts(c, records) && Upserts(c, records)[sku] == Updates(c[sku], Of(records, sku))
  {
    if records != [] {
      var n := |records| - 1;
      UpsertsPerSku(c, records[..n], sku);
      if records[n].sku == sku {
        assert Of(records, sku)[..|Of(records, sku)| - 1] == Of(records[..n], sku);
      }
    }
  }

  /** Each value is that of the last record in the batch that gives it, else what was stored; the
      stock is what was stored, whatever the records say. */
  lemma LastGivenValueWins(c: Catalogue, records: seq<Record>, sku: string)
    requires sku in c && sku != ""
    ensures var m := Merge(Of(records, sku));
      var before := c[sku];
      && sku in Upserts(c, records)
      && var after := Upserts(c, records)[sku];
      && after.stock == before.stock
      && after.price == (if m.price.Some? then m.price.value else before.price)
      && after.cost == (if m.cost.Given? then Some(m.cost.cents) else before.cost)
      && (forall f :: f in m.fields ==> f in after.fields && after.fields[f] == m.fields[f])
      && (forall f :: f in before.fields && f !in m.fields ==> f in after.fields && after.fields[f] == before.fields[f])
  {
    UpsertsPerSku(c, records, sku);
    UpdatesMerge(c[sku], Of(records, sku));
  }

  /** The same by position: whatever record `j` gives, and no later record of the product gives, is what
      is stored. */
  lemma {:induction false} StoredIsLastGiven(c: Catalogue, records: seq<Record>, j: nat)
    requires j < |records| && records[j].sku in c && records[j].sku != ""
    ensures var rec := records[j];
      && rec.sku in Upserts(c, records)
      && var after := Upserts(c, records)[rec.sku];
      && (rec.price.Some? && (forall i :: j < i < |records| && records[i].sku == rec.sku ==> records[i].price.None?)
        ==> after.price == rec.price.value)
      && (rec.cost.Given? && (forall i :: j < i < |records| && records[i].sku == rec.sku ==> !records[i].cost.Given?)
        ==> after.cost == Some(rec.cost.cents))
      && (forall f :: (
        f in rec.fields && (forall i :: j < i < |records| && records[i].sku == rec.sku ==> f !in records[i].fields)
        ==> f in after.fields && after.fields[f] == rec.fields[f]))
  {
    var n := |records| - 1;
    UpsertsKeys(c, records[..n]);
    if j < n {
      StoredIsLastGiven(c, records[..n], j);
    }
  }

  /** A product opens with the stock and the values its record gives, a price of zero, no cost, and the
      default of each field that it leaves out. */
  ghost predicate Opens(p: Product, rec: Record) {
    && p.stock == rec.stock
    && p.price == (if rec.price.Some? then rec.price.value else 0)
    && (rec.cost.Given? ==> p.cost == Some(rec.cost.cents)) && (rec.cost.Absent? ==> p.cost == None)
    && (rec.cost.Malformed? ==> p.cost == Some(0))
    && (forall f :: f in rec.fields ==> f in p.fields && p.fields[f] == rec.fields[f])
    && (forall f :: f !in rec.fields ==> f in p.fields && p.fields[f] == Default(f))
  }

  ghost function Default(f: Field): string {
    match f
    case Name => "" case VatExempt => "false" case TaxCode => "B" case ReorderLevel => "10" case IsActive => "true"
  }

  /** A new product of a batch that commits is its record, whatever the batch says of others. */
  lemma {:induction false} NewProductIsItsRecord(c: Catalogue, records: seq<Record>, i: nat)
    requires i < |records| && records[i].sku != "" && records[i].sku !in c && !RepeatsNew(c, records)
    ensures records[i].sku in Upserts(c, records) && Opens(Upserts(c, records)[records[i].sku], records[i])
  {
    var n := |records| - 1;
    assert records == records[..n] + [records[n]];
    RepeatsSnoc(c, records[..n], records[n]);
    if i < n {
      NewProductIsItsRecord(c, records[..n], i);
      assert records[n].sku != records[i].sku;
    } else {
      NewIsAbsent(c, records[..n], records[n]);
      OpensAsGiven(records[n]);
    }
  }

  lemma OpensAsGiven(rec: Record)
    ensures Opens(Insert(rec), rec)
  {
    forall f
      ensures f in DEFAULTS && DEFAULTS[f] == Default(f)
    {
      match f
      case Name =>
      case VatExempt =>
      case TaxCode =>
      case ReorderLevel =>
      case IsActive =>
    }
  }

  lemma {:induction false} UpsertsKeys(c: Catalogue, records: seq<Record>)
    ensures forall sku :: sku in Upserts(c, records) <==> sku in c || (sku != "" && Of(records, sku) != [])
  {
    if records != [] {
      UpsertsKeys(c, records[..|records| - 1]);
    }
  }

  /** The cloud's own price survives a batch if and only if no record of the product gives a price, or
      the last one that does gives the same. */
  lemma CloudPriceWinsIff(c: Catalogue, records: seq<Record>, sku: string)
    requires sku in c && sku != ""
    ensures var m := Merge(Of(records, sku));
      sku in Upserts(c, records)
      && (Upserts(c, records)[sku].price == c[sku].price <==> m.price.None? || m.price.value == c[sku].price)
  {
    LastGivenValueWins(c, records, sku);
  }

  /** An incoming price takes the place of the stored one, whichever side changed it. */
  lemma IncomingPriceOverwrites(sku: string, stored: Product, rec: Record)
    requires sku != "" && rec.sku == sku && rec.price.Some?
    ensures var after := Sync(map[sku := stored], [rec], true);
      sku in after && after[sku].price == rec.price.value && after[sku].stock == stored.stock
  {
    var c := map[sku := stored];
    assert [rec][..0] == [];
    DistinctNeverRepeats(c, [rec]);
    assert Upserts(c, [rec]) == UpsertOne(c, rec);
    assert UpsertOne(c, rec)[sku] == Update(stored, rec);
  }

  /** Sending a batch twice in a row is sending it once, even when it names a product repeatedly. */
  lemma ReplayIsNoop(c: Catalogue, records: seq<Record>, commitOk: bool)
    requires "" !in c
    ensures Sync(Sync(c, records, true), records, commitOk) == Sync(c, records, true)
  {
    if !RepeatsNew(c, records) {
      UpsertTwice(c, records);
    }
  }

  lemma UpsertTwice(c: Catalogue, records: seq<Record>)
    requires "" !in c
    ensures Upserts(Upserts(c, records), records) == Upserts(c, records)
  {
    var once := Upserts(c, records);
    var twice := Upserts(once, records);
    UpsertsKeys(c, records);
    UpsertsKeys(once, records);
    forall sku | sku in once
      ensures twice[sku] == once[sku]
    {
      UpsertsPerSku(once, records, sku);
      UpdatesMerge(once[sku], Of(records, sku));
      ValuesAreIn(c, records, sku);
    }
    assert twice.Keys == once.Keys;
  }

  /** One more record on a product that has the values of `m`. */
  lemma UpdateKeepsValues(p: Product, m: Record, last: Record)
    requires Update(p, m) == p
    ensures Update(Update(p, last), Join(m, last)) == Update(p, last)
  {
    assert p.fields + m.fields == p.fields;
    assert (p.fields + last.fields) + (m.fields + last.fields) == p.fields + last.fields by {
      forall f | f in m.fields
        ensures f in p.fields && p.fields[f] == m.fields[f]
      {
        assert f in p.fields + m.fields && (p.fields + m.fields)[f] == m.fields[f];
      }
    }
  }

  lemma InsertHasValues(rec: Record)
    ensures Update(Insert(rec), Join(NOTHING, rec)) == Insert(rec)
  {
    assert (DEFAULTS + rec.fields) + (map[] + rec.fields) == DEFAULTS + rec.fields;
  }

  /** After a batch, a product has all the values its records give together. */
  lemma {:induction false} ValuesAreIn(c: Catalogue, records: seq<Record>, sku: string)
    requires sku != "" && sku in Upserts(c, records)
    ensures Update(Upserts(c, records)[sku], Merge(Of(records, sku))) == Upserts(c, records)[sku]
  {
    hide Update, Insert, Join;
    if records == [] {
      NothingChanges(c[sku]);
    } else {
      var n := |records| - 1;
      var before, last := Upserts(c, records[..n]), records[n];
      if last.sku != sku {
        ValuesAreIn(c, records[..n], sku);
      } else if sku in before {
        assert Of(records, sku)[..|Of(records, sku)| - 1] == Of(records[..n], sku);
        ValuesAreIn(c, records[..n], sku);
        UpdateKeepsValues(before[sku], Merge(Of(records[..n], sku)), last);
      } else {
        UpsertsKeys(c, records[..n]);
        assert Of(records[..n], sku) == [];
        assert Of(records, sku) == [last] && [last][..0] == [];
        InsertHasValues(last);
      }
    }
  }

  /** A batch that comes late, from the retry queue after newer batches, leaves the catalogue alone if
      and only if the newer state has all its values; nothing compares timestamps. */
  lemma LateReplayIsHarmlessIff(c: Catalogue, late: seq<Record>)
    requires DistinctSkus(late)
    ensures Sync(c, late, true) == c <==> HasAll(c, late)
  {
    DistinctNeverRepeats(c, late);
    if HasAll(c, late) {
      HeldBatchIsNoop(c, late);
    } else if Upserts(c, late) == c {
      NoopMeansHeld(c, late);
    }
  }

  /** An old price comes back: the first batch is replayed after the second was accepted. */
  lemma LateReplayRevertsPrice(c: Catalogue, old1: Record, new1: Record)
    requires old1.sku == new1.sku != "" && old1.price.Some? && new1.price.Some? && old1.price != new1.price
    ensures var s := Sync(Sync(Sync(c, [old1], true), [new1], true), [old1], true);
      old1.sku in s && s[old1.sku].price == old1.price.value != new1.price.value
  {
    assert [old1][..0] == [] && [new1][..0] == [];
    DistinctNeverRepeats(c, [old1]);
    DistinctNeverRepeats(Upserts(c, [old1]), [new1]);
    DistinctNeverRepeats(Upserts(Upserts(c, [old1]), [new1]), [old1]);
  }
}
