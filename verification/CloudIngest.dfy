/** The cloud side of transaction sync: the ingest loop of `sync_transactions`,
    which looks every record up by its number, inserts what is absent, and rolls the
    whole session back when one record fails. */
module CloudIngest {

  /** A sale as the agent sends it. `number` is empty when the field is missing or blank;
      `body` stands for the other columns, as they are once the sale is completed, and its items. */
  datatype Record = Record(number: string, body: string)

  datatype IngestError = MissingNumber | RecordFailed(number: string) | CommitFailed

  datatype Reply = Reply(synced: nat, skipped: nat, errors: seq<IngestError>)

  /** The uncommitted part of one request: flushed rows and the loop's counters. */
  datatype Session = Session(pending: seq<Record>, synced: nat, skipped: nat, errors: seq<IngestError>)

  const EMPTY_SESSION := Session([], 0, 0, [])

  predicate Holds(rows: seq<Record>, number: string) {
    exists i :: 0 <= i < |rows| && rows[i].number == number
  }

  ghost predicate Unique(rows: seq<Record>) {
    forall i, j :: 0 <= i < j < |rows| ==> rows[i].number != rows[j].number
  }

  /** One turn of the loop. `fault` says that inserting this record raises. */
  function IngestOne(rows: seq<Record>, s: Session, rec: Record, fault: bool): Session {
    if rec.number == "" then s.(errors := s.errors + [MissingNumber])
    else if Holds(rows + s.pending, rec.number) then s.(skipped := s.skipped + 1)
    else if fault then s.(pending := [], errors := s.errors + [RecordFailed(rec.number)])
    else s.(pending := s.pending + [rec], synced := s.synced + 1)
  }

  /** The session after the whole loop; `faults` holds the positions whose insert would raise. */
  function Ingest(rows: seq<Record>, records: seq<Record>, faults: set<nat>): Session {
    if records == [] then EMPTY_SESSION
    else
      var n := |records| - 1;
      IngestOne(rows, Ingest(rows, records[..n], faults), records[n], n in faults)
  }

  function Committed(rows: seq<Record>, s: Session, commitOk: bool): seq<Record> {
    if commitOk then rows + s.pending else rows
  }

  function ReplyOf(s: Session, commitOk: bool): Reply {
    if commitOk then Reply(s.synced, s.skipped, s.errors) else Reply(0, s.skipped, [CommitFailed])
  }

  class CloudDb {
    var rows: seq<Record>     // committed rows of the transactions table
    var pending: seq<Record>  // rows flushed by the request in progress

    constructor ()
      ensures rows == [] && pending == []
    {
      rows, pending := [], [];
    }

    method Rollback()
      modifies this`pending
      ensures pending == []
    {
      pending := [];
    }

    method SyncTransactions(records: seq<Record>, faults: set<nat>, commitOk: bool) returns (reply: Reply)
      requires pending == []
      modifies this
      ensures pending == []
      ensures rows == Committed(old(rows), Ingest(old(rows), records, faults), commitOk)
      ensures reply == ReplyOf(Ingest(old(rows), records, faults), commitOk)
      ensures !commitOk ==> rows == old(rows) && reply.synced == 0 && reply.errors == [CommitFailed]
      ensures commitOk ==> reply.synced + reply.skipped + |reply.errors| == |records|
      ensures commitOk ==> old(rows) <= rows && |rows| - |old(rows)| <= reply.synced
      ensures reply.skipped == Ingest(old(rows), records, faults).skipped
    {
      CountsCoverTheBatch(rows, records, faults);
      var synced, skipped, errors := 0, 0, [];
      for i := 0 to |records|
        invariant rows == old(rows)
        invariant Session(pending, synced, skipped, errors) == Ingest(rows, records[..i], faults)
      {
        assert records[..i + 1][..i] == records[..i];
        var rec := records[i];
        if rec.number == "" {
          errors := errors + [MissingNumber];
        } else if Holds(rows + pending, rec.number) {
          skipped := skipped + 1;
        } else if i in faults {
          Rollback();
          errors := errors + [RecordFailed(rec.number)];
        } else {
          pending := pending + [rec];
          synced := synced + 1;
        }
      }
      assert records[..|records|] == records;
      if commitOk {
        rows := rows + pending;
        reply := Reply(synced, skipped, errors);
      } else {
        reply := Reply(0, skipped, [CommitFailed]);
      }
      Rollback();
    }
  }

  // ---------- What the loop makes durable ----------

  /** Record `i` reached the insert and raised. */
  predicate FailedAt(rows: seq<Record>, records: seq<Record>, faults: set<nat>, i: nat)
    requires i < |records|
  {
    && records[i].number != ""
    && !Holds(rows + Ingest(rows, records[..i], faults).pending, records[i].number)
    && i in faults
  }

  /** `k` is the position just after the last record that failed, 0 when none did. */
  ghost predicate AfterLastFailure(rows: seq<Record>, records: seq<Record>, faults: set<nat>, k: nat) {
    && k <= |records|
    && (k > 0 ==> FailedAt(rows, records, faults, k - 1))
    && forall i :: k <= i < |records| ==> !FailedAt(rows, records, faults, i)
  }

  /** `rec` is the first record numbered `rec.number` in `records[k..]`, and `rows` lacks it. */
  ghost predicate FirstAbsent(rows: seq<Record>, records: seq<Record>, k: nat, rec: Record) {
    && rec.number != ""
    && !Holds(rows, rec.number)
    && exists j: nat :: FirstAt(records, k, j, rec)
  }

  ghost predicate FirstAt(records: seq<Record>, k: nat, j: nat, rec: Record) {
    k <= j < |records| && records[j] == rec && forall i :: k <= i < j ==> records[i].number != rec.number
  }

  lemma HoldsConcat(a: seq<Record>, b: seq<Record>, number: string)
    ensures Holds(a + b, number) <==> Holds(a, number) || Holds(b, number)
  {
    if Holds(a, number) {
      var i :| 0 <= i < |a| && a[i].number == number;
      assert (a + b)[i].number == number;
    }
    if Holds(b, number) {
      var i :| 0 <= i < |b| && b[i].number == number;
      assert (a + b)[|a| + i].number == number;
    }
  }

  /** The prefix of a run is a run of the prefix. */
  lemma FailedAtPrefix(rows: seq<Record>, records: seq<Record>, faults: set<nat>, i: nat, n: nat)
    requires i < n <= |records|
    ensures FailedAt(rows, records[..n], faults, i) == FailedAt(rows, records, faults, i)
  {
    assert records[..n][..i] == records[..i];
  }

  /** The rows a request adds are exactly the absent records after the last one that failed,
      the first of each number: the rollback discards all earlier ones. */
  lemma {:induction false} DurableExactly(rows: seq<Record>, records: seq<Record>, faults: set<nat>, k: nat)
    requires AfterLastFailure(rows, records, faults, k)
    ensures forall rec :: rec in Ingest(rows, records, faults).pending <==> FirstAbsent(rows, records, k, rec)
  {
    var pending := Ingest(rows, records, faults).pending;
    if k == |records| {
      assert pending == [];
    } else {
      var n := |records| - 1;
      var before, last := records[..n], records[n];
      forall i | 0 <= i < n
        ensures FailedAt(rows, before, faults, i) == FailedAt(rows, records, faults, i)
      {
        FailedAtPrefix(rows, records, faults, i, n);
      }
      DurableExactly(rows, before, faults, k);
      var earlier := Ingest(rows, before, faults).pending;
      HoldsConcat(rows, earlier, last.number);
      HoldsAmongFirsts(rows, before, k, earlier, last.number);
      forall rec: Record
        ensures rec in pending <==> FirstAbsent(rows, records, k, rec)
      {
        FirstAtExtends(records, k, rec);
        assert rec in earlier <==> FirstAbsent(rows, before, k, rec);
        assert !FailedAt(rows, records, faults, n);
        if last.number != "" && !Holds(rows + earlier, last.number) {
          assert pending == earlier + [last];
        } else {
          assert pending == earlier;
        }
      }
    }
  }

  /** A first occurrence in `records` is one in the prefix without the last record, or the last
      record itself when its number is new. */
  lemma FirstAtExtends(records: seq<Record>, k: nat, rec: Record)
    requires k < |records|
    ensures (exists j: nat :: FirstAt(records, k, j, rec)) <==>
      var n := |records| - 1;
      || (exists j: nat :: FirstAt(records[..n], k, j, rec))
      || (rec == records[n] && forall i :: k <= i < n ==> records[i].number != rec.number)
  {
    var n := |records| - 1;
    if j: nat :| FirstAt(records[..n], k, j, rec) {
      assert FirstAt(records, k, j, rec);
    }
    if j: nat :| FirstAt(records, k, j, rec) {
      assert j < n ==> FirstAt(records[..n], k, j, rec);
    }
    if rec == records[n] && forall i :: k <= i < n ==> records[i].number != rec.number {
      assert FirstAt(records, k, n, rec);
    }
  }

  /** When `firsts` are the absent first occurrences, they hold every absent number in range. */
  lemma HoldsAmongFirsts(rows: seq<Record>, records: seq<Record>, k: nat, firsts: seq<Record>, number: string)
    requires k <= |records|
    requires forall rec :: rec in firsts <==> FirstAbsent(rows, records, k, rec)
    ensures number != "" && !Holds(rows, number) ==>
      (Holds(firsts, number) <==> exists i :: k <= i < |records| && records[i].number == number)
  {
    if number != "" && !Holds(rows, number) {
      if Holds(firsts, number) {
        var e :| 0 <= e < |firsts| && firsts[e].number == number;
        assert firsts[e] in firsts;
      }
      if i :| k <= i < |records| && records[i].number == number {
        var j := Earliest(records, k, i);
        assert FirstAt(records, k, j, records[j]);
        assert records[j] in firsts;
      }
    }
  }

  ghost function Earliest(records: seq<Record>, k: nat, i: nat): (j: nat)
    requires k <= i < |records|
    ensures k <= j <= i && records[j].number == records[i].number
    ensures forall m :: k <= m < j ==> records[m].number != records[i].number
    decreases i - k
  {
    if records[k].number == records[i].number then k else Earliest(records, k + 1, i)
  }

  /** Looking a number up before inserting it is enough to keep numbers distinct. */
  lemma {:induction false} NumbersStayUnique(rows: seq<Record>, records: seq<Record>, faults: set<nat>)
    requires Unique(rows)
    ensures Unique(rows + Ingest(rows, records, faults).pending)
  {
    if records != [] {
      var n := |records| - 1;
      NumbersStayUnique(rows, records[..n], faults);
      var held := rows + Ingest(rows, records[..n], faults).pending;
      assert forall i | 0 <= i < |held| :: !Holds(held, records[n].number) ==> held[i].number != records[n].number;
      assert rows + (Ingest(rows, records[..n], faults).pending + [records[n]]) == held + [records[n]];
    } else {
      assert rows + [] == rows;
    }
  }

  // ---------- What the reply tells the agent ----------

  /** Every record is counted once, and without errors every counted insert is durable. */
  lemma {:induction false} CountsCoverTheBatch(rows: seq<Record>, records: seq<Record>, faults: set<nat>)
    ensures var s := Ingest(rows, records, faults);
      && s.synced + s.skipped + |s.errors| == |records|
      && |s.pending| <= s.synced
      && (s.errors == [] ==> |s.pending| == s.synced && AfterLastFailure(rows, records, faults, 0))
  {
    if records != [] {
      var n := |records| - 1;
      CountsCoverTheBatch(rows, records[..n], faults);
      if Ingest(rows, records, faults).errors == [] {
        forall i | 0 <= i < |records|
          ensures !FailedAt(rows, records, faults, i)
        {
          if i < n {
            FailedAtPrefix(rows, records, faults, i, n);
          }
        }
      }
    }
  }

  ghost predicate AllHeld(rows: seq<Record>, records: seq<Record>) {
    forall i :: 0 <= i < |records| ==> Holds(rows, records[i].number)
  }

  /** What the agent's payload is: numbered sales, each once. */
  ghost predicate Numbered(records: seq<Record>) {
    Unique(records) && forall i :: 0 <= i < |records| ==> records[i].number != ""
  }

  /** The check of the reply that would justify marking the whole batch as synced. */
  predicate Clean(reply: Reply, size: nat) {
    reply.errors == [] || reply.skipped == size
  }

  ghost predicate HasNumbers(records: seq<Record>) {
    forall i :: 0 <= i < |records| ==> records[i].number != ""
  }

  /** Records the cloud already has are skipped, whatever else would fail. */
  lemma {:induction false} HeldAreSkipped(rows: seq<Record>, records: seq<Record>, faults: set<nat>)
    requires AllHeld(rows, records) && HasNumbers(records)
    ensures Ingest(rows, records, faults) == Session([], 0, |records|, [])
  {
    if records != [] {
      var n := |records| - 1;
      assert forall i | 0 <= i < n :: records[..n][i] == records[i];
      HeldAreSkipped(rows, records[..n], faults);
      assert rows + [] == rows;
      assert Holds(rows, records[n].number);
    }
  }

  /** A batch counted wholly as skipped was wholly in the cloud already. */
  lemma {:induction false} AllSkippedMeansHeld(rows: seq<Record>, records: seq<Record>, faults: set<nat>)
    requires Ingest(rows, records, faults).skipped == |records|
    ensures AllHeld(rows, records) && Ingest(rows, records, faults).pending == []
  {
    if records != [] {
      var n := |records| - 1;
      CountsCoverTheBatch(rows, records[..n], faults);
      AllSkippedMeansHeld(rows, records[..n], faults);
      assert rows + [] == rows;
      assert forall i | 0 <= i < n :: records[..n][i] == records[i];
    }
  }

  lemma {:induction false} LastFailure(rows: seq<Record>, records: seq<Record>, faults: set<nat>) returns (k: nat)
    ensures AfterLastFailure(rows, records, faults, k)
    ensures HasNumbers(records) && Ingest(rows, records, faults).errors != [] ==> k > 0
  {
    if records == [] {
      k := 0;
    } else {
      var n := |records| - 1;
      assert forall i | 0 <= i < n :: records[..n][i] == records[i];
      k := LastFailure(rows, records[..n], faults);
      if FailedAt(rows, records, faults, n) {
        k := n + 1;
      }
      forall i | 0 <= i < n
        ensures FailedAt(rows, records[..n], faults, i) == FailedAt(rows, records, faults, i)
      {
        FailedAtPrefix(rows, records, faults, i, n);
      }
    }
  }

  /** A record without a number is an error. */
  lemma {:induction false} ErrorFreeHasNumbers(rows: seq<Record>, records: seq<Record>, faults: set<nat>)
    requires Ingest(rows, records, faults).errors == []
    ensures HasNumbers(records)
  {
    if records != [] {
      var n := |records| - 1;
      ErrorFreeHasNumbers(rows, records[..n], faults);
      assert forall i | 0 <= i < n :: records[..n][i] == records[i];
    }
  }

  /** For any batch, numbers repeated or not: without errors the whole batch is durable and the two
      counters add up to its size. */
  lemma ErrorFreeBatchIsDurable(rows: seq<Record>, records: seq<Record>, faults: set<nat>)
    requires Ingest(rows, records, faults).errors == []
    ensures var s := Ingest(rows, records, faults);
      AllHeld(Committed(rows, s, true), records) && s.synced + s.skipped == |records| && |s.pending| == s.synced
  {
    var pending := Ingest(rows, records, faults).pending;
    CountsCoverTheBatch(rows, records, faults);
    ErrorFreeHasNumbers(rows, records, faults);
    DurableExactly(rows, records, faults, 0);
    forall i | 0 <= i < |records|
      ensures Holds(rows + pending, records[i].number)
    {
      HoldsConcat(rows, pending, records[i].number);
      HoldsAmongFirsts(rows, records, 0, pending, records[i].number);
    }
  }

  /** The exact condition under which a 200 answer means what the agent takes it to mean: the
      whole batch is in the cloud if and only if the reply lists no error or skipped everything. */
  lemma CleanReplyIff(rows: seq<Record>, records: seq<Record>, faults: set<nat>, commitOk: bool)
    requires Numbered(records)
    ensures var s := Ingest(rows, records, faults);
      AllHeld(Committed(rows, s, commitOk), records) <==> Clean(ReplyOf(s, commitOk), |records|)
  {
    var s := Ingest(rows, records, faults);
    var after := Committed(rows, s, commitOk);
    var k := LastFailure(rows, records, faults);
    DurableExactly(rows, records, faults, k);
    HoldsAmongFirsts(rows, records, k, s.pending, if k > 0 then records[k - 1].number else "");
    if AllHeld(rows, records) {
      HeldAreSkipped(rows, records, faults);
    }
    if s.skipped == |records| {
      AllSkippedMeansHeld(rows, records, faults);
    }
    assert AllHeld(rows, records) <==> s.skipped == |records|;
    if !commitOk {
      assert |ReplyOf(s, commitOk).errors| == 1;
    } else if k == 0 {
      forall i | 0 <= i < |records|
        ensures Holds(after, records[i].number)
      {
        HoldsConcat(rows, s.pending, records[i].number);
        HoldsAmongFirsts(rows, records, k, s.pending, records[i].number);
      }
    } else {
      HoldsConcat(rows, s.pending, records[k - 1].number);
      HoldsConcat(rows, Ingest(rows, records[..k - 1], faults).pending, records[k - 1].number);
      assert !Holds(after, records[k - 1].number);
      CountsCoverTheBatch(rows, records, faults);
      assert s.errors != [];
    }
  }

  /** Distinct numbers matter for the "only if": a repeated number may recover from its own failure, and
      then the whole batch is in the cloud although the reply lists an error. */
  lemma RepeatedNumberRecovers(a: Record)
    requires a.number != ""
    ensures var s := Ingest([], [a, a], {0});
      && s == Session([a], 1, 0, [RecordFailed(a.number)])
      && AllHeld(Committed([], s, true), [a, a]) && !Clean(ReplyOf(s, true), 2)
  {
    var none: seq<Record> := [];
    assert [a, a][..1] == [a] && [a][..0] == none && none + none == none;
    assert Ingest(none, [a], {0}) == Session([], 0, 0, [RecordFailed(a.number)]);
    assert none + [a] == [a] && [a][0].number == a.number;
  }

  /** A batch answered without errors may be sent again any number of times: whatever would fail
      on the way, the cloud keeps its rows and the reply counts every record as skipped. */
  lemma ReplayIsNoop(rows: seq<Record>, records: seq<Record>, faults: set<nat>, again: set<nat>, commitOk: bool)
    requires Ingest(rows, records, faults).errors == []
    ensures var after := Committed(rows, Ingest(rows, records, faults), true);
      var s := Ingest(after, records, again);
      Committed(after, s, commitOk) == after && s.skipped == |records|
  {
    ErrorFreeHasNumbers(rows, records, faults);
    ErrorFreeBatchIsDurable(rows, records, faults);
    var after := Committed(rows, Ingest(rows, records, faults), true);
    HeldAreSkipped(after, records, again);
    assert after + [] == after;
  }

  /** The documentation promises that a repeated request gets the first reply again. After an
      error-free answer the repeat gets it if and only if the first one inserted nothing and the
      commit of the repeat works: the second reply counts the inserted rows as skipped. */
  lemma SameReplyIff(rows: seq<Record>, records: seq<Record>, faults: set<nat>, again: set<nat>, commitOk: bool)
    requires Ingest(rows, records, faults).errors == []
    ensures var first := Ingest(rows, records, faults);
      var second := Ingest(Committed(rows, first, true), records, again);
      ReplyOf(second, commitOk) == ReplyOf(first, true) <==> first.synced == 0 && commitOk
  {
    ErrorFreeHasNumbers(rows, records, faults);
    ErrorFreeBatchIsDurable(rows, records, faults);
    HeldAreSkipped(Committed(rows, Ingest(rows, records, faults), true), records, again);
    assert [CommitFailed] != [];
  }

  /** One new sale sent twice: first counted as synced, then as skipped. */
  lemma RepeatedReplyDiffers(rec: Record)
    requires rec.number != ""
    ensures var first := Ingest([], [rec], {});
      && ReplyOf(first, true) == Reply(1, 0, [])
      && ReplyOf(Ingest(Committed([], first, true), [rec], {}), true) == Reply(0, 1, [])
  {
    var none: seq<Record> := [];
    assert [rec][..0] == none && none + none == none;
    assert !Holds(none, rec.number);
    assert Ingest(none, [rec], {}) == Session([rec], 1, 0, []);
    assert none + [rec] == [rec] && [rec] + none == [rec] && [rec][0].number == rec.number;
  }

  /** The agent's header comment takes `synced > 0` for a confirmation. The counter says neither that
      the batch is in the cloud, since it still counts rows a later failure rolled back, nor that it
      is not, since a batch the cloud has counts as skipped. */
  lemma SyncedCountIsNoConfirmation(a: Record, b: Record)
    requires a.number != "" && b.number != "" && a.number != b.number
    ensures Ingest([], [a, b], {1}) == Session([], 1, 0, [RecordFailed(b.number)])
    ensures Ingest([a], [a], {}) == Session([], 0, 1, []) && AllHeld([a], [a])
  {
    var none: seq<Record> := [];
    assert [a, b][..1] == [a] && [a][..0] == none;
    assert Ingest([], [a], {1}) == Session([a], 1, 0, []);
    assert none + [a] == [a] && !Holds([a], b.number);
    assert [a] + none == [a] && [a][0].number == a.number;
  }
}
