/** Timestamp checkpoints and the change-capture cycle of `syncEntity`. Stamps are microseconds
    since the epoch, as the database keeps them; a saved checkpoint is an ISO string with three
    decimals, so saving one drops the microseconds. */
module Checkpoint {

  type Points = map<string, nat>

  const EPOCH := 0

  function Millis(stamp: nat): nat {
    stamp - stamp % 1000
  }

  function Get(points: Points, entity: string): nat {
    if entity in points then points[entity] else EPOCH
  }

  /** How far an atomic write got before it failed or the process died. */
  datatype Progress = NotStarted | TmpWritten | Renamed

  class CheckpointStore {
    var cache: Points
    var file: Points   // the renamed file; empty while it does not exist
    var tmp: Points    // the sibling that is written first

    constructor (file: Points)
      ensures this.file == file && cache == file
    {
      this.file, cache, tmp := file, file, map[];
    }

    method AtomicWrite(progress: Progress)
      modifies this`file, this`tmp
      ensures file == if progress == Renamed then cache else old(file)
    {
      if progress != NotStarted {
        tmp := cache;
        if progress == Renamed {
          file := tmp;
        }
      }
    }

    method SaveCheckpoint(entity: string, stamp: nat, progress: Progress)
      modifies this
      ensures cache == old(cache)[entity := Millis(stamp)]
      ensures file == if progress == Renamed then cache else old(file)
    {
      cache := cache[entity := Millis(stamp)];
      AtomicWrite(progress);
    }

    /** Start of the process: an unreadable file counts as no checkpoints at all. */
    method LoadFromDisk(readable: bool)
      modifies this`cache
      ensures cache == if readable then file else map[]
    {
      cache := if readable then file else map[];
    }
  }

  // ---------- One entity's cycle ----------

  /** A row as it was read: its id and its `updated_at` (or `created_at`). */
  datatype Version = Version(id: nat, stamp: nat)

  datatype Phase = Idle | Posting(batch: seq<Version>)

  /** `acked` are the row versions in batches the cloud answered with 200; `sent` the batches read
      so far, which the retry queue may replay; `newest` the latest stamp in any of them. */
  datatype State = State(
    table: map<nat, nat>, cache: Points, file: Points,
    acked: set<Version>, sent: seq<seq<Version>>, newest: nat, phase: Phase)

  datatype Event =
    | Write(id: nat, stamp: nat)
    | ReadBatch(limit: nat, batch: seq<Version>)
    | Answered(written: bool)
    | Failed
    | Replayed(read: nat)
    | SavedOther(entity: string, stamp: nat, written: bool)
    | Restart(readable: bool)

  function Last(batch: seq<Version>): nat
    requires batch != []
  {
    batch[|batch| - 1].stamp
  }

  function Elements(batch: seq<Version>): set<Version> {
    set v | v in batch
  }

  /** A result of the query: rows above the checkpoint in stamp order, at most `limit` of them, ties
      in any order, and nothing left out that sorts before a row returned. */
  ghost predicate IsBatch(table: map<nat, nat>, point: nat, limit: nat, batch: seq<Version>) {
    && |batch| <= limit
    && (forall i :: 0 <= i < |batch| ==>
      batch[i].id in table && table[batch[i].id] == batch[i].stamp && point < batch[i].stamp)
    && (forall i, j :: 0 <= i < j < |batch| ==> batch[i].id != batch[j].id && batch[i].stamp <= batch[j].stamp)
    && (forall id :: id in table && point < table[id] && Version(id, table[id]) !in batch ==>
      |batch| == limit && (batch != [] ==> Last(batch) <= table[id]))
  }

  ghost function Apply(name: string, s: State, e: Event): State {
    match e
    case Write(id, stamp) => s.(table := s.table[id := stamp])
    case ReadBatch(limit, batch) =>
      if s.phase != Idle || batch == [] || !IsBatch(s.table, Get(s.cache, name), limit, batch) then s
      else s.(phase := Posting(batch), sent := s.sent + [batch],
              newest := if Last(batch) > s.newest then Last(batch) else s.newest)
    case Answered(written) =>
      if s.phase.Idle? || s.phase.batch == [] then s
      else
        var cache := s.cache[name := Millis(Last(s.phase.batch))];
        s.(acked := s.acked + Elements(s.phase.batch), cache := cache,
           file := if written then cache else s.file, phase := Idle)
    case Failed => s.(phase := Idle)
    case Replayed(read) => if read < |s.sent| then s.(acked := s.acked + Elements(s.sent[read])) else s
    case SavedOther(entity, stamp, written) =>
      if entity == name then s
      else
        var cache := s.cache[entity := Millis(stamp)];
        s.(cache := cache, file := if written then cache else s.file)
    case Restart(readable) => s.(cache := if readable then s.file else map[], phase := Idle)
  }

  ghost function Run(name: string, s: State, events: seq<Event>): State {
    if events == [] then s
    else Apply(name, Run(name, s, events[..|events| - 1]), events[|events| - 1])
  }

  const INITIAL := State(map[], map[], map[], {}, [], 0, Idle)

  // ---------- Nothing at or below a checkpoint was skipped ----------

  /** Every row at or below `point` was in a batch the cloud answered with 200. */
  ghost predicate Covered(s: State, point: nat) {
    forall id :: id in s.table && s.table[id] <= point ==> Version(id, s.table[id]) in s.acked
  }

  /** A row left out of the batch, not acknowledged before, shares the last row's stamp, and that
      stamp is a whole millisecond: a tie straddles the cut of the batch. */
  ghost predicate TieLeftOut(s: State, batch: seq<Version>)
    requires batch != []
  {
    exists id :: id in s.table && s.table[id] == Last(batch) && Last(batch) % 1000 == 0
      && Version(id, s.table[id]) !in batch && Version(id, s.table[id]) !in s.acked
  }

  ghost predicate Inv(name: string, s: State) {
    && Covered(s, Get(s.cache, name)) && Covered(s, Get(s.file, name))
    && Get(s.cache, name) % 1000 == 0 && Get(s.file, name) % 1000 == 0
    && Get(s.cache, name) <= s.newest && Get(s.file, name) <= s.newest
    && (s.phase.Posting? ==>
      && s.phase.batch != []
      && Get(s.cache, name) < Last(s.phase.batch) <= s.newest
      && forall id :: id in s.table && s.table[id] <= Millis(Last(s.phase.batch)) ==>
        Version(id, s.table[id]) in s.acked || Version(id, s.table[id]) in s.phase.batch)
  }

  /** What the theorem assumes of the till's database: rows are stamped later than any row already
      read, and no tie straddles the cut of a batch. */
  ghost predicate Orderly(s: State, e: Event) {
    && (e.Write? ==> s.newest < e.stamp)
    && (e.ReadBatch? && e.batch != [] ==> !TieLeftOut(s, e.batch))
  }

  ghost predicate OrderlyRun(name: string, s: State, events: seq<Event>) {
    events != [] ==>
      var n := |events| - 1;
      OrderlyRun(name, s, events[..n]) && Orderly(Run(name, s, events[..n]), events[n])
  }

  lemma MillisFloor(stamp: nat, point: nat)
    ensures Millis(stamp) <= stamp && Millis(stamp) % 1000 == 0
    ensures point % 1000 == 0 && point <= stamp ==> point <= Millis(stamp)
    ensures Millis(stamp) == stamp <==> stamp % 1000 == 0
  {
    assert stamp == 1000 * (stamp / 1000) + stamp % 1000;
    assert Millis(stamp) == 1000 * (stamp / 1000);
    if point % 1000 == 0 && point <= stamp {
      assert point == 1000 * (point / 1000);
    }
  }

  lemma ReadKeepsInv(name: string, s: State, limit: nat, batch: seq<Version>)
    requires Inv(name, s) && Orderly(s, ReadBatch(limit, batch))
    ensures Inv(name, Apply(name, s, ReadBatch(limit, batch)))
  {
    if batch != [] && IsBatch(s.table, Get(s.cache, name), limit, batch) {
      MillisFloor(Last(batch), Get(s.cache, name));
    }
  }

  lemma AnswerKeepsInv(name: string, s: State, written: bool)
    requires Inv(name, s)
    ensures Inv(name, Apply(name, s, Answered(written)))
  {
    if s.phase.Posting? {
      MillisFloor(Last(s.phase.batch), Get(s.cache, name));
    }
  }

  lemma WriteKeepsInv(name: string, s: State, id: nat, stamp: nat)
    requires Inv(name, s) && s.newest < stamp
    ensures Inv(name, Apply(name, s, Write(id, stamp)))
  {
    if s.phase.Posting? {
      MillisFloor(Last(s.phase.batch), Get(s.cache, name));
    }
  }

  lemma StepKeepsInv(name: string, s: State, e: Event)
    requires Inv(name, s) && Orderly(s, e)
    ensures Inv(name, Apply(name, s, e))
  {
    match e
    case ReadBatch(limit, batch) => ReadKeepsInv(name, s, limit, batch);
    case Answered(written) => AnswerKeepsInv(name, s, written);
    case Write(id, stamp) => WriteKeepsInv(name, s, id, stamp);
    case _ =>
  }

  /** Over every orderly run, with lost requests, failed checkpoint writes, replays and restarts at
      any point, every row at or below the checkpoint in memory, and at or below the one on disk,
      was in a batch the cloud answered with 200: a restart re-sends, it never skips. */
  lemma {:induction false} NothingBelowCheckpointSkipped(name: string, s: State, events: seq<Event>)
    requires Inv(name, s) && OrderlyRun(name, s, events)
    ensures var s' := Run(name, s, events);
      Inv(name, s') && Covered(s', Get(s'.cache, name)) && Covered(s', Get(s'.file, name))
  {
    if events != [] {
      var n := |events| - 1;
      NothingBelowCheckpointSkipped(name, s, events[..n]);
      StepKeepsInv(name, Run(name, s, events[..n]), events[n]);
    }
  }

  /** The same on every orderly run of a new agent. */
  lemma EveryOrderlyRunCovers(name: string, events: seq<Event>)
    requires OrderlyRun(name, INITIAL, events)
    ensures var s := Run(name, INITIAL, events);
      Covered(s, Get(s.cache, name)) && Covered(s, Get(s.file, name))
  {
    NothingBelowCheckpointSkipped(name, INITIAL, events);
  }

  /** Exactly when one answered cycle keeps the promise: if and only if no tie straddles the cut. */
  lemma CycleCoversIff(name: string, s: State, limit: nat, batch: seq<Version>, written: bool)
    requires Inv(name, s) && s.phase == Idle
    requires batch != [] && IsBatch(s.table, Get(s.cache, name), limit, batch)
    ensures var s' := Apply(name, Apply(name, s, ReadBatch(limit, batch)), Answered(written));
      Covered(s', Get(s'.cache, name)) <==> !TieLeftOut(s, batch)
  {
    var s1 := Apply(name, s, ReadBatch(limit, batch));
    var s' := Apply(name, s1, Answered(written));
    MillisFloor(Last(batch), Get(s.cache, name));
    if TieLeftOut(s, batch) {
      var id :| id in s.table && s.table[id] == Last(batch) && Last(batch) % 1000 == 0
        && Version(id, s.table[id]) !in batch && Version(id, s.table[id]) !in s.acked;
      assert s'.table[id] <= Get(s'.cache, name) && Version(id, s'.table[id]) !in s'.acked;
    } else {
      StepKeepsInv(name, s, ReadBatch(limit, batch));
      StepKeepsInv(name, s1, Answered(written));
    }
  }

  /** Two rows with one stamp and a batch size of one: the second row is skipped. */
  lemma TieAtCutSkipsARow(name: string)
    ensures var s := Apply(name, Apply(name, INITIAL, Write(1, 5000)), Write(2, 5000));
      var s' := Apply(name, Apply(name, s, ReadBatch(1, [Version(1, 5000)])), Answered(true));
      && 2 in s'.table && s'.table[2] <= Get(s'.cache, name) && Version(2, s'.table[2]) !in s'.acked
  {
    var s := Apply(name, Apply(name, INITIAL, Write(1, 5000)), Write(2, 5000));
    assert IsBatch(s.table, 0, 1, [Version(1, 5000)]);
    assert Version(1, 5000) in [Version(1, 5000)];
  }

  /** Dropping the microseconds costs progress, not rows: an answered cycle moves the checkpoint if
      and only if its last row lies in a later millisecond. When it does not, the next query may
      return the very same batch, so a burst of `limit` rows inside one millisecond holds the
      entity there. */
  lemma CheckpointAdvancesIff(name: string, s: State, limit: nat, batch: seq<Version>, written: bool)
    requires Inv(name, s) && s.phase == Idle
    requires batch != [] && IsBatch(s.table, Get(s.cache, name), limit, batch)
    ensures var s' := Apply(name, Apply(name, s, ReadBatch(limit, batch)), Answered(written));
      && (Get(s'.cache, name) > Get(s.cache, name) <==> Last(batch) >= Get(s.cache, name) + 1000)
      && (Last(batch) < Get(s.cache, name) + 1000 ==> IsBatch(s'.table, Get(s'.cache, name), limit, batch))
  {
    MillisFloor(Last(batch), Get(s.cache, name));
    MillisFloor(Last(batch), Get(s.cache, name) + 1000);
  }

  /** `n` cycles that read the same one row. */
  ghost function BurstCycles(name: string, s: State, row: Version, n: nat): State {
    if n == 0 then s
    else Apply(name, Apply(name, BurstCycles(name, s, row, n - 1), ReadBatch(1, [row])), Answered(true))
  }

  const BURST: map<nat, nat> := map[1 := 1500, 2 := 1700]

  lemma FirstOfBurst(point: nat)
    requires point < 1500
    ensures IsBatch(BURST, point, 1, [Version(1, 1500)])
  {
    assert Version(1, 1500) in [Version(1, 1500)];
  }

  /** Two rows within one millisecond and a batch size of one: after any number of cycles the query
      returns the first row again, and the second was never in a batch. */
  lemma {:induction false} BurstHoldsCheckpoint(name: string, n: nat)
    ensures var s := BurstCycles(name, INITIAL.(table := BURST), Version(1, 1500), n);
      && s.phase == Idle && s.table == BURST && Get(s.cache, name) == (if n == 0 then 0 else 1000)
      && IsBatch(BURST, Get(s.cache, name), 1, [Version(1, 1500)]) && Version(2, 1700) !in s.acked
  {
    hide IsBatch;
    FirstOfBurst(if n == 0 then 0 else 1000);
    if n > 0 {
      BurstHoldsCheckpoint(name, n - 1);
      assert Elements([Version(1, 1500)]) == {Version(1, 1500)};
    }
  }

  // ---------- The checkpoint itself ----------

  ghost predicate NoUnreadableRestart(events: seq<Event>) {
    forall i :: 0 <= i < |events| ==> events[i] != Restart(false)
  }

  lemma StepMonotone(name: string, s: State, e: Event)
    requires Inv(name, s) && Orderly(s, e) && Get(s.file, name) <= Get(s.cache, name)
    ensures var s' := Apply(name, s, e);
      && (!e.Restart? ==> Get(s.cache, name) <= Get(s'.cache, name))
      && (e != Restart(false) ==> Get(s.file, name) <= Get(s'.file, name) <= Get(s'.cache, name))
  {
    if s.phase.Posting? {
      MillisFloor(Last(s.phase.batch), Get(s.cache, name));
    }
  }

  /** While the file stays readable, the value on disk never decreases and never exceeds the one in
      memory; the one in memory never decreases between restarts. */
  lemma {:induction false} CheckpointMonotone(name: string, s: State, events: seq<Event>)
    requires Inv(name, s) && OrderlyRun(name, s, events) && NoUnreadableRestart(events)
    requires Get(s.file, name) <= Get(s.cache, name)
    ensures var s' := Run(name, s, events);
      && Get(s.file, name) <= Get(s'.file, name) <= Get(s'.cache, name)
      && ((forall i :: 0 <= i < |events| ==> !events[i].Restart?) ==> Get(s.cache, name) <= Get(s'.cache, name))
  {
    if events != [] {
      var n := |events| - 1;
      CheckpointMonotone(name, s, events[..n]);
      NothingBelowCheckpointSkipped(name, s, events[..n]);
      StepMonotone(name, Run(name, s, events[..n]), events[n]);
      assert events[n] != Restart(false);
    }
  }

  /** The steps of one `syncEntity` call whose query returned `rows`. */
  function CycleEvents(limit: nat, rows: seq<Version>, answered: bool, written: bool): seq<Event> {
    if rows == [] then [] else [ReadBatch(limit, rows), if answered then Answered(written) else Failed]
  }

  lemma CycleRun(name: string, s: State, limit: nat, rows: seq<Version>, answered: bool, written: bool)
    ensures Run(name, s, CycleEvents(limit, rows, answered, written)) == if rows == [] then s
      else Apply(name, Apply(name, s, ReadBatch(limit, rows)), if answered then Answered(written) else Failed)
  {
    hide Apply;
    var events := CycleEvents(limit, rows, answered, written);
    if rows != [] {
      assert events[..1][..0] == [] && Run(name, s, events[..1]) == Apply(name, s, events[0]);
    }
  }

  lemma MillisIs(stamp: nat)
    ensures Millis(stamp) == stamp - stamp % 1000
  {
  }

  class EntitySync {
    const name: string
    const store: CheckpointStore
    ghost var table: map<nat, nat>
    ghost var acked: set<Version>
    ghost var sent: seq<seq<Version>>
    ghost var newest: nat
    ghost var phase: Phase

    ghost function Snapshot(): State
      reads this, store
    {
      State(table, store.cache, store.file, acked, sent, newest, phase)
    }

    constructor (name: string, store: CheckpointStore)
      ensures this.name == name && this.store == store
      ensures Snapshot() == State(map[], store.cache, store.file, {}, [], 0, Idle)
    {
      this.name, this.store := name, store;
      table, acked, sent, newest, phase := map[], {}, [], 0, Idle;
    }

    /** `syncEntity` after its query returned `rows`: the checkpoint moves only once the post of
        the batch was answered with 200. */
    method SyncEntity(limit: nat, rows: seq<Version>, answered: bool, progress: Progress)
      requires phase == Idle && IsBatch(table, Get(store.cache, name), limit, rows)
      modifies this, store
      ensures phase == Idle
      ensures Snapshot() == Run(name, old(Snapshot()), CycleEvents(limit, rows, answered, progress == Renamed))
      ensures if rows != [] && answered
        then store.cache == old(store.cache)[name := Last(rows) - Last(rows) % 1000]
          && store.file == if progress == Renamed then store.cache else old(store.file)
        else store.cache == old(store.cache) && store.file == old(store.file)
      ensures acked == if rows != [] && answered then old(acked) + Elements(rows) else old(acked)
    {
      CycleRun(name, Snapshot(), limit, rows, answered, progress == Renamed);
      hide IsBatch, Millis, Elements, Run, CycleEvents;
      if rows == [] {
        return;
      }
      sent, phase := sent + [rows], Posting(rows);
      newest := if Last(rows) > newest then Last(rows) else newest;
      if answered {
        acked := acked + Elements(rows);
        store.SaveCheckpoint(name, Last(rows), progress);
        MillisIs(Last(rows));
      }
      phase := Idle;
    }

    /** A crash or restart of the agent: what is in flight is forgotten, the file is read again. */
    method RestartAgent(readable: bool)
      modifies this`phase, store`cache
      ensures Snapshot() == Apply(name, old(Snapshot()), Restart(readable))
      ensures phase == Idle && store.cache == if readable then store.file else map[]
    {
      hide IsBatch, Millis, Elements;
      store.LoadFromDisk(readable);
      phase := Idle;
    }
  }
}
