/** The interleaved transactions of RowLocks against the atomic handlers of SaleLifecycle: any
    interleaving ends where the committed tasks would, run one after another in commit order. */
module SerialOrder {
  import RowLocks
  import Life = SaleLifecycle
  import opened StockLedger

  function Items(lines: seq<RowLocks.Line>): seq<Life.Item> {
    seq(|lines|, i requires 0 <= i < |lines| => Life.Item(lines[i].product, lines[i].qty))
  }

  function Lines(lines: seq<RowLocks.Line>): seq<Life.Line> {
    seq(|lines|, i requires 0 <= i < |lines| => Life.Line(lines[i].product, lines[i].qty, 0, 0))
  }

  /** The atomic handler call that does a task. */
  function Handler(task: RowLocks.Task): Life.Event {
    match task
    case Sell(key, lines) => Life.Create(key, false, Items(lines), 0, true)
    case Post(grn, lines) => Life.PostGoods(grn, Lines(lines), true)
  }

  function Handlers(log: seq<RowLocks.Task>): seq<Life.Event> {
    seq(|log|, i requires 0 <= i < |log| => Handler(log[i]))
  }

  function Serial(initial: Stock, log: seq<RowLocks.Task>): Life.Shop {
    Life.Run(Life.Opening(initial), Handlers(log))
  }

  lemma {:induction false} ItemsQty(lines: seq<RowLocks.Line>, product: int)
    ensures Life.Qty(Items(lines), product) == RowLocks.Qty(lines, product) == Life.Accepted(Lines(lines), product)
  {
    if lines != [] {
      var n := |lines| - 1;
      ItemsQty(lines[..n], product);
      assert Items(lines)[..n] == Items(lines[..n]) && Lines(lines)[..n] == Lines(lines[..n]);
    }
  }

  lemma SerialSnoc(initial: Stock, log: seq<RowLocks.Task>, task: RowLocks.Task)
    ensures Serial(initial, log + [task]) == Life.Apply(Serial(initial, log), Handler(task))
  {
    assert Handlers(log + [task])[..|log|] == Handlers(log);
  }

  /** The serial run has the same stock, and has accepted exactly the recorded sales and notes. */
  ghost predicate SerialOk(initial: Stock, s: RowLocks.State) {
    var shop := Serial(initial, s.log);
    && shop.book.stock == s.stock
    && (forall key :: Life.HasTxn(shop.txns, key) <==> RowLocks.Recorded(s.log, RowLocks.SaleNumber(key)))
    && forall grn :: Life.HasNote(shop.notes, grn) <==> RowLocks.Recorded(s.log, RowLocks.GrnRow(grn))
  }

  lemma HasNoteAppend(notes: seq<Life.Note>, note: Life.Note, grn: string)
    ensures Life.HasNote(notes + [note], grn) <==> Life.HasNote(notes, grn) || note.ref == grn
  {
    if k :| 0 <= k < |notes| && notes[k].ref == grn {
      assert (notes + [note])[k].ref == grn;
    }
    assert (notes + [note])[|notes|] == note;
  }

  /** A sale and its record on one side, a note and its record on the other. */
  lemma RecordsGrow(before: Life.Shop, after: Life.Shop, log: seq<RowLocks.Task>, task: RowLocks.Task)
    requires forall key :: Life.HasTxn(before.txns, key) <==> RowLocks.Recorded(log, RowLocks.SaleNumber(key))
    requires forall grn :: Life.HasNote(before.notes, grn) <==> RowLocks.Recorded(log, RowLocks.GrnRow(grn))
    requires task.Sell? ==> (
      && after.notes == before.notes && |after.txns| == |before.txns| + 1
      && after.txns == before.txns + [after.txns[|before.txns|]] && after.txns[|before.txns|].number == task.key)
    requires task.Post? ==> (
      && after.txns == before.txns && |after.notes| == |before.notes| + 1
      && after.notes == before.notes + [after.notes[|before.notes|]] && after.notes[|before.notes|].ref == task.grn)
    ensures forall key :: Life.HasTxn(after.txns, key) <==> RowLocks.Recorded(log + [task], RowLocks.SaleNumber(key))
    ensures forall grn :: Life.HasNote(after.notes, grn) <==> RowLocks.Recorded(log + [task], RowLocks.GrnRow(grn))
  {
    forall key
      ensures Life.HasTxn(after.txns, key) <==> RowLocks.Recorded(log + [task], RowLocks.SaleNumber(key))
    {
      RowLocks.RecordedSnoc(log, task, RowLocks.SaleNumber(key));
      if task.Sell? {
        Life.HasTxnAppend(before.txns, after.txns[|before.txns|], key);
      }
    }
    forall grn
      ensures Life.HasNote(after.notes, grn) <==> RowLocks.Recorded(log + [task], RowLocks.GrnRow(grn))
    {
      RowLocks.RecordedSnoc(log, task, RowLocks.GrnRow(grn));
      if task.Post? {
        HasNoteAppend(before.notes, after.notes[|before.notes|], grn);
      }
    }
  }

  /** At its commit a sale still passes the handler's check, since the rows it read are locked. */
  lemma SaleCommitsAsHandler(initial: Stock, s: RowLocks.State, id: nat)
    requires RowLocks.Inv(initial, s) && SerialOk(initial, s)
    requires id in s.procs && s.procs[id].task.Sell? && s.procs[id].claimed
    requires s.procs[id].done == |s.procs[id].task.lines|
    requires forall product :: product in s.procs[id].seen ==> 0 <= RowLocks.Written(s.procs[id])[product]
    ensures var p := s.procs[id];
      SerialOk(initial, s.(stock := s.stock + RowLocks.Written(p), log := s.log + [p.task]))
  {
    hide Serial, Life.Deduct, Life.Qty, RowLocks.Qty, RowLocks.TotalEffect;
    var p := s.procs[id];
    assert RowLocks.ProcOk(s, id, p);
    var shop := Serial(initial, s.log);
    var items := Items(p.task.lines);
    assert Life.Available(shop.book.stock, items);
    Life.DeductEffect(shop.book, items, p.task.key);
    var after := s.stock + RowLocks.Written(p);
    var book := Life.Deduct(shop.book, items, p.task.key);
    forall product | product in s.stock
      ensures book.stock[product] == after[product] && 0 <= after[product]
    {
      ItemsQty(p.task.lines, product);
      if product !in p.seen {
        RowLocks.UnseenIsUntouched(p.task.lines, product);
      }
    }
    assert book.stock == after;
    SerialSnoc(initial, s.log, p.task);
    RecordsGrow(shop, Serial(initial, s.log + [p.task]), s.log, p.task);
  }

  lemma PostingCommitsAsHandler(initial: Stock, s: RowLocks.State, id: nat)
    requires RowLocks.Inv(initial, s) && SerialOk(initial, s)
    requires id in s.procs && s.procs[id].task.Post? && s.procs[id].claimed
    requires s.procs[id].done == |s.procs[id].task.lines|
    ensures var p := s.procs[id];
      SerialOk(initial, s.(stock := s.stock + RowLocks.Written(p), log := s.log + [p.task]))
  {
    hide Serial, Life.ReceiveAll, Life.Accepted, RowLocks.Qty, RowLocks.TotalEffect;
    var p := s.procs[id];
    assert RowLocks.ProcOk(s, id, p);
    var shop := Serial(initial, s.log);
    var lines := Lines(p.task.lines);
    assert Life.LinesKnown(shop.book.stock, lines);
    Life.ReceiveEffect(shop.book, lines, p.task.grn);
    var after := s.stock + RowLocks.Written(p);
    var book := Life.ReceiveAll(shop.book, lines, p.task.grn);
    forall product | product in s.stock
      ensures book.stock[product] == after[product]
    {
      ItemsQty(p.task.lines, product);
      if product !in p.seen {
        RowLocks.UnseenIsUntouched(p.task.lines, product);
      }
    }
    assert book.stock == after;
    SerialSnoc(initial, s.log, p.task);
    RecordsGrow(shop, Serial(initial, s.log + [p.task]), s.log, p.task);
  }

  /** What a step that changes the log must have been: the commit of a finished transaction. */
  lemma LogGrowsByCommit(initial: Stock, s: RowLocks.State, e: RowLocks.Event)
    requires RowLocks.Inv(initial, s) && RowLocks.Apply(s, e).log != s.log
    ensures e.Commit? && e.id in s.procs && s.procs[e.id].claimed
    ensures var p := s.procs[e.id];
      && p.done == |p.task.lines|
      && (forall product :: product in p.seen ==> 0 <= RowLocks.Written(p)[product])
      && RowLocks.Apply(s, e).stock == s.stock + RowLocks.Written(p)
      && RowLocks.Apply(s, e).log == s.log + [p.task]
  {
    assert e.Commit?;
    assert RowLocks.ProcOk(s, e.id, s.procs[e.id]);
  }

  lemma OtherStepsKeepStock(s: RowLocks.State, e: RowLocks.Event)
    requires RowLocks.Apply(s, e).log == s.log
    ensures RowLocks.Apply(s, e).stock == s.stock
  {
    if e.Commit? && e.id in s.procs {
      assert (s.log + [s.procs[e.id].task])[|s.log|] == s.procs[e.id].task;
    }
  }

  lemma StepStaysSerial(initial: Stock, s: RowLocks.State, e: RowLocks.Event)
    requires RowLocks.Inv(initial, s) && SerialOk(initial, s)
    ensures SerialOk(initial, RowLocks.Apply(s, e))
  {
    hide RowLocks.Inv, RowLocks.Apply, Serial;
    if RowLocks.Apply(s, e).log == s.log {
      OtherStepsKeepStock(s, e);
    } else {
      LogGrowsByCommit(initial, s, e);
      if s.procs[e.id].task.Sell? {
        SaleCommitsAsHandler(initial, s, e.id);
      } else {
        PostingCommitsAsHandler(initial, s, e.id);
      }
    }
  }

  /** Every interleaving is serializable: after any run, stock is what the atomic handlers leave
      when the committed tasks run alone in commit order, and those handlers refuse none of them. */
  lemma {:induction false} InterleavingIsSerial(initial: Stock, events: seq<RowLocks.Event>)
    requires NonNeg(initial)
    ensures var s := RowLocks.Run(RowLocks.State(initial, map[], map[], []), events);
      && RowLocks.Inv(initial, s) && SerialOk(initial, s)
      && s.stock == Serial(initial, s.log).book.stock
  {
    hide RowLocks.Inv, RowLocks.Apply;
    var s0 := RowLocks.State(initial, map[], map[], []);
    if events == [] {
      RowLocks.InitialInv(initial);
      assert Handlers([]) == [];
    } else {
      var n := |events| - 1;
      InterleavingIsSerial(initial, events[..n]);
      RowLocks.StepKeepsInv(initial, RowLocks.Run(s0, events[..n]), events[n]);
      StepStaysSerial(initial, RowLocks.Run(s0, events[..n]), events[n]);
    }
  }
}
