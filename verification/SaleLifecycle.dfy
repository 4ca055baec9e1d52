/** The life of a sale and the stock behind it: creation, voiding, M-PESA confirmation, the cleanup
    of stale M-PESA sales, stock adjustments and goods received, each handler one database
    transaction that commits or rolls back. */
module SaleLifecycle {
  import opened StockLedger

  datatype Status = Pending | Completed | Voided

  datatype Item = Item(product: int, qty: int)

  datatype Txn = Txn(number: string, mpesa: bool, status: Status, items: seq<Item>, created: int)

  /** A goods-received line as it reaches stock. */
  datatype Line = Line(product: int, accepted: nat, damaged: nat, rejected: nat)

  /** A posted goods-received note. */
  datatype Note = Note(ref: string, lines: seq<Line>)

  datatype Shop = Shop(book: Book, txns: seq<Txn>, notes: seq<Note>)

  /** `commitOk` stands for every reason the commit may fail that is not modelled by name. */
  datatype Event =
    | Create(number: string, mpesa: bool, items: seq<Item>, created: int, commitOk: bool)
    | VoidSale(number: string, commitOk: bool)
    | Confirm(number: string, commitOk: bool)
    | Cleanup(cutoff: int, faults: set<nat>, commitOk: bool)
    | Adjust(product: int, change: int, commitOk: bool)
    | PostGoods(ref: string, lines: seq<Line>, commitOk: bool)

  predicate HasTxn(txns: seq<Txn>, number: string) {
    exists i :: 0 <= i < |txns| && txns[i].number == number
  }

  predicate HasNote(notes: seq<Note>, ref: string) {
    exists i :: 0 <= i < |notes| && notes[i].ref == ref
  }

  /** The check before any change: each line alone fits the stock of its product. */
  predicate Available(stock: Stock, items: seq<Item>) {
    forall i :: 0 <= i < |items| ==> items[i].product in stock && items[i].qty <= stock[items[i].product]
  }

  predicate Known(stock: Stock, items: seq<Item>) {
    forall i :: 0 <= i < |items| ==> items[i].product in stock
  }

  function Deduct(b: Book, items: seq<Item>, ref: string): (r: Book)
    requires Known(b.stock, items)
    ensures r.stock.Keys == b.stock.Keys
  {
    if items == [] then b
    else
      var n := |items| - 1;
      Move(Deduct(b, items[..n], ref), items[n].product, Sale, -items[n].qty, ref)
  }

  /** Put the items back; an item whose product is gone is passed over. */
  function Restore(b: Book, items: seq<Item>, kind: Kind, ref: string): (r: Book)
    ensures r.stock.Keys == b.stock.Keys
  {
    if items == [] then b
    else
      var n := |items| - 1;
      var r := Restore(b, items[..n], kind, ref);
      if items[n].product in b.stock then Move(r, items[n].product, kind, items[n].qty, ref) else r
  }

  predicate LinesKnown(stock: Stock, lines: seq<Line>) {
    forall i :: 0 <= i < |lines| ==> lines[i].product in stock
  }

  /** One received line: accepted units enter stock, damaged and rejected ones leave a zero row. */
  function ReceiveLine(b: Book, line: Line, ref: string): (r: Book)
    requires line.product in b.stock
    ensures r.stock.Keys == b.stock.Keys
  {
    var b1 := if line.accepted > 0 then Move(b, line.product, Receive, line.accepted, ref) else b;
    var b2 := if line.damaged > 0 then Move(b1, line.product, ReceiveDamaged, 0, ref) else b1;
    if line.rejected > 0 then Move(b2, line.product, Reject, 0, ref) else b2
  }

  function ReceiveAll(b: Book, lines: seq<Line>, ref: string): (r: Book)
    requires LinesKnown(b.stock, lines)
    ensures r.stock.Keys == b.stock.Keys
  {
    if lines == [] then b
    else
      var n := |lines| - 1;
      ReceiveLine(ReceiveAll(b, lines[..n], ref), lines[n], ref)
  }

  predicate Stale(t: Txn, cutoff: int) {
    t.status == Pending && t.mpesa && t.created < cutoff
  }

  function VoidAt(s: Shop, i: nat, kind: Kind): Shop
    requires i < |s.txns|
  {
    var t := s.txns[i];
    s.(book := Restore(s.book, t.items, kind, t.number), txns := s.txns[i := t.(status := Voided)])
  }

  /** The cleanup loop over the first `n` sales: a failure rolls back everything since the start. */
  function Cleaned(s: Shop, cutoff: int, faults: set<nat>, n: nat): (r: Shop)
    requires n <= |s.txns|
    ensures |r.txns| == |s.txns|
  {
    if n == 0 then s
    else
      var r := Cleaned(s, cutoff, faults, n - 1);
      if !Stale(s.txns[n - 1], cutoff) then r
      else if n - 1 in faults then s
      else VoidAt(r, n - 1, MpesaRestore)
  }

  function IndexOf(txns: seq<Txn>, number: string): (i: nat)
    ensures i <= |txns|
    ensures i < |txns| ==> txns[i].number == number
    ensures i == |txns| ==> !HasTxn(txns, number)
  {
    if txns == [] then 0 else if txns[0].number == number then 0
    else
      var i := IndexOf(txns[1..], number);
      assert forall k | 0 < k < |txns| :: txns[1..][k - 1] == txns[k];
      i + 1
  }

  function Apply(s: Shop, e: Event): Shop {
    match e
    case Create(number, mpesa, items, created, commitOk) =>
      if HasTxn(s.txns, number) || !Available(s.book.stock, items) then s
      else
        var book := Deduct(s.book, items, number);
        var txn := Txn(number, mpesa, if mpesa then Pending else Completed, items, created);
        if commitOk && NonNeg(book.stock) then s.(book := book, txns := s.txns + [txn]) else s
    case VoidSale(number, commitOk) =>
      var i := IndexOf(s.txns, number);
      if i == |s.txns| || s.txns[i].status == Voided || !commitOk then s else VoidAt(s, i, VoidRestore)
    case Confirm(number, commitOk) =>
      var i := IndexOf(s.txns, number);
      if i == |s.txns| || s.txns[i].status != Pending || !commitOk then s
      else s.(txns := s.txns[i := s.txns[i].(status := Completed)])
    case Cleanup(cutoff, faults, commitOk) =>
      if commitOk then Cleaned(s, cutoff, faults, |s.txns|) else s
    case Adjust(product, change, commitOk) =>
      if product !in s.book.stock || !commitOk then s
      else s.(book := MoveClamped(s.book, product, Adjustment, change, ""))
    case PostGoods(ref, lines, commitOk) =>
      if HasNote(s.notes, ref) || lines == [] || !LinesKnown(s.book.stock, lines) || !commitOk then s
      else s.(book := ReceiveAll(s.book, lines, ref), notes := s.notes + [Note(ref, lines)])
  }

  function Run(s: Shop, events: seq<Event>): Shop {
    if events == [] then s else Apply(Run(s, events[..|events| - 1]), events[|events| - 1])
  }

  /** A shop before its first handler runs. */
  function Opening(stock: Stock): Shop {
    Shop(Book(stock, []), [], [])
  }

  // ---------- The handlers ----------

  datatype Outcome = Done | Existing | Refused

  class Database {
    var stock: Stock
    var ledger: seq<Movement>
    var txns: seq<Txn>
    var notes: seq<Note>  // goods-received notes in status POSTED

    ghost function Contents(): Shop
      reads this
    {
      Shop(Book(stock, ledger), txns, notes)
    }

    /** The sale exists and has one of the statuses. */
    ghost predicate CanChange(number: string, from: set<Status>)
      reads this
    {
      var i := IndexOf(txns, number);
      i < |txns| && txns[i].status in from
    }

    constructor (opening: Stock)
      ensures Contents() == Opening(opening)
    {
      stock, ledger, txns, notes := opening, [], [], [];
    }

    method AddMovement(product: int, kind: Kind, delta: int, ref: string)
      requires product in stock
      modifies this`stock, this`ledger
      ensures Book(stock, ledger) == Move(old(Book(stock, ledger)), product, kind, delta, ref)
    {
      var before := stock[product];
      stock := stock[product := before + delta];
      ledger := ledger + [Movement(product, kind, delta, before, stock[product], ref)];
    }

    /** Step 1 of `create_transaction`: every line on its own, before any change. */
    method CheckStock(items: seq<Item>) returns (ok: bool)
      ensures ok <==> Available(stock, items)
    {
      for i := 0 to |items|
        invariant Available(stock, items[..i])
      {
        if items[i].product !in stock || items[i].qty > stock[items[i].product] {
          assert !Available(stock, items);
          return false;
        }
        assert items[..i + 1] == items[..i] + [items[i]];
      }
      assert items[..|items|] == items;
      return true;
    }

    /** Step 4: take the lines out of stock. */
    method DeductItems(items: seq<Item>, ref: string)
      requires Known(stock, items)
      modifies this`stock, this`ledger
      ensures Book(stock, ledger) == Deduct(old(Book(stock, ledger)), items, ref)
    {
      for i := 0 to |items|
        invariant stock.Keys == old(stock).Keys
        invariant Book(stock, ledger) == Deduct(old(Book(stock, ledger)), items[..i], ref)
      {
        assert items[..i + 1][..i] == items[..i];
        AddMovement(items[i].product, Sale, -items[i].qty, ref);
      }
      assert items[..|items|] == items;
    }

    /** `create_transaction`; the money part is in module SaleTotals. */
    method CreateTransaction(number: string, mpesa: bool, items: seq<Item>, created: int, commitOk: bool)
      returns (outcome: Outcome)
      modifies this
      ensures Contents() == Apply(old(Contents()), Create(number, mpesa, items, created, commitOk))
      ensures outcome == Existing <==> exists i :: 0 <= i < |old(txns)| && old(txns)[i].number == number
      ensures outcome == Done <==>
        && (forall i :: 0 <= i < |old(txns)| ==> old(txns)[i].number != number)
        && (forall i :: 0 <= i < |items| ==>
          items[i].product in old(stock) && items[i].qty <= old(stock)[items[i].product])
        && (forall p :: p in old(stock) ==> Qty(items, p) <= old(stock)[p])
        && commitOk
      ensures outcome == Done ==>
        && txns == old(txns) + [Txn(number, mpesa, if mpesa then Pending else Completed, items, created)]
        && stock.Keys == old(stock).Keys && (forall p :: p in stock ==> stock[p] == old(stock)[p] - Qty(items, p))
        && Booked(old(ledger), ledger, old(stock), items, Sale, number)
      ensures notes == old(notes) && (outcome != Done ==> Contents() == old(Contents()))
    {
      hide Booked, Qty, Deduct;
      if HasTxn(txns, number) {
        return Existing;
      }
      var available := CheckStock(items);
      if !available {
        return Refused;
      }
      var savedStock, savedLedger := stock, ledger;
      DeductStock(Book(stock, ledger), items, number);
      DeductRows(Book(stock, ledger), items, number);
      DeductItems(items, number);
      if !commitOk || !NonNeg(stock) {
        stock, ledger := savedStock, savedLedger;
        return Refused;
      }
      txns := txns + [Txn(number, mpesa, if mpesa then Pending else Completed, items, created)];
      return Done;
    }

    method RestoreItems(items: seq<Item>, kind: Kind, ref: string)
      modifies this`stock, this`ledger
      ensures Book(stock, ledger) == Restore(old(Book(stock, ledger)), items, kind, ref)
    {
      for i := 0 to |items|
        invariant stock.Keys == old(stock).Keys
        invariant Book(stock, ledger) == Restore(old(Book(stock, ledger)), items[..i], kind, ref)
      {
        assert items[..i + 1][..i] == items[..i];
        if items[i].product in stock {
          AddMovement(items[i].product, kind, items[i].qty, ref);
        }
      }
      assert items[..|items|] == items;
    }

    method VoidTransaction(number: string, commitOk: bool) returns (outcome: Outcome)
      modifies this
      ensures Contents() == Apply(old(Contents()), VoidSale(number, commitOk))
      ensures outcome == Done <==> old(CanChange(number, {Pending, Completed})) && commitOk
      ensures outcome == Done ==>
        var i := IndexOf(old(txns), number);
        var t := old(txns)[i];
        && txns == old(txns)[i := t.(status := Voided)]
        && stock.Keys == old(stock).Keys && (forall p :: p in stock ==> stock[p] == old(stock)[p] + Qty(t.items, p))
        && (Known(stock, t.items) ==> Booked(old(ledger), ledger, old(stock), t.items, VoidRestore, number))
      ensures notes == old(notes) && (outcome != Done ==> Contents() == old(Contents()))
    {
      hide Booked, Qty, Restore;
      var i := IndexOf(txns, number);
      if i == |txns| || txns[i].status == Voided || !commitOk {
        return Refused;
      }
      RestoreStock(Book(stock, ledger), txns[i].items, VoidRestore, number);
      if Known(stock, txns[i].items) {
        RestoreRows(Book(stock, ledger), txns[i].items, VoidRestore, number);
      }
      RestoreItems(txns[i].items, VoidRestore, txns[i].number);
      txns := txns[i := txns[i].(status := Voided)];
      return Done;
    }

    /** The state change shared by `mpesa_confirm` and the M-PESA callback. */
    method ConfirmPayment(number: string, commitOk: bool) returns (outcome: Outcome)
      modifies this`txns
      ensures Contents() == Apply(old(Contents()), Confirm(number, commitOk))
      ensures outcome == Done <==> old(CanChange(number, {Pending})) && commitOk
      ensures outcome == Done ==>
        var i := IndexOf(old(txns), number);
        txns == old(txns)[i := old(txns)[i].(status := Completed)]
      ensures outcome != Done ==> txns == old(txns)
    {
      var i := IndexOf(txns, number);
      if i == |txns| || txns[i].status != Pending || !commitOk {
        return Refused;
      }
      txns := txns[i := txns[i].(status := Completed)];
      return Done;
    }

    method CleanupStaleMpesa(cutoff: int, faults: set<nat>, commitOk: bool)
      modifies this
      ensures Contents() == Apply(old(Contents()), Cleanup(cutoff, faults, commitOk))
      ensures !commitOk ==> Contents() == old(Contents())
      ensures commitOk && faults == {} ==> |txns| == |old(txns)| && forall i :: 0 <= i < |txns| ==>
        var t := old(txns)[i];
        txns[i] == if t.status == Pending && t.mpesa && t.created < cutoff then t.(status := Voided) else t
      ensures old(ledger) <= ledger && notes == old(notes)
      ensures forall j :: |old(ledger)| <= j < |ledger| ==> ledger[j].kind == MpesaRestore
    {
      CleanedRows(Contents(), cutoff, faults, |txns|);
      if faults == {} {
        FaultlessCleanup(Contents(), cutoff);
      }
      var savedStock, savedLedger, savedTxns := stock, ledger, txns;
      for i := 0 to |savedTxns|
        invariant Contents() == Cleaned(old(Contents()), cutoff, faults, i) && notes == old(notes)
      {
        if Stale(savedTxns[i], cutoff) {
          if i in faults {
            stock, ledger, txns := savedStock, savedLedger, savedTxns;
          } else {
            var t := txns[i];
            RestoreItems(t.items, MpesaRestore, t.number);
            txns := txns[i := t.(status := Voided)];
          }
        }
      }
      if !commitOk {
        stock, ledger, txns := savedStock, savedLedger, savedTxns;
      }
    }

    method AdjustStock(product: int, change: int, commitOk: bool)
      modifies this
      ensures Contents() == Apply(old(Contents()), Adjust(product, change, commitOk))
      ensures product in old(stock) && commitOk ==>
        var before := old(stock)[product];
        var left := if before + change < 0 then 0 else before + change;
        && stock == old(stock)[product := left]
        && ledger == old(ledger) + [Movement(product, Adjustment, change, before, left, "")]
      ensures product !in old(stock) || !commitOk ==> stock == old(stock) && ledger == old(ledger)
      ensures txns == old(txns) && notes == old(notes)
    {
      if product in stock && commitOk {
        var before := stock[product];
        stock := stock[product := Clamp(before + change)];
        ledger := ledger + [Movement(product, Adjustment, change, before, stock[product], "")];
      }
    }

    /** Steps b to e of `post_grn` for one received line. */
    method ReceiveOne(line: Line, ref: string)
      requires line.product in stock
      modifies this`stock, this`ledger
      ensures Book(stock, ledger) == ReceiveLine(old(Book(stock, ledger)), line, ref)
      ensures stock == old(stock)[line.product := old(stock)[line.product] + line.accepted]
      ensures var before := old(stock)[line.product];
        var after := before + line.accepted;
        ledger == old(ledger)
          + (if line.accepted > 0 then [Movement(line.product, Receive, line.accepted, before, after, ref)] else [])
          + (if line.damaged > 0 then [Movement(line.product, ReceiveDamaged, 0, after, after, ref)] else [])
          + (if line.rejected > 0 then [Movement(line.product, Reject, 0, after, after, ref)] else [])
    {
      if line.accepted > 0 {
        AddMovement(line.product, Receive, line.accepted, ref);
      }
      if line.damaged > 0 {
        AddMovement(line.product, ReceiveDamaged, 0, ref);
      }
      if line.rejected > 0 {
        AddMovement(line.product, Reject, 0, ref);
      }
    }

    /** The stock side of `post_grn`: a note that is posted or empty is refused. */
    method PostGrn(ref: string, lines: seq<Line>, commitOk: bool) returns (outcome: Outcome)
      modifies this
      ensures Contents() == Apply(old(Contents()), PostGoods(ref, lines, commitOk))
      ensures outcome == Existing <==> HasNote(old(notes), ref)
      ensures outcome == Done <==>
        !HasNote(old(notes), ref) && lines != [] && LinesKnown(old(stock), lines) && commitOk
      ensures outcome == Done ==>
        && notes == old(notes) + [Note(ref, lines)]
        && stock.Keys == old(stock).Keys && (forall p :: p in stock ==> stock[p] == old(stock)[p] + Accepted(lines, p))
      ensures txns == old(txns) && (outcome != Done ==> Contents() == old(Contents()))
    {
      hide ReceiveLine, Accepted;
      if HasNote(notes, ref) {
        return Existing;
      }
      if lines == [] {
        return Refused;
      }
      var savedStock, savedLedger := stock, ledger;
      for i := 0 to |lines|
        invariant LinesKnown(savedStock, lines[..i]) && stock.Keys == savedStock.Keys
        invariant txns == old(txns) && notes == old(notes)
        invariant Book(stock, ledger) == ReceiveAll(old(Book(stock, ledger)), lines[..i], ref)
      {
        if lines[i].product !in stock {
          stock, ledger := savedStock, savedLedger;
          assert !LinesKnown(savedStock, lines);
          return Refused;
        }
        assert lines[..i + 1][..i] == lines[..i];
        ReceiveOne(lines[i], ref);
      }
      assert lines[..|lines|] == lines;
      if !commitOk {
        stock, ledger := savedStock, savedLedger;
        return Refused;
      }
      ReceiveStock(Book(savedStock, savedLedger), lines, ref);
      notes := notes + [Note(ref, lines)];
      return Done;
    }
  }

  // ---------- What every handler keeps ----------

  function Qty(items: seq<Item>, product: int): int {
    if items == [] then 0
    else
      var n := |items| - 1;
      Qty(items[..n], product) + if items[n].product == product then items[n].qty else 0
  }

  /** What the items' rows say of a product after the first `n` of them. */
  function Reached(stock: Stock, items: seq<Item>, n: nat, kind: Kind, product: int): int
    requires product in stock && n <= |items|
  {
    if kind == Sale then stock[product] - Qty(items[..n], product) else stock[product] + Qty(items[..n], product)
  }

  /** One row for each item, in order, each continuing from what the rows before it left. */
  ghost predicate Booked(before: seq<Movement>, after: seq<Movement>, stock: Stock, items: seq<Item>, kind: Kind,
    ref: string)
  {
    && |after| == |before| + |items| && after[..|before|] == before
    && forall i :: 0 <= i < |items| ==>
      && items[i].product in stock
      && after[|before| + i] == Movement(items[i].product, kind, if kind == Sale then -items[i].qty else items[i].qty,
        Reached(stock, items, i, kind, items[i].product), Reached(stock, items, i + 1, kind, items[i].product), ref)
  }

  function Accepted(lines: seq<Line>, product: int): int {
    if lines == [] then 0
    else
      var n := |lines| - 1;
      Accepted(lines[..n], product) + if lines[n].product == product then lines[n].accepted else 0
  }

  /** Accepted units of the product over the posted notes. */
  function AcceptedOver(notes: seq<Note>, product: int): int {
    if notes == [] then 0
    else AcceptedOver(notes[..|notes| - 1], product) + Accepted(notes[|notes| - 1].lines, product)
  }

  function Live(t: Txn, product: int): int {
    if t.status == Voided then 0 else Qty(t.items, product)
  }

  /** Units of the product on sales that are not voided. */
  function OnSales(txns: seq<Txn>, product: int): int {
    if txns == [] then 0 else OnSales(txns[..|txns| - 1], product) + Live(txns[|txns| - 1], product)
  }

  ghost predicate Positive(items: seq<Item>) {
    forall i :: 0 <= i < |items| ==> items[i].qty > 0
  }

  ghost predicate TxnsOk(stock: Stock, txns: seq<Txn>) {
    && (forall i :: 0 <= i < |txns| ==> Known(stock, txns[i].items) && Positive(txns[i].items))
    && (forall i, j :: 0 <= i < j < |txns| ==> txns[i].number != txns[j].number)
  }

  /** Each note is posted once, and the ledger books what the posted notes accepted. */
  ghost predicate NotesOk(s: Shop) {
    && (forall i, j :: 0 <= i < j < |s.notes| ==> s.notes[i].ref != s.notes[j].ref)
    && forall p :: Total(s.book.ledger, Received, p) == AcceptedOver(s.notes, p)
  }

  /** Stock and live sales add up to what came in. */
  ghost predicate Conserved(opening: Stock, s: Shop) {
    forall p :: p in opening && p in s.book.stock ==>
      s.book.stock[p] + OnSales(s.txns, p)
      == opening[p] + AcceptedOver(s.notes, p) + Total(s.book.ledger, Adjusted, p)
  }

  /** The ledger rows of a sale: deducted once, restored once if voided and never otherwise. */
  ghost predicate Settled(ledger: seq<Movement>, t: Txn) {
    forall p :: Total(ledger, SoldFor(t.number), p) == -Qty(t.items, p)
      && Total(ledger, RestoredFor(t.number), p) == if t.status == Voided then Qty(t.items, p) else 0
  }

  ghost predicate Unused(ledger: seq<Movement>, number: string) {
    forall p :: Total(ledger, SoldFor(number), p) == 0 && Total(ledger, RestoredFor(number), p) == 0
  }

  ghost predicate ShopOk(opening: Stock, s: Shop) {
    && NonNeg(opening) && NonNeg(s.book.stock)
    && BookOk(opening, s.book)
    && TxnsOk(s.book.stock, s.txns)
    && Conserved(opening, s)
    && NotesOk(s)
    && (forall i :: 0 <= i < |s.txns| ==> Settled(s.book.ledger, s.txns[i]))
    && (forall number :: !HasTxn(s.txns, number) ==> Unused(s.book.ledger, number))
  }

  /** What the request schema checks: quantities sold are positive. */
  ghost predicate ValidRequest(e: Event) {
    e.Create? ==> Positive(e.items)
  }

  /** One row more: totals grow by what that row contributes. */
  lemma MoveTotal(b: Book, product: int, kind: Kind, delta: int, ref: string, pick: Pick, p: int)
    requires product in b.stock
    ensures Total(Move(b, product, kind, delta, ref).ledger, pick, p) == Total(b.ledger, pick, p)
      + Contribution(Movement(product, kind, delta, b.stock[product], b.stock[product] + delta, ref), pick, p)
  {
    TotalSnoc(b.ledger, Movement(product, kind, delta, b.stock[product], b.stock[product] + delta, ref), pick, p);
  }

  lemma {:induction false} DeductTotal(b: Book, items: seq<Item>, ref: string, pick: Pick, p: int)
    requires Known(b.stock, items)
    ensures Total(Deduct(b, items, ref).ledger, pick, p)
      == Total(b.ledger, pick, p) - if pick == SoldFor(ref) then Qty(items, p) else 0
  {
    hide Total, Move;
    if items != [] {
      var n := |items| - 1;
      DeductTotal(b, items[..n], ref, pick, p);
      MoveTotal(Deduct(b, items[..n], ref), items[n].product, Sale, -items[n].qty, ref, pick, p);
    }
  }

  lemma {:induction false} DeductStock(b: Book, items: seq<Item>, ref: string)
    requires Known(b.stock, items)
    ensures forall p :: p in b.stock ==> Deduct(b, items, ref).stock[p] == b.stock[p] - Qty(items, p)
  {
    if items != [] {
      DeductStock(b, items[..|items| - 1], ref);
    }
  }

  /** The next item's row. */
  lemma BookedSnoc(before: seq<Movement>, after: seq<Movement>, stock: Stock, items: seq<Item>, kind: Kind, ref: string,
    row: Movement)
    requires items != [] && Booked(before, after, stock, items[..|items| - 1], kind, ref)
    requires var n := |items| - 1;
      && items[n].product in stock
      && row == Movement(items[n].product, kind, if kind == Sale then -items[n].qty else items[n].qty,
        Reached(stock, items, n, kind, items[n].product), Reached(stock, items, n + 1, kind, items[n].product), ref)
    ensures Booked(before, after + [row], stock, items, kind, ref)
  {
    hide Qty;
    var n := |items| - 1;
    var rows := after + [row];
    forall i | 0 <= i < |items|
      ensures items[i].product in stock && rows[|before| + i]
        == Movement(items[i].product, kind, if kind == Sale then -items[i].qty else items[i].qty,
          Reached(stock, items, i, kind, items[i].product), Reached(stock, items, i + 1, kind, items[i].product), ref)
    {
      if i < n {
        assert items[..n][..i] == items[..i] && items[..n][..i + 1] == items[..i + 1];
        assert items[..n][i].product in stock;
      }
    }
  }

  lemma LastDeduct(b: Book, items: seq<Item>, ref: string)
    requires Known(b.stock, items) && items != []
    ensures var n := |items| - 1;
      var product := items[n].product;
      var before, after := Deduct(b, items[..n], ref), Deduct(b, items, ref);
      after.ledger == before.ledger
        + [Movement(product, Sale, -items[n].qty, before.stock[product], after.stock[product], ref)]
  {
  }

  lemma {:induction false} DeductRows(b: Book, items: seq<Item>, ref: string)
    requires Known(b.stock, items)
    ensures Booked(b.ledger, Deduct(b, items, ref).ledger, b.stock, items, Sale, ref)
  {
    if items != [] {
      var n := |items| - 1;
      var before, after := Deduct(b, items[..n], ref), Deduct(b, items, ref);
      var product := items[n].product;
      LastDeduct(b, items, ref);
      DeductStock(b, items[..n], ref);
      DeductStock(b, items, ref);
      DeductRows(b, items[..n], ref);
      assert product in b.stock && items[..n + 1] == items;
      hide Deduct, Known, Booked, Qty;
      BookedSnoc(b.ledger, before.ledger, b.stock, items, Sale, ref,
        Movement(product, Sale, -items[n].qty, before.stock[product], after.stock[product], ref));
    }
  }

  lemma LastRestore(b: Book, items: seq<Item>, kind: Kind, ref: string)
    requires Known(b.stock, items) && items != []
    ensures var n := |items| - 1;
      var product := items[n].product;
      var before, after := Restore(b, items[..n], kind, ref), Restore(b, items, kind, ref);
      after.ledger == before.ledger
        + [Movement(product, kind, items[n].qty, before.stock[product], after.stock[product], ref)]
  {
  }

  lemma {:induction false} RestoreRows(b: Book, items: seq<Item>, kind: Kind, ref: string)
    requires Known(b.stock, items) && kind != Sale
    ensures Booked(b.ledger, Restore(b, items, kind, ref).ledger, b.stock, items, kind, ref)
  {
    if items != [] {
      var n := |items| - 1;
      var before, after := Restore(b, items[..n], kind, ref), Restore(b, items, kind, ref);
      var product := items[n].product;
      LastRestore(b, items, kind, ref);
      RestoreStock(b, items[..n], kind, ref);
      RestoreStock(b, items, kind, ref);
      RestoreRows(b, items[..n], kind, ref);
      assert product in b.stock && items[..n + 1] == items;
      hide Restore, Known, Booked, Qty;
      BookedSnoc(b.ledger, before.ledger, b.stock, items, kind, ref,
        Movement(product, kind, items[n].qty, before.stock[product], after.stock[product], ref));
    }
  }

  /** A sale takes each product down by what its lines say, and books exactly that under its number. */
  lemma DeductEffect(b: Book, items: seq<Item>, ref: string)
    requires Known(b.stock, items)
    ensures forall p :: p in b.stock ==> Deduct(b, items, ref).stock[p] == b.stock[p] - Qty(items, p)
    ensures forall pick, p :: (
      Total(Deduct(b, items, ref).ledger, pick, p)
      == Total(b.ledger, pick, p) - if pick == SoldFor(ref) then Qty(items, p) else 0)
  {
    DeductStock(b, items, ref);
    forall pick, p
      ensures Total(Deduct(b, items, ref).ledger, pick, p)
        == Total(b.ledger, pick, p) - if pick == SoldFor(ref) then Qty(items, p) else 0
    {
      DeductTotal(b, items, ref, pick, p);
    }
  }

  lemma {:induction false} RestoreTotal(b: Book, items: seq<Item>, kind: Kind, ref: string, pick: Pick, p: int)
    requires Known(b.stock, items) && (kind == VoidRestore || kind == MpesaRestore)
    ensures Total(Restore(b, items, kind, ref).ledger, pick, p)
      == Total(b.ledger, pick, p) + if pick == RestoredFor(ref) then Qty(items, p) else 0
  {
    hide Total, Move;
    if items != [] {
      var n := |items| - 1;
      RestoreTotal(b, items[..n], kind, ref, pick, p);
      MoveTotal(Restore(b, items[..n], kind, ref), items[n].product, kind, items[n].qty, ref, pick, p);
    }
  }

  lemma {:induction false} RestoreStock(b: Book, items: seq<Item>, kind: Kind, ref: string)
    ensures forall p :: p in b.stock ==> Restore(b, items, kind, ref).stock[p] == b.stock[p] + Qty(items, p)
  {
    if items != [] {
      RestoreStock(b, items[..|items| - 1], kind, ref);
    }
  }

  lemma RestoreEffect(b: Book, items: seq<Item>, kind: Kind, ref: string)
    requires Known(b.stock, items) && (kind == VoidRestore || kind == MpesaRestore)
    ensures forall p :: p in b.stock ==> Restore(b, items, kind, ref).stock[p] == b.stock[p] + Qty(items, p)
    ensures forall pick, p :: (
      Total(Restore(b, items, kind, ref).ledger, pick, p)
      == Total(b.ledger, pick, p) + if pick == RestoredFor(ref) then Qty(items, p) else 0)
  {
    RestoreStock(b, items, kind, ref);
    forall pick, p
      ensures Total(Restore(b, items, kind, ref).ledger, pick, p)
        == Total(b.ledger, pick, p) + if pick == RestoredFor(ref) then Qty(items, p) else 0
    {
      RestoreTotal(b, items, kind, ref, pick, p);
    }
  }

  lemma ReceiveLineTotal(b: Book, line: Line, ref: string, pick: Pick, p: int)
    requires line.product in b.stock
    ensures Total(ReceiveLine(b, line, ref).ledger, pick, p)
      == Total(b.ledger, pick, p) + if pick == Received && p == line.product then line.accepted else 0
  {
    hide Total;
    MoveTotal(b, line.product, Receive, line.accepted, ref, pick, p);
    var b1 := if line.accepted > 0 then Move(b, line.product, Receive, line.accepted, ref) else b;
    MoveTotal(b1, line.product, ReceiveDamaged, 0, ref, pick, p);
    var b2 := if line.damaged > 0 then Move(b1, line.product, ReceiveDamaged, 0, ref) else b1;
    MoveTotal(b2, line.product, Reject, 0, ref, pick, p);
  }

  lemma {:induction false} ReceiveTotal(b: Book, lines: seq<Line>, ref: string, pick: Pick, p: int)
    requires LinesKnown(b.stock, lines)
    ensures Total(ReceiveAll(b, lines, ref).ledger, pick, p)
      == Total(b.ledger, pick, p) + if pick == Received then Accepted(lines, p) else 0
  {
    hide Total, ReceiveLine;
    if lines != [] {
      var n := |lines| - 1;
      ReceiveTotal(b, lines[..n], ref, pick, p);
      ReceiveLineTotal(ReceiveAll(b, lines[..n], ref), lines[n], ref, pick, p);
    }
  }

  lemma {:induction false} ReceiveStock(b: Book, lines: seq<Line>, ref: string)
    requires LinesKnown(b.stock, lines)
    ensures forall p :: p in b.stock ==> ReceiveAll(b, lines, ref).stock[p] == b.stock[p] + Accepted(lines, p)
  {
    if lines != [] {
      ReceiveStock(b, lines[..|lines| - 1], ref);
    }
  }

  /** A posted note raises each product by its accepted units only. */
  lemma ReceiveEffect(b: Book, lines: seq<Line>, ref: string)
    requires LinesKnown(b.stock, lines)
    ensures var r := ReceiveAll(b, lines, ref);
      && (forall p :: p in b.stock ==> r.stock[p] == b.stock[p] + Accepted(lines, p))
      && (forall pick, p :: (
        Total(r.ledger, pick, p) == Total(b.ledger, pick, p) + if pick == Received then Accepted(lines, p) else 0))
  {
    ReceiveStock(b, lines, ref);
    forall pick, p
      ensures Total(ReceiveAll(b, lines, ref).ledger, pick, p)
        == Total(b.ledger, pick, p) + if pick == Received then Accepted(lines, p) else 0
    {
      ReceiveTotal(b, lines, ref, pick, p);
    }
  }

  /** A committed sale never clamps: its rows only go down, and the last of them is not negative. */
  lemma {:induction false} DeductKeepsBook(opening: Stock, b: Book, items: seq<Item>, ref: string)
    requires BookOk(opening, b) && Known(b.stock, items) && Positive(items)
    requires NonNeg(Deduct(b, items, ref).stock)
    ensures BookOk(opening, Deduct(b, items, ref))
  {
    if items != [] {
      var n := |items| - 1;
      var r := Deduct(b, items[..n], ref);
      assert forall p | p in r.stock :: r.stock[p] >= Deduct(b, items, ref).stock[p];
      DeductKeepsBook(opening, b, items[..n], ref);
      MoveKeepsBook(opening, r, items[n].product, Sale, -items[n].qty, ref);
    }
  }

  lemma {:induction false} RestoreKeepsBook(opening: Stock, b: Book, items: seq<Item>, kind: Kind, ref: string)
    requires BookOk(opening, b) && NonNeg(b.stock) && Positive(items)
    ensures BookOk(opening, Restore(b, items, kind, ref)) && NonNeg(Restore(b, items, kind, ref).stock)
  {
    if items != [] {
      var n := |items| - 1;
      RestoreKeepsBook(opening, b, items[..n], kind, ref);
      if items[n].product in b.stock {
        MoveKeepsBook(opening, Restore(b, items[..n], kind, ref), items[n].product, kind, items[n].qty, ref);
      }
    }
  }

  lemma ReceiveMoveKeepsBook(opening: Stock, b: Book, product: int, kind: Kind, delta: nat, ref: string)
    requires BookOk(opening, b) && NonNeg(b.stock) && product in b.stock
    ensures BookOk(opening, Move(b, product, kind, delta, ref)) && NonNeg(Move(b, product, kind, delta, ref).stock)
  {
    MoveKeepsBook(opening, b, product, kind, delta, ref);
  }

  lemma ReceiveLineKeepsBook(opening: Stock, b: Book, line: Line, ref: string)
    requires BookOk(opening, b) && NonNeg(b.stock) && line.product in b.stock
    ensures BookOk(opening, ReceiveLine(b, line, ref)) && NonNeg(ReceiveLine(b, line, ref).stock)
  {
    hide BookOk, NonNeg;
    ReceiveMoveKeepsBook(opening, b, line.product, Receive, line.accepted, ref);
    var b1 := if line.accepted > 0 then Move(b, line.product, Receive, line.accepted, ref) else b;
    ReceiveMoveKeepsBook(opening, b1, line.product, ReceiveDamaged, 0, ref);
    var b2 := if line.damaged > 0 then Move(b1, line.product, ReceiveDamaged, 0, ref) else b1;
    ReceiveMoveKeepsBook(opening, b2, line.product, Reject, 0, ref);
  }

  lemma {:induction false} ReceiveKeepsBook(opening: Stock, b: Book, lines: seq<Line>, ref: string)
    requires BookOk(opening, b) && NonNeg(b.stock) && LinesKnown(b.stock, lines)
    ensures BookOk(opening, ReceiveAll(b, lines, ref)) && NonNeg(ReceiveAll(b, lines, ref).stock)
  {
    if lines != [] {
      var n := |lines| - 1;
      ReceiveKeepsBook(opening, b, lines[..n], ref);
      ReceiveLineKeepsBook(opening, ReceiveAll(b, lines[..n], ref), lines[n], ref);
    }
  }

  lemma {:induction false} OnSalesUpdate(txns: seq<Txn>, i: nat, t: Txn, product: int)
    requires i < |txns|
    ensures OnSales(txns[i := t], product) == OnSales(txns, product) - Live(txns[i], product) + Live(t, product)
  {
    var n := |txns| - 1;
    if i < n {
      OnSalesUpdate(txns[..n], i, t, product);
      assert txns[i := t][..n] == txns[..n][i := t];
    } else {
      assert txns[i := t][..n] == txns[..n];
    }
  }

  lemma HasTxnUpdate(txns: seq<Txn>, i: nat, t: Txn)
    requires i < |txns| && t.number == txns[i].number
    ensures forall number :: HasTxn(txns[i := t], number) <==> HasTxn(txns, number)
  {
    var txns' := txns[i := t];
    forall number
      ensures HasTxn(txns', number) <==> HasTxn(txns, number)
    {
      if k :| 0 <= k < |txns| && txns[k].number == number {
        assert txns'[k].number == number;
      }
      if k :| 0 <= k < |txns'| && txns'[k].number == number {
        assert txns[k].number == number;
      }
    }
  }

  /** Stock up by what leaves the live sales. */
  lemma VoidConserves(opening: Stock, s: Shop, i: nat, kind: Kind)
    requires Conserved(opening, s) && i < |s.txns| && s.txns[i].status != Voided && Known(s.book.stock, s.txns[i].items)
    requires kind == VoidRestore || kind == MpesaRestore
    ensures Conserved(opening, VoidAt(s, i, kind))
  {
    hide Total, Restore;
    var t := s.txns[i];
    var s' := VoidAt(s, i, kind);
    RestoreEffect(s.book, t.items, kind, t.number);
    forall p | p in opening && p in s'.book.stock
      ensures s'.book.stock[p] + OnSales(s'.txns, p)
        == opening[p] + AcceptedOver(s'.notes, p) + Total(s'.book.ledger, Adjusted, p)
    {
      OnSalesUpdate(s.txns, i, t.(status := Voided), p);
    }
  }

  /** The restore is booked under the voided sale's number and under no other. */
  lemma VoidSettles(s: Shop, i: nat, kind: Kind)
    requires i < |s.txns| && s.txns[i].status != Voided && TxnsOk(s.book.stock, s.txns)
    requires kind == VoidRestore || kind == MpesaRestore
    requires forall k :: 0 <= k < |s.txns| ==> Settled(s.book.ledger, s.txns[k])
    requires forall number :: !HasTxn(s.txns, number) ==> Unused(s.book.ledger, number)
    ensures var s' := VoidAt(s, i, kind);
      && (forall k :: 0 <= k < |s'.txns| ==> Settled(s'.book.ledger, s'.txns[k]))
      && (forall number :: !HasTxn(s'.txns, number) ==> Unused(s'.book.ledger, number))
  {
    hide Total, Restore;
    var t := s.txns[i];
    var s' := VoidAt(s, i, kind);
    RestoreEffect(s.book, t.items, kind, t.number);
    HasTxnUpdate(s.txns, i, t.(status := Voided));
    forall k | 0 <= k < |s'.txns|
      ensures Settled(s'.book.ledger, s'.txns[k])
    {
      assert Settled(s.book.ledger, s.txns[k]);
    }
    forall number | !HasTxn(s'.txns, number)
      ensures Unused(s'.book.ledger, number)
    {
      assert HasTxn(s.txns, t.number);
      assert Unused(s.book.ledger, number);
    }
  }

  lemma VoidKeepsNotes(s: Shop, i: nat, kind: Kind)
    requires NotesOk(s) && i < |s.txns| && Known(s.book.stock, s.txns[i].items)
    requires kind == VoidRestore || kind == MpesaRestore
    ensures NotesOk(VoidAt(s, i, kind))
  {
    hide Total, Restore;
    RestoreEffect(s.book, s.txns[i].items, kind, s.txns[i].number);
  }

  lemma VoidKeepsShop(opening: Stock, s: Shop, i: nat, kind: Kind)
    requires ShopOk(opening, s) && i < |s.txns| && s.txns[i].status != Voided
    requires kind == VoidRestore || kind == MpesaRestore
    ensures ShopOk(opening, VoidAt(s, i, kind))
  {
    hide Conserved, Settled, Unused, BookOk, NotesOk;
    RestoreKeepsBook(opening, s.book, s.txns[i].items, kind, s.txns[i].number);
    VoidConserves(opening, s, i, kind);
    VoidSettles(s, i, kind);
    VoidKeepsNotes(s, i, kind);
  }

  lemma HasTxnAppend(txns: seq<Txn>, t: Txn, number: string)
    ensures HasTxn(txns + [t], number) <==> HasTxn(txns, number) || t.number == number
  {
    if k :| 0 <= k < |txns| && txns[k].number == number {
      assert (txns + [t])[k].number == number;
    }
    assert (txns + [t])[|txns|] == t;
  }

  /** Recording a sale: its rows are new, everyone else's are as they were. */
  lemma NewSaleKeepsRows(s: Shop, book: Book, t: Txn)
    requires forall i :: 0 <= i < |s.txns| ==> Settled(s.book.ledger, s.txns[i])
    requires forall number :: !HasTxn(s.txns, number) ==> Unused(s.book.ledger, number)
    requires !HasTxn(s.txns, t.number) && t.status != Voided
    requires forall pick, p :: (
      Total(book.ledger, pick, p)
      == Total(s.book.ledger, pick, p) - if pick == SoldFor(t.number) then Qty(t.items, p) else 0)
    ensures forall i :: 0 <= i <= |s.txns| ==> Settled(book.ledger, (s.txns + [t])[i])
    ensures forall number :: !HasTxn(s.txns + [t], number) ==> Unused(book.ledger, number)
  {
    assert Unused(s.book.ledger, t.number);
    forall i | 0 <= i < |s.txns|
      ensures Settled(book.ledger, s.txns[i])
    {
      assert Settled(s.book.ledger, s.txns[i]);
      assert s.txns[i].number != t.number;
    }
    forall number | !HasTxn(s.txns + [t], number)
      ensures Unused(book.ledger, number)
    {
      HasTxnAppend(s.txns, t, number);
      assert Unused(s.book.ledger, number);
    }
  }

  /** Stock down by what joins the live sales. */
  lemma SaleConserves(opening: Stock, s: Shop, t: Txn)
    requires Conserved(opening, s) && NotesOk(s) && t.status != Voided && Known(s.book.stock, t.items)
    ensures var s' := s.(book := Deduct(s.book, t.items, t.number), txns := s.txns + [t]);
      Conserved(opening, s') && NotesOk(s')
  {
    hide Total, Deduct, Qty;
    DeductEffect(s.book, t.items, t.number);
    assert (s.txns + [t])[..|s.txns|] == s.txns;
  }

  lemma NewSaleTxnsOk(stock: Stock, txns: seq<Txn>, t: Txn)
    requires TxnsOk(stock, txns) && !HasTxn(txns, t.number) && Known(stock, t.items) && Positive(t.items)
    ensures TxnsOk(stock, txns + [t])
  {
    assert forall i | 0 <= i < |txns| :: txns[i].number != t.number;
  }

  lemma SameKeysSameTxns(before: Stock, after: Stock, txns: seq<Txn>)
    requires TxnsOk(before, txns) && after.Keys == before.Keys
    ensures TxnsOk(after, txns)
  {
  }

  lemma SaleKeepsShop(opening: Stock, s: Shop, t: Txn)
    requires ShopOk(opening, s) && !HasTxn(s.txns, t.number) && t.status != Voided
    requires Known(s.book.stock, t.items) && Positive(t.items) && NonNeg(Deduct(s.book, t.items, t.number).stock)
    ensures ShopOk(opening, s.(book := Deduct(s.book, t.items, t.number), txns := s.txns + [t]))
  {
    hide BookOk, Settled, Unused, Total, Deduct, Conserved, NotesOk, TxnsOk, Qty;
    var book := Deduct(s.book, t.items, t.number);
    DeductEffect(s.book, t.items, t.number);
    DeductKeepsBook(opening, s.book, t.items, t.number);
    NewSaleKeepsRows(s, book, t);
    SaleConserves(opening, s, t);
    SameKeysSameTxns(s.book.stock, book.stock, s.txns);
    NewSaleTxnsOk(book.stock, s.txns, t);
  }

  lemma CreateKeepsShop(opening: Stock, s: Shop, e: Event)
    requires ShopOk(opening, s) && e.Create? && Positive(e.items)
    ensures ShopOk(opening, Apply(s, e))
  {
    hide ShopOk, Deduct;
    if !HasTxn(s.txns, e.number) && Available(s.book.stock, e.items) && e.commitOk
      && NonNeg(Deduct(s.book, e.items, e.number).stock) {
      SaleKeepsShop(opening, s, Txn(e.number, e.mpesa, if e.mpesa then Pending else Completed, e.items, e.created));
    }
  }

  /** Steps that leave sales and their rows alone. */
  lemma StockOnlyKeepsShop(opening: Stock, s: Shop, s': Shop)
    requires ShopOk(opening, s) && s'.txns == s.txns
    requires BookOk(opening, s'.book) && NonNeg(s'.book.stock) && Conserved(opening, s') && NotesOk(s')
    requires forall ref, p :: Total(s'.book.ledger, SoldFor(ref), p) == Total(s.book.ledger, SoldFor(ref), p)
    requires forall ref, p :: Total(s'.book.ledger, RestoredFor(ref), p) == Total(s.book.ledger, RestoredFor(ref), p)
    ensures ShopOk(opening, s')
  {
    hide BookOk, NonNeg, Conserved, NotesOk, Total;
    assert s'.book.stock.Keys == s.book.stock.Keys by {
      SameKeys(opening, s.book, s'.book);
    }
    forall k | 0 <= k < |s.txns|
      ensures Settled(s'.book.ledger, s.txns[k])
    {
      assert Settled(s.book.ledger, s.txns[k]);
    }
    forall number | !HasTxn(s.txns, number)
      ensures Unused(s'.book.ledger, number)
    {
      assert Unused(s.book.ledger, number);
    }
  }

  lemma SameKeys(opening: Stock, a: Book, b: Book)
    requires BookOk(opening, a) && BookOk(opening, b)
    ensures a.stock.Keys == b.stock.Keys
  {
  }

  lemma AdjustKeepsShop(opening: Stock, s: Shop, product: int, change: int)
    requires ShopOk(opening, s) && product in s.book.stock
    ensures ShopOk(opening, s.(book := MoveClamped(s.book, product, Adjustment, change, "")))
  {
    hide BookOk, Settled, Unused, TxnsOk, Total;
    var book := MoveClamped(s.book, product, Adjustment, change, "");
    ClampedKeepsBook(opening, s.book, product, Adjustment, change, "");
    var before := s.book.stock[product];
    forall pick, p
      ensures Total(book.ledger, pick, p) == Total(s.book.ledger, pick, p)
        + if pick == Adjusted && p == product then Clamp(before + change) - before else 0
    {
      TotalSnoc(s.book.ledger, Movement(product, Adjustment, change, before, Clamp(before + change), ""), pick, p);
    }
    StockOnlyKeepsShop(opening, s, s.(book := book));
  }

  lemma {:induction false} CleanupKeepsShop(opening: Stock, s: Shop, cutoff: int, faults: set<nat>, n: nat)
    requires ShopOk(opening, s) && n <= |s.txns|
    ensures ShopOk(opening, Cleaned(s, cutoff, faults, n))
    ensures forall i :: n <= i < |s.txns| ==> Cleaned(s, cutoff, faults, n).txns[i] == s.txns[i]
  {
    hide ShopOk, Restore;
    if n > 0 {
      CleanupKeepsShop(opening, s, cutoff, faults, n - 1);
      if Stale(s.txns[n - 1], cutoff) && n - 1 !in faults {
        VoidKeepsShop(opening, Cleaned(s, cutoff, faults, n - 1), n - 1, MpesaRestore);
      }
    }
  }

  lemma ConfirmKeepsShop(opening: Stock, s: Shop, i: nat)
    requires ShopOk(opening, s) && i < |s.txns| && s.txns[i].status == Pending
    ensures ShopOk(opening, s.(txns := s.txns[i := s.txns[i].(status := Completed)]))
  {
    var t := s.txns[i].(status := Completed);
    HasTxnUpdate(s.txns, i, t);
    forall p
      ensures OnSales(s.txns[i := t], p) == OnSales(s.txns, p)
    {
      OnSalesUpdate(s.txns, i, t, p);
    }
    assert Settled(s.book.ledger, s.txns[i]);
    assert Settled(s.book.ledger, t);
  }

  lemma AcceptedSnoc(notes: seq<Note>, note: Note, product: int)
    ensures AcceptedOver(notes + [note], product) == AcceptedOver(notes, product) + Accepted(note.lines, product)
  {
    assert (notes + [note])[..|notes|] == notes;
  }

  lemma GoodsKeepShop(opening: Stock, s: Shop, ref: string, lines: seq<Line>)
    requires ShopOk(opening, s) && LinesKnown(s.book.stock, lines) && !HasNote(s.notes, ref)
    ensures ShopOk(opening, s.(book := ReceiveAll(s.book, lines, ref), notes := s.notes + [Note(ref, lines)]))
  {
    hide ReceiveAll, Total, BookOk, Settled, Unused, TxnsOk, Accepted;
    var s' := s.(book := ReceiveAll(s.book, lines, ref), notes := s.notes + [Note(ref, lines)]);
    ReceiveEffect(s.book, lines, ref);
    ReceiveKeepsBook(opening, s.book, lines, ref);
    forall p
      ensures AcceptedOver(s'.notes, p) == AcceptedOver(s.notes, p) + Accepted(lines, p)
    {
      AcceptedSnoc(s.notes, Note(ref, lines), p);
    }
    assert forall i | 0 <= i < |s.notes| :: s.notes[i].ref != ref;
    StockOnlyKeepsShop(opening, s, s');
  }

  lemma StepKeepsShop(opening: Stock, s: Shop, e: Event)
    requires ShopOk(opening, s) && ValidRequest(e)
    ensures ShopOk(opening, Apply(s, e))
  {
    hide ShopOk;
    match e
    case Create(_, _, _, _, _) => CreateKeepsShop(opening, s, e);
    case VoidSale(number, commitOk) =>
      var i := IndexOf(s.txns, number);
      if i < |s.txns| && s.txns[i].status != Voided {
        VoidKeepsShop(opening, s, i, VoidRestore);
      }
    case Confirm(number, _) =>
      var i := IndexOf(s.txns, number);
      if i < |s.txns| && s.txns[i].status == Pending {
        ConfirmKeepsShop(opening, s, i);
      }
    case Cleanup(cutoff, faults, _) => CleanupKeepsShop(opening, s, cutoff, faults, |s.txns|);
    case Adjust(product, change, _) =>
      if product in s.book.stock {
        AdjustKeepsShop(opening, s, product, change);
      }
    case PostGoods(ref, lines, _) =>
      if LinesKnown(s.book.stock, lines) && !HasNote(s.notes, ref) {
        GoodsKeepShop(opening, s, ref, lines);
      }
  }

  /** Over every run of the handlers: no product's stock is negative; stock plus the units on
      sales not voided equals opening stock plus what the posted notes accepted, each note counted
      once, plus effective adjustments; each sale was deducted exactly once, and restored exactly once
      if it is voided and never if not. */
  lemma {:induction false} StockIsConserved(opening: Stock, s: Shop, events: seq<Event>)
    requires ShopOk(opening, s) && forall i :: 0 <= i < |events| ==> ValidRequest(events[i])
    ensures var s' := Run(s, events);
      && ShopOk(opening, s') && NonNeg(s'.book.stock) && Conserved(opening, s') && NotesOk(s')
      && forall i :: 0 <= i < |s'.txns| ==> Settled(s'.book.ledger, s'.txns[i])
  {
    if events != [] {
      var n := |events| - 1;
      StockIsConserved(opening, s, events[..n]);
      StepKeepsShop(opening, Run(s, events[..n]), events[n]);
    }
  }

  lemma EmptyShopOk(opening: Stock)
    requires NonNeg(opening)
    ensures ShopOk(opening, Opening(opening))
  {
  }

  /** The same from the start: whatever the opening stock and the requests, with the stock and ledger
      the handlers leave. */
  lemma EveryRunConserves(opening: Stock, events: seq<Event>, product: int)
    requires NonNeg(opening) && product in opening && forall i :: 0 <= i < |events| ==> ValidRequest(events[i])
    ensures var s := Run(Opening(opening), events);
      && ShopOk(opening, s) && product in s.book.stock && 0 <= s.book.stock[product]
      && s.book.stock[product] + OnSales(s.txns, product)
        == opening[product] + AcceptedOver(s.notes, product) + Total(s.book.ledger, Adjusted, product)
  {
    EmptyShopOk(opening);
    StockIsConserved(opening, Opening(opening), events);
    assert Conserved(opening, Run(Opening(opening), events));
    SameKeys(opening, Book(opening, []), Run(Opening(opening), events).book);
  }

  /** In every reachable shop the cached quantity is what replaying the product's rows gives, and
      differs from the plain sum of all changes by exactly the deepest clamped deficit. */
  lemma StockIsReplay(opening: Stock, s: Shop, product: int, low: int)
    requires ShopOk(opening, s) && product in opening
    requires IsLowest(opening[product], Deltas(s.book.ledger, product), low)
    ensures var deltas := Deltas(s.book.ledger, product);
      && product in s.book.stock && s.book.stock[product] == Replay(opening[product], deltas)
      && s.book.stock[product] == PlainSum(opening[product], deltas, |deltas|) - if low < 0 then low else 0
  {
    ReplayGivesStock(opening, s.book.ledger, product);
    DeepestDeficit(opening[product], Deltas(s.book.ledger, product), low);
    assert product in s.book.stock;
  }

  // ---------- Terminal states ----------

  /** Sales keep their place, number and items; VOIDED stays, and nothing returns to PENDING. */
  ghost predicate Later(before: seq<Txn>, after: seq<Txn>) {
    && |before| <= |after|
    && forall i :: 0 <= i < |before| ==>
      && after[i].number == before[i].number && after[i].items == before[i].items
      && (before[i].status == Voided ==> after[i].status == Voided)
      && (before[i].status == Completed ==> after[i].status != Pending)
  }

  lemma {:induction false} CleanedLater(s: Shop, cutoff: int, faults: set<nat>, n: nat)
    requires n <= |s.txns|
    ensures Later(s.txns, Cleaned(s, cutoff, faults, n).txns)
  {
    if n > 0 {
      CleanedLater(s, cutoff, faults, n - 1);
    }
  }

  lemma StepLater(s: Shop, e: Event)
    ensures Later(s.txns, Apply(s, e).txns)
  {
    hide Deduct, Restore, ReceiveAll;
    if e.Cleanup? {
      CleanedLater(s, e.cutoff, e.faults, |s.txns|);
    }
  }

  /** VOIDED is terminal over every run, so no later confirmation or cleanup revives a voided sale. */
  lemma {:induction false} VoidedIsTerminal(s: Shop, events: seq<Event>)
    ensures Later(s.txns, Run(s, events).txns)
  {
    hide Apply;
    if events != [] {
      VoidedIsTerminal(s, events[..|events| - 1]);
      StepLater(Run(s, events[..|events| - 1]), events[|events| - 1]);
    }
  }

  /** A stale sale at or after position `i` fails, and its rollback reaches back to `i`. */
  predicate UndoneLater(txns: seq<Txn>, cutoff: int, faults: set<nat>, i: nat, n: nat)
    requires n <= |txns|
  {
    exists j :: i <= j < n && j in faults && Stale(txns[j], cutoff)
  }

  /** What a cleanup voids: exactly the stale sales after the last one that failed. */
  lemma {:induction false} CleanupVoidsExactly(s: Shop, cutoff: int, faults: set<nat>, n: nat, i: nat)
    requires i < |s.txns| && n <= |s.txns|
    ensures Cleaned(s, cutoff, faults, n).txns[i]
      == if i < n && Stale(s.txns[i], cutoff) && !UndoneLater(s.txns, cutoff, faults, i, n)
         then s.txns[i].(status := Voided) else s.txns[i]
  {
    hide Restore;
    if n > 0 {
      CleanupVoidsExactly(s, cutoff, faults, n - 1, i);
      assert UndoneLater(s.txns, cutoff, faults, i, n) <==>
        || UndoneLater(s.txns, cutoff, faults, i, n - 1)
        || (i <= n - 1 && n - 1 in faults && Stale(s.txns[n - 1], cutoff));
    }
  }

  /** A cleanup without failures voids the stale sales and changes no other. */
  lemma FaultlessCleanup(s: Shop, cutoff: int)
    ensures var txns := Cleaned(s, cutoff, {}, |s.txns|).txns;
      |txns| == |s.txns| && forall i :: 0 <= i < |txns| ==>
        var t := s.txns[i];
        txns[i] == if t.status == Pending && t.mpesa && t.created < cutoff then t.(status := Voided) else t
  {
    hide Cleaned;
    forall i | 0 <= i < |s.txns|
      ensures Cleaned(s, cutoff, {}, |s.txns|).txns[i]
        == if Stale(s.txns[i], cutoff) then s.txns[i].(status := Voided) else s.txns[i]
    {
      CleanupVoidsExactly(s, cutoff, {}, |s.txns|, i);
    }
  }

  lemma {:induction false} RestoredRows(b: Book, items: seq<Item>, kind: Kind, ref: string)
    ensures var r := Restore(b, items, kind, ref);
      && b.ledger <= r.ledger
      && forall j :: |b.ledger| <= j < |r.ledger| ==> r.ledger[j].kind == kind && r.ledger[j].ref == ref
  {
    if items != [] {
      RestoredRows(b, items[..|items| - 1], kind, ref);
    }
  }

  /** A cleanup books restores of M-PESA sales and nothing else. */
  lemma {:induction false} CleanedRows(s: Shop, cutoff: int, faults: set<nat>, n: nat)
    requires n <= |s.txns|
    ensures var r := Cleaned(s, cutoff, faults, n);
      && s.book.ledger <= r.book.ledger && r.notes == s.notes
      && forall j :: |s.book.ledger| <= j < |r.book.ledger| ==> r.book.ledger[j].kind == MpesaRestore
  {
    hide Restore;
    if n > 0 {
      CleanedRows(s, cutoff, faults, n - 1);
      var r := Cleaned(s, cutoff, faults, n - 1);
      RestoredRows(r.book, r.txns[n - 1].items, MpesaRestore, r.txns[n - 1].number);
    }
  }

  /** When the last stale sale fails, the call has done nothing. */
  lemma {:induction false} LastFailureUndoesAll(s: Shop, cutoff: int, faults: set<nat>, n: nat, last: nat)
    requires last < n <= |s.txns| && last in faults && Stale(s.txns[last], cutoff)
    requires forall i :: last < i < n ==> !Stale(s.txns[i], cutoff)
    ensures Cleaned(s, cutoff, faults, n) == s
  {
    if n - 1 > last {
      LastFailureUndoesAll(s, cutoff, faults, n - 1, last);
    }
  }

  /** Two stale sales of which the second fails: the first one's restore is undone too. */
  lemma CleanupUndoesRestore(s: Shop, cutoff: int)
    requires |s.txns| == 2 && Stale(s.txns[0], cutoff) && Stale(s.txns[1], cutoff)
    ensures Apply(s, Cleanup(cutoff, {}, true)).txns[0].status == Voided
    ensures Apply(s, Cleanup(cutoff, {1}, true)) == s && s.txns[0].status == Pending
  {
    LastFailureUndoesAll(s, cutoff, {1}, 2, 1);
    CleanupVoidsExactly(s, cutoff, {}, 2, 0);
  }

  /** Only an M-PESA sale waits for its payment. */
  ghost predicate OnlyMpesaPends(txns: seq<Txn>) {
    forall i :: 0 <= i < |txns| && txns[i].status == Pending ==> txns[i].mpesa
  }

  /** Over every run only M-PESA sales are pending, so cleanup reaches every pending sale that is old
      enough, and a cash or card sale is recorded as completed at once. */
  lemma {:induction false} PendingMeansMpesa(s: Shop, events: seq<Event>)
    requires OnlyMpesaPends(s.txns)
    ensures OnlyMpesaPends(Run(s, events).txns)
  {
    hide Deduct, Restore, ReceiveAll;
    if events != [] {
      var n := |events| - 1;
      PendingMeansMpesa(s, events[..n]);
      var t, e := Run(s, events[..n]), events[n];
      if e.Cleanup? {
        forall i | 0 <= i < |t.txns|
          ensures Cleaned(t, e.cutoff, e.faults, |t.txns|).txns[i].mpesa == t.txns[i].mpesa
          ensures Cleaned(t, e.cutoff, e.faults, |t.txns|).txns[i].status in {t.txns[i].status, Voided}
        {
          CleanupVoidsExactly(t, e.cutoff, e.faults, |t.txns|, i);
        }
      }
    }
  }
}
