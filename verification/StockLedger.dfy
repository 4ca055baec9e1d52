/** The stock ledger: every change of a product's `stock_quantity` appends a row holding the
    requested change and the quantities before and after. */
module StockLedger {

  datatype Kind = Sale | VoidRestore | MpesaRestore | Receive | ReceiveDamaged | Reject | Adjustment

  /** `ref` is the sale or goods-received number, empty for adjustments. */
  datatype Movement = Movement(product: int, kind: Kind, delta: int, before: int, after: int, ref: string)

  type Stock = map<int, int>

  datatype Book = Book(stock: Stock, ledger: seq<Movement>)

  function Clamp(x: int): int {
    if x < 0 then 0 else x
  }

  /** The plain `+=` of sales, restores and receipts. */
  function Move(b: Book, product: int, kind: Kind, delta: int, ref: string): Book
    requires product in b.stock
  {
    var before := b.stock[product];
    Book(b.stock[product := before + delta], b.ledger + [Movement(product, kind, delta, before, before + delta, ref)])
  }

  /** `_apply_stock_movement`, which stops at zero. */
  function MoveClamped(b: Book, product: int, kind: Kind, delta: int, ref: string): Book
    requires product in b.stock
  {
    var before := b.stock[product];
    var after := Clamp(before + delta);
    Book(b.stock[product := after], b.ledger + [Movement(product, kind, delta, before, after, ref)])
  }

  // ---------- Replaying the ledger ----------

  function Deltas(ledger: seq<Movement>, product: int): seq<int> {
    if ledger == [] then []
    else
      var n := |ledger| - 1;
      if ledger[n].product == product then Deltas(ledger[..n], product) + [ledger[n].delta]
      else Deltas(ledger[..n], product)
  }

  /** Replay from an opening quantity, never below zero. */
  function Replay(opening: int, deltas: seq<int>): int {
    if deltas == [] then opening
    else Clamp(Replay(opening, deltas[..|deltas| - 1]) + deltas[|deltas| - 1])
  }

  /** Opening quantity plus the first `k` changes, with no clamping. */
  function PlainSum(opening: int, deltas: seq<int>, k: nat): int
    requires k <= |deltas|
  {
    if k == 0 then opening else PlainSum(opening, deltas, k - 1) + deltas[k - 1]
  }

  ghost predicate IsLowest(opening: int, deltas: seq<int>, low: int) {
    && (forall k :: 0 <= k <= |deltas| ==> low <= PlainSum(opening, deltas, k))
    && (exists k :: 0 <= k <= |deltas| && low == PlainSum(opening, deltas, k))
  }

  lemma {:induction false} PlainSumPrefix(opening: int, deltas: seq<int>, n: nat, k: nat)
    requires k <= n <= |deltas|
    ensures PlainSum(opening, deltas[..n], k) == PlainSum(opening, deltas, k)
  {
    if k > 0 {
      PlainSumPrefix(opening, deltas, n, k - 1);
    }
  }

  /** The clamped quantity is the plain sum minus the lowest value the plain sum ever took, when
      that is negative: sum and cache differ by exactly the deepest clamped deficit. */
  lemma {:induction false} DeepestDeficit(opening: int, deltas: seq<int>, low: int)
    requires 0 <= opening && IsLowest(opening, deltas, low)
    ensures Replay(opening, deltas) == PlainSum(opening, deltas, |deltas|) - (if low < 0 then low else 0)
  {
    if deltas == [] {
      assert low == PlainSum(opening, deltas, 0);
    } else {
      var n := |deltas| - 1;
      var before := deltas[..n];
      forall k | 0 <= k <= n
        ensures PlainSum(opening, before, k) == PlainSum(opening, deltas, k)
      {
        PlainSumPrefix(opening, deltas, n, k);
      }
      var low' := Lowest(opening, before);
      DeepestDeficit(opening, before, low');
      var last := PlainSum(opening, deltas, n + 1);
      assert low == if last < low' then last else low' by {
        var k' :| 0 <= k' <= n && low' == PlainSum(opening, before, k');
        assert low <= PlainSum(opening, deltas, k') && low <= last;
        var k :| 0 <= k <= n + 1 && low == PlainSum(opening, deltas, k);
        assert k <= n ==> low' <= PlainSum(opening, before, k);
      }
    }
  }

  ghost function Lowest(opening: int, deltas: seq<int>): (low: int)
    ensures IsLowest(opening, deltas, low)
  {
    if deltas == [] then
      assert PlainSum(opening, deltas, 0) == opening;
      opening
    else
      var n := |deltas| - 1;
      var low := Lowest(opening, deltas[..n]);
      var last := PlainSum(opening, deltas, n + 1);
      assert forall k | 0 <= k <= n :: PlainSum(opening, deltas[..n], k) == PlainSum(opening, deltas, k) by {
        forall k | 0 <= k <= n
          ensures PlainSum(opening, deltas[..n], k) == PlainSum(opening, deltas, k)
        {
          PlainSumPrefix(opening, deltas, n, k);
        }
      }
      if last < low then last else low
  }

  // ---------- A consistent book ----------

  /** What the ledger says the product's quantity is: the last row's `after`. */
  function Balance(opening: Stock, ledger: seq<Movement>, product: int): int
    requires product in opening
  {
    if ledger == [] then opening[product]
    else
      var n := |ledger| - 1;
      if ledger[n].product == product then ledger[n].after else Balance(opening, ledger[..n], product)
  }

  /** Rows chain: each starts where the product's previous row ended, and ends at the clamped sum. */
  ghost predicate Chained(opening: Stock, ledger: seq<Movement>) {
    ledger != [] ==>
      var n := |ledger| - 1;
      var m := ledger[n];
      && Chained(opening, ledger[..n])
      && m.product in opening
      && m.before == Balance(opening, ledger[..n], m.product)
      && m.after == Clamp(m.before + m.delta)
  }

  ghost predicate BookOk(opening: Stock, b: Book) {
    && b.stock.Keys == opening.Keys
    && Chained(opening, b.ledger)
    && forall p :: p in b.stock ==> b.stock[p] == Balance(opening, b.ledger, p)
  }

  /** The database's CHECK on `stock_quantity`. */
  predicate NonNeg(stock: Stock) {
    forall p | p in stock :: 0 <= stock[p]
  }

  lemma MoveKeepsBook(opening: Stock, b: Book, product: int, kind: Kind, delta: int, ref: string)
    requires BookOk(opening, b) && product in b.stock && 0 <= b.stock[product] + delta
    ensures BookOk(opening, Move(b, product, kind, delta, ref))
  {
    ClampedKeepsBook(opening, b, product, kind, delta, ref);
  }

  lemma ClampedKeepsBook(opening: Stock, b: Book, product: int, kind: Kind, delta: int, ref: string)
    requires BookOk(opening, b) && product in b.stock
    ensures BookOk(opening, MoveClamped(b, product, kind, delta, ref))
  {
    var b' := MoveClamped(b, product, kind, delta, ref);
    assert b'.ledger[..|b.ledger|] == b.ledger;
    assert b'.stock.Keys == b.stock.Keys;
  }

  /** Replaying a product's rows gives the cached quantity. */
  lemma {:induction false} ReplayGivesStock(opening: Stock, ledger: seq<Movement>, product: int)
    requires Chained(opening, ledger) && product in opening
    ensures Balance(opening, ledger, product) == Replay(opening[product], Deltas(ledger, product))
  {
    if ledger != [] {
      var n := |ledger| - 1;
      ReplayGivesStock(opening, ledger[..n], product);
      if ledger[n].product == product {
        assert Deltas(ledger, product)[..|Deltas(ledger, product)| - 1] == Deltas(ledger[..n], product);
      }
    }
  }

  // ---------- Totals over the ledger ----------

  /** What a total is taken over: the effective change by goods received, by adjustments, or the
      requested change by one sale or by the restores of one sale. */
  datatype Pick = Received | Adjusted | SoldFor(ref: string) | RestoredFor(ref: string)

  function Contribution(m: Movement, pick: Pick, product: int): int {
    if m.product != product then 0
    else match pick
      case Received => if m.kind == Receive then m.after - m.before else 0
      case Adjusted => if m.kind == Adjustment then m.after - m.before else 0
      case SoldFor(ref) => if m.kind == Sale && m.ref == ref then m.delta else 0
      case RestoredFor(ref) => if (m.kind == VoidRestore || m.kind == MpesaRestore) && m.ref == ref then m.delta else 0
  }

  function Total(ledger: seq<Movement>, pick: Pick, product: int): int {
    if ledger == [] then 0
    else Total(ledger[..|ledger| - 1], pick, product) + Contribution(ledger[|ledger| - 1], pick, product)
  }

  lemma TotalSnoc(ledger: seq<Movement>, m: Movement, pick: Pick, product: int)
    ensures Total(ledger + [m], pick, product) == Total(ledger, pick, product) + Contribution(m, pick, product)
  {
    assert (ledger + [m])[..|ledger|] == ledger;
  }
}
