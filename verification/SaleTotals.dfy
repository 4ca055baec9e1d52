/** Money on a sale, exactly: amounts are integers in cents, VAT is charged at 16%, and every stored
    amount is rounded to whole cents half to even, as Python's `Decimal.quantize` does. */
module SaleTotals {

  /** The integer nearest to `num / den`, a tie going to the even one. */
  function RoundHalfEven(num: int, den: int): int
    requires den > 0
  {
    var q, r := num / den, num % den;
    if 2 * r < den then q
    else if 2 * r > den then q + 1
    else if q % 2 == 0 then q else q + 1
  }

  predicate IsTie(num: int, den: int)
    requires den > 0
  {
    2 * (num % den) == den
  }

  /** A cart line in cents: unit price, quantity and line discount; the exemption and the tax code are
      the product's, as the stored item copies them. */
  datatype CartLine = CartLine(price: int, qty: int, discount: int, vatExempt: bool, taxCode: string)

  function LineTotal(line: CartLine): int {
    line.price * line.qty - line.discount
  }

  function SumLines(lines: seq<CartLine>): int {
    if lines == [] then 0 else SumLines(lines[..|lines| - 1]) + LineTotal(lines[|lines| - 1])
  }

  /** VAT of an amount in cents, as stored: 16% is `16 * amount / 100` cents. */
  function Vat(amount: int): int {
    RoundHalfEven(16 * amount, 100)
  }

  function LineVats(lines: seq<CartLine>): seq<int> {
    seq(|lines|, i requires 0 <= i < |lines| => Vat(LineTotal(lines[i])))
  }

  function Sum(xs: seq<int>): int {
    if xs == [] then 0 else Sum(xs[..|xs| - 1]) + xs[|xs| - 1]
  }

  /** Price times quantity over the lines. */
  ghost function Gross(lines: seq<CartLine>): int {
    if lines == [] then 0 else lines[0].price * lines[0].qty + Gross(lines[1..])
  }

  /** The discounts given on the lines. */
  ghost function Discounts(lines: seq<CartLine>): int {
    if lines == [] then 0 else lines[0].discount + Discounts(lines[1..])
  }

  /** Each line's VAT is 16% of price times quantity less its discount, within 0.48 cents. */
  ghost predicate LineVatsNear(lines: seq<CartLine>, vats: seq<int>) {
    && |vats| == |lines|
    && forall i :: 0 <= i < |lines| ==>
      -48 <= 100 * vats[i] - 16 * (lines[i].price * lines[i].qty - lines[i].discount) <= 48
  }

  /** What `create_transaction` stores, in cents; `Declined` when cash is missing or too little. */
  datatype Totals =
    | Declined
    | Totals(subtotal: int, vat: int, total: int, change: int, lineVats: seq<int>)

  datatype Payment = Cash(tendered: int) | CashMissing | OtherMeans

  /** Steps 1, 2 and 4 of `create_transaction` on the money side. */
  method ComputeTotals(lines: seq<CartLine>, discount: int, payment: Payment) returns (t: Totals)
    ensures t.Declined? <==>
      || payment == CashMissing
      || (payment.Cash? && 100 * payment.tendered < 116 * (Gross(lines) - Discounts(lines) - discount))
    ensures t.Totals? ==>
      && t.subtotal == Gross(lines) - Discounts(lines) - discount == SumLines(lines) - discount
      && t.vat == Vat(t.subtotal) && -48 <= 100 * t.vat - 16 * t.subtotal <= 48
      && t.total == t.subtotal + t.vat
      && t.lineVats == LineVats(lines) && LineVatsNear(lines, t.lineVats)
      && (if payment.Cash? then t.change >= 0 && payment.tendered == t.total + t.change else t.change == 0)
  {
    hide Gross, Discounts, LineVatsNear, IsTie;
    SumLinesSplits(lines);
    LineVatsAreNear(lines);
    var subtotal := 0;
    for i := 0 to |lines|
      invariant subtotal == SumLines(lines[..i])
    {
      assert lines[..i + 1][..i] == lines[..i];
      subtotal := subtotal + LineTotal(lines[i]);
    }
    assert lines[..|lines|] == lines;
    subtotal := subtotal - discount;
    VatNeverTies(subtotal);
    hide SumLines;
    var vatAmount := 16 * subtotal;                // in hundredths of a cent
    var total := 100 * subtotal + vatAmount;       // in hundredths of a cent
    var change := 0;
    if payment == CashMissing {
      return Declined;
    }
    if payment.Cash? {
      if 100 * payment.tendered < total {
        return Declined;
      }
      change := RoundHalfEven(100 * payment.tendered - total, 100);
      ChangeIsExact(payment.tendered, subtotal);
    }
    TotalIsSubtotalPlusVat(subtotal);
    var lineVats := [];
    for i := 0 to |lines|
      invariant lineVats == LineVats(lines[..i])
    {
      lineVats := lineVats + [RoundHalfEven(16 * LineTotal(lines[i]), 100)];
    }
    assert lines[..|lines|] == lines;
    return Totals(RoundHalfEven(100 * subtotal, 100), RoundHalfEven(vatAmount, 100), RoundHalfEven(total, 100),
      change, lineVats);
  }

  // ---------- No rounding ties ----------

  /** The rounded value is within half a unit, and strictly within when there is no tie. */
  lemma RoundedIsNear(num: int, den: int)
    requires den > 0
    ensures -den <= 2 * (den * RoundHalfEven(num, den) - num) <= den
    ensures !IsTie(num, den) ==> -den < 2 * (den * RoundHalfEven(num, den) - num) < den
  {
    var q, r := num / den, num % den;
    assert num == den * q + r;
    assert den * (q + 1) == den * q + den;
  }

  /** Nearest is unique, which is how a rounded value is recognised. */
  lemma NearIsRounded(num: int, den: int, k: int)
    requires den > 0 && -den < 2 * (den * k - num) < den
    ensures RoundHalfEven(num, den) == k
  {
    var q, r := num / den, num % den;
    assert num == den * q + r;
    ScaleKeepsOrder(den, k, q - 1);
    ScaleKeepsOrder(den, q + 2, k);
    assert den * (q + 1) == den * q + den;
  }

  lemma ScaleKeepsOrder(den: int, a: int, b: int)
    requires den > 0
    ensures a <= b ==> den * a <= den * b
    ensures den * (b + 1) == den * b + den && den * (a - 2) == den * a - 2 * den
  {
  }

  /** Dividing a multiple of `g` by a multiple of `g` leaves a multiple of `g`. */
  lemma RemainderOf(num: int, den: int, g: int, a: int, b: int)
    requires den > 0 && g > 0 && num == g * a && den == g * b
    ensures num % den == g * (a - b * (num / den))
  {
    var q := num / den;
    assert num == den * q + num % den;
    assert (g * b) * q == g * (b * q);
    assert g * (a - b * q) == g * a - g * (b * q);
  }

  /** At 16% a whole number of cents never rounds at a tie: 16 s = 100 k + 50 has no solution,
      because 8 s is even and 50 k + 25 is odd. */
  lemma VatNeverTies(amount: int)
    ensures !IsTie(16 * amount, 100) && !IsTie(116 * amount, 100)
    ensures -48 <= 100 * Vat(amount) - 16 * amount <= 48
  {
    RemainderOf(16 * amount, 100, 4, 4 * amount, 25);
    RemainderOf(116 * amount, 100, 4, 29 * amount, 25);
    RoundedIsNear(16 * amount, 100);
    FourApart(Vat(amount), amount);
  }

  lemma FourApart(v: int, amount: int)
    requires -100 < 2 * (100 * v - 16 * amount) < 100
    ensures -48 <= 100 * v - 16 * amount <= 48
  {
    var d := 25 * v - 4 * amount;
    assert 100 * v - 16 * amount == 4 * d;
  }

  /** The stored total is the stored subtotal plus the stored VAT, to the cent. */
  lemma TotalIsSubtotalPlusVat(subtotal: int)
    ensures RoundHalfEven(116 * subtotal, 100) == subtotal + Vat(subtotal)
    ensures RoundHalfEven(100 * subtotal, 100) == subtotal
  {
    VatNeverTies(subtotal);
    RoundedIsNear(16 * subtotal, 100);
    NearIsRounded(116 * subtotal, 100, subtotal + Vat(subtotal));
    NearIsRounded(100 * subtotal, 100, subtotal);
  }

  /** Cash that is accepted splits exactly into total and change, and change is never negative. */
  lemma ChangeIsExact(tendered: int, subtotal: int)
    requires 100 * tendered >= 116 * subtotal
    ensures var change := RoundHalfEven(100 * tendered - 116 * subtotal, 100);
      change >= 0 && tendered == RoundHalfEven(116 * subtotal, 100) + change
  {
    TotalIsSubtotalPlusVat(subtotal);
    VatNeverTies(subtotal);
    RoundedIsNear(116 * subtotal, 100);
    NearIsRounded(100 * tendered - 116 * subtotal, 100, tendered - RoundHalfEven(116 * subtotal, 100));
  }

  /** Without whole cents, as a discount with more decimals allows, the three stored amounts may
      disagree, but never by more than one cent. The subtotal is `num / den` cents. */
  lemma FractionalTotalWithinOneCent(num: int, den: int)
    requires den > 0
    ensures -1
      <= RoundHalfEven(116 * num, 100 * den) - RoundHalfEven(num, den) - RoundHalfEven(16 * num, 100 * den) <= 1
  {
    RoundedIsNear(num, den);
    RoundedIsNear(16 * num, 100 * den);
    RoundedIsNear(116 * num, 100 * den);
    ThreeRoundings(num, den,
      RoundHalfEven(num, den), RoundHalfEven(16 * num, 100 * den), RoundHalfEven(116 * num, 100 * den));
  }

  lemma ThreeRoundings(num: int, den: int, s: int, v: int, t: int)
    requires den > 0
    requires -den <= 2 * (den * s - num) <= den
    requires -(100 * den) <= 2 * ((100 * den) * v - 16 * num) <= 100 * den
    requires -(100 * den) <= 2 * ((100 * den) * t - 116 * num) <= 100 * den
    ensures -1 <= t - s - v <= 1
  {
    var d := t - s - v;
    var ds, dv, dt := den * s, den * v, den * t;
    assert (100 * den) * v == 100 * dv && (100 * den) * t == 100 * dt;
    assert den * d == dt - ds - dv;
    assert -3 * den <= 2 * (den * d) <= 3 * den;
    ScaleKeepsOrder(den, 2, d);
    ScaleKeepsOrder(den, d, -2);
  }

  lemma QuotientIs(num: int, den: int, q: int, r: int)
    requires den > 0 && num == den * q + r && 0 <= r < den
    ensures num / den == q && num % den == r
  {
    var q', r' := num / den, num % den;
    assert num == den * q' + r';
    assert den * (q - q') == r' - r;
    if q > q' {
      ScaleKeepsOrder(den, 1, q - q');
    } else if q < q' {
      ScaleKeepsOrder(den, q - q', -1);
    }
  }

  /** A rounded value is the nearest integer, or the even one of the two nearest. */
  lemma NearOrTie(num: int, den: int, k: int)
    requires den > 0
    ensures RoundHalfEven(num, den) == k <==>
      var e := 2 * (den * k - num);
      -den < e < den || ((e == den || e == -den) && k % 2 == 0)
  {
    var e := 2 * (den * k - num);
    if -den < e < den {
      NearIsRounded(num, den, k);
    } else if e == den {
      assert num == den * (k - 1) + (num - den * (k - 1)) && den * (k - 1) == den * k - den;
      QuotientIs(num, den, k - 1, num - den * (k - 1));
    } else if e == -den {
      QuotientIs(num, den, k, num - den * k);
    } else {
      RoundedIsNear(num, den);
    }
  }

  /** A value rounds at a tie exactly when its rounding error is half a unit. */
  lemma TieIsHalfOff(num: int, den: int)
    requires den > 0
    ensures var e := 2 * (den * RoundHalfEven(num, den) - num);
      IsTie(num, den) <==> e == den || e == -den
  {
    RoundedIsNear(num, den);
    assert num == den * (num / den) + num % den;
    assert den * (num / den + 1) == den * (num / den) + den;
  }

  /** Exactly when the three stored amounts agree on a subtotal of `num / den` cents: if and only if the
      rounding errors of subtotal and VAT together stay below half a cent, or are half a cent and the
      sum is even. `e` is their sum in units of `1 / (100 * den)` cents. */
  lemma FractionalTotalAgreesIff(num: int, den: int)
    requires den > 0
    ensures var s, v := RoundHalfEven(num, den), RoundHalfEven(16 * num, 100 * den);
      var e := 100 * (den * s - num) + (100 * den * v - 16 * num);
      RoundHalfEven(116 * num, 100 * den) == s + v <==>
        -(100 * den) < 2 * e < 100 * den || ((2 * e == 100 * den || 2 * e == -(100 * den)) && (s + v) % 2 == 0)
  {
    var s, v := RoundHalfEven(num, den), RoundHalfEven(16 * num, 100 * den);
    hide RoundHalfEven;
    NearOrTie(116 * num, 100 * den, s + v);
    ErrorsAdd(num, den, s, v);
  }

  lemma ErrorsAdd(num: int, den: int, s: int, v: int)
    ensures (100 * den) * (s + v) - 116 * num == 100 * (den * s - num) + (100 * den * v - 16 * num)
  {
  }

  /** Exactly when accepted cash, in whole cents, splits into stored total and change on a subtotal of
      `num / den` cents: if and only if the total does not round at a tie or the cash is even. */
  lemma FractionalChangeSplitsIff(tendered: int, num: int, den: int)
    requires den > 0 && (100 * den) * tendered >= 116 * num
    ensures var change := RoundHalfEven((100 * den) * tendered - 116 * num, 100 * den);
      && change >= 0
      && (tendered == RoundHalfEven(116 * num, 100 * den) + change
          <==> !IsTie(116 * num, 100 * den) || tendered % 2 == 0)
  {
    NotNegative((100 * den) * tendered - 116 * num, 100 * den);
    ChangeSplitsIff(100 * den, 116 * num, tendered);
  }

  /** Total `x / m` and cash `tendered`: the change makes up the difference to the rounded total. */
  lemma ChangeSplitsIff(m: int, x: int, tendered: int)
    requires m > 0
    ensures RoundHalfEven(m * tendered - x, m) == tendered - RoundHalfEven(x, m) <==> !IsTie(x, m) || tendered % 2 == 0
  {
    hide RoundHalfEven, IsTie;
    var t := RoundHalfEven(x, m);
    NearOrTie(x, m, t);
    NearOrTie(m * tendered - x, m, tendered - t);
    TieIsHalfOff(x, m);
    Distribute(m, tendered, t, x);
    HalvesMatch(m, 2 * (m * t - x), tendered, t, RoundHalfEven(m * tendered - x, m) == tendered - t, IsTie(x, m));
  }

  lemma Distribute(m: int, a: int, b: int, x: int)
    ensures 2 * (m * (a - b) - (m * a - x)) == -(2 * (m * b - x))
  {
  }

  /** The change is off by what the total is off, the other way round; at half a cent both are even. */
  lemma HalvesMatch(m: int, e: int, tendered: int, t: int, splits: bool, tie: bool)
    requires m > 0
    requires -m < e < m || ((e == m || e == -m) && t % 2 == 0)
    requires splits <==> -m < -e < m || ((-e == m || -e == -m) && (tendered - t) % 2 == 0)
    requires tie <==> e == m || e == -m
    ensures splits <==> !tie || tendered % 2 == 0
  {
  }

  lemma NotNegative(num: int, den: int)
    requires den > 0 && num >= 0
    ensures RoundHalfEven(num, den) >= 0
  {
    assert num == den * (num / den) + num % den;
    if num / den < 0 {
      ScaleKeepsOrder(den, num / den, -1);
    }
  }

  /** A subtotal of 12.5 cents paid with 15: the stored total is 14 and the change 0. */
  lemma FractionalChangeMayLose()
    ensures RoundHalfEven(116 * 25, 100 * 2) == 14 && RoundHalfEven((100 * 2) * 15 - 116 * 25, 100 * 2) == 0
  {
    assert 2900 / 200 == 14 && 2900 % 200 == 100 && 100 / 200 == 0 && 100 % 200 == 100;
  }

  /** The one-cent disagreement does happen: half a cent of subtotal. */
  lemma FractionalTotalMayDisagree()
    ensures RoundHalfEven(116 * 1, 100 * 2) == RoundHalfEven(1, 2) + RoundHalfEven(16 * 1, 100 * 2) + 1
  {
    assert 116 % 200 == 116 && 1 % 2 == 1 && 16 % 200 == 16;
  }

  // ---------- What a discount does ----------

  lemma {:induction false} SumLinesSplits(lines: seq<CartLine>)
    ensures SumLines(lines) == Gross(lines) - Discounts(lines)
  {
    if lines != [] {
      var n := |lines| - 1;
      SumLinesSplits(lines[..n]);
      GrossSnoc(lines[..n], lines[n]);
      assert lines[..n] + [lines[n]] == lines;
    }
  }

  lemma {:induction false} GrossSnoc(lines: seq<CartLine>, line: CartLine)
    ensures Gross(lines + [line]) == Gross(lines) + line.price * line.qty
    ensures Discounts(lines + [line]) == Discounts(lines) + line.discount
  {
    if lines != [] {
      GrossSnoc(lines[1..], line);
      assert (lines + [line])[1..] == lines[1..] + [line];
    }
  }

  lemma LineVatsAreNear(lines: seq<CartLine>)
    ensures LineVatsNear(lines, LineVats(lines))
  {
    forall i | 0 <= i < |lines|
      ensures -48 <= 100 * LineVats(lines)[i] - 16 * (lines[i].price * lines[i].qty - lines[i].discount) <= 48
    {
      VatNeverTies(LineTotal(lines[i]));
    }
  }

  lemma {:induction false} DiscountUpdate(lines: seq<CartLine>, i: nat, d: int)
    requires i < |lines|
    ensures SumLines(lines[i := lines[i].(discount := lines[i].discount + d)]) == SumLines(lines) - d
  {
    var n := |lines| - 1;
    var raised := lines[i := lines[i].(discount := lines[i].discount + d)];
    if i < n {
      DiscountUpdate(lines[..n], i, d);
      assert raised[..n] == lines[..n][i := raised[i]];
    } else {
      assert raised[..n] == lines[..n];
    }
  }

  /** Raising any one line's discount by `d` cents lowers the exact total by 1.16 d, and the stored one
      by that within 0.96 cents. Totals here are in hundredths of a cent. */
  lemma RaisedDiscountLowersTotal(lines: seq<CartLine>, i: nat, d: int, discount: int)
    requires i < |lines|
    ensures var raised := lines[i := lines[i].(discount := lines[i].discount + d)];
      var before, after := SumLines(lines) - discount, SumLines(raised) - discount;
      && 116 * after == 116 * before - 116 * d
      && -96 <= 100 * (before + Vat(before)) - 100 * (after + Vat(after)) - 116 * d <= 96
  {
    hide Vat, SumLines;
    DiscountUpdate(lines, i, d);
    VatNeverTies(SumLines(lines) - discount);
    VatNeverTies(SumLines(lines) - d - discount);
  }

  // ---------- Per-line VAT against invoice VAT ----------

  lemma {:induction false} LineVatsNearSum(lines: seq<CartLine>)
    ensures -48 * |lines| <= 100 * Sum(LineVats(lines)) - 16 * SumLines(lines) <= 48 * |lines|
  {
    if lines != [] {
      var n := |lines| - 1;
      LineVatsNearSum(lines[..n]);
      assert LineVats(lines)[..n] == LineVats(lines[..n]);
      VatNeverTies(LineTotal(lines[n]));
    }
  }

  /** The order discount lowers the invoice VAT but no line's VAT; apart from that, the line VATs add
      up to the invoice VAT within 0.48 cents a line and 0.48 for the invoice. */
  lemma LineVatsAgainstInvoice(lines: seq<CartLine>, discount: int)
    ensures var drift := 100 * Sum(LineVats(lines)) - 100 * Vat(SumLines(lines) - discount) - 16 * discount;
      -48 * (|lines| + 1) <= drift <= 48 * (|lines| + 1)
  {
    hide Sum, SumLines, LineVats, Vat;
    LineVatsNearSum(lines);
    VatNeverTies(SumLines(lines) - discount);
  }

  // ---------- The tax invoice ----------

  datatype TaxType = Standard | ZeroRated | Exempt

  datatype TaxItem = TaxItem(taxable: int, tax: int, taxType: TaxType)

  /** The tax split of one line for eTIMS; an empty code counts as standard. */
  function BuildItemPayload(lineTotal: int, vatExempt: bool, taxCode: string): TaxItem {
    if vatExempt then TaxItem(lineTotal, 0, Exempt)
    else if taxCode == "Z" || taxCode == "z" then TaxItem(lineTotal, 0, ZeroRated)
    else
      var taxable := RoundHalfEven(100 * lineTotal, 116);
      TaxItem(taxable, lineTotal - taxable, Standard)
  }

  /** A standard line carries no tax exactly when it is at most three cents. */
  lemma UntaxedIff(total: int)
    ensures RoundHalfEven(100 * total, 116) == total <==> -3 <= total <= 3
  {
    RoundedIsNear(100 * total, 116);
    if -3 <= total <= 3 {
      NearIsRounded(100 * total, 116, total);
    }
  }

  /** The split is exact for every line, never rounds at a tie, and on standard-rated lines the tax
      is 16% of the taxable amount within 0.56 cents. Exempt and zero-rated lines carry no tax, and a
      standard one carries none exactly from -3 to 3 cents. */
  lemma SplitIsExact(lineTotal: int, vatExempt: bool, taxCode: string)
    ensures var item := BuildItemPayload(lineTotal, vatExempt, taxCode);
      && item.taxable + item.tax == lineTotal
      && (item.taxType == Standard ==> -56 <= 100 * item.tax - 16 * item.taxable <= 56)
      && (item.tax == 0 <==> item.taxType != Standard || -3 <= lineTotal <= 3)
      && (item.taxType == Exempt <==> vatExempt)
      && (item.taxType == ZeroRated <==> !vatExempt && taxCode in ["Z", "z"])
    ensures !IsTie(100 * lineTotal, 116)
  {
    RemainderOf(100 * lineTotal, 116, 4, 25 * lineTotal, 29);
    RoundedIsNear(100 * lineTotal, 116);
    UntaxedIff(lineTotal);
    hide RoundHalfEven;
    var taxable := RoundHalfEven(100 * lineTotal, 116);
    assert 100 * (lineTotal - taxable) - 16 * taxable == 4 * (25 * lineTotal - 29 * taxable);
  }

  predicate IsStandard(line: CartLine) {
    BuildItemPayload(LineTotal(line), line.vatExempt, line.taxCode).taxType == Standard
  }

  /** What the tax invoices of the lines report as VAT. */
  function ReportedTax(lines: seq<CartLine>): int {
    if lines == [] then 0
    else
      var last := lines[|lines| - 1];
      ReportedTax(lines[..|lines| - 1]) + BuildItemPayload(LineTotal(last), last.vatExempt, last.taxCode).tax
  }

  /** The line totals of standard lines, or of the exempt and zero-rated ones. */
  function SumOf(lines: seq<CartLine>, standard: bool): int {
    if lines == [] then 0
    else
      var last := lines[|lines| - 1];
      SumOf(lines[..|lines| - 1], standard) + if IsStandard(last) == standard then LineTotal(last) else 0
  }

  lemma {:induction false} PartsAddUp(lines: seq<CartLine>)
    ensures SumOf(lines, true) + SumOf(lines, false) == SumLines(lines)
  {
    hide IsStandard, LineTotal;
    if lines != [] {
      PartsAddUp(lines[..|lines| - 1]);
    }
  }

  /** Reported VAT is 100/725 of the standard lines, within 350/725 of a cent a line. */
  lemma {:induction false} ReportedNearStandard(lines: seq<CartLine>)
    ensures -350 * |lines| <= 725 * ReportedTax(lines) - 100 * SumOf(lines, true) <= 350 * |lines|
  {
    hide BuildItemPayload, LineTotal;
    if lines != [] {
      var n := |lines| - 1;
      var last := lines[n];
      ReportedNearStandard(lines[..n]);
      LineReported(LineTotal(last), last.vatExempt, last.taxCode);
    }
  }

  lemma LineReported(total: int, vatExempt: bool, taxCode: string)
    ensures var item := BuildItemPayload(total, vatExempt, taxCode);
      && (item.taxType == Standard ==> -350 <= 725 * item.tax - 100 * total <= 350)
      && (item.taxType != Standard ==> item.tax == 0)
  {
    SplitIsExact(total, vatExempt, taxCode);
    var item := BuildItemPayload(total, vatExempt, taxCode);
    assert 4 * (725 * item.tax - 100 * total) == 25 * (116 * item.tax - 16 * total);
    assert item.taxable == total - item.tax;
  }

  /** The sale charges 16% on top of every line total, exempt and zero-rated lines included; the tax
      invoice reads a standard line total as tax-inclusive and reports nothing for the others. So over
      any sale the VAT reported falls short of the VAT on its lines by 16/725 of the standard lines
      and 16% of the others, within 0.97 cents a line. */
  lemma InvoiceShortfall(lines: seq<CartLine>)
    ensures var gap := 725 * (Sum(LineVats(lines)) - ReportedTax(lines));
      var expected := 16 * SumOf(lines, true) + 116 * SumOf(lines, false);
      -698 * |lines| <= gap - expected <= 698 * |lines|
  {
    hide Sum, LineVats, ReportedTax, SumOf, SumLines;
    LineVatsNearSum(lines);
    ReportedNearStandard(lines);
    PartsAddUp(lines);
    Shortfall(Sum(LineVats(lines)), ReportedTax(lines), SumOf(lines, true), SumOf(lines, false),
      48 * |lines|, 350 * |lines|);
  }

  /** The same against the VAT that is charged, which the order discount lowers. */
  lemma ChargedShortfall(lines: seq<CartLine>, discount: int)
    ensures var gap := 725 * (Vat(SumLines(lines) - discount) - ReportedTax(lines));
      var expected := 16 * SumOf(lines, true) + 116 * SumOf(lines, false) - 116 * discount;
      -(350 * |lines| + 348) <= gap - expected <= 350 * |lines| + 348
  {
    hide Vat, ReportedTax, SumOf, SumLines;
    VatNeverTies(SumLines(lines) - discount);
    ReportedNearStandard(lines);
    PartsAddUp(lines);
    Shortfall(Vat(SumLines(lines) - discount), ReportedTax(lines), SumOf(lines, true), SumOf(lines, false) - discount,
      48, 350 * |lines|);
  }

  lemma Shortfall(vat: int, tax: int, standard: int, other: int, vatError: int, taxError: int)
    requires -vatError <= 100 * vat - 16 * (standard + other) <= vatError
    requires -taxError <= 725 * tax - 100 * standard <= taxError
    ensures var gap := 4 * (725 * (vat - tax) - 16 * standard - 116 * other);
      -(29 * vatError + 4 * taxError) <= gap <= 29 * vatError + 4 * taxError
  {
    assert 4 * (725 * (vat - tax) - 16 * standard - 116 * other)
      == 29 * (100 * vat - 16 * (standard + other)) - 4 * (725 * tax - 100 * standard);
  }

  /** The line totals, in cents and regardless of sign, on which 16% on top and 16/116 within round to
      the same VAT. */
  predicate SmallAgreement(n: nat) {
    n <= 9 || 11 <= n <= 15 || 19 <= n <= 21 || 26 <= n <= 28 || n == 33 || n == 34 || n == 40
  }

  /** Exactly when a line's invoice reports the VAT that the sale charged on it: on an exempt or
      zero-rated line if and only if it is at most three cents, on a standard one if and only if it is
      one of a few amounts up to 40 cents. From 0 up the invoice never reports more. */
  lemma LineAgreesIff(total: int, vatExempt: bool, taxCode: string)
    ensures var item := BuildItemPayload(total, vatExempt, taxCode);
      var size := if total < 0 then -total else total;
      && (Vat(total) == item.tax <==> if item.taxType == Standard then SmallAgreement(size) else size <= 3)
      && (total >= 0 ==> item.tax <= Vat(total))
  {
    hide Vat, BuildItemPayload;
    var item := BuildItemPayload(total, vatExempt, taxCode);
    SplitIsExact(total, vatExempt, taxCode);
    VatNeverTies(total);
    LineReported(total, vatExempt, taxCode);
    if item.taxType == Standard && -44 < total < 44 {
      assert item.taxable == total - item.tax;
      if total >= 0 {
        SmallLineAgreesIff(total, Vat(total), item.tax);
      } else {
        SmallLineAgreesIff(-total, -Vat(total), -item.tax);
      }
    }
  }

  /** The two roundings of a small amount, known by their errors alone. */
  lemma SmallLineAgreesIff(size: nat, vat: int, tax: int)
    requires size < 44
    requires -48 <= 100 * vat - 16 * size <= 48 && -56 <= 116 * tax - 16 * size <= 56
    ensures (vat == tax <==> SmallAgreement(size)) && tax <= vat
  {
    assert 0 <= vat <= 7 && 0 <= tax <= 6;
    if tax <= 1 {
    } else if tax <= 3 {
    } else {
    }
  }

  /** A line of 100.00: 16.00 is charged; 13.79 is reported if it is standard, nothing if it is exempt. */
  lemma ShortfallOnOneLine()
    ensures Vat(10000) == 1600
    ensures ReportedTax([CartLine(10000, 1, 0, false, "B")]) == 1379
    ensures ReportedTax([CartLine(10000, 1, 0, true, "B")]) == 0
  {
    var standard, exempt := CartLine(10000, 1, 0, false, "B"), CartLine(10000, 1, 0, true, "B");
    assert [standard][..0] == [] && [exempt][..0] == [];
    assert 1000000 / 116 == 8620 && 1000000 % 116 == 80;
  }
}
