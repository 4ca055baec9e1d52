/** Purchase orders and goods-received notes: statuses, the running totals on each order line, and
    the order status derived from them after every posting. */
module Procurement {
  import opened Common

  datatype PoStatus = Draft | Submitted | Approved | PartiallyReceived | FullyReceived | Closed | Cancelled

  datatype GrnStatus = GrnDraft | GrnPosted | GrnCancelled

  /** An order line with the totals of what was received against it, in base units. */
  datatype PoLine = PoLine(po: nat, ordered: nat, received: nat, damaged: nat, rejected: nat)

  /** A received line; `line` is the order line it refers to, if any. */
  datatype GrnItem = GrnItem(line: Option<nat>, received: nat, damaged: nat, rejected: nat)

  datatype Grn = Grn(po: Option<nat>, status: GrnStatus, items: seq<GrnItem>)

  type Lines = map<nat, PoLine>

  /** Orders and notes are numbered by position, order lines by `nextLine`. */
  datatype State = State(pos: seq<PoStatus>, lines: Lines, nextLine: nat, grns: seq<Grn>)

  datatype Event =
    | CreatePo(ordered: seq<nat>)
    | UpdatePo(po: nat, ordered: seq<nat>)
    | SubmitPo(po: nat)
    | ApprovePo(po: nat)
    | CancelPo(po: nat)
    | CreateGrn(order: Option<nat>, items: seq<GrnItem>)
    | PostGrn(grn: nat)
    | CancelGrn(grn: nat)

  predicate HasLines(lines: Lines, po: nat) {
    exists l | l in lines :: lines[l].po == po
  }

  /** Every line of the order has received at least what was ordered. */
  predicate AllReceived(lines: Lines, po: nat) {
    forall l | l in lines :: lines[l].po == po ==> lines[l].received >= lines[l].ordered
  }

  predicate AnyReceived(lines: Lines, po: nat) {
    exists l | l in lines :: lines[l].po == po && lines[l].received > 0
  }

  /** `_recompute_po_status`. */
  function Recompute(status: PoStatus, lines: Lines, po: nat): PoStatus {
    if status == Cancelled || status == Closed || !HasLines(lines, po) then status
    else if AllReceived(lines, po) then FullyReceived
    else if AnyReceived(lines, po) then PartiallyReceived
    else if status == PartiallyReceived then Approved
    else status
  }

  function AddLines(lines: Lines, next: nat, po: nat, ordered: seq<nat>): Lines {
    if ordered == [] then lines
    else
      var n := |ordered| - 1;
      AddLines(lines, next, po, ordered[..n])[next + n := PoLine(po, ordered[n], 0, 0, 0)]
  }

  function WithoutLines(lines: Lines, po: nat): Lines {
    map l | l in lines && lines[l].po != po :: lines[l]
  }

  function ReceiveItem(lines: Lines, item: GrnItem): Lines {
    if item.line.None? || item.line.value !in lines then lines
    else
      var line := lines[item.line.value];
      lines[item.line.value := line.(received := line.received + item.received,
        damaged := line.damaged + item.damaged, rejected := line.rejected + item.rejected)]
  }

  function ReceiveItems(lines: Lines, items: seq<GrnItem>): Lines {
    if items == [] then lines
    else ReceiveItem(ReceiveItems(lines, items[..|items| - 1]), items[|items| - 1])
  }

  /** `create_grn` refuses a line whose damaged and rejected units exceed what was received. */
  predicate ItemsValid(items: seq<GrnItem>) {
    forall i :: 0 <= i < |items| ==> items[i].damaged + items[i].rejected <= items[i].received
  }

  /** The foreign key of note lines: a line that is referred to exists. */
  predicate LinksExist(lines: Lines, items: seq<GrnItem>) {
    forall i :: 0 <= i < |items| && items[i].line.Some? ==> items[i].line.value in lines
  }

  function Apply(s: State, e: Event): State {
    match e
    case CreatePo(ordered) =>
      State(s.pos + [Draft], AddLines(s.lines, s.nextLine, |s.pos|, ordered), s.nextLine + |ordered|, s.grns)
    case UpdatePo(po, ordered) =>
      if po >= |s.pos| || s.pos[po] != Draft then s
      else s.(lines := AddLines(WithoutLines(s.lines, po), s.nextLine, po, ordered), nextLine := s.nextLine + |ordered|)
    case SubmitPo(po) =>
      if po >= |s.pos| || s.pos[po] != Draft || !HasLines(s.lines, po) then s else s.(pos := s.pos[po := Submitted])
    case ApprovePo(po) =>
      if po >= |s.pos| || s.pos[po] != Submitted then s else s.(pos := s.pos[po := Approved])
    case CancelPo(po) =>
      if po >= |s.pos| || s.pos[po] == FullyReceived || s.pos[po] == Closed || s.pos[po] == Cancelled then s
      else s.(pos := s.pos[po := Cancelled])
    case CreateGrn(po, items) =>
      if !ItemsValid(items) || !LinksExist(s.lines, items) then s
      else if po.Some? && (po.value >= |s.pos| || s.pos[po.value] !in {Approved, PartiallyReceived}) then s
      else s.(grns := s.grns + [Grn(po, GrnDraft, items)])
    case PostGrn(g) =>
      if g >= |s.grns| || s.grns[g].status != GrnDraft || s.grns[g].items == [] then s
      else
        var grn := s.grns[g];
        var lines := ReceiveItems(s.lines, grn.items);
        s.(lines := lines,
           pos := if grn.po.Some? && grn.po.value < |s.pos|
                  then s.pos[grn.po.value := Recompute(s.pos[grn.po.value], lines, grn.po.value)] else s.pos,
           grns := s.grns[g := grn.(status := GrnPosted)])
    case CancelGrn(g) =>
      if g >= |s.grns| || s.grns[g].status != GrnDraft then s
      else s.(grns := s.grns[g := s.grns[g].(status := GrnCancelled)])
  }

  function Run(s: State, events: seq<Event>): State {
    if events == [] then s else Apply(Run(s, events[..|events| - 1]), events[|events| - 1])
  }

  const INITIAL := State([], map[], 0, [])

  // ---------- What the requests do to an order and its lines ----------

  /** Lines numbered from `next` on with nothing received, and everything else as it was. */
  ghost predicate NewLines(before: Lines, after: Lines, next: nat, po: nat, ordered: seq<nat>) {
    && (forall l :: l in after <==> l in before || next <= l < next + |ordered|)
    && (forall l :: l in after && next <= l < next + |ordered| ==> after[l] == PoLine(po, ordered[l - next], 0, 0, 0))
    && (forall l :: l in after && !(next <= l < next + |ordered|) ==> after[l] == before[l])
  }

  /** Each line grows by what the items that refer to it add up to. */
  ghost predicate Booked(before: Lines, after: Lines, items: seq<GrnItem>) {
    && after.Keys == before.Keys
    && forall l :: l in before ==>
      && after[l].po == before[l].po && after[l].ordered == before[l].ordered
      && after[l].received == before[l].received + ItemsQty(items, l, Received)
      && after[l].damaged == before[l].damaged + ItemsQty(items, l, Damaged)
      && after[l].rejected == before[l].rejected + ItemsQty(items, l, Rejected)
  }

  /** The status a posting leaves, said of the order's lines: fully received once there are lines and
      each has at least what was ordered, partially received once some line has something. */
  ghost predicate Derived(before: PoStatus, after: PoStatus, lines: Lines, po: nat) {
    var some := exists l :: l in lines && lines[l].po == po;
    var all := forall l :: l in lines && lines[l].po == po ==> lines[l].ordered <= lines[l].received;
    var begun := exists l :: l in lines && lines[l].po == po && 0 < lines[l].received;
    if before == Cancelled || before == Closed then after == before
    else
      && (some && all ==> after == FullyReceived)
      && (begun && !all ==> after == PartiallyReceived)
      && (!begun && !all ==> after == if before == PartiallyReceived then Approved else before)
      && (!some ==> after == before)
  }

  lemma RecomputeDerives(status: PoStatus, lines: Lines, po: nat)
    ensures Derived(status, Recompute(status, lines, po), lines, po)
  {
  }

  lemma ItemsBooked(lines: Lines, items: seq<GrnItem>)
    ensures Booked(lines, ReceiveItems(lines, items), items)
  {
    hide ReceiveItems, ItemsQty;
    ReceivedAdds(lines, items);
    var after := ReceiveItems(lines, items);
    forall l | l in lines
      ensures after[l].received == lines[l].received + ItemsQty(items, l, Received)
        && after[l].damaged == lines[l].damaged + ItemsQty(items, l, Damaged)
        && after[l].rejected == lines[l].rejected + ItemsQty(items, l, Rejected)
    {
      assert LineQty(after[l], Received) == LineQty(lines[l], Received) + ItemsQty(items, l, Received);
      assert LineQty(after[l], Damaged) == LineQty(lines[l], Damaged) + ItemsQty(items, l, Damaged);
      assert LineQty(after[l], Rejected) == LineQty(lines[l], Rejected) + ItemsQty(items, l, Rejected);
    }
  }

  // ---------- The service ----------

  class Service {
    var pos: seq<PoStatus>
    var lines: Lines
    var nextLine: nat
    var grns: seq<Grn>

    ghost function Contents(): State
      reads this
    {
      State(pos, lines, nextLine, grns)
    }

    constructor ()
      ensures Contents() == INITIAL
    {
      pos, lines, nextLine, grns := [], map[], 0, [];
    }

    method AddItems(po: nat, ordered: seq<nat>)
      modifies this`lines, this`nextLine
      ensures lines == AddLines(old(lines), old(nextLine), po, ordered) && nextLine == old(nextLine) + |ordered|
      ensures NewLines(old(lines), lines, old(nextLine), po, ordered)
    {
      LinesAdded(lines, nextLine, po, ordered);
      for i := 0 to |ordered|
        invariant nextLine == old(nextLine) + i
        invariant lines == AddLines(old(lines), old(nextLine), po, ordered[..i])
      {
        assert ordered[..i + 1][..i] == ordered[..i];
        lines, nextLine := lines[nextLine := PoLine(po, ordered[i], 0, 0, 0)], nextLine + 1;
      }
      assert ordered[..|ordered|] == ordered;
    }

    method CreateOrder(ordered: seq<nat>) returns (po: nat)
      modifies this
      ensures Contents() == Apply(old(Contents()), CreatePo(ordered)) && po == |old(pos)|
      ensures pos == old(pos) + [Draft] && grns == old(grns)
      ensures NewLines(old(lines), lines, old(nextLine), po, ordered) && nextLine == old(nextLine) + |ordered|
    {
      po := |pos|;
      pos := pos + [Draft];
      AddItems(po, ordered);
    }

    method UpdateOrder(po: nat, ordered: seq<nat>)
      modifies this
      ensures Contents() == Apply(old(Contents()), UpdatePo(po, ordered))
      ensures po < |old(pos)| && old(pos)[po] == Draft ==>
        && NewLines(old(WithoutLines(lines, po)), lines, old(nextLine), po, ordered)
        && nextLine == old(nextLine) + |ordered|
      ensures po >= |old(pos)| || old(pos)[po] != Draft ==> lines == old(lines) && nextLine == old(nextLine)
      ensures pos == old(pos) && grns == old(grns)
    {
      if po < |pos| && pos[po] == Draft {
        lines := WithoutLines(lines, po);
        AddItems(po, ordered);
      }
    }

    method SubmitOrder(po: nat) returns (ok: bool)
      modifies this`pos
      ensures Contents() == Apply(old(Contents()), SubmitPo(po))
      ensures ok <==> po < |old(pos)| && old(pos)[po] == Draft && exists l :: l in lines && lines[l].po == po
      ensures pos == if ok then old(pos)[po := Submitted] else old(pos)
    {
      ok := po < |pos| && pos[po] == Draft && HasLines(lines, po);
      if ok {
        pos := pos[po := Submitted];
      }
    }

    method ApproveOrder(po: nat) returns (ok: bool)
      modifies this`pos
      ensures Contents() == Apply(old(Contents()), ApprovePo(po))
      ensures ok <==> po < |old(pos)| && old(pos)[po] == Submitted
      ensures pos == if ok then old(pos)[po := Approved] else old(pos)
    {
      ok := po < |pos| && pos[po] == Submitted;
      if ok {
        pos := pos[po := Approved];
      }
    }

    method CancelOrder(po: nat) returns (ok: bool)
      modifies this`pos
      ensures Contents() == Apply(old(Contents()), CancelPo(po))
      ensures ok <==> po < |old(pos)| && old(pos)[po] !in {FullyReceived, Closed, Cancelled}
      ensures pos == if ok then old(pos)[po := Cancelled] else old(pos)
    {
      ok := po < |pos| && pos[po] != FullyReceived && pos[po] != Closed && pos[po] != Cancelled;
      if ok {
        pos := pos[po := Cancelled];
      }
    }

    method CreateNote(po: Option<nat>, items: seq<GrnItem>) returns (ok: bool)
      modifies this`grns
      ensures Contents() == Apply(old(Contents()), CreateGrn(po, items))
      ensures ok <==>
        && (forall i :: 0 <= i < |items| ==> items[i].damaged + items[i].rejected <= items[i].received)
        && (forall i :: 0 <= i < |items| && items[i].line.Some? ==> items[i].line.value in lines)
        && (po.Some? ==> po.value < |pos| && pos[po.value] in {Approved, PartiallyReceived})
      ensures grns == if ok then old(grns) + [Grn(po, GrnDraft, items)] else old(grns)
    {
      if po.Some? && (po.value >= |pos| || pos[po.value] !in {Approved, PartiallyReceived}) {
        return false;
      }
      for i := 0 to |items|
        invariant ItemsValid(items[..i])
      {
        if items[i].damaged + items[i].rejected > items[i].received {
          assert !ItemsValid(items);
          return false;
        }
        assert items[..i + 1] == items[..i] + [items[i]];
      }
      assert items[..|items|] == items;
      if !LinksExist(lines, items) {
        return false;  // the flush fails on the foreign key
      }
      grns := grns + [Grn(po, GrnDraft, items)];
      return true;
    }

    method PostNote(g: nat) returns (ok: bool)
      modifies this
      ensures Contents() == Apply(old(Contents()), PostGrn(g))
      ensures ok <==> g < |old(grns)| && old(grns)[g].status == GrnDraft && old(grns)[g].items != []
      ensures !ok ==> Contents() == old(Contents())
      ensures ok ==>
        var grn := old(grns)[g];
        && grns == old(grns)[g := grn.(status := GrnPosted)] && nextLine == old(nextLine)
        && Booked(old(lines), lines, grn.items)
        && |pos| == |old(pos)| && forall po :: 0 <= po < |pos| ==>
          if grn.po == Some(po) then Derived(old(pos)[po], pos[po], lines, po) else pos[po] == old(pos)[po]
    {
      hide AllReceived, AnyReceived, ItemsQty;
      if g >= |grns| || grns[g].status != GrnDraft || grns[g].items == [] {
        return false;
      }
      var grn := grns[g];
      for i := 0 to |grn.items|
        invariant lines == ReceiveItems(old(lines), grn.items[..i])
        invariant pos == old(pos) && grns == old(grns) && nextLine == old(nextLine)
      {
        assert grn.items[..i + 1][..i] == grn.items[..i];
        var item := grn.items[i];
        if item.line.Some? && item.line.value in lines {
          var line := lines[item.line.value];
          line := line.(received := line.received + item.received);
          line := line.(damaged := line.damaged + item.damaged);
          line := line.(rejected := line.rejected + item.rejected);
          lines := lines[item.line.value := line];
        }
      }
      assert grn.items[..|grn.items|] == grn.items;
      ReceivedAdds(old(lines), grn.items);
      ItemsBooked(old(lines), grn.items);
      if grn.po.Some? && grn.po.value < |pos| {
        RecomputeDerives(pos[grn.po.value], lines, grn.po.value);
      }
      hide ReceiveItems, Recompute, Derived, Booked;
      if grn.po.Some? && grn.po.value < |pos| {
        pos := pos[grn.po.value := Recompute(pos[grn.po.value], lines, grn.po.value)];
      }
      grns := grns[g := grn.(status := GrnPosted)];
      return true;
    }

    method CancelNote(g: nat) returns (ok: bool)
      modifies this`grns
      ensures Contents() == Apply(old(Contents()), CancelGrn(g))
      ensures ok <==> g < |old(grns)| && old(grns)[g].status == GrnDraft
      ensures grns == if ok then old(grns)[g := old(grns)[g].(status := GrnCancelled)] else old(grns)
    {
      ok := g < |grns| && grns[g].status == GrnDraft;
      if ok {
        grns := grns[g := grns[g].(status := GrnCancelled)];
      }
    }
  }

  // ---------- Totals and status over all runs ----------

  /** The three running totals of an order line. */
  datatype Field = Received | Damaged | Rejected

  function LineQty(line: PoLine, f: Field): nat {
    match f case Received => line.received case Damaged => line.damaged case Rejected => line.rejected
  }

  function ItemQty(item: GrnItem, f: Field): nat {
    match f case Received => item.received case Damaged => item.damaged case Rejected => item.rejected
  }

  /** What the items that refer to order line `l` add up to. */
  function ItemsQty(items: seq<GrnItem>, l: nat, f: Field): nat {
    if items == [] then 0
    else
      var n := |items| - 1;
      ItemsQty(items[..n], l, f) + if items[n].line == Some(l) then ItemQty(items[n], f) else 0
  }

  function GrnQty(grn: Grn, l: nat, f: Field): nat {
    if grn.status == GrnPosted then ItemsQty(grn.items, l, f) else 0
  }

  /** The sum over all posted notes of the items that refer to line `l`. */
  function PostedQty(grns: seq<Grn>, l: nat, f: Field): nat {
    if grns == [] then 0
    else PostedQty(grns[..|grns| - 1], l, f) + GrnQty(grns[|grns| - 1], l, f)
  }

  ghost predicate TotalsOk(s: State) {
    forall l, f :: l in s.lines ==> LineQty(s.lines[l], f) == PostedQty(s.grns, l, f)
  }

  predicate Early(status: PoStatus) {
    status == Draft || status == Submitted || status == Approved
  }

  /** The stored status says what the lines say. */
  ghost predicate StatusOk(status: PoStatus, lines: Lines, po: nat) {
    && status != Closed
    && (status != Cancelled ==> (status == PartiallyReceived <==> AnyReceived(lines, po) && !AllReceived(lines, po)))
    && (status == FullyReceived ==> AllReceived(lines, po))
    && (Early(status) ==> !AnyReceived(lines, po))
  }

  ghost predicate StatusesOk(s: State) {
    forall po :: 0 <= po < |s.pos| ==> StatusOk(s.pos[po], s.lines, po)
  }

  /** Note lines refer only to lines of the note's own order. */
  ghost predicate OwnLinks(lines: Lines, po: Option<nat>, items: seq<GrnItem>) {
    forall i :: 0 <= i < |items| && items[i].line.Some? ==>
      items[i].line.value in lines && po == Some(lines[items[i].line.value].po)
  }

  /** What the status theorem assumes of requests. */
  ghost predicate LinksOwn(s: State, e: Event) {
    e.CreateGrn? ==> OwnLinks(s.lines, e.order, e.items)
  }

  ghost predicate LinksOwnRun(s: State, events: seq<Event>) {
    events != [] ==>
      var n := |events| - 1;
      LinksOwnRun(s, events[..n]) && LinksOwn(Run(s, events[..n]), events[n])
  }

  lemma {:induction false} ReceivedAdds(lines: Lines, items: seq<GrnItem>)
    ensures var after := ReceiveItems(lines, items);
      && after.Keys == lines.Keys
      && (forall l :: l in lines ==> after[l].po == lines[l].po && after[l].ordered == lines[l].ordered)
      && (forall l, f :: l in lines ==> LineQty(after[l], f) == LineQty(lines[l], f) + ItemsQty(items, l, f))
  {
    if items != [] {
      ReceivedAdds(lines, items[..|items| - 1]);
    }
  }

  lemma {:induction false} QtyUpdate(grns: seq<Grn>, g: nat, grn: Grn, l: nat, f: Field)
    requires g < |grns|
    ensures PostedQty(grns[g := grn], l, f) == PostedQty(grns, l, f) - GrnQty(grns[g], l, f) + GrnQty(grn, l, f)
  {
    var n := |grns| - 1;
    if g < n {
      QtyUpdate(grns[..n], g, grn, l, f);
      assert grns[g := grn][..n] == grns[..n][g := grn];
    } else {
      assert grns[g := grn][..n] == grns[..n];
    }
  }

  ghost predicate Unlinked(items: seq<GrnItem>, l: nat) {
    forall i :: 0 <= i < |items| ==> items[i].line != Some(l)
  }

  lemma {:induction false} UnlinkedQty(items: seq<GrnItem>, l: nat, f: Field)
    requires Unlinked(items, l)
    ensures ItemsQty(items, l, f) == 0
  {
    if items != [] {
      UnlinkedQty(items[..|items| - 1], l, f);
    }
  }

  lemma {:induction false} UnlinkedPosted(grns: seq<Grn>, l: nat, f: Field)
    requires forall g :: 0 <= g < |grns| ==> Unlinked(grns[g].items, l)
    ensures PostedQty(grns, l, f) == 0
  {
    if grns != [] {
      var n := |grns| - 1;
      UnlinkedPosted(grns[..n], l, f);
      UnlinkedQty(grns[n].items, l, f);
    }
  }

  lemma {:induction false} LinesAdded(lines: Lines, next: nat, po: nat, ordered: seq<nat>)
    ensures NewLines(lines, AddLines(lines, next, po, ordered), next, po, ordered)
  {
    if ordered != [] {
      LinesAdded(lines, next, po, ordered[..|ordered| - 1]);
    }
  }

  // ---------- What holds on every run, whatever the notes refer to ----------

  /** Damaged and rejected units are among the received ones. */
  predicate LineOk(line: PoLine) {
    line.damaged + line.rejected <= line.received
  }

  /** The stored status is not contradicted by the order's lines. */
  ghost predicate ProgressOk(status: PoStatus, lines: Lines, po: nat) {
    && status != Closed
    && (status != Draft && status != Cancelled ==> HasLines(lines, po))
    && (status == PartiallyReceived ==> AnyReceived(lines, po))
    && (status == FullyReceived ==> AllReceived(lines, po))
  }

  ghost predicate NoteOk(s: State, grn: Grn) {
    && ItemsValid(grn.items)
    && (grn.po.Some? ==> grn.po.value < |s.pos| && s.pos[grn.po.value] != Draft && s.pos[grn.po.value] != Submitted)
  }

  /** What needs no assumption on the links of notes. */
  ghost predicate Sound(s: State) {
    && (forall po :: 0 <= po < |s.pos| ==> ProgressOk(s.pos[po], s.lines, po))
    && (forall l :: l in s.lines ==> l < s.nextLine && s.lines[l].po < |s.pos| && LineOk(s.lines[l]))
    && (forall g :: 0 <= g < |s.grns| ==> NoteOk(s, s.grns[g]))
  }

  lemma {:induction false} ItemsQtyValid(items: seq<GrnItem>, l: nat)
    requires ItemsValid(items)
    ensures ItemsQty(items, l, Damaged) + ItemsQty(items, l, Rejected) <= ItemsQty(items, l, Received)
  {
    if items != [] {
      ItemsQtyValid(items[..|items| - 1], l);
    }
  }

  /** Received items only add, to any order's lines. */
  lemma ReceivingGains(lines: Lines, items: seq<GrnItem>, po: nat)
    ensures var after := ReceiveItems(lines, items);
      && HasLines(after, po) == HasLines(lines, po)
      && (AnyReceived(lines, po) ==> AnyReceived(after, po))
      && (AllReceived(lines, po) ==> AllReceived(after, po))
  {
    hide ReceiveItems;
    ReceivedAdds(lines, items);
    var after := ReceiveItems(lines, items);
    forall l | l in lines
      ensures after[l].received >= lines[l].received
    {
      assert LineQty(after[l], Received) >= LineQty(lines[l], Received);
    }
  }

  lemma ReceivingKeepsLine(lines: Lines, items: seq<GrnItem>, l: nat)
    requires l in lines && LineOk(lines[l]) && ItemsValid(items)
    ensures l in ReceiveItems(lines, items) && LineOk(ReceiveItems(lines, items)[l])
  {
    hide ReceiveItems;
    ReceivedAdds(lines, items);
    ItemsQtyValid(items, l);
    var after := ReceiveItems(lines, items)[l];
    assert LineQty(after, Received) == lines[l].received + ItemsQty(items, l, Received);
    assert LineQty(after, Damaged) == lines[l].damaged + ItemsQty(items, l, Damaged);
    assert LineQty(after, Rejected) == lines[l].rejected + ItemsQty(items, l, Rejected);
  }

  /** The branch that reverts a partially received order to approved is dead, and a fully received
      order stays fully received. */
  lemma PostingNeverReverts(s: State, g: nat, po: nat)
    requires Sound(s) && g < |s.grns| && po < |s.pos|
    ensures var lines := ReceiveItems(s.lines, s.grns[g].items);
      s.pos[po] == PartiallyReceived ==> AllReceived(lines, po) || AnyReceived(lines, po)
    ensures s.pos[po] == FullyReceived ==> Apply(s, PostGrn(g)).pos[po] == FullyReceived
  {
    hide ReceiveItems;
    ReceivingGains(s.lines, s.grns[g].items, po);
    assert ProgressOk(s.pos[po], s.lines, po);
  }

  lemma PostKeepsSound(s: State, g: nat)
    requires Sound(s)
    ensures Sound(Apply(s, PostGrn(g)))
  {
    hide ReceiveItems, HasLines, AnyReceived, AllReceived, LineOk;
    var s' := Apply(s, PostGrn(g));
    if g < |s.grns| && s.grns[g].status == GrnDraft && s.grns[g].items != [] {
      var grn := s.grns[g];
      assert NoteOk(s, grn);
      ReceivedAdds(s.lines, grn.items);
      forall po | 0 <= po < |s'.pos|
        ensures ProgressOk(s'.pos[po], s'.lines, po)
      {
        ReceivingGains(s.lines, grn.items, po);
        PostingNeverReverts(s, g, po);
        assert ProgressOk(s.pos[po], s.lines, po);
      }
      forall l | l in s'.lines
        ensures LineOk(s'.lines[l])
      {
        ReceivingKeepsLine(s.lines, grn.items, l);
      }
      forall k | 0 <= k < |s'.grns|
        ensures NoteOk(s', s'.grns[k])
      {
        assert NoteOk(s, s.grns[k]);
      }
    }
  }

  /** Lines added to a draft leave what is known of every other order. */
  lemma NewLinesProgress(s: State, lines: Lines, po: nat, ordered: seq<nat>, other: nat, status: PoStatus)
    requires ProgressOk(status, s.lines, other) && other != po
    requires forall l :: l in s.lines ==> l < s.nextLine
    requires lines == AddLines(WithoutLines(s.lines, po), s.nextLine, po, ordered)
    ensures ProgressOk(status, lines, other)
  {
    hide AddLines;
    LinesAdded(WithoutLines(s.lines, po), s.nextLine, po, ordered);
    SameLines(s.lines, lines, other);
  }

  lemma SameLines(before: Lines, after: Lines, po: nat)
    requires forall l :: l in before && before[l].po == po ==> l in after && after[l] == before[l]
    requires forall l :: l in after && after[l].po == po ==> l in before && before[l] == after[l]
    ensures HasLines(after, po) == HasLines(before, po)
    ensures AnyReceived(after, po) == AnyReceived(before, po) && AllReceived(after, po) == AllReceived(before, po)
  {
  }

  lemma NewLinesKeepSound(s: State, s': State, po: nat, ordered: seq<nat>)
    requires Sound(s) && s'.grns == s.grns && s'.nextLine == s.nextLine + |ordered|
    requires po <= |s.pos| && |s'.pos| == (if po < |s.pos| then |s.pos| else |s.pos| + 1) && s'.pos[po] == Draft
    requires po < |s.pos| ==> s.pos[po] == Draft
    requires forall i :: 0 <= i < |s.pos| && i != po ==> s'.pos[i] == s.pos[i]
    requires s'.lines == AddLines(WithoutLines(s.lines, po), s.nextLine, po, ordered)
    ensures Sound(s')
  {
    hide AddLines, HasLines, AnyReceived, AllReceived;
    LinesAdded(WithoutLines(s.lines, po), s.nextLine, po, ordered);
    forall i | 0 <= i < |s'.pos|
      ensures ProgressOk(s'.pos[i], s'.lines, i)
    {
      if i != po {
        assert ProgressOk(s.pos[i], s.lines, i);
        NewLinesProgress(s, s'.lines, po, ordered, i, s.pos[i]);
      }
    }
    forall g | 0 <= g < |s'.grns|
      ensures NoteOk(s', s'.grns[g])
    {
      assert NoteOk(s, s.grns[g]);
    }
  }

  lemma StatusChangeKeepsSound(s: State, po: nat, status: PoStatus)
    requires Sound(s) && po < |s.pos| && ProgressOk(status, s.lines, po)
    requires status == Draft || status == Submitted ==> s.pos[po] == Draft
    ensures Sound(s.(pos := s.pos[po := status]))
  {
    var s' := s.(pos := s.pos[po := status]);
    forall g | 0 <= g < |s'.grns|
      ensures NoteOk(s', s'.grns[g])
    {
      assert NoteOk(s, s.grns[g]);
    }
  }

  lemma NotesKeepSound(s: State, e: Event)
    requires Sound(s) && (e.CreateGrn? || e.CancelGrn?)
    ensures Sound(Apply(s, e))
  {
    hide ProgressOk, LineOk;
    var s' := Apply(s, e);
    forall g | 0 <= g < |s'.grns|
      ensures NoteOk(s', s'.grns[g])
    {
      assert g < |s.grns| ==> NoteOk(s, s.grns[g]);
    }
  }

  lemma StepKeepsSound(s: State, e: Event)
    requires Sound(s)
    ensures Sound(Apply(s, e))
  {
    hide HasLines, AnyReceived, AllReceived, AddLines, ReceiveItems;
    var s' := Apply(s, e);
    match e
    case CreatePo(ordered) =>
      assert WithoutLines(s.lines, |s.pos|) == s.lines;
      NewLinesKeepSound(s, s', |s.pos|, ordered);
    case UpdatePo(po, ordered) =>
      if po < |s.pos| && s.pos[po] == Draft {
        NewLinesKeepSound(s, s', po, ordered);
      }
    case SubmitPo(po) =>
      if s' != s {
        StatusChangeKeepsSound(s, po, Submitted);
      }
    case ApprovePo(po) =>
      if s' != s {
        assert ProgressOk(s.pos[po], s.lines, po);
        StatusChangeKeepsSound(s, po, Approved);
      }
    case CancelPo(po) =>
      if s' != s {
        StatusChangeKeepsSound(s, po, Cancelled);
      }
    case CreateGrn(_, _) => NotesKeepSound(s, e);
    case PostGrn(g) => PostKeepsSound(s, g);
    case CancelGrn(_) => NotesKeepSound(s, e);
  }

  lemma {:induction false} RunKeepsSound(s: State, events: seq<Event>)
    requires Sound(s)
    ensures Sound(Run(s, events))
  {
    hide Apply, Sound;
    if events != [] {
      RunKeepsSound(s, events[..|events| - 1]);
      StepKeepsSound(Run(s, events[..|events| - 1]), events[|events| - 1]);
    }
  }

  /** On every run from the start, whatever the notes refer to: an order past draft has lines unless it
      was cancelled, a partially received one has something received, a fully received one everything,
      and no line or note has more damaged and rejected units than received ones. */
  lemma EveryRunIsSound(events: seq<Event>)
    ensures var s := Run(INITIAL, events);
      && Sound(s)
      && (forall po :: 0 <= po < |s.pos| ==> ProgressOk(s.pos[po], s.lines, po))
      && (forall l :: l in s.lines ==> LineOk(s.lines[l]))
  {
    RunKeepsSound(INITIAL, events);
  }

  /** The moves an order's status can make in one step. */
  predicate Follows(before: PoStatus, after: PoStatus) {
    || after == before
    || (before == Draft && after == Submitted)
    || (before == Submitted && after == Approved)
    || (before == Approved && after in {PartiallyReceived, FullyReceived})
    || (before == PartiallyReceived && after == FullyReceived)
    || (before in {Draft, Submitted, Approved, PartiallyReceived} && after == Cancelled)
  }

  /** Every request, accepted or refused, moves each order along these edges only. */
  lemma StepFollowsLifecycle(s: State, e: Event, po: nat)
    requires Sound(s) && po < |s.pos|
    ensures po < |Apply(s, e).pos| && Follows(s.pos[po], Apply(s, e).pos[po])
  {
    hide AddLines, WithoutLines, ReceiveItems;
    assert ProgressOk(s.pos[po], s.lines, po);
    if e.PostGrn? && e.grn < |s.grns| {
      PostingNeverReverts(s, e.grn, po);
      assert NoteOk(s, s.grns[e.grn]);
    }
  }

  /** Over every run a fully received order stays fully received. */
  lemma {:induction false} FullyReceivedIsFinal(s: State, events: seq<Event>, po: nat)
    requires Sound(s) && po < |s.pos| && s.pos[po] == FullyReceived
    ensures po < |Run(s, events).pos| && Run(s, events).pos[po] == FullyReceived
  {
    hide Apply, Sound;
    if events != [] {
      var n := |events| - 1;
      FullyReceivedIsFinal(s, events[..n], po);
      RunKeepsSound(s, events[..n]);
      StepFollowsLifecycle(Run(s, events[..n]), events[n], po);
    }
  }

  /** After a note of an order is posted, in every reachable state: the order is fully received if and
      only if it has lines and each received at least what was ordered, and partially received if and
      only if some line received and not all are complete. */
  lemma PostedOrderStatus(s: State, g: nat)
    requires Sound(s) && g < |s.grns| && s.grns[g].status == GrnDraft && s.grns[g].items != [] && s.grns[g].po.Some?
    requires s.grns[g].po.value < |s.pos| && s.pos[s.grns[g].po.value] !in {Cancelled, Closed}
    ensures var po := s.grns[g].po.value;
      var s' := Apply(s, PostGrn(g));
      var all := forall l :: l in s'.lines && s'.lines[l].po == po ==> s'.lines[l].ordered <= s'.lines[l].received;
      && (s'.pos[po] == FullyReceived <==> all && exists l :: l in s'.lines && s'.lines[l].po == po)
      && (s'.pos[po] == PartiallyReceived <==>
        !all && exists l :: l in s'.lines && s'.lines[l].po == po && 0 < s'.lines[l].received)
      && (s'.pos[po] !in {FullyReceived, PartiallyReceived} ==> s'.pos[po] == s.pos[po])
  {
    hide ReceiveItems;
    var po := s.grns[g].po.value;
    assert ProgressOk(s.pos[po], s.lines, po) && NoteOk(s, s.grns[g]);
    ReceivingGains(s.lines, s.grns[g].items, po);
    RecomputeDerives(s.pos[po], ReceiveItems(s.lines, s.grns[g].items), po);
  }

  /** Why an order's status changed: a submit, approve or cancel request for that order, or the posting
      of one of its notes, and nothing else. */
  ghost predicate Caused(s: State, e: Event, po: nat, after: PoStatus) {
    match after
    case Submitted => e == SubmitPo(po)
    case Approved => e == ApprovePo(po)
    case Cancelled => e == CancelPo(po)
    case PartiallyReceived => e.PostGrn? && e.grn < |s.grns| && s.grns[e.grn].po == Some(po)
    case FullyReceived => e.PostGrn? && e.grn < |s.grns| && s.grns[e.grn].po == Some(po)
    case _ => false
  }

  lemma StatusChangesHaveCauses(s: State, e: Event, po: nat)
    requires Sound(s) && po < |s.pos| && Apply(s, e).pos[po] != s.pos[po]
    ensures Caused(s, e, po, Apply(s, e).pos[po])
  {
    hide AddLines, WithoutLines, ReceiveItems, HasLines, AllReceived, AnyReceived;
    if e.PostGrn? && e.grn < |s.grns| {
      PostingNeverReverts(s, e.grn, po);
      assert NoteOk(s, s.grns[e.grn]);
    }
  }

  /** Over every run an order that became cancelled was cancelled by a request of its own. */
  lemma {:induction false} CancelledOnlyByRequest(s: State, events: seq<Event>, po: nat)
    requires Sound(s) && po < |s.pos| && s.pos[po] != Cancelled
    ensures po < |Run(s, events).pos| && (Run(s, events).pos[po] == Cancelled ==> CancelPo(po) in events)
  {
    hide Apply, Sound;
    StatusOnlyAdvances(s, events, po);
    if events != [] {
      var n := |events| - 1;
      CancelledOnlyByRequest(s, events[..n], po);
      RunKeepsSound(s, events[..n]);
      var before := Run(s, events[..n]);
      if Run(s, events).pos[po] == Cancelled && before.pos[po] != Cancelled {
        StatusChangesHaveCauses(before, events[n], po);
        assert events[n] == CancelPo(po);
      }
    }
  }

  function Rank(status: PoStatus): nat {
    match status
    case Draft => 0
    case Submitted => 1
    case Approved => 2
    case PartiallyReceived => 3
    case FullyReceived => 4
    case Closed => 5
    case Cancelled => 5
  }

  /** Over every run an order only moves forward, and cancelled is the end. */
  lemma {:induction false} StatusOnlyAdvances(s: State, events: seq<Event>, po: nat)
    requires Sound(s) && po < |s.pos|
    ensures po < |Run(s, events).pos| && Rank(s.pos[po]) <= Rank(Run(s, events).pos[po])
    ensures s.pos[po] == Cancelled ==> Run(s, events).pos[po] == Cancelled
  {
    hide Apply, Sound;
    if events != [] {
      var n := |events| - 1;
      StatusOnlyAdvances(s, events[..n], po);
      RunKeepsSound(s, events[..n]);
      StepFollowsLifecycle(Run(s, events[..n]), events[n], po);
    }
  }

  // ---------- Totals over every run ----------

  /** Links of notes refer to lines that were created. */
  ghost predicate TotalsSound(s: State) {
    && TotalsOk(s)
    && (forall l :: l in s.lines ==> l < s.nextLine)
    && (forall g, i :: 0 <= g < |s.grns| && 0 <= i < |s.grns[g].items| && s.grns[g].items[i].line.Some? ==>
      s.grns[g].items[i].line.value < s.nextLine)
  }

  lemma PostKeepsTotals(s: State, g: nat)
    requires TotalsSound(s)
    ensures TotalsSound(Apply(s, PostGrn(g)))
  {
    hide ReceiveItems, Recompute;
    var s' := Apply(s, PostGrn(g));
    if s' != s {
      var grn := s.grns[g];
      ReceivedAdds(s.lines, grn.items);
      forall l, f | l in s'.lines
        ensures LineQty(s'.lines[l], f) == PostedQty(s'.grns, l, f)
      {
        QtyUpdate(s.grns, g, grn.(status := GrnPosted), l, f);
      }
    }
  }

  /** New lines start at zero, and no note refers to them yet. */
  lemma NewLinesKeepTotals(s: State, s': State, po: nat, ordered: seq<nat>)
    requires TotalsSound(s) && s'.grns == s.grns && s'.nextLine == s.nextLine + |ordered|
    requires s'.lines == AddLines(WithoutLines(s.lines, po), s.nextLine, po, ordered)
    ensures TotalsSound(s')
  {
    hide AddLines;
    LinesAdded(WithoutLines(s.lines, po), s.nextLine, po, ordered);
    forall l, f | l in s'.lines
      ensures LineQty(s'.lines[l], f) == PostedQty(s'.grns, l, f)
    {
      if l >= s.nextLine {
        UnlinkedPosted(s.grns, l, f);
      }
    }
  }

  lemma NotesKeepTotals(s: State, e: Event)
    requires TotalsSound(s) && (e.CreateGrn? || e.CancelGrn?)
    ensures TotalsSound(Apply(s, e))
  {
    var s' := Apply(s, e);
    if s' != s {
      forall l, f
        ensures PostedQty(s'.grns, l, f) == PostedQty(s.grns, l, f)
      {
        if e.CreateGrn? {
          assert s'.grns[..|s.grns|] == s.grns;
        } else {
          QtyUpdate(s.grns, e.grn, s'.grns[e.grn], l, f);
        }
      }
    }
  }

  lemma StepKeepsTotals(s: State, e: Event)
    requires TotalsSound(s)
    ensures TotalsSound(Apply(s, e))
  {
    hide AddLines, ReceiveItems, PostedQty;
    var s' := Apply(s, e);
    match e
    case CreatePo(ordered) => CreateKeepsTotals(s, ordered);
    case UpdatePo(po, ordered) =>
      if s' != s {
        NewLinesKeepTotals(s, s', po, ordered);
      }
    case CreateGrn(_, _) => NotesKeepTotals(s, e);
    case PostGrn(g) => PostKeepsTotals(s, g);
    case CancelGrn(_) => NotesKeepTotals(s, e);
    case _ =>
  }

  lemma CreateKeepsTotals(s: State, ordered: seq<nat>)
    requires TotalsSound(s)
    ensures TotalsSound(Apply(s, CreatePo(ordered)))
  {
    hide AddLines;
    LinesAdded(s.lines, s.nextLine, |s.pos|, ordered);
    var s' := Apply(s, CreatePo(ordered));
    forall l, f | l in s'.lines
      ensures LineQty(s'.lines[l], f) == PostedQty(s'.grns, l, f)
    {
      if l >= s.nextLine {
        UnlinkedPosted(s.grns, l, f);
      }
    }
  }

  lemma {:induction false} RunKeepsTotals(s: State, events: seq<Event>)
    requires TotalsSound(s)
    ensures TotalsSound(Run(s, events))
  {
    hide Apply, TotalsSound;
    if events != [] {
      RunKeepsTotals(s, events[..|events| - 1]);
      StepKeepsTotals(Run(s, events[..|events| - 1]), events[|events| - 1]);
    }
  }

  /** On every run from the start, also when notes refer to lines of other orders, each order line's
      received, damaged and rejected totals are the sums over all posted notes. */
  lemma EveryRunAddsUp(events: seq<Event>)
    ensures TotalsOk(Run(INITIAL, events))
  {
    RunKeepsTotals(INITIAL, events);
  }

  // ---------- Status and lines, when notes refer to their own order ----------

  ghost predicate LinksOk(s: State) {
    forall g :: 0 <= g < |s.grns| ==> OwnLinks(s.lines, s.grns[g].po, s.grns[g].items)
  }

  ghost predicate Inv(s: State) {
    Sound(s) && TotalsSound(s) && StatusesOk(s) && LinksOk(s)
  }

  /** A posted note leaves every order's lines alone but its own order's. */
  lemma PostedLines(lines: Lines, grn: Grn, po: nat)
    requires OwnLinks(lines, grn.po, grn.items) && grn.po != Some(po)
    ensures var after := ReceiveItems(lines, grn.items);
      AnyReceived(after, po) == AnyReceived(lines, po) && AllReceived(after, po) == AllReceived(lines, po)
  {
    hide ReceiveItems;
    ReceivedAdds(lines, grn.items);
    var after := ReceiveItems(lines, grn.items);
    forall l | l in lines && lines[l].po == po
      ensures after[l].received == lines[l].received
    {
      UnlinkedQty(grn.items, l, Received);
      assert LineQty(after[l], Received) == LineQty(lines[l], Received);
    }
  }

  lemma PostKeepsStatuses(s: State, g: nat)
    requires Inv(s)
    ensures StatusesOk(Apply(s, PostGrn(g))) && LinksOk(Apply(s, PostGrn(g)))
  {
    hide ReceiveItems, TotalsSound, HasLines, AnyReceived, AllReceived;
    var s' := Apply(s, PostGrn(g));
    if s' != s {
      var grn := s.grns[g];
      assert NoteOk(s, grn) && OwnLinks(s.lines, grn.po, grn.items);
      ReceivedAdds(s.lines, grn.items);
      forall po | 0 <= po < |s'.pos|
        ensures StatusOk(s'.pos[po], s'.lines, po)
      {
        assert StatusOk(s.pos[po], s.lines, po) && ProgressOk(s.pos[po], s.lines, po);
        ReceivingGains(s.lines, grn.items, po);
        if grn.po != Some(po) {
          PostedLines(s.lines, grn, po);
        }
      }
      forall k | 0 <= k < |s'.grns|
        ensures OwnLinks(s'.lines, s'.grns[k].po, s'.grns[k].items)
      {
        assert OwnLinks(s.lines, s.grns[k].po, s.grns[k].items);
      }
    }
  }

  /** Lines added to a draft: other orders' statuses still fit, and notes refer to none of its lines. */
  lemma NewLinesKeepStatuses(s: State, s': State, po: nat, ordered: seq<nat>)
    requires Inv(s) && s'.grns == s.grns
    requires po <= |s.pos| && |s'.pos| == (if po < |s.pos| then |s.pos| else |s.pos| + 1) && s'.pos[po] == Draft
    requires po < |s.pos| ==> s.pos[po] == Draft
    requires forall i :: 0 <= i < |s.pos| && i != po ==> s'.pos[i] == s.pos[i]
    requires s'.lines == AddLines(WithoutLines(s.lines, po), s.nextLine, po, ordered)
    ensures StatusesOk(s') && LinksOk(s')
  {
    hide AddLines, TotalsOk, ProgressOk, AnyReceived, AllReceived;
    LinesAdded(WithoutLines(s.lines, po), s.nextLine, po, ordered);
    forall i | 0 <= i < |s'.pos|
      ensures StatusOk(s'.pos[i], s'.lines, i)
    {
      if i != po {
        assert StatusOk(s.pos[i], s.lines, i);
        SameLines(s.lines, s'.lines, i);
      } else {
        NothingOnDraft(s, s'.lines, po, ordered);
      }
    }
    forall g | 0 <= g < |s'.grns|
      ensures OwnLinks(s'.lines, s'.grns[g].po, s'.grns[g].items)
    {
      assert OwnLinks(s.lines, s.grns[g].po, s.grns[g].items) && NoteOk(s, s.grns[g]);
    }
  }

  lemma NothingOnDraft(s: State, lines: Lines, po: nat, ordered: seq<nat>)
    requires forall l :: l in s.lines ==> l < s.nextLine
    requires lines == AddLines(WithoutLines(s.lines, po), s.nextLine, po, ordered)
    ensures !AnyReceived(lines, po)
  {
    hide AddLines;
    LinesAdded(WithoutLines(s.lines, po), s.nextLine, po, ordered);
  }

  lemma StepKeepsStatuses(s: State, e: Event)
    requires Inv(s) && LinksOwn(s, e)
    ensures StatusesOk(Apply(s, e)) && LinksOk(Apply(s, e))
  {
    var s' := Apply(s, e);
    match e
    case CreatePo(ordered) =>
      assert WithoutLines(s.lines, |s.pos|) == s.lines;
      NewLinesKeepStatuses(s, s', |s.pos|, ordered);
    case UpdatePo(po, ordered) =>
      if po < |s.pos| && s.pos[po] == Draft {
        NewLinesKeepStatuses(s, s', po, ordered);
      }
    case PostGrn(g) => PostKeepsStatuses(s, g);
    case _ => StatusStepKeeps(s, e);
  }

  /** Steps that change one status, or the notes, and no line. */
  lemma StatusStepKeeps(s: State, e: Event)
    requires Inv(s) && LinksOwn(s, e)
    requires e.SubmitPo? || e.ApprovePo? || e.CancelPo? || e.CreateGrn? || e.CancelGrn?
    ensures StatusesOk(Apply(s, e)) && LinksOk(Apply(s, e))
  {
    hide HasLines, AnyReceived, AllReceived, TotalsSound, Sound;
    var s' := Apply(s, e);
    forall po | 0 <= po < |s'.pos|
      ensures StatusOk(s'.pos[po], s'.lines, po)
    {
      assert StatusOk(s.pos[po], s.lines, po);
    }
    forall g | 0 <= g < |s'.grns|
      ensures OwnLinks(s'.lines, s'.grns[g].po, s'.grns[g].items)
    {
      assert g < |s.grns| ==> OwnLinks(s.lines, s.grns[g].po, s.grns[g].items);
    }
  }

  lemma StepKeepsInv(s: State, e: Event)
    requires Inv(s) && LinksOwn(s, e)
    ensures Inv(Apply(s, e))
  {
    hide Apply, Sound, TotalsSound, StatusesOk, LinksOk;
    StepKeepsSound(s, e);
    StepKeepsTotals(s, e);
    StepKeepsStatuses(s, e);
  }

  /** Over every run whose notes refer to lines of their own order: each order line's totals equal
      the sums over all posted notes, and each order's status is what its lines say. */
  lemma {:induction false} TotalsAndStatusAgree(s: State, events: seq<Event>)
    requires Inv(s) && LinksOwnRun(s, events)
    ensures Inv(Run(s, events)) && TotalsOk(Run(s, events)) && StatusesOk(Run(s, events))
  {
    if events != [] {
      var n := |events| - 1;
      TotalsAndStatusAgree(s, events[..n]);
      StepKeepsInv(Run(s, events[..n]), events[n]);
    }
  }

  /** The same on every such run from the start. */
  lemma EveryOwnRunAgrees(events: seq<Event>)
    requires LinksOwnRun(INITIAL, events)
    ensures TotalsOk(Run(INITIAL, events)) && StatusesOk(Run(INITIAL, events))
  {
    TotalsAndStatusAgree(INITIAL, events);
  }

  lemma StepKeepsFinalNotes(s: State, e: Event, g: nat)
    requires g < |s.grns| && s.grns[g].status != GrnDraft
    ensures g < |Apply(s, e).grns| && Apply(s, e).grns[g] == s.grns[g]
  {
    hide AddLines, WithoutLines, ReceiveItems, Recompute;
  }

  /** A posted or cancelled note never changes again, so each note is counted at most once. */
  lemma {:induction false} NotesAreFinal(s: State, events: seq<Event>, g: nat)
    requires g < |s.grns| && s.grns[g].status != GrnDraft
    ensures g < |Run(s, events).grns| && Run(s, events).grns[g] == s.grns[g]
  {
    hide Apply;
    if events != [] {
      NotesAreFinal(s, events[..|events| - 1], g);
      StepKeepsFinalNotes(Run(s, events[..|events| - 1]), events[|events| - 1], g);
    }
  }

  // ---------- Accepted quantities ----------

  /** The property `accepted_qty_base`, of notes and of order lines. */
  function AcceptedQty(received: nat, damaged: nat, rejected: nat): nat {
    if received - damaged - rejected < 0 then 0 else received - damaged - rejected
  }

  /** On reachable lines the `max(0, ...)` never bites: accepted is received minus damaged minus
      rejected, for every note item and for every order line. */
  lemma AcceptedNeverClamped(s: State)
    requires Sound(s)
    ensures forall g, i :: 0 <= g < |s.grns| && 0 <= i < |s.grns[g].items| ==> (
      var item := s.grns[g].items[i];
      AcceptedQty(item.received, item.damaged, item.rejected) == item.received - item.damaged - item.rejected)
    ensures forall l :: l in s.lines ==> (
      var line := s.lines[l];
      AcceptedQty(line.received, line.damaged, line.rejected) == line.received - line.damaged - line.rejected)
  {
    forall g | 0 <= g < |s.grns|
      ensures ItemsValid(s.grns[g].items)
    {
      assert NoteOk(s, s.grns[g]);
    }
    assert forall l | l in s.lines :: LineOk(s.lines[l]);
  }

  // ---------- Notes that refer to other orders' lines ----------

  ghost predicate NothingEarly(s: State) {
    forall po :: 0 <= po < |s.pos| && Early(s.pos[po]) ==> !AnyReceived(s.lines, po)
  }

  /** The item receives units against a line of an order that is not receiving yet, other than the
      note's own order. */
  ghost predicate ReceivesEarly(s: State, grn: Grn, i: nat)
    requires i < |grn.items|
  {
    var item := grn.items[i];
    && item.received > 0 && item.line.Some? && item.line.value in s.lines
    && var po := s.lines[item.line.value].po;
      po < |s.pos| && Early(s.pos[po]) && grn.po != Some(po)
  }

  /** `create_grn` does not check which order a line belongs to. Posting a note keeps orders that
      are draft, submitted or approved free of receipts if and only if no item with a positive
      quantity refers to a line of such an order other than the note's own. */
  lemma PostingKeepsEarlyOrdersIff(s: State, g: nat)
    requires NothingEarly(s) && g < |s.grns| && s.grns[g].status == GrnDraft
    ensures NothingEarly(Apply(s, PostGrn(g))) <==>
      forall i :: 0 <= i < |s.grns[g].items| ==> !ReceivesEarly(s, s.grns[g], i)
  {
    var grn := s.grns[g];
    var s' := Apply(s, PostGrn(g));
    ReceivedAdds(s.lines, grn.items);
    if i :| 0 <= i < |grn.items| && ReceivesEarly(s, grn, i) {
      var l := grn.items[i].line.value;
      LinkedGains(grn.items, i);
      assert LineQty(s'.lines[l], Received) > 0;
      assert s'.lines[l].received > 0;
      assert Early(s'.pos[s.lines[l].po]);
    } else if grn.items != [] {
      forall po | 0 <= po < |s'.pos| && Early(s'.pos[po])
        ensures !AnyReceived(s'.lines, po)
      {
        if grn.po != Some(po) {
          forall l | l in s.lines && s.lines[l].po == po
            ensures s'.lines[l].received == s.lines[l].received
          {
            forall i | 0 <= i < |grn.items| && grn.items[i].line == Some(l)
              ensures grn.items[i].received == 0
            {
              assert !ReceivesEarly(s, grn, i);
            }
            IdleLinks(grn.items, l);
            assert LineQty(s'.lines[l], Received) == LineQty(s.lines[l], Received);
          }
        }
      }
    }
  }

  lemma {:induction false} LinkedGains(items: seq<GrnItem>, i: nat)
    requires i < |items| && items[i].line.Some?
    ensures ItemsQty(items, items[i].line.value, Received) >= items[i].received
  {
    if i < |items| - 1 {
      LinkedGains(items[..|items| - 1], i);
    }
  }

  lemma {:induction false} IdleLinks(items: seq<GrnItem>, l: nat)
    requires forall i :: 0 <= i < |items| && items[i].line == Some(l) ==> items[i].received == 0
    ensures ItemsQty(items, l, Received) == 0
  {
    if items != [] {
      IdleLinks(items[..|items| - 1], l);
    }
  }

  /** A run that shows it: a note without an order, posted against a line of a draft order. */
  lemma ForeignLinkReceivesOnDraft()
    ensures var s := Run(INITIAL, [CreatePo([5]), CreateGrn(None, [GrnItem(Some(0), 3, 2, 1)]), PostGrn(0)]);
      s.pos == [Draft] && s.lines == map[0 := PoLine(0, 5, 3, 2, 1)]
  {
    var item := GrnItem(Some(0), 3, 2, 1);
    var events := [CreatePo([5]), CreateGrn(None, [item]), PostGrn(0)];
    var s1 := State([Draft], map[0 := PoLine(0, 5, 0, 0, 0)], 1, []);
    assert Run(INITIAL, events[..1]) == s1 by {
      assert events[..1][..0] == [];
      assert AddLines(map[], 0, 0, [5]) == s1.lines;
    }
    var s2 := s1.(grns := [Grn(None, GrnDraft, [item])]);
    assert Run(INITIAL, events[..2]) == s2 by {
      assert events[..2][..1] == events[..1];
    }
    assert events[..2] == events[..|events| - 1];
    assert ReceiveItems(s1.lines, [item]) == ReceiveItem(s1.lines, item) by {
      assert [item][..0] == [];
    }
  }
}
