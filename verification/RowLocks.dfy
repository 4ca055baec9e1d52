/** Sales and goods postings running at the same time, each a database transaction that takes row
    locks one at a time: products as its lines come, the goods-received row before anything else,
    and the sale number when the sale row is flushed. Any step of any transaction may come next. */
module RowLocks {

  datatype Line = Line(product: int, qty: nat)

  /** A sale takes its lines' quantities out of stock, a posting adds its accepted quantities. */
  datatype Task = Sell(key: string, lines: seq<Line>) | Post(grn: string, lines: seq<Line>)

  datatype Resource = ProductRow(product: int) | SaleNumber(key: string) | GrnRow(grn: string)

  /** A running transaction: how many lines it has read, the product quantities it read under lock,
      and whether its own row (the sale number or the goods-received row) is taken. */
  datatype Proc = Proc(task: Task, done: nat, seen: map<int, int>, claimed: bool)

  /** `log` lists the committed tasks in commit order. */
  datatype State = State(stock: map<int, int>, locks: map<Resource, nat>, procs: map<nat, Proc>, log: seq<Task>)

  datatype Event =
    | Start(id: nat, task: Task)
    | Claim(id: nat)
    | LockNext(id: nat)
    | Commit(id: nat)
    | Abort(id: nat)

  function OwnRow(task: Task): Resource {
    match task
    case Sell(key, _) => SaleNumber(key)
    case Post(grn, _) => GrnRow(grn)
  }

  function Qty(lines: seq<Line>, product: int): nat {
    if lines == [] then 0
    else
      var n := |lines| - 1;
      Qty(lines[..n], product) + if lines[n].product == product then lines[n].qty else 0
  }

  /** What a task does to a product's stock. */
  function Effect(task: Task, product: int): int {
    match task
    case Sell(_, lines) => 0 - Qty(lines, product)
    case Post(_, lines) => Qty(lines, product)
  }

  function TotalEffect(log: seq<Task>, product: int): int {
    if log == [] then 0 else TotalEffect(log[..|log| - 1], product) + Effect(log[|log| - 1], product)
  }

  predicate Recorded(log: seq<Task>, row: Resource) {
    exists i :: 0 <= i < |log| && OwnRow(log[i]) == row
  }

  function Release(locks: map<Resource, nat>, id: nat): map<Resource, nat> {
    map r | r in locks && locks[r] != id :: locks[r]
  }

  function End(s: State, id: nat): State {
    s.(locks := Release(s.locks, id), procs := s.procs - {id})
  }

  predicate Free(s: State, r: Resource, id: nat) {
    r !in s.locks || s.locks[r] == id
  }

  /** The quantities a transaction writes back. */
  function Written(p: Proc): map<int, int> {
    map product | product in p.seen :: p.seen[product] + Effect(p.task, product)
  }

  function Apply(s: State, e: Event): State {
    match e
    case Start(id, task) =>
      // A sale whose number is already recorded returns the recorded sale, an empty note is refused.
      if id in s.procs || (task.Sell? && Recorded(s.log, OwnRow(task))) || (task.Post? && task.lines == []) then s
      else s.(procs := s.procs[id := Proc(task, 0, map[], false)])
    case Claim(id) =>
      if id !in s.procs || s.procs[id].claimed then s
      else
        var p := s.procs[id];
        var row := OwnRow(p.task);
        // A sale flushes its row after all its lines are read; a posting locks its row first.
        if !Free(s, row, id) || (p.task.Sell? && p.done < |p.task.lines|) then s
        else if Recorded(s.log, row) then End(s, id)
        else s.(locks := s.locks[row := id], procs := s.procs[id := p.(claimed := true)])
    case LockNext(id) =>
      if id !in s.procs || s.procs[id].done >= |s.procs[id].task.lines| then s
      else if s.procs[id].task.Post? && !s.procs[id].claimed then s
      else
        var p := s.procs[id];
        var line := p.task.lines[p.done];
        var row := ProductRow(line.product);
        if !Free(s, row, id) then s
        else if line.product !in s.stock then End(s, id)
        else
          var seen := if line.product in p.seen then p.seen else p.seen[line.product := s.stock[line.product]];
          if p.task.Sell? && seen[line.product] < line.qty then End(s, id)
          else s.(locks := s.locks[row := id], procs := s.procs[id := p.(done := p.done + 1, seen := seen)])
    case Commit(id) =>
      if id !in s.procs || !s.procs[id].claimed || s.procs[id].done < |s.procs[id].task.lines| then s
      else
        var p := s.procs[id];
        if exists product | product in p.seen :: Written(p)[product] < 0 then End(s, id)
        else End(s.(stock := s.stock + Written(p), log := s.log + [p.task]), id)
    case Abort(id) =>
      if id in s.procs then End(s, id) else s
  }

  function Run(s: State, events: seq<Event>): State {
    if events == [] then s else Apply(Run(s, events[..|events| - 1]), events[|events| - 1])
  }

  ghost predicate ProcOk(s: State, id: nat, p: Proc) {
    && p.done <= |p.task.lines|
    && (p.task.Post? ==> p.task.lines != [])
    && (forall product :: product in p.seen ==>
      && ProductRow(product) in s.locks && s.locks[ProductRow(product)] == id
      && product in s.stock && p.seen[product] == s.stock[product])
    && (forall i :: 0 <= i < p.done ==>
      && p.task.lines[i].product in p.seen
      && (p.task.Sell? ==> p.task.lines[i].qty <= p.seen[p.task.lines[i].product]))
    && (p.claimed ==>
      && OwnRow(p.task) in s.locks && s.locks[OwnRow(p.task)] == id
      && !Recorded(s.log, OwnRow(p.task)))
  }

  ghost predicate Inv(initial: map<int, int>, s: State) {
    && s.stock.Keys == initial.Keys
    && (forall product :: product in s.stock ==> 0 <= s.stock[product])
    && (forall product :: product in s.stock ==> s.stock[product] == initial[product] + TotalEffect(s.log, product))
    && (forall i, j :: 0 <= i < j < |s.log| ==> OwnRow(s.log[i]) != OwnRow(s.log[j]))
    && (forall id :: id in s.procs ==> ProcOk(s, id, s.procs[id]))
  }

  lemma {:induction false} UnseenIsUntouched(lines: seq<Line>, product: int)
    requires forall i :: 0 <= i < |lines| ==> lines[i].product != product
    ensures Qty(lines, product) == 0
  {
    if lines != [] {
      UnseenIsUntouched(lines[..|lines| - 1], product);
    }
  }

  lemma RecordedSnoc(log: seq<Task>, task: Task, row: Resource)
    ensures Recorded(log + [task], row) <==> Recorded(log, row) || OwnRow(task) == row
  {
    if i :| 0 <= i < |log| && OwnRow(log[i]) == row {
      assert OwnRow((log + [task])[i]) == row;
    }
    assert (log + [task])[|log|] == task;
  }

  lemma EndKeepsInv(initial: map<int, int>, s: State, id: nat)
    requires Inv(initial, s)
    ensures Inv(initial, End(s, id))
  {
    forall other | other in End(s, id).procs
      ensures ProcOk(End(s, id), other, s.procs[other])
    {
      assert ProcOk(s, other, s.procs[other]);
    }
  }

  /** The committing transaction holds every lock it read under, so what it writes back is the
      committed quantity plus its own effect, and no running transaction has read those rows. */
  lemma CommitKeepsInv(initial: map<int, int>, s: State, id: nat)
    requires Inv(initial, s) && id in s.procs && s.procs[id].claimed && s.procs[id].done == |s.procs[id].task.lines|
    requires forall product :: product in s.procs[id].seen ==> 0 <= Written(s.procs[id])[product]
    ensures Inv(initial, End(s.(stock := s.stock + Written(s.procs[id]), log := s.log + [s.procs[id].task]), id))
  {
    var p := s.procs[id];
    var s' := End(s.(stock := s.stock + Written(p), log := s.log + [p.task]), id);
    assert ProcOk(s, id, p);
    hide Qty, Release;
    assert s'.log[..|s.log|] == s.log;
    assert s'.stock.Keys == s.stock.Keys;
    forall product | product in s'.stock
      ensures s'.stock[product] == initial[product] + TotalEffect(s'.log, product) && 0 <= s'.stock[product]
    {
      if product !in p.seen {
        UnseenIsUntouched(p.task.lines, product);
      }
    }
    assert forall i | 0 <= i < |s.log| :: OwnRow(s.log[i]) != OwnRow(p.task);
    forall other | other in s'.procs
      ensures ProcOk(s', other, s'.procs[other])
    {
      CommitKeepsProc(s, id, p, other, s.procs[other]);
    }
  }

  /** A commit writes rows that no other transaction has read. */
  lemma CommitKeepsProc(s: State, id: nat, p: Proc, other: nat, q: Proc)
    requires ProcOk(s, id, p) && p.claimed && ProcOk(s, other, q) && other != id
    ensures ProcOk(End(s.(stock := s.stock + Written(p), log := s.log + [p.task]), id), other, q)
  {
    hide Effect;
    RecordedSnoc(s.log, p.task, OwnRow(q.task));
  }

  /** A lock that was free, or one's own, takes nothing from what any transaction holds. */
  lemma LockingKeepsProc(s: State, row: Resource, id: nat, other: nat, q: Proc)
    requires Free(s, row, id) && ProcOk(s, other, q)
    ensures ProcOk(s.(locks := s.locks[row := id]), other, q)
  {
  }

  /** One transaction's own record may change while the others keep theirs. */
  lemma LockingKeepsInv(initial: map<int, int>, s: State, row: Resource, id: nat, p: Proc)
    requires Inv(initial, s) && id in s.procs && Free(s, row, id)
    requires ProcOk(s.(locks := s.locks[row := id]), id, p)
    ensures Inv(initial, s.(locks := s.locks[row := id], procs := s.procs[id := p]))
  {
    hide TotalEffect;
    var locked := s.(locks := s.locks[row := id]);
    var s' := locked.(procs := s.procs[id := p]);
    forall other | other in s'.procs
      ensures ProcOk(s', other, s'.procs[other])
    {
      if other != id {
        LockingKeepsProc(s, row, id, other, s.procs[other]);
      }
      assert ProcOk(locked, other, s'.procs[other]);
    }
  }

  lemma ClaimKeepsInv(initial: map<int, int>, s: State, id: nat)
    requires Inv(initial, s)
    ensures Inv(initial, Apply(s, Claim(id)))
  {
    if id in s.procs && !s.procs[id].claimed {
      var p := s.procs[id];
      var row := OwnRow(p.task);
      assert ProcOk(s, id, p);
      EndKeepsInv(initial, s, id);
      if Free(s, row, id) && !Recorded(s.log, row) {
        hide Inv;
        LockingKeepsInv(initial, s, row, id, p.(claimed := true));
      }
    }
  }

  /** What a transaction knows after it read one more line under its lock. */
  lemma ReadKeepsProc(s: State, id: nat, p: Proc)
    requires ProcOk(s, id, p) && p.done < |p.task.lines|
    requires var product := p.task.lines[p.done].product;
      && product in s.stock && Free(s, ProductRow(product), id)
      && (p.task.Sell? ==> p.task.lines[p.done].qty <= s.stock[product])
    ensures var product := p.task.lines[p.done].product;
      ProcOk(s.(locks := s.locks[ProductRow(product) := id]), id,
        p.(done := p.done + 1, seen := p.seen[product := s.stock[product]]))
  {
  }

  /** The three outcomes of reading one more line. */
  lemma LockOutcome(s: State, id: nat)
    requires id in s.procs ==> ProcOk(s, id, s.procs[id])
    ensures var s' := Apply(s, LockNext(id));
      || s' == s
      || s' == End(s, id)
      || (
        && id in s.procs && s.procs[id].done < |s.procs[id].task.lines|
        && var p := s.procs[id];
          var line := p.task.lines[p.done];
          && line.product in s.stock && Free(s, ProductRow(line.product), id)
          && (p.task.Sell? ==> line.qty <= s.stock[line.product])
          && s' == s.(
            locks := s.locks[ProductRow(line.product) := id],
            procs := s.procs[id := p.(done := p.done + 1, seen := p.seen[line.product := s.stock[line.product]])]))
  {
    hide End, OwnRow;
    if id in s.procs && s.procs[id].done < |s.procs[id].task.lines| {
      var p := s.procs[id];
      var product := p.task.lines[p.done].product;
      assert product in p.seen ==> p.seen[product := s.stock[product]] == p.seen;
    }
  }

  lemma LockKeepsInv(initial: map<int, int>, s: State, id: nat)
    requires Inv(initial, s)
    ensures Inv(initial, Apply(s, LockNext(id)))
  {
    assert id in s.procs ==> ProcOk(s, id, s.procs[id]);
    hide Inv, Apply, ProcOk, End;
    EndKeepsInv(initial, s, id);
    LockOutcome(s, id);
    var s' := Apply(s, LockNext(id));
    if s' != s && s' != End(s, id) {
      var p := s.procs[id];
      var product := p.task.lines[p.done].product;
      ReadKeepsProc(s, id, p);
      LockingKeepsInv(initial, s, ProductRow(product), id,
        p.(done := p.done + 1, seen := p.seen[product := s.stock[product]]));
    }
  }

  lemma StepKeepsInv(initial: map<int, int>, s: State, e: Event)
    requires Inv(initial, s)
    ensures Inv(initial, Apply(s, e))
  {
    match e
    case Start(id, task) =>
      var s' := Apply(s, e);
      forall other | other in s'.procs
        ensures ProcOk(s', other, s'.procs[other])
      {
        assert other in s.procs ==> ProcOk(s, other, s.procs[other]);
      }
    case Claim(id) => ClaimKeepsInv(initial, s, id);
    case LockNext(id) => LockKeepsInv(initial, s, id);
    case Commit(id) =>
      if id in s.procs {
        assert ProcOk(s, id, s.procs[id]);
        EndKeepsInv(initial, s, id);
        if s.procs[id].claimed && s.procs[id].done >= |s.procs[id].task.lines|
          && !(exists product | product in s.procs[id].seen :: Written(s.procs[id])[product] < 0) {
          CommitKeepsInv(initial, s, id);
        }
      }
    case Abort(id) => EndKeepsInv(initial, s, id);
  }

  /** Under every interleaving of sales and postings, with aborts anywhere, no update is lost: the
      committed stock is the initial stock plus the effects of all committed tasks, it is never
      negative, each sale number commits once and each goods-received note posts once. */
  lemma {:induction false} NoLostUpdate(initial: map<int, int>, s: State, events: seq<Event>)
    requires Inv(initial, s)
    ensures var s' := Run(s, events);
      && Inv(initial, s')
      && s'.stock.Keys == initial.Keys
      && (forall product :: product in s'.stock ==>
        0 <= s'.stock[product] == initial[product] + TotalEffect(s'.log, product))
      && (forall i, j :: 0 <= i < j < |s'.log| ==> OwnRow(s'.log[i]) != OwnRow(s'.log[j]))
  {
    if events != [] {
      NoLostUpdate(initial, s, events[..|events| - 1]);
      StepKeepsInv(initial, Run(s, events[..|events| - 1]), events[|events| - 1]);
    }
  }

  lemma InitialInv(initial: map<int, int>)
    requires forall product :: product in initial ==> 0 <= initial[product]
    ensures Inv(initial, State(initial, map[], map[], []))
  {
  }

  // ---------- Tasks do commit ----------

  /** A product's quantity once a task's lines are taken out of it, or put in. */
  ghost function After(stock: map<int, int>, task: Task, product: int): int
    requires product in stock
  {
    if task.Sell? then stock[product] - Qty(task.lines, product) else stock[product] + Qty(task.lines, product)
  }

  /** No product would go below zero. */
  ghost predicate Fits(stock: map<int, int>, task: Task) {
    forall product :: product in stock ==> 0 <= After(stock, task, product)
  }

  /** A fully read, claimed transaction commits if and only if no product would go below zero: its task is
      recorded, each product changes by its lines, and it is gone with its locks either way. */
  lemma CommitRecordsIff(initial: map<int, int>, s: State, id: nat)
    requires Inv(initial, s) && id in s.procs && s.procs[id].claimed && s.procs[id].done == |s.procs[id].task.lines|
    ensures var task := s.procs[id].task;
      var s' := Apply(s, Commit(id));
      && s'.stock.Keys == s.stock.Keys
      && s'.log == (if Fits(s.stock, task) then s.log + [task] else s.log)
      && (forall product :: product in s.stock ==>
        s'.stock[product] == if Fits(s.stock, task) then After(s.stock, task, product) else s.stock[product])
      && s'.procs == s.procs - {id} && s'.locks == Release(s.locks, id)
  {
    hide TotalEffect;
    var p := s.procs[id];
    assert ProcOk(s, id, p);
    forall product | product in s.stock && product !in p.seen
      ensures Qty(p.task.lines, product) == 0
    {
      UnseenIsUntouched(p.task.lines, product);
    }
    assert (exists product | product in p.seen :: Written(p)[product] < 0) <==> !Fits(s.stock, p.task);
  }

  /** The steps of a transaction that runs alone. */
  function Reads(id: nat, n: nat): seq<Event> {
    if n == 0 then [] else Reads(id, n - 1) + [LockNext(id)]
  }

  function Alone(id: nat, task: Task): seq<Event> {
    match task
    case Sell(_, lines) => [Start(id, task)] + Reads(id, |lines|) + [Claim(id), Commit(id)]
    case Post(_, lines) => [Start(id, task), Claim(id)] + Reads(id, |lines|) + [Commit(id)]
  }

  lemma RunSnoc(s: State, events: seq<Event>, e: Event)
    ensures Run(s, events + [e]) == Apply(Run(s, events), e)
  {
    assert (events + [e])[..|events|] == events;
  }

  lemma {:induction false} RunConcat(s: State, a: seq<Event>, b: seq<Event>)
    ensures Run(s, a + b) == Run(Run(s, a), b)
  {
    hide Apply;
    if b == [] {
      assert a + b == a;
    } else {
      RunConcat(s, a, b[..|b| - 1]);
      assert (a + b)[..|a + b| - 1] == a + b[..|b| - 1];
    }
  }

  /** Nobody else holds a row that the transaction needs. */
  ghost predicate RowsFree(s: State, id: nat, task: Task) {
    && Free(s, OwnRow(task), id)
    && forall i :: 0 <= i < |task.lines| ==> Free(s, ProductRow(task.lines[i].product), id)
  }

  /** Each line by itself: a known product, and for a sale enough of it. */
  predicate LineFits(stock: map<int, int>, task: Task, i: nat)
    requires i < |task.lines|
  {
    && task.lines[i].product in stock
    && (task.Sell? ==> task.lines[i].qty <= stock[task.lines[i].product])
  }

  /** While a transaction reads alone: `n` lines in, or over because one did not fit. */
  ghost predicate ReadSoFar(initial: map<int, int>, s: State, r: State, id: nat, task: Task, n: nat)
    requires n <= |task.lines|
  {
    && Inv(initial, r) && r.stock == s.stock && r.log == s.log
    && r.procs - {id} == s.procs - {id} && Release(r.locks, id) == Release(s.locks, id)
    && (if forall i :: 0 <= i < n ==> LineFits(s.stock, task, i)
        then id in r.procs && r.procs[id].task == task && r.procs[id].done == n && r.procs[id].claimed == task.Post?
        else id !in r.procs)
  }

  lemma ReadStep(initial: map<int, int>, s: State, r: State, id: nat, task: Task, n: nat)
    requires n < |task.lines| && ReadSoFar(initial, s, r, id, task, n) && RowsFree(s, id, task)
    ensures ReadSoFar(initial, s, Apply(r, LockNext(id)), id, task, n + 1)
  {
    LockKeepsInv(initial, r, id);
    if id in r.procs {
      assert ProcOk(r, id, r.procs[id]);
      hide Inv, ProcOk;
      var row := ProductRow(task.lines[n].product);
      FreeStays(s, r, row, id);
      assert LineFits(s.stock, task, n) <==> LineFits(r.stock, task, n);
      ReadOutcome(r, id);
    }
  }

  lemma FreeStays(s: State, r: State, row: Resource, id: nat)
    requires Release(r.locks, id) == Release(s.locks, id) && Free(s, row, id)
    ensures Free(r, row, id)
  {
    assert row in Release(r.locks, id) <==> row in Release(s.locks, id);
  }

  /** What reading a line does when its row is free. */
  lemma ReadOutcome(r: State, id: nat)
    requires id in r.procs && ProcOk(r, id, r.procs[id]) && r.procs[id].done < |r.procs[id].task.lines|
    requires r.procs[id].task.Post? ==> r.procs[id].claimed
    requires Free(r, ProductRow(r.procs[id].task.lines[r.procs[id].done].product), id)
    ensures var p := r.procs[id];
      var r' := Apply(r, LockNext(id));
      && r'.stock == r.stock && r'.log == r.log
      && r'.procs - {id} == r.procs - {id} && Release(r'.locks, id) == Release(r.locks, id)
      && (if LineFits(r.stock, p.task, p.done)
          then id in r'.procs && r'.procs[id].task == p.task && r'.procs[id].done == p.done + 1
            && r'.procs[id].claimed == p.claimed
          else id !in r'.procs)
  {
  }

  lemma RunReads(r: State, id: nat, n: nat)
    ensures Run(r, Reads(id, n)) == if n == 0 then r else Apply(Run(r, Reads(id, n - 1)), LockNext(id))
  {
    hide Apply;
    if n > 0 {
      RunSnoc(r, Reads(id, n - 1), LockNext(id));
    }
  }

  lemma {:induction false} ReadAlone(initial: map<int, int>, s: State, r: State, id: nat, task: Task, n: nat)
    requires n <= |task.lines| && ReadSoFar(initial, s, r, id, task, 0) && RowsFree(s, id, task)
    ensures ReadSoFar(initial, s, Run(r, Reads(id, n)), id, task, n)
  {
    RunReads(r, id, n);
    hide Apply, Run, Reads, Inv, ReadSoFar, RowsFree;
    if n > 0 {
      ReadAlone(initial, s, r, id, task, n - 1);
      ReadStep(initial, s, Run(r, Reads(id, n - 1)), id, task, n - 1);
    }
  }

  /** What is left of a task that ran alone: its effect and its record, or nothing. */
  ghost predicate Done(s: State, s': State, task: Task, recorded: bool) {
    && s'.log == (if recorded then s.log + [task] else s.log)
    && s'.procs == s.procs && s'.stock.Keys == s.stock.Keys
    && forall product :: product in s.stock ==>
      s'.stock[product] == if recorded then After(s.stock, task, product) else s.stock[product]
  }

  lemma {:induction false} QtyAtLeast(lines: seq<Line>, i: nat)
    requires i < |lines|
    ensures lines[i].qty <= Qty(lines, lines[i].product)
  {
    if i < |lines| - 1 {
      QtyAtLeast(lines[..|lines| - 1], i);
    }
  }

  ghost predicate Known(stock: map<int, int>, task: Task) {
    forall i :: 0 <= i < |task.lines| ==> task.lines[i].product in stock
  }

  /** A task that fits as a whole fits line by line. */
  lemma FitsByLine(stock: map<int, int>, task: Task)
    requires Known(stock, task) && Fits(stock, task)
    ensures forall i :: 0 <= i < |task.lines| ==> LineFits(stock, task, i)
  {
    forall i | 0 <= i < |task.lines|
      ensures LineFits(stock, task, i)
    {
      QtyAtLeast(task.lines, i);
    }
  }

  /** A new transaction has read nothing yet. */
  lemma StartOutcome(s: State, id: nat, task: Task)
    requires id !in s.procs && !Recorded(s.log, OwnRow(task)) && (task.Post? ==> task.lines != [])
    ensures Apply(s, Start(id, task)) == s.(procs := s.procs[id := Proc(task, 0, map[], false)])
  {
  }

  /** A new posting takes its note's row. */
  lemma ClaimFirst(r: State, id: nat)
    requires id in r.procs && !r.procs[id].claimed && r.procs[id].task.Post?
    requires Free(r, OwnRow(r.procs[id].task), id) && !Recorded(r.log, OwnRow(r.procs[id].task))
    ensures var p := r.procs[id];
      Apply(r, Claim(id)) == r.(locks := r.locks[OwnRow(p.task) := id], procs := r.procs[id := p.(claimed := true)])
  {
  }

  /** Taking a free row adds nothing to what others hold. */
  lemma OthersKeepLocks(locks: map<Resource, nat>, row: Resource, id: nat)
    requires row !in locks || locks[row] == id
    ensures Release(locks[row := id], id) == Release(locks, id)
  {
  }

  lemma OthersKeepProcs(procs: map<nat, Proc>, id: nat, p: Proc, q: Proc)
    requires id !in procs
    ensures procs[id := p] - {id} == procs[id := p][id := q] - {id} == procs - {id}
  {
  }

  lemma StartAlone(initial: map<int, int>, s: State, id: nat, task: Task)
    requires Inv(initial, s) && id !in s.procs && !Recorded(s.log, OwnRow(task)) && RowsFree(s, id, task)
    requires task.Post? ==> task.lines != []
    ensures var r := Apply(s, Start(id, task));
      ReadSoFar(initial, s, if task.Post? then Apply(r, Claim(id)) else r, id, task, 0)
  {
    var r := Apply(s, Start(id, task));
    var p := Proc(task, 0, map[], false);
    StepKeepsInv(initial, s, Start(id, task));
    StepKeepsInv(initial, r, Claim(id));
    StartOutcome(s, id, task);
    hide Inv, Apply, Recorded, Release;
    OthersKeepProcs(s.procs, id, p, p);
    if task.Post? {
      ClaimFirst(r, id);
      OthersKeepProcs(s.procs, id, p, p.(claimed := true));
      OthersKeepLocks(s.locks, OwnRow(task), id);
    }
  }

  /** A transaction that is over, or never began, does nothing more. */
  lemma {:induction false} GoneStays(r: State, id: nat, n: nat)
    requires id !in r.procs
    ensures Run(r, Reads(id, n)) == r && Apply(r, Claim(id)) == r && Apply(r, Commit(id)) == r
  {
    RunReads(r, id, n);
    if n > 0 {
      GoneStays(r, id, n - 1);
    }
  }

  /** What a task asks for besides enough stock: a number or note that is not recorded, known products,
      and for a note at least one line. */
  ghost predicate Admissible(s: State, task: Task) {
    && (forall i :: 0 <= i < |s.log| ==> OwnRow(s.log[i]) != OwnRow(task))
    && (forall i :: 0 <= i < |task.lines| ==> task.lines[i].product in s.stock)
    && (task.Post? ==> task.lines != [])
  }

  /** A posting that runs alone is recorded, and each product rises by its lines, if and only if its note
      is new and has lines, all on known products; otherwise nothing changes. */
  lemma PostingAloneCommitsIff(initial: map<int, int>, s: State, id: nat, task: Task)
    requires Inv(initial, s) && id !in s.procs && RowsFree(s, id, task) && task.Post?
    ensures Done(s, Run(s, Alone(id, task)), task, Admissible(s, task))
  {
    AloneIs(s, id, task);
    var n := |task.lines|;
    var r := Apply(Apply(s, Start(id, task)), Claim(id));
    if task.lines == [] || Recorded(s.log, OwnRow(task)) {
      RefusedAtOnce(s, id, task);
      GoneStays(s, id, n);
      GoneStays(r, id, n);
    } else {
      hide Apply, Inv, RowsFree;
      StartAlone(initial, s, id, task);
      ReadAlone(initial, s, r, id, task, n);
      LinesFitIffKnown(s.stock, task);
      EndsAlone(initial, s, Run(r, Reads(id, n)), id, task);
    }
  }

  lemma LinesFitIffKnown(stock: map<int, int>, task: Task)
    requires task.Post?
    ensures (forall i :: 0 <= i < |task.lines| ==> LineFits(stock, task, i)) <==> Known(stock, task)
  {
    if Known(stock, task) {
      assert forall i | 0 <= i < |task.lines| :: LineFits(stock, task, i);
    } else {
      var i :| 0 <= i < |task.lines| && task.lines[i].product !in stock;
      assert !LineFits(stock, task, i);
    }
  }

  /** An empty note, and a recorded sale or note, is over before it reads a line. */
  lemma RefusedAtOnce(s: State, id: nat, task: Task)
    requires id !in s.procs && Free(s, OwnRow(task), id)
    requires (task.Post? && task.lines == []) || Recorded(s.log, OwnRow(task))
    ensures var r := Apply(s, Start(id, task));
      var over := if task.Post? then Apply(r, Claim(id)) else r;
      && id !in over.procs && over.procs == s.procs && over.stock == s.stock && over.log == s.log
      && over.locks == (if task.Sell? || task.lines == [] then s.locks else Release(s.locks, id))
  {
    var r := Apply(s, Start(id, task));
    if task.Post? && task.lines != [] {
      assert r == s.(procs := s.procs[id := Proc(task, 0, map[], false)]);
      assert r.procs - {id} == s.procs;
    }
  }

  /** The commit of a task that has read all its lines alone, or was over while it read them. */
  lemma EndsAlone(initial: map<int, int>, s: State, r: State, id: nat, task: Task)
    requires Inv(initial, s) && id !in s.procs && Inv(initial, r) && r.stock == s.stock && r.log == s.log
    requires r.procs - {id} == s.procs - {id}
    requires id in r.procs ==> (
      && r.procs[id].task == task && r.procs[id].done == |task.lines| && r.procs[id].claimed)
    requires Admissible(s, task) && Fits(s.stock, task) ==> id in r.procs
    requires id in r.procs && Fits(s.stock, task) ==> Admissible(s, task)
    ensures Done(s, Apply(r, Commit(id)), task, Admissible(s, task) && Fits(s.stock, task))
  {
    if id in r.procs {
      CommitRecordsIff(initial, r, id);
    } else {
      GoneStays(r, id, 0);
      assert r.procs - {id} == r.procs && s.procs - {id} == s.procs;
    }
  }

  lemma NothingBelowZero(initial: map<int, int>, s: State, task: Task)
    requires Inv(initial, s) && task.Post?
    ensures Fits(s.stock, task)
  {
  }

  lemma AloneIs(s: State, id: nat, task: Task)
    ensures var first := Apply(s, Start(id, task));
      Run(s, Alone(id, task)) ==
        if task.Post? then Apply(Run(Apply(first, Claim(id)), Reads(id, |task.lines|)), Commit(id))
        else Apply(Apply(Run(first, Reads(id, |task.lines|)), Claim(id)), Commit(id))
  {
    hide Apply, Reads;
    var lockings := Reads(id, |task.lines|);
    var start := [Start(id, task)];
    RunSnoc(s, [], Start(id, task));
    assert [] + start == start && Run(s, []) == s;
    if task.Post? {
      RunSnoc(s, start, Claim(id));
      assert start + [Claim(id)] == [Start(id, task), Claim(id)];
      RunConcat(s, [Start(id, task), Claim(id)], lockings);
      RunSnoc(s, [Start(id, task), Claim(id)] + lockings, Commit(id));
    } else {
      RunConcat(s, start, lockings);
      RunSnoc(s, start + lockings, Claim(id));
      RunSnoc(s, start + lockings + [Claim(id)], Commit(id));
      assert start + lockings + [Claim(id)] + [Commit(id)] == start + lockings + [Claim(id), Commit(id)];
    }
  }

  /** A sale that runs alone is recorded if and only if its number is new, its products are known and its
      summed quantities fit the stock; then each product falls by its lines, otherwise nothing changes. */
  lemma SaleAloneCommitsIff(initial: map<int, int>, s: State, id: nat, task: Task)
    requires Inv(initial, s) && id !in s.procs && RowsFree(s, id, task) && task.Sell?
    ensures Done(s, Run(s, Alone(id, task)), task, Admissible(s, task) && Fits(s.stock, task))
  {
    AloneIs(s, id, task);
    var n := |task.lines|;
    var r := Apply(s, Start(id, task));
    if Recorded(s.log, OwnRow(task)) {
      RefusedAtOnce(s, id, task);
      GoneStays(r, id, n);
    } else {
      hide Apply, Inv, Recorded;
      StartAlone(initial, s, id, task);
      ReadAlone(initial, s, r, id, task, n);
      SaleEndsAlone(initial, s, Run(r, Reads(id, n)), id, task);
    }
  }

  /** Claim and commit of a sale that has read its lines alone. */
  lemma SaleEndsAlone(initial: map<int, int>, s: State, r: State, id: nat, task: Task)
    requires Inv(initial, s) && id !in s.procs && RowsFree(s, id, task) && task.Sell?
    requires !Recorded(s.log, OwnRow(task)) && ReadSoFar(initial, s, r, id, task, |task.lines|)
    ensures Done(s, Apply(Apply(r, Claim(id)), Commit(id)), task, Admissible(s, task) && Fits(s.stock, task))
  {
    FreeStays(s, r, OwnRow(task), id);
    SaleFitsByLine(initial, s, task);
    hide Apply, Inv, Recorded, Admissible, Fits, Done, Free, Release;
    ClaimOutcome(initial, r, id);
    EndsAlone(initial, s, Apply(r, Claim(id)), id, task);
  }

  lemma SaleFitsByLine(initial: map<int, int>, s: State, task: Task)
    requires Inv(initial, s) && task.Sell? && !Recorded(s.log, OwnRow(task))
    ensures Admissible(s, task) && Fits(s.stock, task) ==>
      forall i :: 0 <= i < |task.lines| ==> LineFits(s.stock, task, i)
    ensures (forall i :: 0 <= i < |task.lines| ==> LineFits(s.stock, task, i)) ==> Admissible(s, task)
  {
    if Admissible(s, task) && Fits(s.stock, task) {
      FitsByLine(s.stock, task);
    }
    if forall i :: 0 <= i < |task.lines| ==> LineFits(s.stock, task, i) {
      forall i | 0 <= i < |task.lines|
        ensures task.lines[i].product in s.stock
      {
        assert LineFits(s.stock, task, i);
      }
    }
  }

  lemma ClaimOutcome(initial: map<int, int>, r: State, id: nat)
    requires Inv(initial, r)
    ensures Inv(initial, Apply(r, Claim(id)))
    ensures var r' := Apply(r, Claim(id));
      if id !in r.procs then r' == r
      else
        var p := r.procs[id];
        var open := !p.claimed && p.done == |p.task.lines| && Free(r, OwnRow(p.task), id);
        open && !Recorded(r.log, OwnRow(p.task)) ==>
          && r'.stock == r.stock && r'.log == r.log && r'.procs - {id} == r.procs - {id}
          && id in r'.procs && r'.procs[id] == p.(claimed := true)
  {
    ClaimKeepsInv(initial, r, id);
  }

  /** Ten in stock, and a posting of five: fifteen. */
  lemma PostingOfFive()
    ensures var s := State(map[1 := 10], map[], map[], []);
      var posting := Post("G", [Line(1, 5)]);
      Run(s, Alone(7, posting)).stock == map[1 := 15] && Run(s, Alone(7, posting)).log == [posting]
  {
    var s := State(map[1 := 10], map[], map[], []);
    var posting := Post("G", [Line(1, 5)]);
    InitialInv(s.stock);
    PostingAloneCommitsIff(s.stock, s, 7, posting);
    hide Run, Alone, Inv, RowsFree;
    assert posting.lines[..0] == [];
    assert Qty(posting.lines, 1) == 5 && Admissible(s, posting);
  }

  /** A sale of six and five of them, each of which fits alone, is not recorded. */
  lemma SaleOfEleven()
    ensures var s := State(map[1 := 10], map[], map[], []);
      var sale := Sell("T", [Line(1, 6), Line(1, 5)]);
      Run(s, Alone(7, sale)).stock == map[1 := 10] && Run(s, Alone(7, sale)).log == []
  {
    var s := State(map[1 := 10], map[], map[], []);
    var sale := Sell("T", [Line(1, 6), Line(1, 5)]);
    InitialInv(s.stock);
    SaleAloneCommitsIff(s.stock, s, 7, sale);
    hide Run, Alone, Inv, RowsFree;
    assert sale.lines[..1] == [Line(1, 6)] && sale.lines[..1][..0] == [];
    assert Qty(sale.lines, 1) == 11 && After(s.stock, sale, 1) == -1;
    assert !Fits(s.stock, sale);
  }

  /** A transaction that is aborted leaves nothing: no stock, no record, no lock. */
  lemma AbortLeavesNothing(s: State, id: nat)
    requires id in s.procs
    ensures var s' := Apply(s, Abort(id));
      && s'.stock == s.stock && s'.log == s.log && s'.procs == s.procs - {id}
      && forall row :: row in s'.locks <==> row in s.locks && s.locks[row] != id
  {
  }
}
