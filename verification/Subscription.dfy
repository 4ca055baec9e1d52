/** Extending a store's subscription: M-PESA callbacks that confirm a payment once, and manual
    activations by the platform owner, both by the same rule. Times and durations share one unit. */
module Subscription {
  import opened Common

  datatype Plan = Free | Starter | Growth | Pro

  datatype SubStatus = Trialing | Active | Expired | Cancelled

  datatype PaymentStatus = Pending | Confirmed

  /** One activation: when, and for how long (30 days a month; the code accepts any month count). */
  datatype Activation = Activation(at: int, duration: int)

  const MONTH := 30 * 24 * 3600

  /** The extension rule: from the current expiry if it lies ahead, otherwise from now. */
  function Extend(ends: Option<int>, a: Activation): Option<int> {
    var base := if ends.Some? && ends.value > a.at then ends.value else a.at;
    Some(base + a.duration)
  }

  function Expiry(ends: Option<int>, history: seq<Activation>): Option<int> {
    if history == [] then ends
    else Extend(Expiry(ends, history[..|history| - 1]), history[|history| - 1])
  }

  class Payment {
    const store: Store
    const plan: Plan
    const months: int
    var status: PaymentStatus

    constructor (store: Store, plan: Plan, months: int)
      ensures this.store == store && this.plan == plan && this.months == months && status == Pending
    {
      this.store, this.plan, this.months, status := store, plan, months, Pending;
    }

    /** `subscription_mpesa_callback` for a successful payment: a payment already confirmed changes
        nothing. */
    method OnCallback(now: int)
      modifies this, store
      ensures status == Confirmed
      ensures old(status) == Confirmed ==> unchanged(store)
      ensures old(status) == Pending ==>
        && store.history == old(store.history) + [Activation(now, MONTH * months)]
        && store.subEndsAt == Extend(old(store.subEndsAt), Activation(now, MONTH * months))
        && store.plan == plan && store.status == Active
        && var ends := old(store.subEndsAt);
          store.subEndsAt == Some((if ends.Some? && ends.value > now then ends.value else now) + 2592000 * months)
    {
      if status == Pending {
        status := Confirmed;
        store.Activate(plan, months, now);
      }
    }
  }

  class Store {
    var plan: Plan
    var status: SubStatus
    var subEndsAt: Option<int>
    ghost var opening: Option<int>
    ghost var history: seq<Activation>

    /** The stored expiry is what the whole history of activations gives. */
    ghost predicate Valid()
      reads this
    {
      subEndsAt == Expiry(opening, history)
    }

    constructor ()
      ensures Valid() && subEndsAt == None && history == []
    {
      plan, status, subEndsAt, opening, history := Free, Trialing, None, None, [];
    }

    /** `manually_activate`, `activate_store`, and the activating part of the callback. */
    method Activate(plan: Plan, months: int, now: int)
      modifies this
      ensures this.plan == plan && status == Active && opening == old(opening)
      ensures subEndsAt == Extend(old(subEndsAt), Activation(now, MONTH * months))
      ensures var ends := old(subEndsAt);
        subEndsAt == Some((if ends.Some? && ends.value > now then ends.value else now) + 2592000 * months)
      ensures history == old(history) + [Activation(now, MONTH * months)]
      ensures old(Valid()) ==> Valid()
    {
      var base := if subEndsAt.Some? && subEndsAt.value > now then subEndsAt.value else now;
      this.plan := plan;
      status := Active;
      subEndsAt := Some(base + MONTH * months);
      assert (history + [Activation(now, MONTH * months)])[..|history|] == history;
      history := history + [Activation(now, MONTH * months)];
    }
  }

  // ---------- The expiry in closed form ----------

  /** Durations from activation `j` on. */
  function SumFrom(history: seq<Activation>, j: nat): int
    requires j <= |history|
    decreases |history| - j
  {
    if j == |history| then 0 else history[j].duration + SumFrom(history, j + 1)
  }

  /** The candidates for the expiry: the opening expiry plus everything, or any activation's own
      moment plus everything paid from it on. */
  ghost predicate Candidate(ends: Option<int>, history: seq<Activation>, e: int) {
    || (ends.Some? && e == ends.value + SumFrom(history, 0))
    || (exists j :: StartsAt(history, j, e))
  }

  ghost predicate StartsAt(history: seq<Activation>, j: int, e: int) {
    0 <= j < |history| && e == history[j].at + SumFrom(history, j)
  }

  lemma {:induction false} SumFromPrefix(history: seq<Activation>, j: nat)
    requires history != [] && j <= |history| - 1
    ensures var n := |history| - 1;
      SumFrom(history, j) == SumFrom(history[..n], j) + history[n].duration
    decreases |history| - j
  {
    var n := |history| - 1;
    if j < n {
      SumFromPrefix(history, j + 1);
    } else {
      assert SumFrom(history, n) == history[n].duration + SumFrom(history, n + 1);
    }
  }

  /** One more activation: a candidate of the longer history is the activation itself or a candidate of
      the shorter one, moved by the new duration. */
  lemma CandidateSnoc(ends: Option<int>, history: seq<Activation>, c: int)
    requires history != []
    ensures var n := |history| - 1;
      var last := history[n];
      Candidate(ends, history, c) <==> c == last.at + last.duration || Candidate(ends, history[..n], c - last.duration)
  {
    var n := |history| - 1;
    var before, last := history[..n], history[n];
    forall j | 0 <= j <= n
      ensures SumFrom(history, j) == SumFrom(before, j) + last.duration
    {
      SumFromPrefix(history, j);
    }
    assert SumFrom(before, n) == 0;
    var earlier := c - last.duration;
    if j :| StartsAt(history, j, c) {
      assert j < n ==> StartsAt(before, j, earlier);
    }
    if j :| StartsAt(before, j, earlier) {
      assert StartsAt(history, j, c);
    }
    if c == last.at + last.duration {
      assert StartsAt(history, n, c);
    }
  }

  /** Before any activation the only candidate is the opening expiry. */
  lemma CandidateOfNone(ends: Option<int>, c: int)
    ensures Candidate(ends, [], c) <==> ends == Some(c)
  {
  }

  /** After any activations, in any order and of any length, the expiry is the greatest candidate:
      E0 plus all durations, or over all j the moment of activation j plus the durations from j on. */
  lemma {:induction false} ExpiryIsGreatestCandidate(ends: Option<int>, history: seq<Activation>)
    requires ends.Some? || history != []
    ensures Expiry(ends, history).Some?
    ensures Candidate(ends, history, Expiry(ends, history).value)
    ensures forall e :: Candidate(ends, history, e) ==> e <= Expiry(ends, history).value
  {
    hide Candidate, SumFrom;
    if history == [] {
      forall e
        ensures Candidate(ends, history, e) <==> ends == Some(e)
      {
        CandidateOfNone(ends, e);
      }
    } else {
      var n := |history| - 1;
      var before, last := history[..n], history[n];
      if ends.Some? || before != [] {
        ExpiryIsGreatestCandidate(ends, before);
      }
      forall c
        ensures Candidate(ends, history, c) <==>
          c == last.at + last.duration || Candidate(ends, before, c - last.duration)
        ensures before == [] && ends.None? ==> !Candidate(ends, before, c - last.duration)
      {
        CandidateSnoc(ends, history, c);
        CandidateOfNone(ends, c - last.duration);
      }
    }
  }

  /** No paid day is lost: whatever is active at an activation, or the moment itself, is followed by
      every duration paid from then on. */
  lemma NoPaidTimeLost(ends: Option<int>, history: seq<Activation>, j: int)
    requires 0 <= j < |history|
    ensures Expiry(ends, history).Some?
    ensures Expiry(ends, history).value >= history[j].at + SumFrom(history, j)
    ensures ends.Some? ==> Expiry(ends, history).value >= ends.value + SumFrom(history, 0)
  {
    ExpiryIsGreatestCandidate(ends, history);
    assert StartsAt(history, j, history[j].at + SumFrom(history, j));
    assert Candidate(ends, history, history[j].at + SumFrom(history, j));
    assert ends.Some? ==> Candidate(ends, history, ends.value + SumFrom(history, 0));
  }

  /** Time the store was lapsed before activations: each gap from the expiry to the next one. */
  function Lapsed(ends: int, history: seq<Activation>): int {
    if history == [] then 0
    else
      var n := |history| - 1;
      var e := Expiry(Some(ends), history[..n]);
      Lapsed(ends, history[..n]) + if e.Some? && history[n].at > e.value then history[n].at - e.value else 0
  }

  /** Conservation: the expiry moves by exactly what was paid plus the time the store was lapsed. */
  lemma {:induction false} ExpiryMovesByPaidPlusLapsed(ends: int, history: seq<Activation>)
    ensures Expiry(Some(ends), history).Some?
    ensures Expiry(Some(ends), history).value == ends + SumFrom(history, 0) + Lapsed(ends, history)
  {
    if history != [] {
      ExpiryMovesByPaidPlusLapsed(ends, history[..|history| - 1]);
      SumFromPrefix(history, 0);
    }
  }

  /** Callbacks repeated for one payment extend the store once. */
  method RepeatedCallbacks(payment: Payment, times: seq<int>)
    requires payment.status == Pending && times != []
    modifies payment, payment.store
    ensures payment.status == Confirmed
    ensures payment.store.history == old(payment.store.history) + [Activation(times[0], MONTH * payment.months)]
    ensures payment.store.subEndsAt
      == Extend(old(payment.store.subEndsAt), Activation(times[0], MONTH * payment.months))
  {
    payment.OnCallback(times[0]);
    for i := 1 to |times|
      invariant payment.status == Confirmed
      invariant payment.store.history == old(payment.store.history) + [Activation(times[0], MONTH * payment.months)]
      invariant payment.store.subEndsAt
        == Extend(old(payment.store.subEndsAt), Activation(times[0], MONTH * payment.months))
    {
      payment.OnCallback(times[i]);
    }
  }
}
