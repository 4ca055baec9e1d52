/** The sliding-window rate limiter: the in-process list, the Redis sorted set, and the switch
    between them, against counting over the full history of allowed calls. Times are clock ticks. */
module RateLimiter {

  /** How many of the times lie after `from` and no later than `to`. */
  function CountIn(times: seq<int>, from: int, to: int): nat {
    if times == [] then 0
    else
      var n := |times| - 1;
      CountIn(times[..n], from, to) + if from < times[n] <= to then 1 else 0
  }

  /** Where those times stand. */
  ghost function Positions(times: seq<int>, from: int, to: int): set<int> {
    set i | 0 <= i < |times| && from < times[i] <= to
  }

  lemma {:induction false} CountIsSize(times: seq<int>, from: int, to: int)
    ensures CountIn(times, from, to) == |Positions(times, from, to)|
  {
    if times == [] {
      assert Positions(times, from, to) == {};
    } else {
      var n := |times| - 1;
      CountIsSize(times[..n], from, to);
      assert Positions(times, from, to) == Positions(times[..n], from, to) + if from < times[n] <= to then {n} else {};
    }
  }

  /** The times after the cutoff, in order. */
  function Recent(times: seq<int>, cutoff: int): seq<int> {
    if times == [] then []
    else
      var n := |times| - 1;
      if times[n] > cutoff then Recent(times[..n], cutoff) + [times[n]] else Recent(times[..n], cutoff)
  }

  ghost predicate Ordered(times: seq<int>) {
    forall i, j :: 0 <= i < j < |times| ==> times[i] <= times[j]
  }

  ghost predicate UpTo(times: seq<int>, now: int) {
    forall i :: 0 <= i < |times| ==> times[i] <= now
  }

  /** The rule: allow when fewer than `max` allowed calls lie in the window that ends now. */
  predicate Allows(history: seq<int>, max: nat, window: nat, now: int) {
    CountIn(history, now - window, now) < max
  }

  /** The allowed calls after a series of call times. */
  function Allowed(calls: seq<int>, max: nat, window: nat): seq<int> {
    if calls == [] then []
    else
      var n := |calls| - 1;
      var history := Allowed(calls[..n], max, window);
      if Allows(history, max, window, calls[n]) then history + [calls[n]] else history
  }

  // ---------- The in-process limiter ----------

  function Entry(entries: map<string, seq<int>>, key: string): seq<int> {
    if key in entries then entries[key] else []
  }

  /** What is stored for a key is its history without what no later window reaches. */
  ghost predicate EntryOk(store: map<string, seq<int>>, history: map<string, seq<int>>, seen: map<string, int>,
                          window: nat, key: string) {
    && (key in seen ==>
      && key in store && store[key] == Recent(Entry(history, key), seen[key] - window)
      && UpTo(Entry(history, key), seen[key]))
    && (key !in seen ==> key !in store && key !in history)
  }

  /** One key's entry after a call: pruned, and extended if the call is allowed. */
  lemma EntryAfterCall(store: map<string, seq<int>>, history: map<string, seq<int>>, seen: map<string, int>,
                       window: nat, key: string, now: int, allowed: bool)
    requires EntryOk(store, history, seen, window, key) && window > 0 && (key in seen ==> seen[key] <= now)
    ensures var times := Recent(Entry(store, key), now - window);
      var full := Entry(history, key);
      && |times| == CountIn(full, now - window, now)
      && EntryOk(store[key := if allowed then times + [now] else times],
           if allowed then history[key := full + [now]] else history, seen[key := now], window, key)
  {
    hide Recent, CountIn, UpTo;
    EmptyHistory(now, now - window);
    PruneStep(Entry(history, key), if key in seen then seen[key] else now, now, window);
  }

  class InProcessLimiter {
    const max: nat
    const window: nat
    var store: map<string, seq<int>>
    ghost var history: map<string, seq<int>>  // every allowed call ever, per key
    ghost var seen: map<string, int>          // the last clock reading, per key

    ghost function History(key: string): seq<int>
      reads this
    {
      Entry(history, key)
    }

    ghost predicate ClockOk(key: string, now: int)
      reads this
    {
      key in seen ==> seen[key] <= now
    }

    ghost predicate Valid(key: string)
      reads this
    {
      EntryOk(store, history, seen, window, key)
    }

    constructor (max: nat, window: nat)
      ensures this.max == max && this.window == window
      ensures forall key :: Valid(key) && History(key) == [] && key !in seen
    {
      this.max, this.window := max, window;
      store, history, seen := map[], map[], map[];
    }

    /** With clock readings that do not go back for a key, the answer is the one the full history
        gives, and an allowed call is added to it. Other keys are not touched. */
    method IsAllowed(key: string, now: int) returns (allowed: bool)
      requires Valid(key) && ClockOk(key, now) && window > 0
      modifies this
      ensures Valid(key) && seen == old(seen)[key := now]
      ensures allowed <==> Allows(old(History(key)), max, window, now)
      ensures allowed <==> |Positions(old(History(key)), now - window, now)| < max
      ensures history == if allowed then old(history)[key := old(History(key)) + [now]] else old(history)
      ensures forall other :: other != key && old(Valid(other)) ==> Valid(other)
    {
      hide Recent, CountIn, UpTo, EntryOk;
      var cutoff := now - window;
      ghost var full := History(key);
      var times := Recent(Entry(store, key), cutoff);
      EntryAfterCall(store, history, seen, window, key, now, |times| < max);
      CountIsSize(full, cutoff, now);
      ghost var store0, history0, seen0 := store, history, seen;
      seen := seen[key := now];
      store := store[key := times];
      allowed := |times| < max;
      if allowed {
        store := store[key := times + [now]];
        history := history[key := full + [now]];
      }
      assert store == store0[key := if allowed then times + [now] else times];
      forall other | other != key && old(Valid(other))
        ensures Valid(other)
      {
        OtherEntry(store0, history0, seen0, store, history, seen, window, other);
      }
    }
  }

  /** An entry that no map changed. */
  lemma OtherEntry(store: map<string, seq<int>>, history: map<string, seq<int>>, seen: map<string, int>,
                   store': map<string, seq<int>>, history': map<string, seq<int>>, seen': map<string, int>,
                   window: nat, key: string)
    requires EntryOk(store, history, seen, window, key)
    requires (key in store' <==> key in store) && (key in store ==> store'[key] == store[key])
    requires (key in history' <==> key in history) && (key in history ==> history'[key] == history[key])
    requires (key in seen' <==> key in seen) && (key in seen ==> seen'[key] == seen[key])
    ensures EntryOk(store', history', seen', window, key)
  {
  }

  lemma {:induction false} PruneAgain(times: seq<int>, first: int, second: int)
    requires first <= second
    ensures Recent(Recent(times, first), second) == Recent(times, second)
  {
    if times != [] {
      var n := |times| - 1;
      PruneAgain(times[..n], first, second);
      if times[n] > first {
        RecentSnoc(Recent(times[..n], first), times[n], second);
      }
    }
  }

  lemma RecentSnoc(times: seq<int>, t: int, cutoff: int)
    ensures Recent(times + [t], cutoff) == if t > cutoff then Recent(times, cutoff) + [t] else Recent(times, cutoff)
  {
    assert (times + [t])[..|times|] == times;
  }

  lemma {:induction false} RecentCounts(times: seq<int>, cutoff: int, now: int)
    requires UpTo(times, now)
    ensures |Recent(times, cutoff)| == CountIn(times, cutoff, now)
  {
    if times != [] {
      RecentCounts(times[..|times| - 1], cutoff, now);
    }
  }

  lemma EmptyHistory(now: int, cutoff: int)
    ensures UpTo([], now) && Recent([], cutoff) == []
  {
  }

  lemma UpToSnoc(times: seq<int>, last: int, now: int)
    requires UpTo(times, last) && last <= now
    ensures UpTo(times, now) && UpTo(times + [now], now)
  {
  }

  /** Pruning a list that was pruned before gives what pruning the history gives. */
  lemma PruneStep(full: seq<int>, last: int, now: int, window: nat)
    requires UpTo(full, last) && last <= now && window > 0
    ensures var times := Recent(Recent(full, last - window), now - window);
      && times == Recent(full, now - window)
      && |times| == CountIn(full, now - window, now)
      && times + [now] == Recent(full + [now], now - window)
    ensures UpTo(full, now) && UpTo(full + [now], now)
  {
    hide UpTo, Recent, CountIn;
    UpToSnoc(full, last, now);
    PruneAgain(full, last - window, now - window);
    RecentCounts(full, now - window, now);
    RecentSnoc(full, now, now - window);
  }

  // ---------- The promise of the rule ----------

  lemma CountSnoc(times: seq<int>, t: int, from: int, to: int)
    ensures CountIn(times + [t], from, to) == CountIn(times, from, to) + if from < t <= to then 1 else 0
  {
    assert (times + [t])[..|times|] == times;
  }

  lemma {:induction false} NarrowerCountsLess(times: seq<int>, from: int, to: int, from': int, to': int)
    requires from' <= from && (to <= to' || UpTo(times, to'))
    ensures CountIn(times, from, to) <= CountIn(times, from', to')
  {
    if times != [] {
      NarrowerCountsLess(times[..|times| - 1], from, to, from', to');
    }
  }

  /** Allowed calls in the window that starts after `x`. */
  function InWindow(times: seq<int>, x: int, window: nat): nat {
    CountIn(times, x, x + window)
  }

  ghost predicate WithinLimit(times: seq<int>, max: nat, window: nat) {
    forall x :: InWindow(times, x, window) <= max
  }

  /** One more allowed call keeps every window, wherever it starts, within the limit. */
  lemma AllowedCallKeepsLimit(history: seq<int>, max: nat, window: nat, now: int)
    requires WithinLimit(history, max, window) && UpTo(history, now) && Allows(history, max, window, now)
    ensures WithinLimit(history + [now], max, window)
  {
    forall x
      ensures InWindow(history + [now], x, window) <= max
    {
      assert InWindow(history, x, window) <= max;
      CountSnoc(history, now, x, x + window);
      if x < now <= x + window {
        NarrowerCountsLess(history, x, x + window, now - window, now);
      }
    }
  }

  lemma {:induction false} AllowedUpTo(calls: seq<int>, max: nat, window: nat, now: int)
    requires UpTo(calls, now)
    ensures UpTo(Allowed(calls, max, window), now)
  {
    if calls != [] {
      AllowedUpTo(calls[..|calls| - 1], max, window, now);
    }
  }

  /** For any calls in clock order, no window (x, x + window] holds more than `max` allowed ones. */
  lemma {:induction false} NoWindowExceeds(calls: seq<int>, max: nat, window: nat)
    requires Ordered(calls)
    ensures WithinLimit(Allowed(calls, max, window), max, window)
  {
    if calls != [] {
      var n := |calls| - 1;
      NoWindowExceeds(calls[..n], max, window);
      AllowedUpTo(calls[..n], max, window, calls[n]);
      if Allows(Allowed(calls[..n], max, window), max, window, calls[n]) {
        AllowedCallKeepsLimit(Allowed(calls[..n], max, window), max, window, calls[n]);
      }
    }
  }

  // ---------- The Redis limiter ----------

  /** A member of the sorted set is the text `now:draw`; its score is `now`. */
  datatype Member = Member(now: int, draw: nat)

  function Live(members: set<Member>, cutoff: int): set<Member> {
    set m | m in members && m.now > cutoff
  }

  /** One key of the script: a sorted set with an expiry time. */
  class RedisKey {
    const max: nat
    const window: nat
    var zset: set<Member>
    var expires: int
    ghost var history: set<Member>  // every member ever added
    ghost var seen: int             // the last clock reading

    /** The set and its expiry lose only members no later window reaches. */
    ghost predicate Valid()
      reads this
    {
      && zset == Live(history, seen - window)
      && (forall m :: m in history ==> m.now <= seen && m.now + window <= expires)
    }

    constructor (max: nat, window: nat, now: int)
      ensures Valid() && this.max == max && this.window == window && history == {} && seen == now
    {
      this.max, this.window := max, window;
      zset, expires, history, seen := {}, now, {}, now;
    }

    /** The Lua script. The answer is the one the set of all members ever added gives. */
    method IsAllowed(now: int, draw: nat) returns (allowed: bool)
      requires Valid() && seen <= now && window > 0
      modifies this
      ensures Valid() && seen == now
      ensures allowed <==> |Live(old(history), now - window)| < max
      ensures history == if allowed then old(history) + {Member(now, draw)} else old(history)
    {
      if expires <= now {
        assert Live(history, now - window) == {};
        zset := {};  // the key has expired
      }
      zset := Live(zset, now - window);
      assert zset == Live(history, now - window);
      seen := now;
      if |zset| >= max {
        return false;
      }
      zset := zset + {Member(now, draw)};
      history := history + {Member(now, draw)};
      expires := now + window;
      return true;
    }
  }

  function Times(members: seq<Member>): seq<int> {
    seq(|members|, i requires 0 <= i < |members| => members[i].now)
  }

  function Elements(members: seq<Member>): set<Member> {
    set m | m in members
  }

  ghost predicate Distinct(members: seq<Member>) {
    forall i, j :: 0 <= i < j < |members| ==> members[i] != members[j]
  }

  /** The script's own test: fewer than `max` members in the set after pruning. */
  predicate ScriptAllows(history: seq<Member>, max: nat, window: nat, call: Member) {
    |Live(Elements(history), call.now - window)| < max
  }

  function ScriptAfter(history: seq<Member>, max: nat, window: nat, call: Member): seq<Member> {
    if ScriptAllows(history, max, window, call) then history + [call] else history
  }

  /** The calls the script allows. */
  function RedisAllowed(calls: seq<Member>, max: nat, window: nat): seq<Member> {
    if calls == [] then []
    else ScriptAfter(RedisAllowed(calls[..|calls| - 1], max, window), max, window, calls[|calls| - 1])
  }

  /** No member scored after the cutoff was added twice. */
  ghost predicate DistinctLive(members: seq<Member>, cutoff: int) {
    forall i, j :: 0 <= i < j < |members| && members[j].now > cutoff ==> members[i] != members[j]
  }

  /** The set never holds more than the rule counts, and as many if and only if no two calls of the
      window drew the same member; the source draws `now:random`, so equal members are possible. */
  lemma {:induction false} LiveCountsIff(members: seq<Member>, cutoff: int, now: int)
    requires UpTo(Times(members), now)
    ensures |Live(Elements(members), cutoff)| <= CountIn(Times(members), cutoff, now)
    ensures |Live(Elements(members), cutoff)| == CountIn(Times(members), cutoff, now) <==> DistinctLive(members, cutoff)
  {
    if members != [] {
      var n := |members| - 1;
      var before, last := members[..n], members[n];
      assert Times(before) == Times(members)[..n];
      assert Times(members)[n] <= now;
      LiveCountsIff(before, cutoff, now);
      LiveSnoc(before, last, cutoff);
      DistinctSnoc(before, last, cutoff);
      assert members == before + [last];
    } else {
      assert Live(Elements(members), cutoff) == {};
    }
  }

  lemma LiveSnoc(before: seq<Member>, last: Member, cutoff: int)
    ensures |Live(Elements(before + [last]), cutoff)|
      == |Live(Elements(before), cutoff)| + if last.now > cutoff && last !in before then 1 else 0
  {
    var live, live' := Live(Elements(before), cutoff), Live(Elements(before + [last]), cutoff);
    if last.now > cutoff {
      assert live' == live + {last};
    } else {
      assert live' == live;
    }
  }

  lemma DistinctSnoc(before: seq<Member>, last: Member, cutoff: int)
    ensures DistinctLive(before + [last], cutoff) <==>
      DistinctLive(before, cutoff) && (last.now > cutoff ==> last !in before)
  {
    var members := before + [last];
    if DistinctLive(members, cutoff) {
      forall i, j | 0 <= i < j < |before| && before[j].now > cutoff
        ensures before[i] != before[j]
      {
        assert members[i] != members[j];
      }
      if last.now > cutoff {
        forall i | 0 <= i < |before|
          ensures before[i] != last
        {
          assert members[i] != members[|before|];
        }
      }
    }
  }

  function Copies<T>(x: T, n: nat): seq<T> {
    seq(n, i => x)
  }

  lemma LiveCopies(m: Member, n: nat, cutoff: int)
    ensures |Live(Elements(Copies(m, n)), cutoff)| <= 1
  {
    var live := Live(Elements(Copies(m, n)), cutoff);
    assert live <= {m};
    assert live == {} || live == {m};
  }

  function Min(a: nat, b: nat): nat {
    if a < b then a else b
  }

  lemma LiveCopy(m: Member, n: nat, cutoff: int)
    requires n > 0 && m.now > cutoff
    ensures |Live(Elements(Copies(m, n)), cutoff)| == 1
  {
    assert Copies(m, n)[0] == m;
    assert Live(Elements(Copies(m, n)), cutoff) == {m};
  }

  lemma CopiesSnoc<T>(x: T, n: nat)
    ensures Copies(x, n) + [x] == Copies(x, n + 1) && Copies(x, n + 1)[..n] == Copies(x, n)
    ensures |Copies(x, n)| == n && (n > 0 ==> Copies(x, n)[n - 1] == x) && Copies(x, 0) == []
  {
  }

  /** One more call that draws the member. */
  lemma CopyAfter(m: Member, passed: nat, max: nat, window: nat)
    requires window > 0
    ensures ScriptAfter(Copies(m, passed), max, window, m)
      == Copies(m, if max >= 2 || passed < max then passed + 1 else passed)
  {
    hide Live, Elements, Copies;
    CopiesSnoc(m, passed);
    LiveCopies(m, passed, m.now - window);
    if passed > 0 {
      LiveCopy(m, passed, m.now - window);
    } else {
      NoneLive(m, m.now - window);
    }
  }

  /** Members drawn equal do not add up: any number of calls that draw one member all pass a limit of
      two or more, since the set never holds more than the one. Below that the limit is kept. */
  lemma {:induction false} EqualMembersAllPass(m: Member, calls: nat, max: nat, window: nat)
    requires window > 0
    ensures RedisAllowed(Copies(m, calls), max, window) == Copies(m, if max >= 2 then calls else Min(calls, max))
  {
    hide ScriptAfter, Copies;
    CopiesSnoc(m, calls);
    if calls > 0 {
      var passed := if max >= 2 then calls - 1 else Min(calls - 1, max);
      EqualMembersAllPass(m, calls - 1, max, window);
      CopiesSnoc(m, calls - 1);
      CopyAfter(m, passed, max, window);
    } else {
      CopiesSnoc(m, 0);
    }
  }

  lemma NoneLive(m: Member, cutoff: int)
    ensures |Live(Elements(Copies(m, 0)), cutoff)| == 0
  {
    assert Live(Elements(Copies(m, 0)), cutoff) == {};
  }

  lemma {:induction false} RedisAllowedIn(calls: seq<Member>, max: nat, window: nat)
    ensures forall m :: m in RedisAllowed(calls, max, window) ==> m in calls
    ensures Distinct(calls) ==> Distinct(RedisAllowed(calls, max, window))
  {
    if calls != [] {
      var n := |calls| - 1;
      RedisAllowedIn(calls[..n], max, window);
      assert calls == calls[..n] + [calls[n]];
      var rest := RedisAllowed(calls[..n], max, window);
      assert forall i | 0 <= i < |rest| :: rest[i] in calls[..n];
    }
  }

  lemma SameDecision(history: seq<Member>, max: nat, window: nat, call: Member)
    requires Distinct(history) && UpTo(Times(history), call.now)
    ensures |Live(Elements(history), call.now - window)| < max <==> Allows(Times(history), max, window, call.now)
    ensures Times(history + [call]) == Times(history) + [call.now]
  {
    LiveCountsIff(history, call.now - window, call.now);
    assert DistinctLive(history, call.now - window);
  }

  /** With distinct members, the sorted set makes the decisions of the rule. */
  lemma {:induction false} RedisMakesTheSameDecisions(calls: seq<Member>, max: nat, window: nat)
    requires Distinct(calls) && Ordered(Times(calls))
    ensures Times(RedisAllowed(calls, max, window)) == Allowed(Times(calls), max, window)
  {
    hide CountIn;
    if calls != [] {
      var n := |calls| - 1;
      var before, last := calls[..n], calls[n];
      assert Times(calls)[..n] == Times(before) && Times(calls)[n] == last.now;
      RedisMakesTheSameDecisions(before, max, window);
      RedisAllowedIn(before, max, window);
      AllowedUpTo(Times(before), max, window, last.now);
      SameDecision(RedisAllowed(before, max, window), max, window, last);
    }
  }

  // ---------- Switching between the two ----------

  /** A call with the member it would draw, and whether Redis answers it. */
  datatype Call = Call(member: Member, byRedis: bool)

  /** One history of the fallback after one more call. */
  function After(history: seq<int>, max: nat, window: nat, now: int): seq<int> {
    if Allows(history, max, window, now) then history + [now] else history
  }

  /** The members Redis allowed and the times the fallback allowed; neither sees the other's. */
  function Switched(calls: seq<Call>, max: nat, window: nat): (seq<Member>, seq<int>) {
    if calls == [] then ([], [])
    else
      var n := |calls| - 1;
      var (redis, local) := Switched(calls[..n], max, window);
      var call := calls[n];
      if call.byRedis then (ScriptAfter(redis, max, window, call.member), local)
      else (redis, After(local, max, window, call.member.now))
  }

  /** Allowed calls of both kinds in the window that starts after `x`. */
  function TotalInWindow(allowed: (seq<Member>, seq<int>), x: int, window: nat): nat {
    InWindow(Times(allowed.0), x, window) + InWindow(allowed.1, x, window)
  }

  function ByRedis(calls: seq<Call>): seq<Member> {
    if calls == [] then []
    else
      var n := |calls| - 1;
      if calls[n].byRedis then ByRedis(calls[..n]) + [calls[n].member] else ByRedis(calls[..n])
  }

  function ByFallback(calls: seq<Call>): seq<int> {
    if calls == [] then []
    else
      var n := |calls| - 1;
      if calls[n].byRedis then ByFallback(calls[..n]) else ByFallback(calls[..n]) + [calls[n].member.now]
  }

  ghost predicate OrderedCalls(calls: seq<Call>) {
    forall i, j :: 0 <= i < j < |calls| ==> calls[i].member.now <= calls[j].member.now
  }

  lemma {:induction false} SwitchedSplits(calls: seq<Call>, max: nat, window: nat)
    ensures Switched(calls, max, window)
      == (RedisAllowed(ByRedis(calls), max, window), Allowed(ByFallback(calls), max, window))
  {
    hide ScriptAfter, Allows;
    if calls != [] {
      var n := |calls| - 1;
      SwitchedSplits(calls[..n], max, window);
      if calls[n].byRedis {
        assert ByRedis(calls)[..|ByRedis(calls)| - 1] == ByRedis(calls[..n]);
      } else {
        assert ByFallback(calls)[..|ByFallback(calls)| - 1] == ByFallback(calls[..n]);
      }
    }
  }

  lemma OrderedSnoc(times: seq<int>, now: int)
    requires Ordered(times) && UpTo(times, now)
    ensures Ordered(times + [now]) && UpTo(times + [now], now)
  {
  }

  lemma {:induction false} PartsInOrder(calls: seq<Call>, now: int)
    requires OrderedCalls(calls) && forall i :: 0 <= i < |calls| ==> calls[i].member.now <= now
    ensures Ordered(Times(ByRedis(calls))) && Ordered(ByFallback(calls))
    ensures UpTo(Times(ByRedis(calls)), now) && UpTo(ByFallback(calls), now)
  {
    if calls != [] {
      var n := |calls| - 1;
      var last := calls[n].member;
      PartsInOrder(calls[..n], last.now);
      assert Times(ByRedis(calls[..n]) + [last]) == Times(ByRedis(calls[..n])) + [last.now];
      OrderedSnoc(Times(ByRedis(calls[..n])), last.now);
      OrderedSnoc(ByFallback(calls[..n]), last.now);
    }
  }

  /** However calls switch between Redis and the fallback, on one clock: if the calls Redis answers
      draw distinct members, no window holds more than twice the limit. */
  lemma SwitchingAtMostDoubles(calls: seq<Call>, max: nat, window: nat, x: int)
    requires OrderedCalls(calls) && Distinct(ByRedis(calls))
    ensures TotalInWindow(Switched(calls, max, window), x, window) <= 2 * max
  {
    if calls != [] {
      PartsInOrder(calls, calls[|calls| - 1].member.now);
    }
    SwitchedSplits(calls, max, window);
    RedisMakesTheSameDecisions(ByRedis(calls), max, window);
    NoWindowExceeds(Times(ByRedis(calls)), max, window);
    NoWindowExceeds(ByFallback(calls), max, window);
    assert InWindow(Allowed(Times(ByRedis(calls)), max, window), x, window) <= max;
    assert InWindow(Allowed(ByFallback(calls), max, window), x, window) <= max;
  }

  // ---------- Exactly when the bound can be exceeded ----------

  /** The script run over more calls. */
  function ScriptRun(history: seq<Member>, calls: seq<Member>, max: nat, window: nat): seq<Member> {
    if calls == [] then history
    else ScriptAfter(ScriptRun(history, calls[..|calls| - 1], max, window), max, window, calls[|calls| - 1])
  }

  /** The fallback run over `n` more calls at one moment. */
  function FallbackRun(history: seq<int>, n: nat, max: nat, window: nat, now: int): seq<int> {
    if n == 0 then history else After(FallbackRun(history, n - 1, max, window, now), max, window, now)
  }

  /** Members drawn fresh at one moment: they differ from each other and from the history. */
  ghost predicate Fresh(history: seq<Member>, calls: seq<Member>, now: int) {
    && Distinct(calls)
    && forall i :: 0 <= i < |calls| ==> calls[i].now == now && calls[i] !in history
  }

  /** Fresh calls are allowed until the set is full, and each adds one to set and window. */
  lemma {:induction false} FreshFillSet(history: seq<Member>, calls: seq<Member>, max: nat, window: nat, now: int)
    requires Fresh(history, calls, now) && window > 0
    requires |Live(Elements(history), now - window)| <= max
    ensures var h := ScriptRun(history, calls, max, window);
      var live := |Live(Elements(history), now - window)|;
      && |Live(Elements(h), now - window)| == Min(max, live + |calls|)
      && CountIn(Times(h), now - window, now)
        == CountIn(Times(history), now - window, now) + Min(max, live + |calls|) - live
      && (forall m :: m in h ==> m in history || m in calls)
  {
    hide CountIn, Live, Elements;
    if calls != [] {
      var n := |calls| - 1;
      var last := calls[n];
      FreshFillSet(history, calls[..n], max, window, now);
      var h := ScriptRun(history, calls[..n], max, window);
      assert last !in calls[..n];
      LiveSnoc(h, last, now - window);
      assert Times(h + [last]) == Times(h) + [now];
      CountSnoc(Times(h), now, now - window, now);
      assert calls == calls[..n] + [last];
    }
  }

  lemma {:induction false} FallbackFills(history: seq<int>, n: nat, max: nat, window: nat, now: int)
    requires CountIn(history, now - window, now) <= max && window > 0
    ensures CountIn(FallbackRun(history, n, max, window, now), now - window, now)
      == Min(max, CountIn(history, now - window, now) + n)
  {
    hide CountIn;
    if n > 0 {
      FallbackFills(history, n - 1, max, window, now);
      CountSnoc(FallbackRun(history, n - 1, max, window, now), now, now - window, now);
    }
  }

  /** Calls that follow at one moment: `drawn` through Redis, then as many through the fallback. */
  function Burst(drawn: seq<Member>, n: nat): seq<Call>
    requires n <= |drawn|
  {
    seq(|drawn|, i requires 0 <= i < |drawn| => Call(drawn[i], true))
    + seq(n, i requires 0 <= i < n => Call(drawn[i], false))
  }

  lemma SwitchedSnoc(calls: seq<Call>, call: Call, max: nat, window: nat)
    ensures var (redis, local) := Switched(calls, max, window);
      Switched(calls + [call], max, window) ==
        if call.byRedis then (ScriptAfter(redis, max, window, call.member), local)
        else (redis, After(local, max, window, call.member.now))
  {
    assert (calls + [call])[..|calls|] == calls;
  }

  lemma BurstSnoc(calls: seq<Call>, drawn: seq<Member>, n: nat)
    requires n <= |drawn|
    ensures n > 0 ==> calls + Burst(drawn, n) == (calls + Burst(drawn, n - 1)) + [Call(drawn[n - 1], false)]
    ensures n == 0 && drawn != [] ==> var k := |drawn| - 1;
      calls + Burst(drawn, 0) == (calls + Burst(drawn[..k], 0)) + [Call(drawn[k], true)]
    ensures drawn == [] ==> calls + Burst(drawn, 0) == calls
  {
    if n > 0 {
      assert Burst(drawn, n) == Burst(drawn, n - 1) + [Call(drawn[n - 1], false)];
    } else if drawn != [] {
      var k := |drawn| - 1;
      assert Burst(drawn, 0) == Burst(drawn[..k], 0) + [Call(drawn[k], true)];
    }
  }

  lemma {:induction false} BurstRuns(calls: seq<Call>, drawn: seq<Member>, n: nat, max: nat, window: nat, now: int)
    requires n <= |drawn| && forall i :: 0 <= i < |drawn| ==> drawn[i].now == now
    ensures var (redis, local) := Switched(calls, max, window);
      Switched(calls + Burst(drawn, n), max, window)
        == (ScriptRun(redis, drawn, max, window), FallbackRun(local, n, max, window, now))
    decreases |drawn| + n
  {
    hide ScriptAfter, After, Burst, Switched;
    BurstSnoc(calls, drawn, n);
    if n > 0 {
      BurstRuns(calls, drawn, n - 1, max, window, now);
      SwitchedSnoc(calls + Burst(drawn, n - 1), Call(drawn[n - 1], false), max, window);
    } else if drawn != [] {
      var k := |drawn| - 1;
      BurstRuns(calls, drawn[..k], 0, max, window, now);
      SwitchedSnoc(calls + Burst(drawn[..k], 0), Call(drawn[k], true), max, window);
    }
  }

  /** The two histories after a burst, from histories within the limit. */
  lemma BurstTotal(redis: seq<Member>, local: seq<int>, drawn: seq<Member>, max: nat, window: nat, now: int)
    requires window > 0 && |drawn| >= max && Fresh(redis, drawn, now) && UpTo(Times(redis), now)
    requires CountIn(Times(redis), now - window, now) <= max && CountIn(local, now - window, now) <= max
    ensures var after := (ScriptRun(redis, drawn, max, window), FallbackRun(local, |drawn|, max, window, now));
      TotalInWindow(after, now - window, window) > 2 * max <==> !DistinctLive(redis, now - window)
  {
    hide CountIn, ScriptRun, FallbackRun, Fresh, DistinctLive, Live, Elements, UpTo;
    LiveCountsIff(redis, now - window, now);
    FreshFillSet(redis, drawn, max, window, now);
    FallbackFills(local, |drawn|, max, window, now);
  }

  /** Exactly when the bound can be exceeded. After any run in which each side is within the limit, a
      burst of at least `max` calls each way, all with fresh members, puts more than twice the limit
      into the window that ends now if and only if two allowed calls of that window drew the same
      member before. */
  lemma SwitchingExceedsIff(calls: seq<Call>, drawn: seq<Member>, max: nat, window: nat, now: int)
    requires window > 0 && |drawn| >= max && Fresh(Switched(calls, max, window).0, drawn, now)
    requires forall i :: 0 <= i < |calls| ==> calls[i].member.now <= now
    requires OrderedCalls(calls) && WithinLimit(Times(Switched(calls, max, window).0), max, window)
    ensures TotalInWindow(Switched(calls + Burst(drawn, |drawn|), max, window), now - window, window) > 2 * max
      <==> !DistinctLive(Switched(calls, max, window).0, now - window)
  {
    hide CountIn, ScriptRun, FallbackRun, DistinctLive, UpTo, RedisAllowed, Allowed, Switched, TotalInWindow;
    var (redis, local) := Switched(calls, max, window);
    SwitchedSplits(calls, max, window);
    PartsInOrder(calls, now);
    NoWindowExceeds(ByFallback(calls), max, window);
    AllowedMembersUpTo(ByRedis(calls), max, window, now);
    assert InWindow(Times(redis), now - window, window) <= max && InWindow(local, now - window, window) <= max;
    BurstTotal(redis, local, drawn, max, window, now);
    BurstRuns(calls, drawn, |drawn|, max, window, now);
  }

  lemma AllowedMembersUpTo(calls: seq<Member>, max: nat, window: nat, now: int)
    requires UpTo(Times(calls), now)
    ensures UpTo(Times(RedisAllowed(calls, max, window)), now)
  {
    RedisAllowedIn(calls, max, window);
    var allowed := RedisAllowed(calls, max, window);
    forall i | 0 <= i < |allowed|
      ensures Times(allowed)[i] <= now
    {
      assert allowed[i] in allowed;
      var k :| 0 <= k < |calls| && calls[k] == allowed[i];
      assert Times(calls)[k] <= now;
    }
  }

  lemma {:induction false} CopiesCount(now: int, n: nat, from: int)
    requires from < now
    ensures CountIn(Copies(now, n), from, now) == n
  {
    if n > 0 {
      CopiesCount(now, n - 1, from);
      assert Copies(now, n)[..n - 1] == Copies(now, n - 1);
    }
  }

  /** A run that exceeds it: five calls of one moment that draw the same member, with a limit of two. */
  lemma EqualMembersExceedDouble(m: Member, window: nat)
    requires window > 0
    ensures TotalInWindow(Switched(Copies(Call(m, true), 5), 2, window), m.now - window, window) == 5
  {
    CopiesByRedis(m, 5);
    SwitchedSplits(Copies(Call(m, true), 5), 2, window);
    EqualMembersAllPass(m, 5, 2, window);
    assert Times(Copies(m, 5)) == Copies(m.now, 5);
    CopiesCount(m.now, 5, m.now - window);
  }

  lemma {:induction false} CopiesByRedis(m: Member, n: nat)
    ensures ByRedis(Copies(Call(m, true), n)) == Copies(m, n) && ByFallback(Copies(Call(m, true), n)) == []
  {
    if n > 0 {
      CopiesByRedis(m, n - 1);
      assert Copies(Call(m, true), n)[..n - 1] == Copies(Call(m, true), n - 1);
      assert Copies(m, n - 1) + [m] == Copies(m, n);
    }
  }

  /** The factor two is reached with distinct members: one call each way at the same moment, with a
      limit of one. */
  lemma SwitchingReachesDouble(m: Member, window: nat)
    requires window > 0
    ensures TotalInWindow(Switched([Call(m, true), Call(m, false)], 1, window), m.now - window, window) == 2
  {
    BurstRuns([], [m], 1, 1, window, m.now);
    assert [] + Burst([m], 1) == [Call(m, true), Call(m, false)];
    assert Times([]) == [];
    FreshFillSet([], [m], 1, window, m.now);
    FallbackFills([], 1, 1, window, m.now);
  }
}
