/** Refreshes and logouts that run at the same time. A handler decodes its token first and revokes it
    later, with a database query between the two and no lock, so any other handler's step may come in
    between. TokenRevocation has the same handlers as single steps. */
module RefreshInterleaving {
  import opened TokenRevocation

  /** `flying` are the requests that decoded their token and have not come to an end. */
  datatype Server = Server(core: State, flying: map<nat, Token>)

  /** `Rotate` ends a refresh of an active employee, `Drop` one of an inactive employee, `Revoke` ends a
      logout. */
  datatype Step =
    | SignIn(now: int, lifetime: nat)
    | Decode(req: nat, token: Token, now: int)
    | Rotate(req: nat, now: int, lifetime: nat)
    | Revoke(req: nat, now: int)
    | Drop(req: nat, now: int)

  function RevokeNow(s: State, token: Token, now: int): State {
    s.(revoked := Pruned(s.revoked, now)[token.jti := token.exp], all := s.all + {token.jti})
  }

  function Next(s: Server, e: Step): Server
    requires s.core.clock <= e.now
  {
    var t := s.core.(clock := e.now);
    match e
    case SignIn(now, lifetime) => s.(core := Apply(s.core, Login(now, lifetime)))
    case Decode(req, token, now) =>
      if req in s.flying then s.(core := t)
      else
        var decoded := t.(revoked := AfterDecoding(s.core, token, now));
        if Accepts(s.core, token, now) then Server(decoded, s.flying[req := token]) else s.(core := decoded)
    case Rotate(req, now, lifetime) =>
      if req !in s.flying then s.(core := t)
      else
        var token := s.flying[req];
        Server(Issue(RevokeNow(t, token, now), now, lifetime, token.login).(redeemed := s.core.redeemed + [token]),
          s.flying - {req})
    case Revoke(req, now) =>
      if req !in s.flying then s.(core := t) else Server(RevokeNow(t, s.flying[req], now), s.flying - {req})
    case Drop(req, now) => Server(t, s.flying - {req})
  }

  ghost predicate StepsInOrder(clock: int, steps: seq<Step>) {
    && (forall i :: 0 <= i < |steps| ==> clock <= steps[i].now)
    && forall i, j :: 0 <= i < j < |steps| ==> steps[i].now <= steps[j].now
  }

  function RunSteps(s: Server, steps: seq<Step>): (r: Server)
    requires StepsInOrder(s.core.clock, steps)
    ensures r.core.clock == if steps == [] then s.core.clock else steps[|steps| - 1].now
  {
    if steps == [] then s else Next(RunSteps(s, steps[..|steps| - 1]), steps[|steps| - 1])
  }

  /** The step does not decode a token that another request holds decoded. */
  predicate NoSecondDecode(s: Server, e: Step) {
    e.Decode? ==> forall r | r in s.flying :: s.flying[r] != e.token
  }

  ghost predicate NoOverlap(s: Server, steps: seq<Step>)
    requires StepsInOrder(s.core.clock, steps)
  {
    steps != [] ==>
      var n := |steps| - 1;
      NoOverlap(s, steps[..n]) && NoSecondDecode(RunSteps(s, steps[..n]), steps[n])
  }

  /** Tokens in flight are unrevoked, and each is held by one request. */
  ghost predicate FlyingOk(s: Server) {
    && (forall r :: r in s.flying ==> s.flying[r] in s.core.issued && s.flying[r].jti !in s.core.all)
    && forall q, r :: q in s.flying && r in s.flying && q != r ==> s.flying[q] != s.flying[r]
  }

  ghost predicate ServerInv(s: Server) {
    Inv(s.core) && FlyingOk(s)
  }

  lemma ClockKeepsInv(s: State, now: int)
    requires Inv(s) && s.clock <= now
    ensures Inv(s.(clock := now))
  {
  }

  lemma SameJti(s: State, a: Token, b: Token)
    requires Inv(s) && a in s.issued && b in s.issued
    ensures a.jti == b.jti ==> a == b
  {
    var i :| 0 <= i < |s.issued| && s.issued[i] == a;
    var j :| 0 <= j < |s.issued| && s.issued[j] == b;
  }

  /** Revoking a token in flight keeps the record, and the other tokens in flight stay unrevoked. */
  lemma RevokeKeepsInv(s: Server, req: nat, now: int)
    requires ServerInv(s) && s.core.clock <= now && req in s.flying
    ensures Inv(RevokeNow(s.core.(clock := now), s.flying[req], now))
    ensures FlyingOk(Server(RevokeNow(s.core.(clock := now), s.flying[req], now), s.flying - {req}))
  {
    var token := s.flying[req];
    DecodingKeepsList(s.core, token, now);
    RevokingKeepsInv(s.core, token, now);
    assert RevokeNow(s.core.(clock := now), token, now) == RevokeIn(s.core.(clock := now), token, now);
    hide Inv;
    forall r | r in s.flying - {req}
      ensures s.flying[r].jti != token.jti
    {
      SameJti(s.core, s.flying[r], token);
    }
  }

  lemma RotateKeepsInv(s: Server, req: nat, now: int, lifetime: nat)
    requires ServerInv(s) && s.core.clock <= now && req in s.flying
    ensures ServerInv(Next(s, Rotate(req, now, lifetime)))
  {
    var token := s.flying[req];
    var t := RevokeNow(s.core.(clock := now), token, now);
    RevokeKeepsInv(s, req, now);
    SiblingsRevoked(s.core, token);
    assert token !in s.core.redeemed;
    RotationKeepsInv(t, s.core.redeemed, token, now, lifetime);
  }

  /** While a token of a login is unrevoked, all others of that login are revoked. */
  lemma SiblingsRevoked(s: State, token: Token)
    requires Inv(s) && token in s.issued && token.jti !in s.all
    ensures forall i :: 0 <= i < |s.issued| && s.issued[i].login == token.login && i != token.jti ==> i in s.all
  {
    var k :| 0 <= k < |s.issued| && s.issued[k] == token;
    forall i | 0 <= i < |s.issued| && s.issued[i].login == token.login && i != token.jti
      ensures i in s.all
    {
      assert i < k || k < i;
    }
  }

  lemma DecodeKeepsInv(s: Server, req: nat, token: Token, now: int)
    requires ServerInv(s) && s.core.clock <= now && NoSecondDecode(s, Decode(req, token, now))
    ensures ServerInv(Next(s, Decode(req, token, now)))
  {
    hide Inv;
    DecodingKeepsList(s.core, token, now);
    ClockKeepsInv(s.core, now);
    if Accepts(s.core, token, now) {
      BlocklistAnswersAsFullSet(s.core, token, now);
    }
    assert s.core.(clock := now, revoked := s.core.revoked) == s.core.(clock := now);
  }

  lemma NextKeepsInv(s: Server, e: Step)
    requires ServerInv(s) && s.core.clock <= e.now && NoSecondDecode(s, e)
    ensures ServerInv(Next(s, e))
  {
    hide Inv;
    ClockKeepsInv(s.core, e.now);
    match e
    case SignIn(now, lifetime) => StepKeepsInv(s.core, Login(now, lifetime));
    case Decode(req, token, now) => DecodeKeepsInv(s, req, token, now);
    case Rotate(req, now, lifetime) =>
      if req in s.flying {
        RotateKeepsInv(s, req, now, lifetime);
      }
    case Revoke(req, now) =>
      if req in s.flying {
        RevokeKeepsInv(s, req, now);
      }
    case Drop(_, _) =>
  }

  lemma {:induction false} RunStepsKeepsInv(s: Server, steps: seq<Step>)
    requires ServerInv(s) && StepsInOrder(s.core.clock, steps) && NoOverlap(s, steps)
    ensures ServerInv(RunSteps(s, steps))
  {
    hide ServerInv, Next, NoSecondDecode;
    if steps != [] {
      RunStepsKeepsInv(s, steps[..|steps| - 1]);
      NextKeepsInv(RunSteps(s, steps[..|steps| - 1]), steps[|steps| - 1]);
    }
  }

  /** How a request that decoded its token ends, with other handlers' steps in between: a rotation hands
      out one successor of the same login and the token is refused from then on, as after a logout;
      a refresh of an inactive employee only lets go of the token. */
  lemma RequestsEnd(s: Server, req: nat, now: int, lifetime: nat, later: int)
    requires req in s.flying && s.core.clock <= now <= later
    ensures var token := s.flying[req];
      var core := s.core;
      var rotated, revoked := Next(s, Rotate(req, now, lifetime)).core, Next(s, Revoke(req, now)).core;
      && rotated.issued == core.issued + [Token(|core.issued|, now + lifetime, token.login)]
      && rotated.redeemed == core.redeemed + [token] && rotated.all == core.all + {token.jti}
      && !Accepts(rotated, token, later)
      && revoked.issued == core.issued && revoked.redeemed == core.redeemed && revoked.all == core.all + {token.jti}
      && !Accepts(revoked, token, later)
      && Next(s, Drop(req, now)) == Server(core.(clock := now), s.flying - {req})
      && Next(s, Rotate(req, now, lifetime)).flying == Next(s, Revoke(req, now)).flying == s.flying - {req}
  {
  }

  /** A token is held decoded from then on exactly when it was accepted. */
  lemma DecodeHoldsIff(s: Server, req: nat, token: Token, now: int)
    requires ServerInv(s) && s.core.clock <= now && req !in s.flying
    ensures var s' := Next(s, Decode(req, token, now));
      && s'.core == s.core.(clock := now)
      && s'.flying == if Accepts(s.core, token, now) then s.flying[req := token] else s.flying
  {
    DecodingKeepsList(s.core, token, now);
  }

  ghost predicate RedeemedOnce(s: State) {
    forall i, j :: 0 <= i < j < |s.redeemed| ==> s.redeemed[i] != s.redeemed[j]
  }

  /** Over every interleaving of logins, refreshes and logouts in which no token is decoded while
      another request holds it decoded: each refresh token is redeemed at most once, and at most one
      refresh token of a login is accepted at any moment. */
  lemma InterleavedRotationIsSafe(steps: seq<Step>, a: Token, b: Token, now: int)
    requires var start := Server(INITIAL, map[]);
      StepsInOrder(0, steps) && NoOverlap(start, steps) && RunSteps(start, steps).core.clock <= now
    ensures var s := RunSteps(Server(INITIAL, map[]), steps).core;
      && RedeemedOnce(s)
      && (Accepts(s, a, now) && Accepts(s, b, now) && a.login == b.login ==> a == b)
  {
    var start := Server(INITIAL, map[]);
    InitialInv();
    RunStepsKeepsInv(start, steps);
    var s := RunSteps(start, steps).core;
    if Accepts(s, a, now) && Accepts(s, b, now) && a.login == b.login && a != b {
      BlocklistAnswersAsFullSet(s, a, now);
      BlocklistAnswersAsFullSet(s, b, now);
      OneLiveDescendant(s, a, b);
    }
  }

  ghost predicate TwoUnrevoked(s: State, login: nat) {
    exists i, j :: (
      && 0 <= i < j < |s.issued| && s.issued[i].login == s.issued[j].login == login
      && s.issued[i].jti !in s.all && s.issued[j].jti !in s.all)
  }

  /** Two refreshes that overlap: `first` holds its token decoded, `second` decodes `token`, then both
      end. */
  function BothRefresh(s: Server, first: nat, second: nat, token: Token, t1: int, t2: int, t3: int, lifetime: nat)
    : Server
    requires s.core.clock <= t1 <= t2 <= t3
  {
    Next(Next(Next(s, Decode(second, token, t1)), Rotate(first, t2, lifetime)), Rotate(second, t3, lifetime))
  }

  /** The condition is exact: after the two end, every token was redeemed at most once if and only if
      the second decoded another token. If it decoded the same one, the login has two unrevoked
      refresh tokens. */
  lemma OverlapRedeemsOnceIff(s: Server, first: nat, second: nat, token: Token, t1: int, t2: int, t3: int,
    lifetime: nat)
    requires ServerInv(s) && first in s.flying && second !in s.flying
    requires s.core.clock <= t1 <= t2 <= t3 && Accepts(s.core, token, t1)
    ensures var after := BothRefresh(s, first, second, token, t1, t2, t3, lifetime).core;
      && (RedeemedOnce(after) <==> token != s.flying[first])
      && (token == s.flying[first] ==> TwoUnrevoked(after, token.login))
  {
    if token == s.flying[first] {
      BothEnd(s, first, second, token, t1, t2, t3, lifetime);
    } else {
      SecondTokenIsFree(s, first, second, token, t1, t2, t3, lifetime);
    }
  }

  /** What the two overlapping refreshes of one token leave. */
  lemma BothEndState(s: Server, first: nat, second: nat, token: Token, t1: int, t2: int, t3: int, lifetime: nat)
    requires first in s.flying && second !in s.flying && token == s.flying[first]
    requires s.core.clock <= t1 <= t2 <= t3 && Accepts(s.core, token, t1)
    ensures var after := BothRefresh(s, first, second, token, t1, t2, t3, lifetime).core;
      var n := |s.core.issued|;
      && after.redeemed == s.core.redeemed + [token] + [token]
      && after.issued == s.core.issued
        + [Token(n, t2 + lifetime, token.login)] + [Token(n + 1, t3 + lifetime, token.login)]
      && after.all == s.core.all + {token.jti}
  {
    hide Accepts, AfterDecoding, Pruned;
  }

  lemma BothEnd(s: Server, first: nat, second: nat, token: Token, t1: int, t2: int, t3: int, lifetime: nat)
    requires ServerInv(s) && first in s.flying && second !in s.flying && token == s.flying[first]
    requires s.core.clock <= t1 <= t2 <= t3 && Accepts(s.core, token, t1)
    ensures var after := BothRefresh(s, first, second, token, t1, t2, t3, lifetime).core;
      !RedeemedOnce(after) && TwoUnrevoked(after, token.login)
  {
    hide BothRefresh, Accepts;
    BothEndState(s, first, second, token, t1, t2, t3, lifetime);
    var after := BothRefresh(s, first, second, token, t1, t2, t3, lifetime).core;
    var n := |s.core.issued|;
    assert after.redeemed[|s.core.redeemed|] == after.redeemed[|s.core.redeemed| + 1];
    assert token.jti < n;
    assert after.issued[n] == Token(n, t2 + lifetime, token.login);
    assert after.issued[n + 1] == Token(n + 1, t3 + lifetime, token.login);
  }

  lemma SecondTokenIsFree(s: Server, first: nat, second: nat, token: Token, t1: int, t2: int, t3: int, lifetime: nat)
    requires ServerInv(s) && first in s.flying && second !in s.flying && token != s.flying[first]
    requires s.core.clock <= t1 <= t2 <= t3 && Accepts(s.core, token, t1)
    ensures RedeemedOnce(BothRefresh(s, first, second, token, t1, t2, t3, lifetime).core)
  {
    var after := BothRefresh(s, first, second, token, t1, t2, t3, lifetime).core;
    assert after.redeemed == s.core.redeemed + [s.flying[first]] + [token];
    BlocklistAnswersAsFullSet(s.core, token, t1);
    assert token !in s.core.redeemed && s.flying[first] !in s.core.redeemed;
  }

  /** A login, two requests that decode its token, and both rotate it: the token is redeemed twice. */
  lemma OneTokenRedeemedTwice()
    ensures var token := Token(0, 100, 0);
      var start := Server(INITIAL, map[]);
      var loggedIn := Next(start, SignIn(0, 100));
      var held := Next(loggedIn, Decode(0, token, 1));
      BothRefresh(held, 0, 1, token, 1, 2, 2, 100).core.redeemed == [token, token]
  {
    var token := Token(0, 100, 0);
    var held := Next(Next(Server(INITIAL, map[]), SignIn(0, 100)), Decode(0, token, 1));
    assert held == Server(State(map[], [token], {}, [], 1, 1), map[0 := token]);
    BothEndState(held, 0, 1, token, 1, 2, 2, 100);
  }
}
