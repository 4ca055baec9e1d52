/** Refresh-token rotation and the revocation blocklist, which forgets entries once they expire.
    Decoder and blocklist read one integer clock, and the decoder rejects when `exp < now`. */
module TokenRevocation {

  /** A refresh token: its identifier (`jti`), its expiry, and the login it descends from, which the
      program does not store. */
  datatype Token = Token(jti: nat, exp: int, login: nat)

  type Blocklist = map<nat, int>

  function Pruned(revoked: Blocklist, now: int): Blocklist {
    map jti | jti in revoked && revoked[jti] >= now :: revoked[jti]
  }

  /** `active` is whether the employee still exists and is active. */
  datatype Event =
    | Login(now: int, lifetime: nat)
    | Refresh(token: Token, active: bool, now: int, lifetime: nat)
    | Logout(token: Token, now: int)

  /** `issued` lists the refresh tokens handed out, `all` the identifiers ever revoked, `redeemed`
      the tokens exchanged, in order; the program itself keeps only `revoked`. */
  datatype State = State(
    revoked: Blocklist, issued: seq<Token>, all: set<nat>, redeemed: seq<Token>, logins: nat, clock: int)

  const INITIAL := State(map[], [], {}, [], 0, 0)

  /** Whether the blocklist answers "revoked" for the token. */
  predicate SaysRevoked(revoked: Blocklist, token: Token, now: int) {
    token.jti in revoked && revoked[token.jti] >= now
  }

  /** Asking about a token drops its entry when that has expired. */
  function AfterAsking(revoked: Blocklist, token: Token, now: int): Blocklist {
    if token.jti in revoked && revoked[token.jti] < now then revoked - {token.jti} else revoked
  }

  /** Signature and expiry, checked before the blocklist is asked. */
  predicate Genuine(issued: seq<Token>, token: Token, now: int) {
    token in issued && now <= token.exp
  }

  /** `decode_refresh_token` returns a payload. */
  predicate Accepts(s: State, token: Token, now: int) {
    Genuine(s.issued, token, now) && !SaysRevoked(s.revoked, token, now)
  }

  /** The blocklist after decoding. */
  function AfterDecoding(s: State, token: Token, now: int): Blocklist {
    if Genuine(s.issued, token, now) then AfterAsking(s.revoked, token, now) else s.revoked
  }

  function Issue(s: State, now: int, lifetime: nat, login: nat): State {
    s.(issued := s.issued + [Token(|s.issued|, now + lifetime, login)])
  }

  function RevokeIn(s: State, token: Token, now: int): State {
    s.(revoked := Pruned(AfterDecoding(s, token, now), now)[token.jti := token.exp], all := s.all + {token.jti})
  }

  /** Calls come with clock readings that do not go back. */
  function Apply(s: State, e: Event): State
    requires s.clock <= e.now
  {
    var t := s.(clock := e.now);
    match e
    case Login(now, lifetime) =>
      Issue(t, now, lifetime, s.logins).(logins := s.logins + 1)
    case Refresh(token, active, now, lifetime) =>
      if !Accepts(s, token, now) || !active then t.(revoked := AfterDecoding(s, token, now))
      else Issue(RevokeIn(t, token, now), now, lifetime, token.login).(redeemed := s.redeemed + [token])
    case Logout(token, now) =>
      if !Accepts(s, token, now) then t.(revoked := AfterDecoding(s, token, now)) else RevokeIn(t, token, now)
  }

  ghost predicate InOrder(clock: int, events: seq<Event>) {
    && (forall i :: 0 <= i < |events| ==> clock <= events[i].now)
    && forall i, j :: 0 <= i < j < |events| ==> events[i].now <= events[j].now
  }

  function Run(s: State, events: seq<Event>): (r: State)
    requires InOrder(s.clock, events)
    ensures r.clock == if events == [] then s.clock else events[|events| - 1].now
  {
    if events == [] then s
    else Apply(Run(s, events[..|events| - 1]), events[|events| - 1])
  }

  // ---------- The module-level blocklist and the handlers ----------

  class Authority {
    var revoked: Blocklist
    ghost var issued: seq<Token>
    ghost var all: set<nat>
    ghost var redeemed: seq<Token>
    ghost var logins: nat
    ghost var clock: int

    ghost function Contents(): State
      reads this
    {
      State(revoked, issued, all, redeemed, logins, clock)
    }

    constructor ()
      ensures Contents() == INITIAL
    {
      revoked, issued, all, redeemed, logins, clock := map[], [], {}, [], 0, 0;
    }

    method PruneRevoked(now: int)
      modifies this`revoked
      ensures revoked == Pruned(old(revoked), now)
    {
      var expired := set jti | jti in revoked && revoked[jti] < now;
      revoked := revoked - expired;
    }

    method RevokeToken(token: Token, now: int)
      modifies this`revoked
      ensures revoked == Pruned(old(revoked), now)[token.jti := token.exp]
    {
      PruneRevoked(now);
      revoked := revoked[token.jti := token.exp];
    }

    method IsTokenRevoked(token: Token, now: int) returns (answer: bool)
      modifies this`revoked
      ensures answer <==> SaysRevoked(old(revoked), token, now)
      ensures revoked == AfterAsking(old(revoked), token, now)
    {
      if token.jti !in revoked {
        return false;
      }
      if revoked[token.jti] < now {
        revoked := revoked - {token.jti};
        return false;
      }
      return true;
    }

    /** `genuine` is the verdict of the signature and expiry check. */
    method Decode(token: Token, genuine: bool, now: int) returns (ok: bool)
      requires genuine == Genuine(issued, token, now)
      modifies this`revoked
      ensures ok <==> Accepts(old(Contents()), token, now)
      ensures revoked == AfterDecoding(old(Contents()), token, now)
    {
      if !genuine {
        return false;
      }
      var answer := IsTokenRevoked(token, now);
      return !answer;
    }

    method HandleRefresh(token: Token, genuine: bool, active: bool, now: int, ghost lifetime: nat) returns (ok: bool)
      requires genuine == Genuine(issued, token, now) && clock <= now
      modifies this
      ensures Contents() == Apply(old(Contents()), Refresh(token, active, now, lifetime))
      ensures ok <==> old(Accepts(Contents(), token, now)) && active
      ensures ok ==>
        && issued == old(issued) + [Token(|old(issued)|, now + lifetime, token.login)]
        && redeemed == old(redeemed) + [token] && all == old(all) + {token.jti}
        && token.jti in revoked && revoked[token.jti] == token.exp && !Accepts(Contents(), token, now)
      ensures !ok ==> issued == old(issued) && redeemed == old(redeemed) && all == old(all)
      ensures logins == old(logins)
    {
      var decoded := Decode(token, genuine, now);
      clock := now;
      if !decoded || !active {
        return false;
      }
      RevokeToken(token, now);
      all := all + {token.jti};
      redeemed := redeemed + [token];
      issued := issued + [Token(|issued|, now + lifetime, token.login)];
      return true;
    }

    method HandleLogout(token: Token, genuine: bool, now: int)
      requires genuine == Genuine(issued, token, now) && clock <= now
      modifies this
      ensures Contents() == Apply(old(Contents()), Logout(token, now))
      ensures !Accepts(Contents(), token, now)
      ensures old(Accepts(Contents(), token, now)) ==>
        token.jti in revoked && revoked[token.jti] == token.exp && all == old(all) + {token.jti}
      ensures !old(Accepts(Contents(), token, now)) ==> all == old(all)
      ensures issued == old(issued) && redeemed == old(redeemed) && logins == old(logins)
    {
      var decoded := Decode(token, genuine, now);
      clock := now;
      if decoded {
        RevokeToken(token, now);
        all := all + {token.jti};
      }
    }
  }

  // ---------- What holds on every run ----------

  ghost predicate Inv(s: State) {
    && (forall i :: 0 <= i < |s.issued| ==> s.issued[i].jti == i && s.issued[i].login < s.logins)
    && (forall jti :: jti in s.all ==> jti < |s.issued|)
    // The blocklist holds revoked tokens with their own expiry, all but some that have expired.
    && (forall jti :: jti in s.revoked ==> jti in s.all && s.revoked[jti] == s.issued[jti].exp)
    && (forall jti :: jti in s.all && s.issued[jti].exp >= s.clock ==> jti in s.revoked)
    && (forall i :: 0 <= i < |s.redeemed| ==> s.redeemed[i] in s.issued && s.redeemed[i].jti in s.all)
    && (forall i, j :: 0 <= i < j < |s.redeemed| ==> s.redeemed[i] != s.redeemed[j])
    && (forall i, j :: 0 <= i < j < |s.issued| && s.issued[i].login == s.issued[j].login ==> i in s.all || j in s.all)
  }

  /** For a token that has not expired, the pruned blocklist answers exactly as the set of all
      tokens ever revoked would. */
  lemma BlocklistAnswersAsFullSet(s: State, token: Token, now: int)
    requires Inv(s) && token in s.issued && s.clock <= now <= token.exp
    ensures SaysRevoked(s.revoked, token, now) <==> token.jti in s.all
  {
    var i :| 0 <= i < |s.issued| && s.issued[i] == token;
  }

  lemma DecodingKeepsList(s: State, token: Token, now: int)
    requires Inv(s) && s.clock <= now
    ensures AfterDecoding(s, token, now) == s.revoked
  {
    if Genuine(s.issued, token, now) {
      var i :| 0 <= i < |s.issued| && s.issued[i] == token;
    }
  }

  lemma RevokingKeepsInv(s: State, token: Token, now: int)
    requires Inv(s) && s.clock <= now && token in s.issued
    ensures Inv(RevokeIn(s.(clock := now), token, now))
  {
    var i :| 0 <= i < |s.issued| && s.issued[i] == token;
    DecodingKeepsList(s, token, now);
    var t := s.(clock := now);
    assert AfterDecoding(t, token, now) == AfterDecoding(s, token, now);
  }

  lemma LoginKeepsInv(s: State, now: int, lifetime: nat)
    requires Inv(s) && s.clock <= now
    ensures Inv(Apply(s, Login(now, lifetime)))
  {
  }

  lemma StepKeepsInv(s: State, e: Event)
    requires Inv(s) && s.clock <= e.now
    ensures Inv(Apply(s, e))
  {
    match e
    case Login(now, lifetime) => LoginKeepsInv(s, now, lifetime);
    case Refresh(token, active, now, lifetime) =>
      if Accepts(s, token, now) && active {
        RefreshKeepsInv(s, token, now, lifetime);
      } else {
        RefusalKeepsInv(s, token, now);
      }
    case Logout(token, now) =>
      if Accepts(s, token, now) {
        hide Inv;
        RevokingKeepsInv(s, token, now);
      } else {
        RefusalKeepsInv(s, token, now);
      }
  }

  lemma RefusalKeepsInv(s: State, token: Token, now: int)
    requires Inv(s) && s.clock <= now
    ensures Inv(s.(clock := now).(revoked := AfterDecoding(s, token, now)))
  {
    DecodingKeepsList(s, token, now);
  }

  lemma RefreshKeepsInv(s: State, token: Token, now: int, lifetime: nat)
    requires Inv(s) && s.clock <= now && Accepts(s, token, now)
    ensures Inv(Apply(s, Refresh(token, true, now, lifetime)))
  {
    BlocklistAnswersAsFullSet(s, token, now);
    RevokingKeepsInv(s, token, now);
    var t := RevokeIn(s.(clock := now), token, now);
    assert token !in s.redeemed;
    assert forall i | 0 <= i < |s.issued| && s.issued[i].login == token.login :: i in t.all;
    hide Inv;
    RotationKeepsInv(t, s.redeemed, token, now, lifetime);
  }

  /** Handing out the successor of a token just revoked. */
  lemma RotationKeepsInv(s: State, redeemed: seq<Token>, token: Token, now: int, lifetime: nat)
    requires Inv(s) && token in s.issued && token.jti in s.all && redeemed == s.redeemed && token !in redeemed
    requires forall i :: 0 <= i < |s.issued| && s.issued[i].login == token.login ==> i in s.all
    ensures Inv(Issue(s, now, lifetime, token.login).(redeemed := redeemed + [token]))
  {
    var i :| 0 <= i < |s.issued| && s.issued[i] == token;
  }

  lemma {:induction false} RunKeepsInv(s: State, events: seq<Event>)
    requires Inv(s) && InOrder(s.clock, events)
    ensures Inv(Run(s, events))
  {
    if events != [] {
      RunKeepsInv(s, events[..|events| - 1]);
      StepKeepsInv(Run(s, events[..|events| - 1]), events[|events| - 1]);
    }
  }

  /** Of the tokens that descend from one login, two distinct ones are never both unrevoked. */
  lemma OneLiveDescendant(s: State, a: Token, b: Token)
    requires Inv(s) && a in s.issued && b in s.issued && a.login == b.login && a != b
    ensures a.jti in s.all || b.jti in s.all
  {
    var i :| 0 <= i < |s.issued| && s.issued[i] == a;
    var j :| 0 <= j < |s.issued| && s.issued[j] == b;
    assert i < j || j < i;
  }

  /** Over every run of logins, refreshes and logouts, each handler one step (RefreshInterleaving has
      them interleaved): for tokens not expired the pruned blocklist
      answers as the full record would, each refresh token is redeemed at most once, and at any
      moment at most one refresh token that descends from a login is still accepted. */
  lemma RotationIsSafe(events: seq<Event>, a: Token, b: Token, now: int)
    requires InOrder(0, events) && Run(INITIAL, events).clock <= now
    ensures var s := Run(INITIAL, events);
      && (a in s.issued && now <= a.exp ==> (SaysRevoked(s.revoked, a, now) <==> a.jti in s.all))
      && (forall i, j :: 0 <= i < j < |s.redeemed| ==> s.redeemed[i] != s.redeemed[j])
      && (Accepts(s, a, now) && Accepts(s, b, now) && a.login == b.login ==> a == b)
  {
    RunKeepsInv(INITIAL, events);
    var s := Run(INITIAL, events);
    if a in s.issued && now <= a.exp {
      BlocklistAnswersAsFullSet(s, a, now);
    }
    if b in s.issued && now <= b.exp {
      BlocklistAnswersAsFullSet(s, b, now);
    }
    if a in s.issued && b in s.issued && a.login == b.login && a != b {
      OneLiveDescendant(s, a, b);
    }
  }

  /** A login hands out one token of its own, and it is accepted until it expires. */
  lemma LoginIssuesOne(s: State, now: int, lifetime: nat, later: int)
    requires Inv(s) && s.clock <= now <= later
    ensures var s' := Apply(s, Login(now, lifetime));
      var token := Token(|s.issued|, now + lifetime, s.logins);
      && s'.issued == s.issued + [token] && s'.all == s.all && s'.redeemed == s.redeemed
      && (forall i :: 0 <= i < |s.issued| ==> s.issued[i].login != token.login)
      && (Accepts(s', token, later) <==> later <= now + lifetime)
  {
    var token := Token(|s.issued|, now + lifetime, s.logins);
    assert Apply(s, Login(now, lifetime)).issued[|s.issued|] == token;
    assert token.jti !in s.revoked;
  }

  /** The holder of an accepted token always has one afterwards: a refresh hands out exactly one
      successor, of the same login, accepted until it expires, and the token itself never again. */
  lemma RefreshHandsOver(s: State, token: Token, now: int, lifetime: nat, later: int)
    requires Inv(s) && s.clock <= now <= later && Accepts(s, token, now)
    ensures var s' := Apply(s, Refresh(token, true, now, lifetime));
      var next := Token(|s.issued|, now + lifetime, token.login);
      && s'.issued == s.issued + [next] && s'.redeemed == s.redeemed + [token]
      && !Accepts(s', token, later)
      && (Accepts(s', next, later) <==> later <= now + lifetime)
  {
    var next := Token(|s.issued|, now + lifetime, token.login);
    var i :| 0 <= i < |s.issued| && s.issued[i] == token;
    DecodingKeepsList(s, token, now);
    assert Apply(s, Refresh(token, true, now, lifetime)).issued[|s.issued|] == next;
    assert next.jti !in s.revoked;
  }

  lemma InitialInv()
    ensures Inv(INITIAL)
  {
  }

  /** Why one clock is assumed: when the decoder reads `decoderNow` and the blocklist `listNow`, a
      revoked token passes both checks if and only if it expired between the two readings. */
  lemma RevokedTokenPassesIff(s: State, token: Token, decoderNow: int, listNow: int)
    requires Inv(s) && token in s.issued && token.jti in s.all && s.clock <= decoderNow && s.clock <= listNow
    ensures Genuine(s.issued, token, decoderNow) && !SaysRevoked(s.revoked, token, listNow)
      <==> decoderNow <= token.exp < listNow
  {
    var i :| 0 <= i < |s.issued| && s.issued[i] == token;
  }

  /** A token that is logged out and expires at 100 passes the decoder at 100 and the blocklist at 101. */
  lemma RevokedTokenPasses()
    ensures var token := Token(0, 100, 0);
      var s := Apply(Apply(INITIAL, Login(0, 100)), Logout(token, 1));
      token.jti in s.all && Genuine(s.issued, token, 100) && !SaysRevoked(s.revoked, token, 101)
  {
    var token := Token(0, 100, 0);
    var s1 := Apply(INITIAL, Login(0, 100));
    assert s1.issued == [token];
    assert Accepts(s1, token, 1);
  }
}
