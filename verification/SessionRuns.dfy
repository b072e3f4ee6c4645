/** What every run of logins, refreshes and admin requests keeps. */
module SessionRuns {
  import opened Common
  import opened Sessions

  // ------------------------------------------------------------------ the block

  /** The account behind a blocked entry is not active and has no live token. */
  predicate ShutOut(s: State, a: AccountId)
    requires a in s.accounts
  {
    !s.accounts[a].status.Active? && TokensOf(s.live, a) == {}
  }

  predicate BlockedFor(s: State, e: EntryId, k: KakaoId) {
    e in s.whitelist && s.whitelist[e].standing.Blocked? && s.whitelist[e].kakaoId == Some(k) && k != ""
  }

  ghost predicate BlockInv(s: State) {
    && DbOk(s)
    && forall e, a :: a in s.accounts && BlockedFor(s, e, s.accounts[a].kakaoId) ==> ShutOut(s, a)
  }

  /** With unique kakaoIds the queries have one answer. */
  lemma OneEntry(s: State, k: KakaoId, e: EntryId)
    requires DbOk(s) && IsEntry(s.whitelist, k, e)
    ensures Listed(s.whitelist, k) && EntryOf(s.whitelist, k) == e
  {
  }

  lemma OneAccount(s: State, k: KakaoId, a: AccountId)
    requires DbOk(s) && IsAccount(s.accounts, k, a)
    ensures Known(s.accounts, k) && AccountOf(s.accounts, k) == a
  {
  }

  lemma LoginKeeps(s: State, r: Request)
    requires BlockInv(s) && Possible(s, r) && r.LoginAs?
    ensures BlockInv(Apply(s, r))
  {
    var k, s' := r.kakaoId, Apply(s, r);
    if Listed(s.whitelist, k) && !s.whitelist[EntryOf(s.whitelist, k)].standing.Blocked? {
      var account := if Known(s.accounts, k) then AccountOf(s.accounts, k) else r.account;
      assert !Known(s.accounts, k) ==> forall a :: a in s.accounts ==> !IsAccount(s.accounts, k, a);
      forall e, a | a in s'.accounts && BlockedFor(s', e, s'.accounts[a].kakaoId) ensures ShutOut(s', a) {
        assert BlockedFor(s, e, s'.accounts[a].kakaoId);
        if a == account {
          OneEntry(s, k, e);
        } else {
          assert ShutOut(s, a);
          assert TokensOf(s'.live, a) == TokensOf(s.live, a);
        }
      }
    } else {
      assert !Waits(s.waiting, k) ==> forall t :: t in s.waiting.Keys ==> s.waiting[t] != k;
      forall e, a | a in s'.accounts && BlockedFor(s', e, s'.accounts[a].kakaoId) ensures ShutOut(s', a) {
        assert BlockedFor(s, e, s.accounts[a].kakaoId) && ShutOut(s, a);
      }
    }
  }

  /** Requests that neither admit anyone nor touch accounts, and only take tokens away. */
  lemma FewerTokensKeep(s: State, s': State)
    requires BlockInv(s) && DbOk(s')
    requires s'.accounts == s.accounts && s'.live <= s.live
    requires forall e, k :: BlockedFor(s', e, k) ==> BlockedFor(s, e, k)
    ensures BlockInv(s')
  {
    forall e, a | a in s'.accounts && BlockedFor(s', e, s'.accounts[a].kakaoId) ensures ShutOut(s', a) {
      assert BlockedFor(s, e, s.accounts[a].kakaoId) && ShutOut(s, a);
      assert TokensOf(s'.live, a) <= TokensOf(s.live, a);
    }
  }

  lemma RefreshKeeps(s: State, r: Request)
    requires BlockInv(s) && Possible(s, r) && r.RefreshWith?
    ensures BlockInv(Apply(s, r))
  {
    var s' := Apply(s, r);
    if Refresh(s, r.presented, r.jti).1.Err? {
      FewerTokensKeep(s, s');
    } else {
      var t := r.presented.value;
      forall e, a | a in s'.accounts && BlockedFor(s', e, s'.accounts[a].kakaoId) ensures ShutOut(s', a) {
        assert BlockedFor(s, e, s.accounts[a].kakaoId) && ShutOut(s, a);
        assert a != t.sub;
        assert TokensOf(s'.live, a) == TokensOf(s.live, a);
      }
    }
  }

  lemma BlockKeeps(s: State, e: EntryId)
    requires BlockInv(s) && e in s.whitelist
    ensures BlockInv(UpdateEntry(s, e, Some(Blocked)).0)
  {
    var s' := UpdateEntry(s, e, Some(Blocked)).0;
    var kakaoId := s.whitelist[e].kakaoId;
    forall i, a | a in s'.accounts && BlockedFor(s', i, s'.accounts[a].kakaoId) ensures ShutOut(s', a) {
      if i == e {
        OneAccount(s, kakaoId.value, a);
      } else {
        assert BlockedFor(s, i, s.accounts[a].kakaoId) && ShutOut(s, a);
        assert TokensOf(s'.live, a) <= TokensOf(s.live, a);
      }
    }
  }

  lemma UnblockKeeps(s: State, e: EntryId, standing: Standing)
    requires BlockInv(s) && e in s.whitelist && standing != Blocked
    ensures BlockInv(UpdateEntry(s, e, Some(standing)).0)
  {
    var s' := UpdateEntry(s, e, Some(standing)).0;
    forall i, a | a in s'.accounts && BlockedFor(s', i, s'.accounts[a].kakaoId) ensures ShutOut(s', a) {
      assert i != e;
      assert BlockedFor(s, i, s.accounts[a].kakaoId) && ShutOut(s, a);
      assert s.accounts[a].kakaoId != "" && s.whitelist[e].kakaoId != Some(s.accounts[a].kakaoId);
    }
  }

  lemma NewEntryKeeps(s: State, e: EntryId, entry: Entry)
    requires BlockInv(s) && e !in s.whitelist && entry.standing.Invited?
    requires entry.kakaoId.Some? ==> !Listed(s.whitelist, entry.kakaoId.value)
    ensures BlockInv(s.(whitelist := s.whitelist[e := entry]))
  {
    var s' := s.(whitelist := s.whitelist[e := entry]);
    forall i | i in s.whitelist ensures entry.kakaoId.None? || s.whitelist[i].kakaoId != entry.kakaoId {
      assert i in s.whitelist.Keys;
      assert entry.kakaoId.Some? ==> !IsEntry(s.whitelist, entry.kakaoId.value, i);
    }
    FewerTokensKeep(s, s');
  }

  lemma AdminKeeps(s: State, r: Request)
    requires BlockInv(s) && Possible(s, r) && !r.LoginAs? && !r.RefreshWith?
    ensures BlockInv(Apply(s, r))
  {
    var s' := Apply(s, r);
    match r
    case AdminCreate(k, i, e) =>
      if CreateEntry(s, k, i, e).1.Ok? { NewEntryKeeps(s, e, Entry(k, i, Invited)); }
    case AdminUpdate(e, standing) =>
      if e in s.whitelist {
        if standing == Some(Blocked) { BlockKeeps(s, e); }
        else if standing.Some? { UnblockKeeps(s, e, standing.value); }
        else { assert s'.whitelist == s.whitelist; }
      }
    case AdminApprove(t, e) =>
      if t in s.waiting && !Listed(s.whitelist, s.waiting[t]) {
        NewEntryKeeps(s, e, Entry(Some(s.waiting[t]), None, Invited));
        FewerTokensKeep(s.(whitelist := s'.whitelist), s');
      } else {
        FewerTokensKeep(s, s');
      }
    case Boot(k, e) =>
      if !Listed(s.whitelist, k) { NewEntryKeeps(s, e, Entry(Some(k), None, Invited)); }
    case _ => FewerTokensKeep(s, s');
  }

  lemma {:induction false} BlockHolds(states: seq<State>, requests: seq<Request>, n: nat)
    requires IsRun(states, requests) && n < |states| && BlockInv(states[0])
    ensures BlockInv(states[n])
  {
    if n > 0 {
      BlockHolds(states, requests, n - 1);
      var s, r := states[n - 1], requests[n - 1];
      assert StepAt(states, requests, n - 1);
      if r.LoginAs? { LoginKeeps(s, r); } else if r.RefreshWith? { RefreshKeeps(s, r); } else { AdminKeeps(s, r); }
    }
  }

  /**
   * In every run, while the entry of a Kakao member is blocked, that member cannot log in, its account
   * passes no check, has no live token and no refresh with one of its tokens succeeds.
   */
  lemma BlockedIsShutOut(states: seq<State>, requests: seq<Request>, n: nat, e: EntryId, k: KakaoId,
                         a: AccountId, t: Token, jti: Jti, ticket: TicketId)
    requires IsRun(states, requests) && n < |states| && BlockInv(states[0])
    requires BlockedFor(states[n], e, k)
    ensures Login(states[n], k, a, jti, ticket) == (states[n], Err(Forbidden))
    ensures IsAccount(states[n].accounts, k, a) ==> !Validates(states[n], a) && TokensOf(states[n].live, a) == {}
    ensures IsAccount(states[n].accounts, k, t.sub) ==> Refresh(states[n], Some(t), jti).1 == Err(Unauthorized)
  {
    BlockHolds(states, requests, n);
    OneEntry(states[n], k, e);
    if IsAccount(states[n].accounts, k, a) { assert ShutOut(states[n], a); }
    if IsAccount(states[n].accounts, k, t.sub) { assert ShutOut(states[n], t.sub); }
  }

  /**
   * Login succeeds exactly for members with an entry that is not blocked; it leaves the entry admitted,
   * the account active and one new live token, the one returned.
   */
  lemma LoginIffAdmitted(s: State, k: KakaoId, a: AccountId, jti: Jti, ticket: TicketId)
    requires DbOk(s) && a !in s.accounts
    ensures Login(s, k, a, jti, ticket).1.Ok? <==>
      exists e :: IsEntry(s.whitelist, k, e) && !s.whitelist[e].standing.Blocked?
    ensures var (s', r) := Login(s, k, a, jti, ticket);
      r.Ok? ==>
        && IsAccount(s'.accounts, k, r.value.sub) && Validates(s', r.value.sub)
        && (Known(s.accounts, k) ==> IsAccount(s.accounts, k, r.value.sub))
        && s'.live == s.live + {r.value}
        && forall e :: IsEntry(s'.whitelist, k, e) ==> s'.whitelist[e].standing.Admitted?
    ensures var (s', r) := Login(s, k, a, jti, ticket);
      r.Err? ==>
        && s'.accounts == s.accounts && s'.live == s.live && s'.whitelist == s.whitelist
        && (Waits(s'.waiting, k) <==> Waits(s.waiting, k) || !Listed(s.whitelist, k))
  {
    var s' := Login(s, k, a, jti, ticket).0;
    if Listed(s.whitelist, k) {
      OneEntry(s, k, EntryOf(s.whitelist, k));
    } else {
      assert forall e :: IsEntry(s.whitelist, k, e) ==> e in s.whitelist.Keys;
      if !Waits(s.waiting, k) { assert s'.waiting[ticket] == k && ticket in s'.waiting.Keys; }
    }
  }

  // ------------------------------------------------------------------ rotation

  lemma DeadStep(s: State, r: Request, t: Token)
    requires Possible(s, r) && t in s.issued && t !in s.live
    ensures t in Apply(s, r).issued && t !in Apply(s, r).live
  {
  }

  lemma DeadNext(states: seq<State>, requests: seq<Request>, i: nat, t: Token)
    requires IsRun(states, requests) && i < |requests| && t in states[i].issued && t !in states[i].live
    ensures t in states[i + 1].issued && t !in states[i + 1].live
  {
    assert StepAt(states, requests, i);
    DeadStep(states[i], requests[i], t);
  }

  /** A token that is not live never becomes live again. */
  lemma {:induction false} DeadForever(states: seq<State>, requests: seq<Request>, m: nat, n: nat, t: Token)
    requires IsRun(states, requests) && m <= n < |states|
    requires t in states[m].issued && t !in states[m].live
    ensures t in states[n].issued && t !in states[n].live
  {
    if m < n {
      DeadForever(states, requests, m, n - 1, t);
      DeadNext(states, requests, n - 1, t);
    }
  }

  /** Request `i` redeems `t`: a refresh with `t` that succeeds. */
  predicate Redeems(s: State, r: Request, t: Token) {
    r.RefreshWith? && r.presented == Some(t) && Refresh(s, r.presented, r.jti).1.Ok?
  }

  lemma RedeemedIsDead(s: State, r: Request, t: Token)
    requires Possible(s, r) && Redeems(s, r, t)
    ensures t in Apply(s, r).issued && t !in Apply(s, r).live
  {
  }

  /** Each refresh token is redeemed at most once in any run. */
  lemma RedeemedAtMostOnce(states: seq<State>, requests: seq<Request>, i: nat, j: nat, t: Token)
    requires IsRun(states, requests) && i < |requests| && j < |requests|
    requires Redeems(states[i], requests[i], t) && Redeems(states[j], requests[j], t)
    ensures i == j
  {
    var (x, y) := if i <= j then (i, j) else (j, i);
    assert StepAt(states, requests, x);
    RedeemedIsDead(states[x], requests[x], t);
    if x < y { DeadForever(states, requests, x + 1, y, t); }
  }

  /**
   * Presenting a refresh token whose key is gone leaves its account without any live token, and every
   * token the account was ever issued up to then stays dead for the rest of the run.
   */
  lemma ReuseEndsAllSessions(states: seq<State>, requests: seq<Request>, m: nat, n: nat, t: Token, other: Token)
    requires IsRun(states, requests) && m < n < |states|
    requires requests[m].RefreshWith? && requests[m].presented == Some(t) && t !in states[m].live
    requires other in states[m].issued && other.sub == t.sub
    ensures TokensOf(states[m + 1].live, t.sub) == {}
    ensures other !in states[n].live
  {
    assert StepAt(states, requests, m);
    assert other in states[m + 1].issued && other !in states[m + 1].live;
    DeadForever(states, requests, m + 1, n, other);
  }

  /** Blocking ends all sessions for good: unblocking brings none of the old tokens back. */
  lemma BlockEndsAllSessions(states: seq<State>, requests: seq<Request>, m: nat, n: nat, k: KakaoId, t: Token)
    requires IsRun(states, requests) && BlockInv(states[0]) && m < n < |states| && k != ""
    requires requests[m].AdminUpdate? && requests[m].standing == Some(Blocked)
    requires IsEntry(states[m].whitelist, k, requests[m].entry)
    requires t in states[m].issued && IsAccount(states[m].accounts, k, t.sub)
    ensures t !in states[n].live
  {
    BlockHolds(states, requests, m);
    assert StepAt(states, requests, m);
    OneAccount(states[m], k, t.sub);
    assert t in states[m + 1].issued && t !in states[m + 1].live;
    DeadForever(states, requests, m + 1, n, t);
  }

  /** A successful refresh replaces one live token of the account by another. */
  lemma RefreshKeepsSessionCount(s: State, r: Request, t: Token)
    requires DbOk(s) && Possible(s, r) && Redeems(s, r, t)
    ensures |TokensOf(Apply(s, r).live, t.sub)| == |TokensOf(s.live, t.sub)|
    ensures forall a :: a != t.sub ==> TokensOf(Apply(s, r).live, a) == TokensOf(s.live, a)
  {
    var next := Token(t.sub, r.jti);
    assert next !in s.live;
    assert TokensOf(Apply(s, r).live, t.sub) == TokensOf(s.live, t.sub) - {t} + {next};
    forall a | a != t.sub ensures TokensOf(Apply(s, r).live, a) == TokensOf(s.live, a) {
      assert forall x :: x in TokensOf(Apply(s, r).live, a) <==> x in TokensOf(s.live, a);
    }
  }
}
