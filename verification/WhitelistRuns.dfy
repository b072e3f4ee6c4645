/** What the admin and auth requests record, told by the tables before and after. */
module WhitelistRuns {
  import opened Common
  import opened Sessions
  import opened SessionRuns

  /** Entry `e` alone has changed, to `entry`. */
  predicate Records(s: State, s': State, e: EntryId, entry: Entry) {
    s'.whitelist == s.whitelist[e := entry]
  }

  // ------------------------------------------------------------------ the standing an admin sets

  /**
   * The request records exactly the standing it names, in that entry only; without a standing, or for
   * an unknown entry, nothing changes.
   */
  lemma UpdateIsRecorded(states: seq<State>, requests: seq<Request>, m: nat)
    requires IsRun(states, requests) && m < |requests| && requests[m].AdminUpdate?
    ensures var s, s', e, x := states[m], states[m + 1], requests[m].entry, requests[m].standing;
      if e in s.whitelist && x.Some? then
        && e in s'.whitelist && s'.whitelist[e] == s.whitelist[e].(standing := x.value)
        && s'.whitelist.Keys == s.whitelist.Keys
        && (forall i :: i in s.whitelist && i != e ==> s'.whitelist[i] == s.whitelist[i])
        && s'.waiting == s.waiting && s'.issued == s.issued
      else s' == s
  {
    assert StepAt(states, requests, m);
    var s, e := states[m], requests[m].entry;
    if e in s.whitelist && requests[m].standing.None? { assert s.whitelist[e := s.whitelist[e]] == s.whitelist; }
  }

  /** The request concerns the account: it names the entry of its Kakao member. */
  predicate Concerns(s: State, r: Request, a: AccountId)
    requires a in s.accounts
  {
    && r.AdminUpdate? && r.entry in s.whitelist && r.standing.Some?
    && s.whitelist[r.entry].kakaoId == Some(s.accounts[a].kakaoId) && s.accounts[a].kakaoId != ""
  }

  /**
   * A block suspends the linked account and takes its tokens; lifting a block makes a suspended account
   * active and gives no tokens back; no other account and no other token is touched.
   */
  lemma UpdateReachesAccount(s: State, r: Request, a: AccountId)
    requires DbOk(s) && r.AdminUpdate? && a in s.accounts
    ensures var s' := Apply(s, r);
      && s'.accounts.Keys == s.accounts.Keys && s'.accounts[a].kakaoId == s.accounts[a].kakaoId
      && s'.accounts[a].status ==
           (if Concerns(s, r, a) && r.standing.value.Blocked? then Suspended
            else if Concerns(s, r, a) && s.whitelist[r.entry].standing.Blocked? && s.accounts[a].status.Suspended?
            then Active
            else s.accounts[a].status)
      && TokensOf(s'.live, a) == if Concerns(s, r, a) && r.standing.value.Blocked? then {} else TokensOf(s.live, a)
  {
    if Concerns(s, r, a) {
      OneAccount(s, s.accounts[a].kakaoId, a);
      assert TokensOf(RevokeAll(s, a).live, a) == {};
    } else if r.entry in s.whitelist && Truthy(s.whitelist[r.entry].kakaoId)
           && Known(s.accounts, s.whitelist[r.entry].kakaoId.value) && r.standing == Some(Blocked) {
      var b := AccountOf(s.accounts, s.whitelist[r.entry].kakaoId.value);
      assert b != a;
      assert TokensOf(RevokeAll(s, b).live, a) == TokensOf(s.live, a);
    }
  }

  // ------------------------------------------------------------------ a block lasts

  /** The request is an admin's decision about the entry. */
  predicate Decides(r: Request, e: EntryId) {
    (r.AdminUpdate? && r.entry == e && r.standing.Some?) || (r.AdminRemove? && r.entry == e)
  }

  /** Nothing but an admin's decision about the entry lifts a block. */
  lemma BlockedStays(s: State, r: Request, e: EntryId, k: KakaoId)
    requires DbOk(s) && Possible(s, r) && BlockedFor(s, e, k) && !Decides(r, e)
    ensures BlockedFor(Apply(s, r), e, k)
  {
    OneEntry(s, k, e);
  }

  lemma {:induction false} BlockedStaysLong(states: seq<State>, requests: seq<Request>, m: nat, n: nat,
                                            e: EntryId, k: KakaoId)
    requires IsRun(states, requests) && m <= n < |states| && BlockInv(states[0])
    requires BlockedFor(states[m], e, k) && forall i :: m <= i < n ==> !Decides(requests[i], e)
    ensures BlockedFor(states[n], e, k)
  {
    if m < n {
      BlockedStaysLong(states, requests, m, n - 1, e, k);
      BlockHolds(states, requests, n - 1);
      assert StepAt(states, requests, n - 1);
      BlockedStays(states[n - 1], requests[n - 1], e, k);
    }
  }

  /**
   * A block takes effect at once and lasts until an admin decides about the entry again: all the while
   * the entry is blocked, every login of the member is refused, and its account passes no check.
   */
  lemma BlockLasts(states: seq<State>, requests: seq<Request>, m: nat, n: nat, e: EntryId, k: KakaoId,
                   a: AccountId, jti: Jti, ticket: TicketId)
    requires IsRun(states, requests) && BlockInv(states[0]) && m < n < |states| && k != ""
    requires requests[m] == AdminUpdate(e, Some(Blocked)) && IsEntry(states[m].whitelist, k, e)
    requires forall i :: m < i < n ==> !Decides(requests[i], e)
    ensures BlockedFor(states[n], e, k)
    ensures Login(states[n], k, a, jti, ticket) == (states[n], Err(Forbidden))
    ensures IsAccount(states[n].accounts, k, a) ==> !Validates(states[n], a) && TokensOf(states[n].live, a) == {}
  {
    UpdateIsRecorded(states, requests, m);
    BlockedStaysLong(states, requests, m + 1, n, e, k);
    BlockedIsShutOut(states, requests, n, e, k, a, Token(a, jti), jti, ticket);
  }

  /** Lifting a block lets the member in again, with its old account. */
  lemma UnblockedCanLogIn(states: seq<State>, requests: seq<Request>, m: nat, e: EntryId, k: KakaoId,
                          standing: Standing, a: AccountId, jti: Jti, ticket: TicketId)
    requires IsRun(states, requests) && BlockInv(states[0]) && m < |requests|
    requires requests[m] == AdminUpdate(e, Some(standing)) && standing != Blocked
    requires IsEntry(states[m].whitelist, k, e) && a !in states[m + 1].accounts
    ensures var r := Login(states[m + 1], k, a, jti, ticket).1;
      r.Ok? && (Known(states[m].accounts, k) ==> IsAccount(states[m].accounts, k, r.value.sub))
  {
    UpdateIsRecorded(states, requests, m);
    BlockHolds(states, requests, m);
    BlockHolds(states, requests, m + 1);
    assert StepAt(states, requests, m);
    var s := states[m + 1];
    assert IsEntry(s.whitelist, k, e) && !s.whitelist[e].standing.Blocked?;
    LoginIffAdmitted(s, k, a, jti, ticket);
    if Known(states[m].accounts, k) {
      var b := AccountOf(states[m].accounts, k);
      UpdateReachesAccount(states[m], requests[m], b);
      OneAccount(s, k, b);
    }
  }

  // ------------------------------------------------------------------ new entries

  /** An admin can list anyone not listed yet who is named by a Kakao id or otherwise; the entry is invited. */
  lemma CreateOutcome(s: State, kakaoId: Option<KakaoId>, identifier: Option<string>, e: EntryId)
    requires e !in s.whitelist
    ensures var (s', r) := CreateEntry(s, kakaoId, identifier, e);
      && (r.Ok? <==> (Truthy(kakaoId) || Truthy(identifier)) && (kakaoId.None? || !Listed(s.whitelist, kakaoId.value)))
      && (r.Ok? ==> r.value == e && Records(s, s', e, Entry(kakaoId, identifier, Invited)))
      && (r.Err? ==> s' == s)
      && s' == s.(whitelist := s'.whitelist)
      && (!Truthy(kakaoId) && !Truthy(identifier) ==> r == Err(Validation))
      && (Truthy(kakaoId) && Listed(s.whitelist, kakaoId.value) ==> r == Err(Conflict))
  {
  }

  /** Approval lists the one who waits, unless already listed, and takes the ticket; it never lifts a block. */
  lemma ApproveOutcome(s: State, ticket: TicketId, e: EntryId)
    requires DbOk(s) && e !in s.whitelist
    ensures var (s', r) := Approve(s, ticket, e);
      && s' == s.(whitelist := s'.whitelist, waiting := s'.waiting)
      && (r == Err(NotFound) <==> ticket !in s.waiting)
      && (r == Err(Conflict) <==>
            ticket in s.waiting
            && exists i :: IsEntry(s.whitelist, s.waiting[ticket], i) && s.whitelist[i].standing.Blocked?)
      && (r.Err? ==> s' == s && (r.error == NotFound || r.error == Conflict))
      && (r.Ok? ==>
            && s'.waiting == s.waiting - {ticket} && IsEntry(s'.whitelist, s.waiting[ticket], r.value)
            && (if Listed(s.whitelist, s.waiting[ticket]) then s'.whitelist == s.whitelist
                else r.value == e && Records(s, s', e, Entry(Some(s.waiting[ticket]), None, Invited))))
  {
    if ticket in s.waiting {
      var k := s.waiting[ticket];
      if Listed(s.whitelist, k) {
        OneEntry(s, k, EntryOf(s.whitelist, k));
        assert forall i :: IsEntry(s.whitelist, k, i) ==> i == EntryOf(s.whitelist, k);
      } else {
        assert forall i :: IsEntry(s.whitelist, k, i) ==> i in s.whitelist.Keys;
      }
    }
  }

  /** The way in: a stranger is refused and queued, is approved, and then can log in. */
  lemma ApprovedCanLogIn(s: State, k: KakaoId, e: EntryId, a: AccountId, jti: Jti, newTicket: TicketId)
    requires DbOk(s) && !Listed(s.whitelist, k) && e !in s.whitelist && newTicket !in s.waiting && a !in s.accounts
    ensures var (s1, refused) := Login(s, k, a, jti, newTicket);
      && refused == Err(Forbidden)
      && exists ticket :: ticket in s1.waiting && s1.waiting[ticket] == k
           && Approve(s1, ticket, e).1.Ok? && Login(Approve(s1, ticket, e).0, k, a, jti, newTicket).1.Ok?
  {
    var s1 := Login(s, k, a, jti, newTicket).0;
    var ticket: TicketId;
    if Waits(s.waiting, k) {
      ticket :| ticket in s.waiting.Keys && s.waiting[ticket] == k;
    } else {
      ticket := newTicket;
      assert forall t :: t in s.waiting.Keys ==> s.waiting[t] != k;
    }
    assert DbOk(s1) && ticket in s1.waiting && s1.waiting[ticket] == k;
    ApproveOutcome(s1, ticket, e);
    var s2 := Approve(s1, ticket, e).0;
    assert IsEntry(s2.whitelist, k, e);
    assert Listed(s2.whitelist, k) by { assert e in s2.whitelist.Keys; }
  }

  /** Removing an entry takes it off the list and nothing else; the member is a stranger again. */
  lemma RemoveOutcome(s: State, e: EntryId)
    requires DbOk(s)
    ensures var (s', r) := RemoveEntry(s, e);
      && (r.Ok? <==> e in s.whitelist) && (r.Err? ==> r == Err(NotFound) && s' == s)
      && (r.Ok? ==> s' == s.(whitelist := s.whitelist - {e}))
      && (r.Ok? && s.whitelist[e].kakaoId.Some? ==> !Listed(s'.whitelist, s.whitelist[e].kakaoId.value))
  {
  }

  /** A dismissed ticket is gone; a boot seeds exactly the ids not listed yet, as invited. */
  lemma DismissAndBootOutcome(s: State, ticket: TicketId, k: KakaoId, e: EntryId)
    requires e !in s.whitelist
    ensures var (s', r) := Dismiss(s, ticket);
      s' == s.(waiting := s.waiting - {ticket}) && r == if ticket in s.waiting then Ok(()) else Err(NotFound)
    ensures var s' := Seed(s, k, e);
      (s' == s || Records(s, s', e, Entry(Some(k), None, Invited))) && s' == s.(whitelist := s'.whitelist)
      && Listed(s'.whitelist, k) && (s' == s <==> Listed(s.whitelist, k))
  {
    assert Listed(Seed(s, k, e).whitelist, k) by { assert Listed(s.whitelist, k) || e in Seed(s, k, e).whitelist.Keys; }
  }

  // ------------------------------------------------------------------ refresh and logout

  /**
   * A refresh succeeds exactly with a live token of an active account, and then exchanges that token for
   * a new one; with any other verified token all tokens of the account are revoked.
   */
  lemma RefreshSucceedsIff(s: State, presented: Option<Token>, jti: Jti)
    ensures var (s', r) := Refresh(s, presented, jti);
      && (r.Ok? <==>
            && presented.Some? && presented.value in s.live
            && presented.value.sub in s.accounts && s.accounts[presented.value.sub].status == Active)
      && (r.Ok? ==>
            && r.value == Token(presented.value.sub, jti)
            && s'.live == s.live - {presented.value} + {r.value} && s'.issued == s.issued + {r.value})
      && (r.Err? ==>
            && r == Err(Unauthorized) && s'.issued == s.issued
            && forall t :: t in s'.live <==> t in s.live && !(presented.Some? && t.sub == presented.value.sub))
      && s' == s.(live := s'.live, issued := s'.issued)
  {
  }
}
