/** `AuthService` and `AdminService` on the account tables and the token store, one request at a time. */
module AuthService {
  import opened Common
  import opened Sessions

  class AuthDb {
    var whitelist: map<EntryId, Entry>
    var accounts: map<AccountId, Account>
    var waiting: map<TicketId, KakaoId>
    var live: set<Token>
    ghost var issued: set<Token>

    ghost function View(): State
      reads this
    {
      State(whitelist, accounts, waiting, live, issued)
    }

    ghost predicate Valid()
      reads this
    {
      DbOk(View())
    }

    constructor ()
      ensures View() == State(map[], map[], map[], {}, {}) && Valid()
    {
      whitelist, accounts, waiting, live, issued := map[], map[], map[], {}, {};
    }
  }

  // ------------------------------------------------------------------ RedisService

  /** Batches of SCAN with the pattern of one account, while the keys do not change. */
  predicate ScanOf(live: set<Token>, a: AccountId, scan: seq<seq<Token>>) {
    && (forall t :: t in TokensOf(live, a) ==> exists i, j :: 0 <= i < |scan| && 0 <= j < |scan[i]| && scan[i][j] == t)
    && (forall i, j :: 0 <= i < |scan| && 0 <= j < |scan[i]| ==> scan[i][j].sub == a)
  }

  /** The batches cover the tokens of the account the entry belongs to, if there is one. */
  predicate ScanFor(db: AuthDb, kakaoId: Option<KakaoId>, scan: seq<seq<Token>>)
    reads db
  {
    Truthy(kakaoId) ==> forall a :: a in db.accounts.Keys && IsAccount(db.accounts, kakaoId.value, a) ==>
      ScanOf(db.live, a, scan)
  }

  /**
   * `delByPattern` for the tokens of one account: whatever SCAN repeats, exactly those are deleted.
   */
  method DelByPattern(db: AuthDb, a: AccountId, scan: seq<seq<Token>>)
    requires ScanOf(db.live, a, scan)
    modifies db`live
    ensures db.live == old(db.live) - TokensOf(old(db.live), a)
  {
    var pipeline: set<Token> := {};
    var found := 0;
    for i := 0 to |scan|
      invariant forall t :: t in pipeline ==> t.sub == a
      invariant forall k, j :: 0 <= k < i && 0 <= j < |scan[k]| ==> scan[k][j] in pipeline
      invariant found == 0 ==> pipeline == {}
    {
      for j := 0 to |scan[i]|
        invariant forall t :: t in pipeline ==> t.sub == a
        invariant forall k, l :: 0 <= k < i && 0 <= l < |scan[k]| ==> scan[k][l] in pipeline
        invariant forall l :: 0 <= l < j ==> scan[i][l] in pipeline
        invariant 0 <= found && (found == 0 ==> pipeline == {})
      {
        pipeline := pipeline + {scan[i][j]};
        found := found + 1;
      }
    }
    if found != 0 {
      db.live := db.live - pipeline;
    }
  }

  // ------------------------------------------------------------------ AuthService

  method IssueTokens(db: AuthDb, a: AccountId, jti: Jti) returns (t: Token)
    modifies db`live, db`issued
    ensures t == Token(a, jti) && db.View() == Issue(old(db.View()), a, jti)
    ensures db.live - old(db.live) <= {t} && t in db.live && old(db.live) <= db.live
  {
    t := Token(a, jti);
    db.live := db.live + {t};
    db.issued := db.issued + {t};
  }

  method KakaoLogin(db: AuthDb, k: KakaoId, a: AccountId, jti: Jti, ticket: TicketId) returns (r: Result<Token, Error>)
    requires db.Valid() && Possible(db.View(), LoginAs(k, a, jti, ticket))
    modifies db
    ensures (db.View(), r) == Login(old(db.View()), k, a, jti, ticket)
  {
    if !Listed(db.whitelist, k) {
      if !Waits(db.waiting, k) { db.waiting := db.waiting[ticket := k]; }
      return Err(Forbidden);
    }
    var e :| e in db.whitelist.Keys && IsEntry(db.whitelist, k, e);
    if db.whitelist[e].standing.Blocked? { return Err(Forbidden); }
    var account := a;
    if Known(db.accounts, k) {
      account :| account in db.accounts.Keys && IsAccount(db.accounts, k, account);
    }
    db.accounts := db.accounts[account := Account(k, Active)];
    if db.whitelist[e].standing.Invited? {
      db.whitelist := db.whitelist[e := db.whitelist[e].(standing := Admitted)];
    }
    var t := IssueTokens(db, account, jti);
    r := Ok(t);
  }

  method RefreshTokens(db: AuthDb, presented: Option<Token>, jti: Jti, scan: seq<seq<Token>>)
    returns (r: Result<Token, Error>)
    requires presented.Some? ==> ScanOf(db.live, presented.value.sub, scan)
    modifies db
    ensures (db.View(), r) == Refresh(old(db.View()), presented, jti)
  {
    if presented.None? { return Err(Unauthorized); }
    var t := presented.value;
    if t !in db.live {
      DelByPattern(db, t.sub, scan);
      return Err(Unauthorized);
    }
    if t.sub !in db.accounts || !db.accounts[t.sub].status.Active? {
      DelByPattern(db, t.sub, scan);
      return Err(Unauthorized);
    }
    db.live := db.live - {t};
    var next := IssueTokens(db, t.sub, jti);
    r := Ok(next);
  }

  method LogoutToken(db: AuthDb, presented: Option<Token>)
    modifies db`live
    ensures db.View() == Logout(old(db.View()), presented)
    ensures forall t :: t in db.live <==> t in old(db.live) && presented != Some(t)
  {
    if presented.Some? { db.live := db.live - {presented.value}; }
  }

  // ------------------------------------------------------------------ AdminService

  method AdminCreateEntry(db: AuthDb, kakaoId: Option<KakaoId>, identifier: Option<string>, e: EntryId)
    returns (r: Result<EntryId, Error>)
    modifies db`whitelist
    ensures (db.View(), r) == CreateEntry(old(db.View()), kakaoId, identifier, e)
  {
    if !Truthy(kakaoId) && !Truthy(identifier) { return Err(Validation); }
    if Truthy(kakaoId) {
      if Listed(db.whitelist, kakaoId.value) { return Err(Conflict); }
    }
    if kakaoId.Some? && Listed(db.whitelist, kakaoId.value) { return Err(Internal); }
    db.whitelist := db.whitelist[e := Entry(kakaoId, identifier, Invited)];
    r := Ok(e);
  }

  /** Returns the account whose sockets `session.revoked` disconnects. */
  method Enforce(db: AuthDb, kakaoId: Option<KakaoId>, scan: seq<seq<Token>>) returns (revoked: Option<AccountId>)
    requires db.Valid()
    requires ScanFor(db, kakaoId, scan)
    modifies db`accounts, db`live
    ensures db.View() == EnforceBlock(old(db.View()), kakaoId)
    ensures revoked == if Truthy(kakaoId) && Known(old(db.accounts), kakaoId.value)
                       then Some(AccountOf(old(db.accounts), kakaoId.value)) else None
  {
    if !Truthy(kakaoId) || !Known(db.accounts, kakaoId.value) { return None; }
    var a :| a in db.accounts.Keys && IsAccount(db.accounts, kakaoId.value, a);
    db.accounts := db.accounts[a := db.accounts[a].(status := Suspended)];
    DelByPattern(db, a, scan);
    revoked := Some(a);
  }

  method Restore(db: AuthDb, kakaoId: Option<KakaoId>)
    requires db.Valid()
    modifies db`accounts
    ensures db.View() == Reactivate(old(db.View()), kakaoId)
  {
    if !Truthy(kakaoId) || !Known(db.accounts, kakaoId.value) { return; }
    var a :| a in db.accounts.Keys && IsAccount(db.accounts, kakaoId.value, a);
    if db.accounts[a].status.Suspended? {
      db.accounts := db.accounts[a := db.accounts[a].(status := Active)];
    }
  }

  method AdminUpdateEntry(db: AuthDb, e: EntryId, standing: Option<Standing>, scan: seq<seq<Token>>)
    returns (r: Result<Entry, Error>)
    requires db.Valid()
    requires e in db.whitelist ==> ScanFor(db, db.whitelist[e].kakaoId, scan)
    modifies db
    ensures (db.View(), r) == UpdateEntry(old(db.View()), e, standing)
  {
    if e !in db.whitelist { return Err(NotFound); }
    var existing := db.whitelist[e];
    var updated := if standing.Some? then existing.(standing := standing.value) else existing;
    db.whitelist := db.whitelist[e := updated];
    if standing == Some(Blocked) {
      var _ := Enforce(db, updated.kakaoId, scan);
    } else if standing.Some? && existing.standing.Blocked? {
      Restore(db, updated.kakaoId);
    }
    r := Ok(updated);
  }

  method AdminRemoveEntry(db: AuthDb, e: EntryId) returns (r: Result<(), Error>)
    modifies db`whitelist
    ensures (db.View(), r) == RemoveEntry(old(db.View()), e)
    ensures e !in db.whitelist && forall i :: i in old(db.whitelist) && i != e ==>
      i in db.whitelist && db.whitelist[i] == old(db.whitelist)[i]
    ensures db.accounts == old(db.accounts) && db.live == old(db.live)
  {
    if e !in db.whitelist { return Err(NotFound); }
    db.whitelist := db.whitelist - {e};
    r := Ok(());
  }

  method ApproveAccessRequest(db: AuthDb, ticket: TicketId, e: EntryId) returns (r: Result<EntryId, Error>)
    requires db.Valid()
    modifies db`whitelist, db`waiting
    ensures (db.View(), r) == Approve(old(db.View()), ticket, e)
  {
    if ticket !in db.waiting { return Err(NotFound); }
    var k := db.waiting[ticket];
    if Listed(db.whitelist, k) {
      var existing :| existing in db.whitelist.Keys && IsEntry(db.whitelist, k, existing);
      if db.whitelist[existing].standing.Blocked? { return Err(Conflict); }
      db.waiting := db.waiting - {ticket};
      return Ok(existing);
    }
    db.whitelist := db.whitelist[e := Entry(Some(k), None, Invited)];
    db.waiting := db.waiting - {ticket};
    r := Ok(e);
  }

  // ------------------------------------------------------------------ the key pattern

  function RefreshKey(a: AccountId, jti: Jti): string {
    "refresh:" + a + ":" + jti
  }

  /** `refresh:{a}:*` */
  predicate Matches(key: string, a: AccountId) {
    ("refresh:" + a + ":") <= key
  }

  /** For generated ids, the pattern of an account matches exactly the keys of that account. */
  lemma PatternIsPerAccount(a: AccountId, b: AccountId, jti: Jti)
    requires ':' !in a && ':' !in b
    ensures Matches(RefreshKey(b, jti), a) <==> a == b
  {
    var p, key := "refresh:" + a + ":", RefreshKey(b, jti);
    if p <= key {
      assert forall i :: 0 <= i < |p| ==> p[i] == key[i];
      assert forall i :: 0 <= i < |a| ==> p[8 + i] == a[i] && a[i] in a;
      assert forall i :: 0 <= i < |b| ==> key[8 + i] == b[i] && b[i] in b;
      assert p[8 + |a|] == ':' && key[8 + |b|] == ':';
      assert |a| == |b|;
      assert a == p[8..8 + |a|] && b == key[8..8 + |b|];
    }
  }
}
