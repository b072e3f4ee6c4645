/** Whitelist, accounts and refresh tokens: the requests of the auth and admin services as functions. */
module Sessions {
  import opened Common

  type KakaoId = string
  type EntryId = string
  type AccountId = string
  type TicketId = string
  type Jti = string

  datatype Standing = Invited | Admitted | Blocked

  datatype Status = Active | Suspended | Deleted

  datatype Entry = Entry(kakaoId: Option<KakaoId>, identifier: Option<string>, standing: Standing)

  datatype Account = Account(kakaoId: KakaoId, status: Status)

  /** A verified refresh token; in Redis, the key `refresh:{sub}:{jti}`. */
  datatype Token = Token(sub: AccountId, jti: Jti)

  /** `waiting` is the AccessRequest queue; `issued` a history variable. */
  datatype State = State(
    whitelist: map<EntryId, Entry>,
    accounts: map<AccountId, Account>,
    waiting: map<TicketId, KakaoId>,
    live: set<Token>,
    issued: set<Token>)

  // ------------------------------------------------------------------ queries

  /** The unique constraints on kakaoId. */
  ghost predicate DbOk(s: State) {
    && (forall i, j | i in s.whitelist && j in s.whitelist && s.whitelist[i].kakaoId.Some? ::
          s.whitelist[i].kakaoId == s.whitelist[j].kakaoId ==> i == j)
    && (forall a, b | a in s.accounts && b in s.accounts :: s.accounts[a].kakaoId == s.accounts[b].kakaoId ==> a == b)
    && (forall a, b | a in s.waiting && b in s.waiting :: s.waiting[a] == s.waiting[b] ==> a == b)
    && s.live <= s.issued
  }

  predicate IsEntry(whitelist: map<EntryId, Entry>, k: KakaoId, e: EntryId) {
    e in whitelist && whitelist[e].kakaoId == Some(k)
  }

  predicate Listed(whitelist: map<EntryId, Entry>, k: KakaoId) {
    exists e :: e in whitelist.Keys && IsEntry(whitelist, k, e)
  }

  ghost function EntryOf(whitelist: map<EntryId, Entry>, k: KakaoId): (e: EntryId)
    requires Listed(whitelist, k)
    ensures IsEntry(whitelist, k, e)
  {
    var e :| e in whitelist.Keys && IsEntry(whitelist, k, e);
    e
  }

  predicate IsAccount(accounts: map<AccountId, Account>, k: KakaoId, a: AccountId) {
    a in accounts && accounts[a].kakaoId == k
  }

  predicate Known(accounts: map<AccountId, Account>, k: KakaoId) {
    exists a :: a in accounts.Keys && IsAccount(accounts, k, a)
  }

  ghost function AccountOf(accounts: map<AccountId, Account>, k: KakaoId): (a: AccountId)
    requires Known(accounts, k)
    ensures IsAccount(accounts, k, a)
  {
    var a :| a in accounts.Keys && IsAccount(accounts, k, a);
    a
  }

  predicate Waits(waiting: map<TicketId, KakaoId>, k: KakaoId) {
    exists t :: t in waiting.Keys && waiting[t] == k
  }

  function TokensOf(live: set<Token>, a: AccountId): set<Token> {
    set t | t in live && t.sub == a
  }

  predicate Truthy(x: Option<string>) {
    x.Some? && x.value != ""
  }

  // ------------------------------------------------------------------ AuthService

  function Issue(s: State, a: AccountId, jti: Jti): State {
    s.(live := s.live + {Token(a, jti)}, issued := s.issued + {Token(a, jti)})
  }

  function RevokeAll(s: State, a: AccountId): State {
    s.(live := s.live - TokensOf(s.live, a))
  }

  /** Login of the Kakao member `k`; `a`, `jti` and `ticket` are the ids generated if needed. */
  ghost function Login(s: State, k: KakaoId, a: AccountId, jti: Jti, ticket: TicketId): (State, Result<Token, Error>) {
    if !Listed(s.whitelist, k) then
      (if Waits(s.waiting, k) then s else s.(waiting := s.waiting[ticket := k]), Err(Forbidden))
    else
      var e := EntryOf(s.whitelist, k);
      if s.whitelist[e].standing.Blocked? then (s, Err(Forbidden)) else
        var account := if Known(s.accounts, k) then AccountOf(s.accounts, k) else a;
        var s1 := s.(
          accounts := s.accounts[account := Account(k, Active)],
          whitelist := if s.whitelist[e].standing.Invited?
                       then s.whitelist[e := s.whitelist[e].(standing := Admitted)] else s.whitelist);
        (Issue(s1, account, jti), Ok(Token(account, jti)))
  }

  /** The account check of refresh, of every HTTP request and of the socket handshake. */
  predicate Validates(s: State, a: AccountId) {
    a in s.accounts && s.accounts[a].status.Active?
  }

  /** `presented` is `None` for a token that does not verify. */
  function Refresh(s: State, presented: Option<Token>, jti: Jti): (State, Result<Token, Error>) {
    if presented.None? then (s, Err(Unauthorized)) else
      var t := presented.value;
      if t !in s.live || !Validates(s, t.sub) then (RevokeAll(s, t.sub), Err(Unauthorized))
      else (Issue(s.(live := s.live - {t}), t.sub, jti), Ok(Token(t.sub, jti)))
  }

  function Logout(s: State, presented: Option<Token>): State {
    if presented.None? then s else s.(live := s.live - {presented.value})
  }

  // ------------------------------------------------------------------ AdminService

  function CreateEntry(s: State, kakaoId: Option<KakaoId>, identifier: Option<string>, e: EntryId)
    : (State, Result<EntryId, Error>)
  {
    if !Truthy(kakaoId) && !Truthy(identifier) then (s, Err(Validation))
    else if Truthy(kakaoId) && Listed(s.whitelist, kakaoId.value) then (s, Err(Conflict))
    else if kakaoId.Some? && Listed(s.whitelist, kakaoId.value) then (s, Err(Internal))  // unique constraint
    else (s.(whitelist := s.whitelist[e := Entry(kakaoId, identifier, Invited)]), Ok(e))
  }

  /** Suspend the linked account, whatever its status, and revoke its refresh tokens. */
  ghost function EnforceBlock(s: State, kakaoId: Option<KakaoId>): State {
    if !Truthy(kakaoId) || !Known(s.accounts, kakaoId.value) then s else
      var a := AccountOf(s.accounts, kakaoId.value);
      RevokeAll(s.(accounts := s.accounts[a := s.accounts[a].(status := Suspended)]), a)
  }

  ghost function Reactivate(s: State, kakaoId: Option<KakaoId>): State {
    if !Truthy(kakaoId) || !Known(s.accounts, kakaoId.value) then s else
      var a := AccountOf(s.accounts, kakaoId.value);
      if s.accounts[a].status.Suspended? then
        s.(accounts := s.accounts[a := s.accounts[a].(status := Active)])
      else s
  }

  ghost function UpdateEntry(s: State, e: EntryId, standing: Option<Standing>): (State, Result<Entry, Error>) {
    if e !in s.whitelist then (s, Err(NotFound)) else
      var before := s.whitelist[e];
      var after := if standing.Some? then before.(standing := standing.value) else before;
      var s1 := s.(whitelist := s.whitelist[e := after]);
      var s2 := if standing == Some(Blocked) then EnforceBlock(s1, after.kakaoId)
                else if standing.Some? && before.standing.Blocked? then Reactivate(s1, after.kakaoId)
                else s1;
      (s2, Ok(after))
  }

  function RemoveEntry(s: State, e: EntryId): (State, Result<(), Error>) {
    if e !in s.whitelist then (s, Err(NotFound)) else (s.(whitelist := s.whitelist - {e}), Ok(()))
  }

  ghost function Approve(s: State, ticket: TicketId, e: EntryId): (State, Result<EntryId, Error>) {
    if ticket !in s.waiting then (s, Err(NotFound)) else
      var k := s.waiting[ticket];
      if Listed(s.whitelist, k) then
        var existing := EntryOf(s.whitelist, k);
        if s.whitelist[existing].standing.Blocked? then (s, Err(Conflict))
        else (s.(waiting := s.waiting - {ticket}), Ok(existing))
      else
        (s.(whitelist := s.whitelist[e := Entry(Some(k), None, Invited)], waiting := s.waiting - {ticket}), Ok(e))
  }

  function Dismiss(s: State, ticket: TicketId): (State, Result<(), Error>) {
    if ticket !in s.waiting then (s, Err(NotFound)) else (s.(waiting := s.waiting - {ticket}), Ok(()))
  }

  /** One id of WHITELIST_BOOTSTRAP_KAKAO_IDS at boot. */
  function Seed(s: State, k: KakaoId, e: EntryId): State {
    if Listed(s.whitelist, k) then s else s.(whitelist := s.whitelist[e := Entry(Some(k), None, Invited)])
  }

  // ------------------------------------------------------------------ requests and runs

  datatype Request =
    | LoginAs(kakaoId: KakaoId, account: AccountId, jti: Jti, ticket: TicketId)
    | RefreshWith(presented: Option<Token>, jti: Jti)
    | LogoutWith(presented: Option<Token>)
    | AdminCreate(kakao: Option<KakaoId>, identifier: Option<string>, entry: EntryId)
    | AdminUpdate(entry: EntryId, standing: Option<Standing>)
    | AdminRemove(entry: EntryId)
    | AdminApprove(ticket: TicketId, entry: EntryId)
    | AdminDismiss(ticket: TicketId)
    | Boot(kakaoId: KakaoId, entry: EntryId)
    | Expire(token: Token)

  ghost function Apply(s: State, r: Request): State {
    match r
    case LoginAs(k, a, jti, ticket) => Login(s, k, a, jti, ticket).0
    case RefreshWith(t, jti) => Refresh(s, t, jti).0
    case LogoutWith(t) => Logout(s, t)
    case AdminCreate(k, i, e) => CreateEntry(s, k, i, e).0
    case AdminUpdate(e, standing) => UpdateEntry(s, e, standing).0
    case AdminRemove(e) => RemoveEntry(s, e).0
    case AdminApprove(t, e) => Approve(s, t, e).0
    case AdminDismiss(t) => Dismiss(s, t).0
    case Boot(k, e) => Seed(s, k, e)
    case Expire(t) => s.(live := s.live - {t})
  }

  predicate FreshJti(s: State, jti: Jti) {
    forall t :: t in s.issued ==> t.jti != jti
  }

  /** Generated ids are new; a token that verifies was issued here. */
  predicate Possible(s: State, r: Request) {
    match r
    case LoginAs(_, a, jti, ticket) => a !in s.accounts && FreshJti(s, jti) && ticket !in s.waiting
    case RefreshWith(t, jti) => FreshJti(s, jti) && (t.Some? ==> t.value in s.issued)
    case LogoutWith(t) => t.Some? ==> t.value in s.issued
    case AdminCreate(_, _, e) => e !in s.whitelist
    case AdminApprove(_, e) => e !in s.whitelist
    case Boot(_, e) => e !in s.whitelist
    case _ => true
  }

  /** Request `i` is possible and leads to the next state. */
  ghost predicate StepAt(states: seq<State>, requests: seq<Request>, i: nat)
    requires i < |requests| && |states| == |requests| + 1
  {
    Possible(states[i], requests[i]) && states[i + 1] == Apply(states[i], requests[i])
  }

  ghost predicate IsRun(states: seq<State>, requests: seq<Request>) {
    && |states| == |requests| + 1
    && forall i :: 0 <= i < |requests| ==> StepAt(states, requests, i)
  }
}
