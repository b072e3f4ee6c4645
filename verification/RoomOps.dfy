/** Group operations of `RoomsService` as functions on the state of one group. */
module RoomOps {
  import opened Common
  import opened Domain
  import opened RoomModel

  // ------------------------------------------------------------------ creation

  function ToSet<T(==)>(s: seq<T>): set<T> {
    set x | x in s
  }

  /** The member rows of a new group; `clock` is the join time the database gives each row. */
  function Founders(creator: UserId, invited: seq<UserId>, clock: UserId -> nat): Members {
    map u | u in ToSet([creator] + invited) :: Member(if u == creator then OWNER else MEMBER, clock(u), 0, true)
  }

  ghost function Created(room: RoomId, creator: UserId, invited: seq<UserId>, name: Option<string>,
                         avatar: Option<string>, clock: UserId -> nat, id: MessageId, now: nat): RoomState
  {
    PostSystem(RoomState(room, name, avatar, Founders(creator, invited, clock), map[], None),
               creator, RoomCreated(creator), id, now)
  }

  // ------------------------------------------------------------------ operations

  /** The guard for active members, then the role check of the operation. */
  function RoleError(members: Members, actor: UserId, allowed: set<Role>): Option<Error> {
    if IsActive(members, actor) && members[actor].role in allowed then None else Some(Forbidden)
  }

  /** PATCH /rooms/:id. `None` is an absent field; a present name or avatar may be null. */
  function UpdateError(s: RoomState, actor: UserId, mediaError: Option<Error>): Option<Error> {
    if RoleError(s.members, actor, {OWNER, ADMIN}).Some? then Some(Forbidden) else mediaError
  }

  ghost function Updated(s: RoomState, actor: UserId, name: Option<Option<string>>, avatar: Option<Option<string>>,
                         id: MessageId, id': MessageId, now: nat): RoomState
  {
    var s1 := s.(name := if name.Some? then name.value else s.name,
                 avatar := if avatar.Some? then avatar.value else s.avatar);
    var s2 := if name.Some? && name.value != s.name
              then PostSystem(s1, actor, RoomRenamed(actor, name.value), id, now) else s1;
    if avatar.Some? then PostSystem(s2, actor, AvatarChanged(actor), id', now) else s2
  }

  /** The users an invitation really adds, in order, without repetitions. */
  function AddedOf(members: Members, users: seq<UserId>): seq<UserId> {
    if users == [] then [] else
      var added := AddedOf(members, users[..|users| - 1]);
      var u := users[|users| - 1];
      if IsActive(members, u) || u in added then added else added + [u]
  }

  /** Added members join as MEMBER, read up to `head`, whatever row they left behind. */
  function WithAdded(members: Members, added: set<UserId>, head: nat, clock: UserId -> nat): Members {
    map u | u in members.Keys + added ::
      if u in added then Member(MEMBER, clock(u), head, true) else members[u]
  }

  function AddError(s: RoomState, actor: UserId, usersOk: bool): Option<Error> {
    if RoleError(s.members, actor, {OWNER, ADMIN}).Some? || !usersOk then Some(Forbidden) else None
  }

  ghost function Added(s: RoomState, actor: UserId, users: seq<UserId>, clock: UserId -> nat,
                       id: MessageId, now: nat): RoomState
  {
    var added := AddedOf(s.members, users);
    if added == [] then s else
      PostSystem(s.(members := WithAdded(s.members, ToSet(added), MaxOf(s.log.Keys), clock)),
                 actor, MemberJoined(actor, added), id, now)
  }

  function RoleChangeError(s: RoomState, actor: UserId, target: UserId): Option<Error> {
    if RoleError(s.members, actor, {OWNER}).Some? then Some(Forbidden)
    else if !IsActive(s.members, target) then Some(NotFound)
    else if target == actor then Some(Validation)
    else None
  }

  /** Handing over OWNER demotes the actor. */
  ghost function RoleChange(s: RoomState, actor: UserId, target: UserId, role: Role, id: MessageId, now: nat): RoomState
    requires actor in s.members && target in s.members
  {
    var m1 := s.members[target := s.members[target].(role := role)];
    var m2 := if role == OWNER then m1[actor := m1[actor].(role := ADMIN)] else m1;
    PostSystem(s.(members := m2), actor, RoleChanged(actor, target, role), id, now)
  }

  function RemoveError(members: Members, actor: UserId, target: UserId): Option<Error> {
    if !IsActive(members, actor) then Some(Forbidden)
    else if !IsActive(members, target) then Some(NotFound)
    else if target == actor then None
    else if members[actor].role == MEMBER || members[target].role == OWNER then Some(Forbidden)
    else if members[actor].role == ADMIN && members[target].role == ADMIN then Some(Forbidden)
    else None
  }

  /** ADMIN first; the enum order decides between the other two. */
  function Rank(role: Role): nat {
    match role case ADMIN => 0 case OWNER => 1 case MEMBER => 2
  }

  predicate Precedes(a: Member, b: Member) {
    Rank(a.role) < Rank(b.role) || (Rank(a.role) == Rank(b.role) && a.joinedAt <= b.joinedAt)
  }

  /** A most senior active member; the database decides between equal join times. */
  ghost predicate MostSenior(members: Members, u: UserId) {
    IsActive(members, u) && forall v :: IsActive(members, v) ==> Precedes(members[u], members[v])
  }

  ghost predicate IsHeir(members: Members, heir: Option<UserId>) {
    match heir
    case None => ActiveSet(members) == {}
    case Some(u) => MostSenior(members, u)
  }

  function Departed(members: Members, target: UserId): Members
    requires target in members
  {
    members[target := members[target].(active := false)]
  }

  function Inherited(members: Members, heir: Option<UserId>): Members {
    if heir.Some? && heir.value in members then
      members[heir.value := members[heir.value].(role := OWNER)]
    else members
  }

  ghost function Removed(s: RoomState, actor: UserId, target: UserId, heir: Option<UserId>,
                         id: MessageId, now: nat): RoomState
    requires target in s.members
  {
    var left := Departed(s.members, target);
    var members := if s.members[target].role == OWNER then Inherited(left, heir) else left;
    PostSystem(s.(members := members), actor,
               if target == actor then MemberLeft(actor) else MemberKicked(actor, target), id, now)
  }

  // ------------------------------------------------------------------ requests and runs

  datatype Op =
    | Post(p: Params, ownsMedia: Result<bool, Error>)
    | Read(user: UserId, upTo: int)
    | Delete(message: MessageId, requester: UserId, windowSec: nat)
    | Update(actor: UserId, name: Option<Option<string>>, avatar: Option<Option<string>>, mediaError: Option<Error>)
    | Add(actor: UserId, users: seq<UserId>, usersOk: bool, clock: UserId -> nat)
    | SetRole(actor: UserId, target: UserId, role: Role)
    | Remove(actor: UserId, target: UserId, heir: Option<UserId>)

  /** One request: the operation, the ids its messages will get and the time. */
  datatype Request = Request(op: Op, id: MessageId, id': MessageId, now: nat)

  ghost function Apply(s: RoomState, r: Request): RoomState {
    match r.op
    case Post(p, ownsMedia) => Send(s, p, r.id, r.now, ownsMedia).0
    case Read(u, upTo) => MarkRead(s, u, upTo)
    case Delete(m, requester, windowSec) => SoftDelete(s, m, requester, r.now, windowSec).0
    case Update(actor, name, avatar, mediaError) =>
      if UpdateError(s, actor, mediaError).Some? then s else Updated(s, actor, name, avatar, r.id, r.id', r.now)
    case Add(actor, users, usersOk, clock) =>
      if AddError(s, actor, usersOk).Some? then s else Added(s, actor, users, clock, r.id, r.now)
    case SetRole(actor, target, role) =>
      if RoleChangeError(s, actor, target).Some? then s else RoleChange(s, actor, target, role, r.id, r.now)
    case Remove(actor, target, heir) =>
      if RemoveError(s.members, actor, target).Some? then s else Removed(s, actor, target, heir, r.id, r.now)
  }

  /** What the database adds to a request: fresh ids, and an heir it would list first. */
  ghost predicate Possible(s: RoomState, r: Request) {
    && r.id != r.id' && r.id != "" && r.id' != "" && !IdUsed(s.log, r.id) && !IdUsed(s.log, r.id')
    && (r.op.Post? ==> r.op.p.roomId == s.roomId && !r.op.p.isSystem)
    && (r.op.Remove? && RemoveError(s.members, r.op.actor, r.op.target).None?
        && s.members[r.op.target].role == OWNER ==>
          IsHeir(Departed(s.members, r.op.target), r.op.heir))
  }

  /** Request `i` is possible and leads to the next state. */
  ghost predicate StepAt(states: seq<RoomState>, requests: seq<Request>, i: nat)
    requires i < |requests| && |states| == |requests| + 1
  {
    Possible(states[i], requests[i]) && states[i + 1] == Apply(states[i], requests[i])
  }

  ghost predicate IsRun(states: seq<RoomState>, requests: seq<Request>) {
    && |states| == |requests| + 1
    && forall i :: 0 <= i < |requests| ==> StepAt(states, requests, i)
  }

  // ------------------------------------------------------------------ what AddedOf lists

  predicate Distinct<T(==)>(s: seq<T>) {
    forall i, j :: 0 <= i < j < |s| ==> s[i] != s[j]
  }

  /** Exactly the invited users who were not active, each once. */
  lemma {:induction false} AddedOfLists(members: Members, users: seq<UserId>)
    ensures forall u :: u in AddedOf(members, users) <==> u in users && !IsActive(members, u)
    ensures Distinct(AddedOf(members, users))
  {
    if users != [] {
      var n := |users| - 1;
      AddedOfLists(members, users[..n]);
      assert users == users[..n] + [users[n]];
      var added := AddedOf(members, users[..n]);
      if users[n] !in added {
        assert forall i :: 0 <= i < |added| ==> added[i] != users[n];
        assert Distinct(added + [users[n]]);
      }
    }
  }
}
