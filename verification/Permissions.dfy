/** Who may do what in a group, and what each request leaves behind, told by the rows alone. */
module Permissions {
  import opened Common
  import opened Domain
  import opened RoomModel
  import opened RoomOps
  import Ownership

  // ------------------------------------------------------------------ the documented rights

  predicate HasRole(members: Members, u: UserId, role: Role) {
    IsActive(members, u) && members[u].role == role
  }

  predicate Manages(members: Members, u: UserId) {
    HasRole(members, u, OWNER) || HasRole(members, u, ADMIN)
  }

  /** Oneself always; all but an owner for the owner; MEMBERs only for an ADMIN. */
  predicate MayRemove(members: Members, actor: UserId, target: UserId) {
    && IsActive(members, actor) && IsActive(members, target)
    && (actor == target
        || (HasRole(members, actor, OWNER) && !HasRole(members, target, OWNER))
        || (HasRole(members, actor, ADMIN) && HasRole(members, target, MEMBER)))
  }

  predicate MaySetRole(members: Members, actor: UserId, target: UserId) {
    HasRole(members, actor, OWNER) && IsActive(members, target) && target != actor
  }

  /** The log has one row more, a SYSTEM message of the actor. */
  predicate ReportsAt(log: MessageLog, log': MessageLog, actor: UserId, payload: Payload, n: nat) {
    && n !in log && n in log' && log' == log[n := log'[n]]
    && log'[n].sender == actor && log'[n].kind == System(payload) && log'[n].deletedAt.None?
  }

  ghost predicate Reports(log: MessageLog, log': MessageLog, actor: UserId, payload: Payload) {
    exists n :: ReportsAt(log, log', actor, payload, n)
  }

  lemma PostReports(s: RoomState, actor: UserId, payload: Payload, id: MessageId, now: nat)
    ensures Reports(s.log, PostSystem(s, actor, payload, id, now).log, actor, payload)
    ensures PostSystem(s, actor, payload, id, now).(log := s.log, counter := s.counter) == s
  {
    var n := NextFree(s.log.Keys, s.counter);
    assert ReportsAt(s.log, PostSystem(s, actor, payload, id, now).log, actor, payload, n);
  }

  // ------------------------------------------------------------------ one request

  /** Leaving and kicking happen exactly as documented, and change the row of the target and of the heir only. */
  lemma RemoveOutcome(s: RoomState, r: Request)
    requires r.op.Remove? && Possible(s, r)
    ensures var members', actor, target := Apply(s, r).members, r.op.actor, r.op.target;
      if MayRemove(s.members, actor, target) then
        && target in members' && members'[target] == s.members[target].(active := false)
        && members'.Keys == s.members.Keys
        && (forall u :: u in s.members && u != target ==>
              members'[u] == s.members[u]
              || (s.members[target].role == OWNER && members'[u] == s.members[u].(role := OWNER)))
        && Apply(s, r).name == s.name && Apply(s, r).avatar == s.avatar
        && Reports(s.log, Apply(s, r).log, actor,
                   if target == actor then MemberLeft(actor) else MemberKicked(actor, target))
      else Apply(s, r) == s
  {
    var actor, target := r.op.actor, r.op.target;
    if MayRemove(s.members, actor, target) {
      var s1 := s.(members := Apply(s, r).members);
      PostReports(s1, actor, if target == actor then MemberLeft(actor) else MemberKicked(actor, target), r.id, r.now);
    }
  }

  /** Only an owner assigns roles, to another active member; a handed-over OWNER leaves the actor ADMIN. */
  lemma RoleOutcome(s: RoomState, r: Request)
    requires r.op.SetRole?
    ensures var members', actor, target := Apply(s, r).members, r.op.actor, r.op.target;
      if MaySetRole(s.members, actor, target) then
        && members'.Keys == s.members.Keys
        && members'[target] == s.members[target].(role := r.op.role)
        && members'[actor] == s.members[actor].(role := if r.op.role == OWNER then ADMIN else OWNER)
        && (forall u :: u in s.members && u != target && u != actor ==> members'[u] == s.members[u])
        && Apply(s, r).name == s.name && Apply(s, r).avatar == s.avatar
        && Reports(s.log, Apply(s, r).log, actor, RoleChanged(actor, target, r.op.role))
      else Apply(s, r) == s
  {
    if MaySetRole(s.members, r.op.actor, r.op.target) {
      var s1 := s.(members := Apply(s, r).members);
      PostReports(s1, r.op.actor, RoleChanged(r.op.actor, r.op.target, r.op.role), r.id, r.now);
    }
  }

  /** Owners and ADMINs add users; each user who was not active has a new stay, everyone else is left alone. */
  lemma AddOutcome(s: RoomState, r: Request)
    requires r.op.Add?
    ensures var members', users := Apply(s, r).members, r.op.users;
      if Manages(s.members, r.op.actor) && r.op.usersOk then
        && members'.Keys == s.members.Keys + ToSet(users)
        && (forall u :: u in users && !IsActive(s.members, u) ==>
              members'[u] == Member(MEMBER, r.op.clock(u), MaxOf(s.log.Keys), true))
        && (forall u :: u in s.members && (u !in users || IsActive(s.members, u)) ==> members'[u] == s.members[u])
        && Apply(s, r).name == s.name && Apply(s, r).avatar == s.avatar
        && (if forall u :: u in users ==> IsActive(s.members, u) then Apply(s, r) == s
            else exists added :: ReportsJoined(s, Apply(s, r), r.op.actor, users, added))
      else Apply(s, r) == s
  {
    var users, added := r.op.users, AddedOf(s.members, r.op.users);
    AddedOfLists(s.members, users);
    if Manages(s.members, r.op.actor) && r.op.usersOk && added != [] {
      assert added[0] in added;
      var s1 := s.(members := Apply(s, r).members);
      PostReports(s1, r.op.actor, MemberJoined(r.op.actor, added), r.id, r.now);
      assert ReportsJoined(s, Apply(s, r), r.op.actor, users, added);
    } else if added == [] {
      assert forall u :: u in users ==> u !in added;
    }
  }

  /** The notice lists exactly the users who were not active, each once. */
  ghost predicate ReportsJoined(s: RoomState, s': RoomState, actor: UserId, users: seq<UserId>, added: seq<UserId>) {
    && Distinct(added) && ToSet(added) == (set u | u in users && !IsActive(s.members, u))
    && Reports(s.log, s'.log, actor, MemberJoined(actor, added))
  }

  ghost predicate ReportsUpdate(s: RoomState, log: MessageLog, s': RoomState, actor: UserId, avatarGiven: bool) {
    && (if s'.name != s.name then Reports(s.log, log, actor, RoomRenamed(actor, s'.name)) else log == s.log)
    && (if avatarGiven then Reports(log, s'.log, actor, AvatarChanged(actor)) else s'.log == log)
  }

  /** Owners and ADMINs rename; a message goes out exactly for a new name and for a given avatar. */
  lemma UpdateOutcome(s: RoomState, r: Request)
    requires r.op.Update?
    ensures var s', name, avatar := Apply(s, r), r.op.name, r.op.avatar;
      if Manages(s.members, r.op.actor) && r.op.mediaError.None? then
        && s'.members == s.members
        && s'.name == (if name.None? then s.name else name.value)
        && s'.avatar == (if avatar.None? then s.avatar else avatar.value)
        && exists log: MessageLog :: ReportsUpdate(s, log, s', r.op.actor, avatar.Some?)
      else s' == s
  {
    var s', name, avatar, actor := Apply(s, r), r.op.name, r.op.avatar, r.op.actor;
    if Manages(s.members, actor) && r.op.mediaError.None? {
      var s1 := s.(name := if name.Some? then name.value else s.name,
                   avatar := if avatar.Some? then avatar.value else s.avatar);
      var s2 := if s1.name != s.name then PostSystem(s1, actor, RoomRenamed(actor, s1.name), r.id, r.now) else s1;
      PostReports(s1, actor, RoomRenamed(actor, s1.name), r.id, r.now);
      PostReports(s2, actor, AvatarChanged(actor), r.id', r.now);
      assert ReportsUpdate(s, s2.log, s', actor, avatar.Some?);
    }
  }

  /** A group starts with its creator as OWNER, the invited as MEMBERs, everyone having read nothing. */
  lemma CreatedOutcome(room: RoomId, creator: UserId, invited: seq<UserId>, name: Option<string>,
                       avatar: Option<string>, clock: UserId -> nat, id: MessageId, now: nat)
    ensures var s := Created(room, creator, invited, name, avatar, clock, id, now);
      && s.members.Keys == {creator} + ToSet(invited)
      && (forall u :: u in s.members ==>
            s.members[u] == Member(if u == creator then OWNER else MEMBER, clock(u), 0, true))
      && s.roomId == room && s.name == name && s.avatar == avatar
      && s.log.Keys == {1} && s.log[1].sender == creator && s.log[1].kind == System(RoomCreated(creator))
  {
    assert ToSet([creator] + invited) == {creator} + ToSet(invited) by {
      assert ([creator] + invited)[0] == creator;
      assert forall u :: u in [creator] + invited <==> u == creator || u in invited;
    }
  }

  // ------------------------------------------------------------------ which error

  /** The answers to refused requests; an absent answer means the request is carried out. */
  lemma RefusalOf(s: RoomState, actor: UserId, target: UserId, usersOk: bool, mediaError: Option<Error>)
    ensures RemoveError(s.members, actor, target) ==
      if MayRemove(s.members, actor, target) then None
      else if IsActive(s.members, actor) && !IsActive(s.members, target) then Some(NotFound)
      else Some(Forbidden)
    ensures RoleChangeError(s, actor, target) ==
      if MaySetRole(s.members, actor, target) then None
      else if !HasRole(s.members, actor, OWNER) then Some(Forbidden)
      else if target == actor then Some(Validation) else Some(NotFound)
    ensures AddError(s, actor, usersOk) == if Manages(s.members, actor) && usersOk then None else Some(Forbidden)
    ensures UpdateError(s, actor, mediaError) == if Manages(s.members, actor) then mediaError else Some(Forbidden)
  {
  }

  // ------------------------------------------------------------------ over runs

  /** Whoever goes out was removed by someone with the right to. */
  lemma GoesOutOnlyByRight(s: RoomState, r: Request, u: UserId)
    requires Possible(s, r) && IsActive(s.members, u) && !IsActive(Apply(s, r).members, u)
    ensures r.op.Remove? && r.op.target == u && MayRemove(s.members, r.op.actor, u)
  {
    match r.op
    case Remove(_, _, _) => RemoveOutcome(s, r);
    case SetRole(_, _, _) => RoleOutcome(s, r);
    case Add(_, _, _, _) => AddOutcome(s, r);
    case Read(_, _) =>
    case _ => Ownership.OthersKeepMembers(s, r);
  }

  /** Whoever comes in was invited by an owner or ADMIN. */
  lemma ComesInOnlyByInvitation(s: RoomState, r: Request, u: UserId)
    requires Possible(s, r) && !IsActive(s.members, u) && IsActive(Apply(s, r).members, u)
    ensures r.op.Add? && u in r.op.users && r.op.usersOk && Manages(s.members, r.op.actor)
  {
    match r.op
    case Remove(_, _, _) => RemoveOutcome(s, r);
    case SetRole(_, _, _) => RoleOutcome(s, r);
    case Add(_, _, _, _) => AddOutcome(s, r);
    case Read(_, _) =>
    case _ => Ownership.OthersKeepMembers(s, r);
  }

  /** In every run, an active owner becomes inactive only at its own request. */
  lemma OwnerLeavesOnlyByItself(states: seq<RoomState>, requests: seq<Request>, i: nat, u: UserId)
    requires IsRun(states, requests) && i < |requests|
    requires HasRole(states[i].members, u, OWNER) && !IsActive(states[i + 1].members, u)
    ensures requests[i].op.Remove? && requests[i].op.actor == u && requests[i].op.target == u
  {
    assert StepAt(states, requests, i);
    GoesOutOnlyByRight(states[i], requests[i], u);
  }

  /** In every run, the role of a member who stays is changed by an owner, or by the departure of one. */
  lemma RolesChangeOnlyByOwners(states: seq<RoomState>, requests: seq<Request>, i: nat, u: UserId)
    requires IsRun(states, requests) && i < |requests|
    requires IsActive(states[i].members, u) && IsActive(states[i + 1].members, u)
    requires states[i].members[u].role != states[i + 1].members[u].role
    ensures || (requests[i].op.SetRole? && HasRole(states[i].members, requests[i].op.actor, OWNER))
            || (requests[i].op.Remove? && HasRole(states[i].members, requests[i].op.target, OWNER)
                && requests[i].op.actor == requests[i].op.target && states[i + 1].members[u].role == OWNER)
  {
    var s, r := states[i], requests[i];
    assert StepAt(states, requests, i);
    match r.op
    case Remove(_, _, _) => RemoveOutcome(s, r);
    case SetRole(_, _, _) => RoleOutcome(s, r);
    case Add(_, _, _, _) => AddOutcome(s, r);
    case Read(_, _) =>
    case _ => Ownership.OthersKeepMembers(s, r);
  }
}
