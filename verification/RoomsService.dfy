/** `RoomsService` for groups, one request at a time. */
module RoomsService {
  import opened Common
  import opened Domain
  import opened RoomModel
  import opened RoomDb
  import opened MessagesService
  import opened RoomOps

  method CreateGroup(room: RoomId, creator: UserId, invited: seq<UserId>, usersOk: bool, mediaError: Option<Error>,
                     name: Option<string>, avatar: Option<string>, clock: UserId -> nat, id: MessageId, now: nat)
    returns (r: Result<Db, Error>)
    requires id != ""
    ensures !usersOk ==> r == Err(Forbidden)
    ensures usersOk && mediaError.Some? ==> r == Err(mediaError.value)
    ensures usersOk && mediaError.None? ==>
      && r.Ok? && fresh(r.value) && r.value.Valid()
      && r.value.State() == Created(room, creator, invited, name, avatar, clock, id, now)
  {
    if !usersOk { return Err(Forbidden); }
    if mediaError.Some? { return Err(mediaError.value); }
    var db := new Db(room, name, avatar, Founders(creator, invited, clock));
    CreateSystemMessage(db, creator, RoomCreated(creator), id, now);
    r := Ok(db);
  }

  method RequireRole(db: Db, actor: UserId, allowed: set<Role>) returns (error: Option<Error>)
    ensures error == RoleError(db.members, actor, allowed)
  {
    if !IsActive(db.members, actor) { return Some(Forbidden); }
    error := if db.members[actor].role in allowed then None else Some(Forbidden);
  }

  method UpdateRoom(db: Db, actor: UserId, name: Option<Option<string>>, avatar: Option<Option<string>>,
                    mediaError: Option<Error>, id: MessageId, id': MessageId, now: nat)
    returns (error: Option<Error>)
    requires db.Valid() && id != "" && id' != "" && id != id' && !IdUsed(db.log, id) && !IdUsed(db.log, id')
    modifies db
    ensures db.Valid() && error == UpdateError(old(db.State()), actor, mediaError)
    ensures db.State() == if error.Some? then old(db.State())
                          else Updated(old(db.State()), actor, name, avatar, id, id', now)
  {
    error := RequireRole(db, actor, {OWNER, ADMIN});
    if error.Some? { return; }
    if mediaError.Some? { return mediaError; }
    var before := db.name;
    if name.Some? { db.name := name.value; }
    if avatar.Some? { db.avatar := avatar.value; }
    if name.Some? && name.value != before {
      CreateSystemMessage(db, actor, RoomRenamed(actor, name.value), id, now);
    }
    if avatar.Some? {
      CreateSystemMessage(db, actor, AvatarChanged(actor), id', now);
    }
  }

  lemma OneMoreUser(existing: Members, users: seq<UserId>, i: nat, head: nat, clock: UserId -> nat)
    requires i < |users|
    ensures var added, u := AddedOf(existing, users[..i]), users[i];
      if IsActive(existing, u) || u in added then AddedOf(existing, users[..i + 1]) == added
      else
        && AddedOf(existing, users[..i + 1]) == added + [u]
        && WithAdded(existing, ToSet(added + [u]), head, clock)
             == WithAdded(existing, ToSet(added), head, clock)[u := Member(MEMBER, clock(u), head, true)]
  {
    assert users[..i + 1][..i] == users[..i];
    var added := AddedOf(existing, users[..i]);
    assert ToSet(added + [users[i]]) == ToSet(added) + {users[i]};
  }

  method AddMembers(db: Db, actor: UserId, users: seq<UserId>, usersOk: bool, clock: UserId -> nat,
                    id: MessageId, now: nat)
    returns (error: Option<Error>)
    requires db.Valid() && id != "" && !IdUsed(db.log, id)
    modifies db
    ensures db.Valid() && error == AddError(old(db.State()), actor, usersOk)
    ensures db.State() == if error.Some? then old(db.State())
                          else Added(old(db.State()), actor, users, clock, id, now)
  {
    error := RequireRole(db, actor, {OWNER, ADMIN});
    if error.Some? { return; }
    if !usersOk { return Some(Forbidden); }
    var head := db.MaxSeq();
    var existing := db.members;
    var actuallyAdded: seq<UserId> := [];
    for i := 0 to |users|
      invariant actuallyAdded == AddedOf(existing, users[..i])
      invariant db.members == WithAdded(existing, ToSet(actuallyAdded), head, clock)
      invariant db.State() == old(db.State()).(members := db.members)
    {
      var u := users[i];
      OneMoreUser(existing, users, i, head, clock);
      if IsActive(existing, u) || u in actuallyAdded { continue; }
      if u in existing {
        db.members := db.members[u :=
          db.members[u].(active := true, role := MEMBER, joinedAt := clock(u), lastReadSeq := head)];
      } else {
        db.members := db.members[u := Member(MEMBER, clock(u), head, true)];
      }
      actuallyAdded := actuallyAdded + [u];
    }
    assert users[..|users|] == users;
    if |actuallyAdded| > 0 {
      CreateSystemMessage(db, actor, MemberJoined(actor, actuallyAdded), id, now);
    } else {
      assert db.members == existing;
    }
  }

  method UpdateMemberRole(db: Db, actor: UserId, target: UserId, role: Role, id: MessageId, now: nat)
    returns (error: Option<Error>)
    requires db.Valid() && id != "" && !IdUsed(db.log, id)
    modifies db
    ensures db.Valid() && error == RoleChangeError(old(db.State()), actor, target)
    ensures db.State() == if error.Some? then old(db.State())
                          else RoleChange(old(db.State()), actor, target, role, id, now)
  {
    error := RequireRole(db, actor, {OWNER});
    if error.Some? { return; }
    if !IsActive(db.members, target) { return Some(NotFound); }
    if target == actor { return Some(Validation); }
    db.members := db.members[target := db.members[target].(role := role)];
    if role == OWNER {
      db.members := db.members[actor := db.members[actor].(role := ADMIN)];
    }
    CreateSystemMessage(db, actor, RoleChanged(actor, target, role), id, now);
  }

  /** The role order of the database enum. */
  function EnumOrder(role: Role): nat {
    match role case OWNER => 0 case ADMIN => 1 case MEMBER => 2
  }

  /** An answer to `findMany({ where: { leftAt: null }, orderBy: [role, joinedAt] })`. */
  ghost predicate Ordered(members: Members, list: seq<UserId>) {
    && (forall i :: 0 <= i < |list| ==> IsActive(members, list[i]))
    && (forall u :: IsActive(members, u) ==> u in list)
    && (forall i, j :: 0 <= i < j < |list| ==>
          var a, b := members[list[i]], members[list[j]];
          EnumOrder(a.role) < EnumOrder(b.role) || (a.role == b.role && a.joinedAt <= b.joinedAt))
  }

  /** The first ADMIN of the ordered list, else its first entry, is a most senior member. */
  method TransferOwnership(db: Db, candidates: seq<UserId>) returns (heir: Option<UserId>)
    requires Ordered(db.members, candidates)
    modifies db`members
    ensures IsHeir(old(db.members), heir)
    ensures db.members == Inherited(old(db.members), heir)
  {
    var i := 0;
    while i < |candidates| && db.members[candidates[i]].role != ADMIN
      invariant 0 <= i <= |candidates|
      invariant forall k :: 0 <= k < i ==> db.members[candidates[k]].role != ADMIN
    {
      i := i + 1;
    }
    if |candidates| == 0 {
      assert forall u :: u in ActiveSet(db.members) ==> u in candidates;
      return None;
    }
    var next := if i < |candidates| then candidates[i] else candidates[0];
    HeirFromList(db.members, candidates, i);
    db.members := db.members[next := db.members[next].(role := OWNER)];
    heir := Some(next);
  }

  lemma HeirFromList(members: Members, list: seq<UserId>, i: nat)
    requires Ordered(members, list) && list != [] && i <= |list|
    requires forall k :: 0 <= k < i ==> list[k] in members && members[list[k]].role != ADMIN
    requires i < |list| ==> list[i] in members && members[list[i]].role == ADMIN
    ensures MostSenior(members, if i < |list| then list[i] else list[0])
  {
    var n := if i < |list| then i else 0;
    forall v | IsActive(members, v) ensures Precedes(members[list[n]], members[v]) {
      assert v in list;
      var k :| 0 <= k < |list| && list[k] == v;
      assert list[n] in list;
    }
  }

  method RemoveMember(db: Db, actor: UserId, target: UserId, candidates: seq<UserId>, id: MessageId, now: nat)
    returns (error: Option<Error>, heir: Option<UserId>)
    requires db.Valid() && id != "" && !IdUsed(db.log, id)
    requires target in db.members ==> Ordered(Departed(db.members, target), candidates)
    modifies db
    ensures db.Valid() && error == RemoveError(old(db.members), actor, target)
    ensures error.None? && old(db.members)[target].role == OWNER ==> IsHeir(Departed(old(db.members), target), heir)
    ensures db.State() == if error.Some? then old(db.State())
                          else Removed(old(db.State()), actor, target, heir, id, now)
  {
    heir := None;
    if !IsActive(db.members, actor) { return Some(Forbidden), None; }
    if !IsActive(db.members, target) { return Some(NotFound), None; }
    var actorRole, row := db.members[actor].role, db.members[target];
    var isSelf := target == actor;
    if !isSelf {
      if actorRole == MEMBER { return Some(Forbidden), None; }
      if row.role == OWNER { return Some(Forbidden), None; }
      if actorRole == ADMIN && row.role == ADMIN { return Some(Forbidden), None; }
    }
    error := None;
    db.members := db.members[target := row.(active := false)];
    if row.role == OWNER {
      heir := TransferOwnership(db, candidates);
    }
    CreateSystemMessage(db, actor, if isSelf then MemberLeft(actor) else MemberKicked(actor, target), id, now);
  }
}
