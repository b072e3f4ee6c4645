/** Who owns a group: one owner while anyone is left, and who comes next. */
module Ownership {
  import opened Common
  import opened Domain
  import opened RoomModel
  import opened RoomOps
  import Replay

  function Owners(members: Members): set<UserId> {
    set u | u in members && members[u].active && members[u].role == OWNER
  }

  predicate OwnedBy(members: Members, o: UserId) {
    Owners(members) == {o}
  }

  /** A group with active members has exactly one active OWNER. */
  ghost predicate SingleOwner(members: Members) {
    ActiveSet(members) != {} ==> exists o :: OwnedBy(members, o)
  }

  /** The owner is an active member; with one owner, any active OWNER is that one. */
  lemma OwnerIs(members: Members, u: UserId)
    requires SingleOwner(members) && IsActive(members, u) && members[u].role == OWNER
    ensures OwnedBy(members, u)
  {
    assert u in ActiveSet(members);
    var o :| OwnedBy(members, o);
    assert u in Owners(members);
  }

  lemma AddKeepsOwner(members: Members, users: seq<UserId>, head: nat, clock: UserId -> nat, actor: UserId)
    requires SingleOwner(members) && IsActive(members, actor)
    ensures SingleOwner(WithAdded(members, ToSet(AddedOf(members, users)), head, clock))
  {
    AddedOfLists(members, users);
    assert actor in ActiveSet(members);
    var o :| OwnedBy(members, o);
    var members' := WithAdded(members, ToSet(AddedOf(members, users)), head, clock);
    assert o in Owners(members);
    forall u ensures u in Owners(members') <==> u == o {
      assert u in Owners(members) <==> u == o;
    }
    assert OwnedBy(members', o);
  }

  lemma RoleChangeKeepsOwner(s: RoomState, actor: UserId, target: UserId, role: Role, id: MessageId, now: nat)
    requires SingleOwner(s.members) && RoleChangeError(s, actor, target).None?
    ensures OwnedBy(RoleChange(s, actor, target, role, id, now).members, if role == OWNER then target else actor)
  {
    OwnerIs(s.members, actor);
    var members' := RoleChange(s, actor, target, role, id, now).members;
    var o := if role == OWNER then target else actor;
    forall u ensures u in Owners(members') <==> u == o {
      assert u in Owners(s.members) <==> u == actor;
    }
  }

  lemma RemoveKeepsOwner(s: RoomState, actor: UserId, target: UserId, heir: Option<UserId>, id: MessageId, now: nat)
    requires SingleOwner(s.members) && RemoveError(s.members, actor, target).None?
    requires s.members[target].role == OWNER ==> IsHeir(Departed(s.members, target), heir)
    ensures SingleOwner(Removed(s, actor, target, heir, id, now).members)
  {
    assert target in ActiveSet(s.members);
    var o :| OwnedBy(s.members, o);
    var members' := Removed(s, actor, target, heir, id, now).members;
    var left := Departed(s.members, target);
    assert forall u :: u in Owners(s.members) <==> u == o;
    if s.members[target].role == OWNER {
      assert target in Owners(s.members) && target == o;
      if heir.Some? {
        forall u ensures u in Owners(members') <==> u == heir.value {
          assert u in Owners(s.members) <==> u == o;
        }
        assert OwnedBy(members', heir.value);
      } else {
        assert members' == left && ActiveSet(left) == {};
      }
    } else {
      forall u ensures u in Owners(members') <==> u == o {
        assert u in Owners(s.members) <==> u == o;
      }
      assert OwnedBy(members', o);
    }
  }

  lemma ReadKeepsOwner(s: RoomState, u: UserId, upTo: int)
    requires SingleOwner(s.members)
    ensures SingleOwner(MarkRead(s, u, upTo).members)
  {
    var members' := MarkRead(s, u, upTo).members;
    assert ActiveSet(members') == ActiveSet(s.members);
    assert Owners(members') == Owners(s.members);
    if ActiveSet(s.members) != {} {
      var o :| OwnedBy(s.members, o);
      assert OwnedBy(members', o);
    }
  }

  /** Posting, deleting, renaming and avatars leave the members alone. */
  lemma OthersKeepMembers(s: RoomState, r: Request)
    requires r.op.Post? || r.op.Delete? || r.op.Update?
    ensures Apply(s, r).members == s.members
  {
  }

  lemma ApplyKeepsOwner(s: RoomState, r: Request)
    requires SingleOwner(s.members) && Possible(s, r)
    ensures SingleOwner(Apply(s, r).members)
  {
    match r.op
    case Post(_, _) => OthersKeepMembers(s, r);
    case Delete(_, _, _) => OthersKeepMembers(s, r);
    case Update(_, _, _, _) => OthersKeepMembers(s, r);
    case Read(u, upTo) => ReadKeepsOwner(s, u, upTo);
    case Add(actor, users, usersOk, clock) =>
      if AddError(s, actor, usersOk).None? {
        AddKeepsOwner(s.members, users, MaxOf(s.log.Keys), clock, actor);
      }
    case SetRole(actor, target, role) =>
      if RoleChangeError(s, actor, target).None? {
        RoleChangeKeepsOwner(s, actor, target, role, r.id, r.now);
        assert OwnedBy(Apply(s, r).members, if role == OWNER then target else actor);
      }
    case Remove(actor, target, heir) =>
      if RemoveError(s.members, actor, target).None? {
        RemoveKeepsOwner(s, actor, target, heir, r.id, r.now);
      }
  }

  lemma FoundersHaveOneOwner(creator: UserId, invited: seq<UserId>, clock: UserId -> nat)
    ensures OwnedBy(Founders(creator, invited, clock), creator)
  {
  }

  /**
   * Over every run of requests on a group, through transfer, departure, kick and return (with the
   * stale OWNER rows of departed members in the table), an inhabited group has exactly one owner.
   */
  lemma {:induction false} OneOwnerAlways(states: seq<RoomState>, requests: seq<Request>, n: nat)
    requires IsRun(states, requests) && n < |states|
    requires SingleOwner(states[0].members)
    ensures SingleOwner(states[n].members)
  {
    if n > 0 {
      OneOwnerAlways(states, requests, n - 1);
      assert StepAt(states, requests, n - 1);
      ApplyKeepsOwner(states[n - 1], requests[n - 1]);
    }
  }

  /** The same for a group from its creation. */
  lemma OneOwnerFromCreation(room: RoomId, creator: UserId, invited: seq<UserId>, name: Option<string>,
                             avatar: Option<string>, clock: UserId -> nat, id: MessageId, now: nat,
                             states: seq<RoomState>, requests: seq<Request>, n: nat)
    requires IsRun(states, requests) && n < |states|
    requires states[0] == Created(room, creator, invited, name, avatar, clock, id, now)
    requires ActiveSet(states[n].members) != {}
    ensures exists o ::
      && IsActive(states[n].members, o) && states[n].members[o].role == OWNER
      && (forall u :: IsActive(states[n].members, u) && states[n].members[u].role == OWNER ==> u == o)
  {
    FoundersHaveOneOwner(creator, invited, clock);
    OneOwnerAlways(states, requests, n);
    var members := states[n].members;
    var o :| OwnedBy(members, o);
    assert o in Owners(members);
    forall u | IsActive(members, u) && members[u].role == OWNER ensures u == o { assert u in Owners(members); }
  }

  lemma EmptyStep(s: RoomState, r: Request)
    requires ActiveSet(s.members) == {} && Possible(s, r)
    ensures Apply(s, r).members == s.members && Apply(s, r).name == s.name && Apply(s, r).avatar == s.avatar
    ensures Apply(s, r).log.Keys == s.log.Keys && Apply(s, r).counter == s.counter
  {
    assert forall u :: IsActive(s.members, u) ==> u in ActiveSet(s.members);
  }

  lemma {:induction false} EmptyRun(states: seq<RoomState>, requests: seq<Request>, m: nat, n: nat)
    requires IsRun(states, requests) && m <= n < |states|
    requires ActiveSet(states[m].members) == {}
    ensures states[n].members == states[m].members && states[n].name == states[m].name
    ensures states[n].avatar == states[m].avatar && states[n].log.Keys == states[m].log.Keys
  {
    if m < n {
      EmptyRun(states, requests, m, n - 1);
      assert StepAt(states, requests, n - 1);
      EmptyStep(states[n - 1], requests[n - 1]);
    }
  }

  /**
   * A group that has become empty stays as it is: nobody can post to it, rename it or enter it. The
   * service lets its former members still unsend what they wrote, and nothing else.
   */
  lemma EmptyForever(states: seq<RoomState>, requests: seq<Request>, m: nat, n: nat)
    requires IsRun(states, requests) && m <= n < |states|
    requires ActiveSet(states[m].members) == {}
    ensures states[n].members == states[m].members && states[n].name == states[m].name
    ensures states[n].avatar == states[m].avatar
    ensures states[n].log.Keys == states[m].log.Keys && Replay.KeepsRows(states[m].log, states[n].log)
  {
    EmptyRun(states, requests, m, n);
    Replay.RowsArePermanent(states, requests, m, n);
  }
}
