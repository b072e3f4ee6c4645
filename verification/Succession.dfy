/** Who inherits a group, and in what order repeated departures of the owner empty it. */
module Succession {
  import opened Common
  import opened Domain
  import opened RoomModel
  import opened RoomOps
  import opened Ownership

  /** The owner asks to leave. */
  ghost predicate OwnerLeaves(s: RoomState, r: Request) {
    && r.op.Remove? && r.op.actor == r.op.target
    && IsActive(s.members, r.op.actor) && s.members[r.op.actor].role == OWNER
  }

  /**
   * When the owner leaves, the new owner is an earliest-joined ADMIN if there is one, else an
   * earliest-joined MEMBER; no other remaining row changes, and nobody inherits an empty group.
   */
  lemma OwnerLeavesTo(s: RoomState, r: Request)
    requires SingleOwner(s.members) && Possible(s, r) && OwnerLeaves(s, r)
    ensures ActiveSet(Apply(s, r).members) == ActiveSet(s.members) - {r.op.actor}
    ensures r.op.heir.None? <==> ActiveSet(s.members) == {r.op.actor}
    ensures r.op.heir.Some? ==>
      var h, members' := r.op.heir.value, Apply(s, r).members;
      && h != r.op.actor && IsActive(s.members, h)
      && OwnedBy(members', h)
      && members'[h] == s.members[h].(role := OWNER)
      && (forall u :: u in s.members && u != h && u != r.op.actor ==> u in members' && members'[u] == s.members[u])
      && (s.members[h].role == ADMIN || s.members[h].role == MEMBER)
      && (forall u :: IsActive(s.members, u) && u != r.op.actor ==>
            (s.members[u].role == ADMIN ==> s.members[h].role == ADMIN)
            && (s.members[u].role == s.members[h].role ==> s.members[h].joinedAt <= s.members[u].joinedAt))
  {
    var o := r.op.actor;
    OwnerIs(s.members, o);
    var left := Departed(s.members, o);
    assert ActiveSet(left) == ActiveSet(s.members) - {o};
    assert o in ActiveSet(s.members);
    var members' := Apply(s, r).members;
    assert ActiveSet(members') == ActiveSet(left);
    forall u | IsActive(s.members, u) && u != o ensures s.members[u].role != OWNER {
      assert u !in Owners(s.members);
    }
    if r.op.heir.Some? {
      var h := r.op.heir.value;
      assert h in ActiveSet(left);
      forall u ensures u in Owners(members') <==> u == h {
        assert u in Owners(s.members) <==> u == o;
      }
      forall u | IsActive(s.members, u) && u != o ensures Precedes(s.members[h], s.members[u]) {
        assert IsActive(left, u);
      }
    }
  }

  /**
   * `o` owns the group, the other members are as in `orig`, and, unless `o` is the first owner, `o`
   * was the most senior of those who are left.
   */
  ghost predicate InLine(orig: Members, members: Members, o: UserId, first: bool) {
    && OwnedBy(members, o) && o in ActiveSet(members)
    && (forall u :: IsActive(members, u) ==> IsActive(orig, u) && (u != o ==> members[u] == orig[u]))
    && (!first ==> forall v :: IsActive(members, v) ==> Precedes(orig[o], orig[v]))
  }

  lemma NextInLine(orig: Members, s: RoomState, o: UserId, first: bool, r: Request)
    requires InLine(orig, s.members, o, first) && Possible(s, r) && OwnerLeaves(s, r)
    ensures r.op.actor == o
    ensures ActiveSet(Apply(s, r).members) == ActiveSet(s.members) - {o}
    ensures ActiveSet(Apply(s, r).members) != {} ==>
      r.op.heir.Some? && InLine(orig, Apply(s, r).members, r.op.heir.value, false)
  {
    assert SingleOwner(s.members);
    OwnerIs(s.members, r.op.actor);
    assert r.op.actor in Owners(s.members);
    OwnerLeavesTo(s, r);
    if r.op.heir.Some? {
      var h, members' := r.op.heir.value, Apply(s, r).members;
      assert h in Owners(members');
      forall u | IsActive(members', u)
        ensures IsActive(s.members, u) && u != o && Precedes(orig[h], orig[u])
      {
        assert u in ActiveSet(members');
        assert IsActive(Departed(s.members, o), u);
      }
    }
  }

  /** Every request is the departure of the owner of the moment. */
  ghost predicate IsExodus(states: seq<RoomState>, requests: seq<Request>) {
    IsRun(states, requests) && forall i :: 0 <= i < |requests| ==> OwnerLeaves(states[i], requests[i])
  }

  lemma {:induction false} ExodusLine(states: seq<RoomState>, requests: seq<Request>, n: nat)
    requires IsExodus(states, requests) && n < |requests| && SingleOwner(states[0].members)
    ensures InLine(states[0].members, states[n].members, requests[n].op.actor, n == 0)
  {
    var orig := states[0].members;
    if n == 0 {
      OwnerIs(orig, requests[0].op.actor);
      assert requests[0].op.actor in ActiveSet(orig);
    } else {
      ExodusLine(states, requests, n - 1);
      assert StepAt(states, requests, n - 1);
      NextInLine(orig, states[n - 1], requests[n - 1].op.actor, n == 1, requests[n - 1]);
      var o := requests[n].op.actor;
      assert o in ActiveSet(states[n].members);
      assert o in Owners(states[n].members);
    }
  }

  lemma ExodusStep(states: seq<RoomState>, requests: seq<Request>, i: nat)
    requires IsExodus(states, requests) && SingleOwner(states[0].members) && i < |requests|
    ensures requests[i].op.actor in ActiveSet(states[i].members)
    ensures ActiveSet(states[i + 1].members) == ActiveSet(states[i].members) - {requests[i].op.actor}
  {
    ExodusLine(states, requests, i);
    assert StepAt(states, requests, i);
    NextInLine(states[0].members, states[i], requests[i].op.actor, i == 0, requests[i]);
  }

  lemma {:induction false} ExodusLeaves(states: seq<RoomState>, requests: seq<Request>, m: nat, n: nat)
    requires IsExodus(states, requests) && SingleOwner(states[0].members) && m <= n <= |requests|
    ensures ActiveSet(states[n].members) <= ActiveSet(states[m].members)
    ensures |ActiveSet(states[n].members)| == |ActiveSet(states[m].members)| - (n - m)
    ensures m < n ==> requests[m].op.actor !in ActiveSet(states[n].members)
  {
    if m < n {
      ExodusLeaves(states, requests, m, n - 1);
      ExodusStep(states, requests, n - 1);
    }
  }

  /**
   * Owners who leave one after the other go, after the first, in order of rank and join time of the
   * original group (ADMINs before MEMBERs, the longest-standing first), no one twice, each before
   * everyone who stays.
   */
  lemma OwnersLeaveInOrder(states: seq<RoomState>, requests: seq<Request>, i: nat, j: nat)
    requires IsExodus(states, requests) && SingleOwner(states[0].members)
    requires i < j < |requests|
    ensures requests[i].op.actor != requests[j].op.actor
    ensures i > 0 ==>
      var orig := states[0].members;
      && requests[i].op.actor in orig && requests[j].op.actor in orig
      && Precedes(orig[requests[i].op.actor], orig[requests[j].op.actor])
  {
    ExodusLine(states, requests, i);
    ExodusLine(states, requests, j);
    ExodusLeaves(states, requests, i, j);
    assert requests[j].op.actor in ActiveSet(states[j].members);
  }

  /**
   * Each such departure leaves one member fewer, so there are at most as many as there were members,
   * and exactly that many leave the group empty.
   */
  lemma OwnersLeaveGroupEmpty(states: seq<RoomState>, requests: seq<Request>)
    requires IsExodus(states, requests) && SingleOwner(states[0].members)
    ensures |ActiveSet(states[|requests|].members)| == |ActiveSet(states[0].members)| - |requests|
    ensures ActiveSet(states[|requests|].members) == {} <==> |requests| == |ActiveSet(states[0].members)|
  {
    ExodusLeaves(states, requests, 0, |requests|);
  }
}
