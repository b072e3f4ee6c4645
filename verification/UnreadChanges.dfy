/** How each request changes unread counts, and where read positions end up. */
module UnreadChanges {
  import opened Common
  import opened Domain
  import opened RoomModel
  import opened RoomOps
  import opened Replay

  function UnreadOf(s: RoomState, u: UserId): set<nat>
    requires u in s.members
  {
    Unread(s.log, u, s.members[u].lastReadSeq)
  }

  lemma UnreadAppend(log: MessageLog, n: nat, m: Message, u: UserId, lastReadSeq: int)
    requires n !in log && m.deletedAt.None?
    ensures Unread(log[n := m], u, lastReadSeq) ==
      (if u != m.sender && lastReadSeq < n then Unread(log, u, lastReadSeq) + {n} else Unread(log, u, lastReadSeq))
  {
  }

  /** Other active or departed members whose read position is below `n`. */
  predicate StillBelow(members: Members, u: UserId, sender: UserId, n: nat)
    requires u in members
  {
    u != sender && members[u].lastReadSeq < n
  }

  /**
   * A new message under number `n` is one more unread message for precisely the other members whose
   * read position is below `n` (a position may be ahead of the log).
   */
  lemma PostUnread(s: RoomState, p: Params, id: MessageId, now: nat, u: UserId)
    requires u in s.members
    ensures var n, s' := NextFree(s.log.Keys, s.counter), Posted(s, p, id, now);
      && n !in UnreadOf(s, u)
      && UnreadOf(s', u) == (if StillBelow(s.members, u, p.sender, n) then UnreadOf(s, u) + {n} else UnreadOf(s, u))
      && |UnreadOf(s', u)| == |UnreadOf(s, u)| + (if StillBelow(s.members, u, p.sender, n) then 1 else 0)
  {
    var n := NextFree(s.log.Keys, s.counter);
    UnreadAppend(s.log, n, RowOf(p, id, n, now), u, s.members[u].lastReadSeq);
  }

  /** An unsend takes one off for precisely the members who had the message unread. */
  lemma UnsendUnread(s: RoomState, id: MessageId, requester: UserId, now: nat, windowSec: nat, u: UserId)
    requires LogOk(s.log, s.roomId) && u in s.members
    requires SoftDelete(s, id, requester, now, windowSec).1 == Ok(true)
    ensures IdUsed(s.log, id)
    ensures var q, s' := SeqOfId(s.log, id), SoftDelete(s, id, requester, now, windowSec).0;
      && UnreadOf(s', u) == UnreadOf(s, u) - {q}
      && |UnreadOf(s', u)| == |UnreadOf(s, u)| - (if StillBelow(s.members, u, requester, q) then 1 else 0)
  {
    var q, s' := SeqOfId(s.log, id), SoftDelete(s, id, requester, now, windowSec).0;
    assert UnreadOf(s', u) == UnreadOf(s, u) - {q};
    assert StillBelow(s.members, u, requester, q) <==> q in UnreadOf(s, u);
  }

  /** Reading up to `n` removes exactly what was unread up to `n`, for the reader only. */
  lemma ReadUnread(s: RoomState, reader: UserId, n: int, u: UserId)
    requires u in s.members
    ensures var s' := MarkRead(s, reader, n);
      && u in s'.members
      && UnreadOf(s', u) ==
           if u == reader && s.members[u].active then (set q | q in UnreadOf(s, u) && q > n) else UnreadOf(s, u)
  {
    var s' := MarkRead(s, reader, n);
    if u == reader && s.members[u].active {
      assert UnreadOf(s', u) == set q | q in UnreadOf(s, u) && q > n;
    }
  }

  /** The state between the member updates of an invitation and its notice. */
  ghost function Joined(s: RoomState, users: seq<UserId>, clock: UserId -> nat): RoomState {
    s.(members := WithAdded(s.members, ToSet(AddedOf(s.members, users)), MaxOf(s.log.Keys), clock))
  }

  /** An invitation leaves each newly added member with exactly one unread message, its own notice. */
  lemma NewcomerUnread(s: RoomState, actor: UserId, users: seq<UserId>, clock: UserId -> nat,
                       id: MessageId, now: nat, u: UserId)
    requires InStep(s) && AddError(s, actor, true).None? && u in AddedOf(s.members, users)
    ensures var n, s' := NextFree(s.log.Keys, s.counter), Added(s, actor, users, clock, id, now);
      && u in s'.members && UnreadOf(s', u) == {n} && |UnreadOf(s', u)| == 1
      && s'.log[n].kind == System(MemberJoined(actor, AddedOf(s.members, users)))
  {
    AddedOfLists(s.members, users);
    var s1, n := Joined(s, users, clock), NextFree(s.log.Keys, s.counter);
    assert s1.members[u] == Member(MEMBER, clock(u), MaxOf(s.log.Keys), true);
    assert UnreadOf(s1, u) == {};
    assert MaxOf(s.log.Keys) < n;
    PostUnread(s1, SystemParams(s.roomId, actor, MemberJoined(actor, AddedOf(s.members, users))), id, now, u);
  }

  /** Everyone else counts the notice like any message of the actor. */
  lemma OthersAfterInvitation(s: RoomState, actor: UserId, users: seq<UserId>, clock: UserId -> nat,
                              id: MessageId, now: nat, u: UserId)
    requires AddedOf(s.members, users) != [] && u in s.members && u !in AddedOf(s.members, users)
    ensures var n, s' := NextFree(s.log.Keys, s.counter), Added(s, actor, users, clock, id, now);
      && s'.members[u] == s.members[u]
      && UnreadOf(s', u) == (if StillBelow(s.members, u, actor, n) then UnreadOf(s, u) + {n} else UnreadOf(s, u))
  {
    var s1 := Joined(s, users, clock);
    assert s1.members[u] == s.members[u];
    PostUnread(s1, SystemParams(s.roomId, actor, MemberJoined(actor, AddedOf(s.members, users))), id, now, u);
  }

  // ------------------------------------------------------------------ read positions over runs

  predicate ReadsTo(r: Request, u: UserId, n: int) {
    r.op == Read(u, n)
  }

  function Position(s: RoomState, u: UserId): int {
    if u in s.members then s.members[u].lastReadSeq else 0
  }

  lemma PositionStep(s: RoomState, r: Request, u: UserId)
    requires IsActive(s.members, u) && IsActive(Apply(s, r).members, u)
    ensures Position(Apply(s, r), u) ==
      if r.op.Read? && r.op.user == u && r.op.upTo > Position(s, u) then r.op.upTo else Position(s, u)
  {
    if r.op.Add? { AddedOfLists(s.members, r.op.users); }
  }

  /**
   * While a member stays, whatever else happens in the room, the read position is the maximum of where
   * it was and of everything the member reported, in any order and with any repetitions.
   */
  lemma {:induction false} ReadPositionIsMaximum(states: seq<RoomState>, requests: seq<Request>, m: nat, n: nat,
                                                 u: UserId)
    requires IsRun(states, requests) && m <= n < |states|
    requires forall i :: m <= i <= n ==> IsActive(states[i].members, u)
    ensures Position(states[m], u) <= Position(states[n], u)
    ensures forall i, x :: m <= i < n && ReadsTo(requests[i], u, x) ==> x <= Position(states[n], u)
    ensures Position(states[n], u) == Position(states[m], u)
      || exists i :: m <= i < n && ReadsTo(requests[i], u, Position(states[n], u))
  {
    if m < n {
      ReadPositionIsMaximum(states, requests, m, n - 1, u);
      var s, r := states[n - 1], requests[n - 1];
      assert StepAt(states, requests, n - 1);
      PositionStep(s, r, u);
      if Position(states[n], u) != Position(s, u) {
        assert ReadsTo(requests[n - 1], u, Position(states[n], u));
      }
    }
  }

  /** So whoever has read a message keeps counting as a reader of it while staying. */
  lemma ReadersStay(states: seq<RoomState>, requests: seq<Request>, m: nat, n: nat, u: UserId, q: nat)
    requires IsRun(states, requests) && m <= n < |states|
    requires forall i :: m <= i <= n ==> IsActive(states[i].members, u)
    requires q in states[m].log && u in Readers(states[m].members, states[m].log[q])
    ensures q in states[n].log && u in Readers(states[n].members, states[n].log[q])
  {
    ReadPositionIsMaximum(states, requests, m, n, u);
    RowsArePermanent(states, requests, m, n);
    assert RowKept(states[m].log[q], states[n].log[q]);
  }
}
