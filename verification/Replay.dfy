/** The SYSTEM messages of a group, read in order, tell who is in it and what it is called. */
module Replay {
  import opened Common
  import opened Domain
  import opened RoomModel
  import opened RoomOps

  datatype Roster = Roster(members: set<UserId>, name: Option<string>)

  /** What a reader of one SYSTEM message learns. */
  function Record(r: Roster, p: Payload): Roster {
    match p
    case MemberJoined(_, targets) => r.(members := r.members + ToSet(targets))
    case MemberLeft(actor) => r.(members := r.members - {actor})
    case MemberKicked(_, target) => r.(members := r.members - {target})
    case RoomRenamed(_, name) => r.(name := name)
    case _ => r
  }

  /** The messages numbered `1..n`, folded in order. */
  function Fold(log: MessageLog, n: nat, start: Roster): Roster {
    if n == 0 then start else
      var r := Fold(log, n - 1, start);
      if n in log && log[n].kind.System? then Record(r, log[n].kind.payload) else r
  }

  ghost function Told(s: RoomState, start: Roster): Roster {
    Fold(s.log, MaxOf(s.log.Keys), start)
  }

  /** The counter, once there, is not behind the log; a room without a counter was never posted to. */
  ghost predicate InStep(s: RoomState) {
    && LogOk(s.log, s.roomId)
    && 0 !in s.log
    && (s.counter.Some? ==> forall q :: q in s.log ==> q <= s.counter.value)
  }

  /** Same SYSTEM messages up to `n`. */
  predicate Alike(a: MessageLog, b: MessageLog, n: nat) {
    forall q :: 0 < q <= n ==>
      ((q in a && a[q].kind.System?) <==> (q in b && b[q].kind.System?))
      && (q in a && q in b && a[q].kind.System? && b[q].kind.System? ==> a[q].kind == b[q].kind)
  }

  lemma {:induction false} FoldAlike(a: MessageLog, b: MessageLog, n: nat, start: Roster)
    requires Alike(a, b, n)
    ensures Fold(a, n, start) == Fold(b, n, start)
  {
    if n > 0 {
      assert Alike(a, b, n - 1);
      FoldAlike(a, b, n - 1, start);
    }
  }

  lemma {:induction false} FoldBeyond(log: MessageLog, m: nat, n: nat, start: Roster)
    requires m <= n && forall q :: q in log ==> q <= m
    ensures Fold(log, n, start) == Fold(log, m, start)
  {
    if m < n { FoldBeyond(log, m, n - 1, start); }
  }

  /** In step, a send takes a number above every other. */
  lemma PostedIsNewest(s: RoomState, p: Params, id: MessageId, now: nat)
    requires InStep(s) && p.roomId == s.roomId && id != "" && !IdUsed(s.log, id) && !Repeats(s.log, p)
    ensures InStep(Posted(s, p, id, now))
    ensures var n := NextFree(s.log.Keys, s.counter);
      && (forall q :: q in s.log ==> q < n)
      && Posted(s, p, id, now).log == s.log[n := RowOf(p, id, n, now)]
      && MaxOf(Posted(s, p, id, now).log.Keys) == n
  {
    var n := NextFree(s.log.Keys, s.counter);
    MaxOfIs(Posted(s, p, id, now).log.Keys, n);
    var log' := Posted(s, p, id, now).log;
    forall q | q in s.log ensures s.log[q].id != id && (p.key.Some? ==> s.log[q].key != p.key) {
      assert q in s.log.Keys;
    }
  }

  lemma FoldAppend(log: MessageLog, n: nat, m: Message, start: Roster)
    requires n > 0 && forall q :: q in log ==> q < n
    ensures Fold(log[n := m], n, start) ==
      if m.kind.System? then Record(Fold(log, MaxOf(log.Keys), start), m.kind.payload)
      else Fold(log, MaxOf(log.Keys), start)
  {
    assert MaxOf(log.Keys) <= n - 1;
    FoldBeyond(log, MaxOf(log.Keys), n - 1, start);
    FoldAlike(log, log[n := m], n - 1, start);
  }

  lemma PostedTells(s: RoomState, p: Params, id: MessageId, now: nat, start: Roster)
    requires InStep(s) && p.roomId == s.roomId && id != "" && !IdUsed(s.log, id) && !Repeats(s.log, p)
    ensures Told(Posted(s, p, id, now), start) ==
      if p.kind.System? then Record(Told(s, start), p.kind.payload) else Told(s, start)
  {
    PostedIsNewest(s, p, id, now);
    var n := NextFree(s.log.Keys, s.counter);
    FoldAppend(s.log, n, RowOf(p, id, n, now), start);
  }

  lemma SystemTells(s: RoomState, actor: UserId, payload: Payload, id: MessageId, now: nat, start: Roster)
    requires InStep(s) && id != "" && !IdUsed(s.log, id)
    ensures InStep(PostSystem(s, actor, payload, id, now))
    ensures Told(PostSystem(s, actor, payload, id, now), start) == Record(Told(s, start), payload)
    ensures forall other :: other != id && !IdUsed(s.log, other) ==>
      !IdUsed(PostSystem(s, actor, payload, id, now).log, other)
  {
    var p := SystemParams(s.roomId, actor, payload);
    PostedIsNewest(s, p, id, now);
    PostedTells(s, p, id, now, start);
    forall other | other != id && !IdUsed(s.log, other) ensures !IdUsed(Posted(s, p, id, now).log, other) {
      assert forall q :: q in s.log.Keys ==> s.log[q].id != other;
    }
  }

  /** The roster told by the messages is the roster in the database. */
  ghost predicate Faithful(s: RoomState, start: Roster) {
    InStep(s) && Told(s, start) == Roster(ActiveSet(s.members), s.name)
  }

  /** A membership or name change followed by the SYSTEM message that reports it. */
  lemma ReportedChange(s: RoomState, s1: RoomState, actor: UserId, payload: Payload, id: MessageId, now: nat,
                       start: Roster)
    requires InStep(s) && s1.log == s.log && s1.counter == s.counter && s1.roomId == s.roomId
    requires id != "" && !IdUsed(s.log, id)
    requires Record(Told(s, start), payload) == Roster(ActiveSet(s1.members), s1.name)
    ensures Faithful(PostSystem(s1, actor, payload, id, now), start)
    ensures forall other :: other != id && !IdUsed(s.log, other) ==>
      !IdUsed(PostSystem(s1, actor, payload, id, now).log, other)
  {
    SystemTells(s1, actor, payload, id, now, start);
  }

  lemma PostFaithful(s: RoomState, r: Request, start: Roster)
    requires Faithful(s, start) && Possible(s, r) && r.op.Post?
    ensures Faithful(Apply(s, r), start)
  {
    var p := r.op.p;
    if Repeats(s.log, p) || SendError(s, p, r.op.ownsMedia).Some? {
      assert Apply(s, r).log == s.log;
    } else if Dangles(s.log, p) {
      assert Apply(s, r).log == s.log;
    } else {
      PostedIsNewest(s, p, r.id, r.now);
      PostedTells(s, p, r.id, r.now, start);
    }
  }

  lemma DeleteFaithful(s: RoomState, r: Request, start: Roster)
    requires Faithful(s, start) && r.op.Delete?
    ensures Faithful(Apply(s, r), start)
  {
    var m := r.op.message;
    if IdUsed(s.log, m) {
      var q := SeqOfId(s.log, m);
      UnsentTells(s.log, s.roomId, q, r.now, MaxOf(s.log.Keys), start);
      assert (s.log[q := Unsent(s.log[q], r.now)]).Keys == s.log.Keys;
    }
  }

  lemma UnsentTells(log: MessageLog, room: RoomId, q: nat, now: nat, n: nat, start: Roster)
    requires LogOk(log, room) && q in log
    ensures LogOk(log[q := Unsent(log[q], now)], room)
    ensures Fold(log[q := Unsent(log[q], now)], n, start) == Fold(log, n, start)
  {
    FoldAlike(log, log[q := Unsent(log[q], now)], n, start);
  }

  lemma NameReported(s: RoomState, s1: RoomState, s2: RoomState, actor: UserId, id: MessageId, id': MessageId,
                     now: nat, start: Roster)
    requires Faithful(s, start) && id != "" && id' != id && !IdUsed(s.log, id) && !IdUsed(s.log, id')
    requires s1 == s.(name := s1.name, avatar := s1.avatar)
    requires s2 == if s1.name != s.name then PostSystem(s1, actor, RoomRenamed(actor, s1.name), id, now) else s1
    ensures Faithful(s2, start) && !IdUsed(s2.log, id')
  {
    if s1.name != s.name { ReportedChange(s, s1, actor, RoomRenamed(actor, s1.name), id, now, start); }
  }

  lemma UpdateFaithful(s: RoomState, r: Request, start: Roster)
    requires Faithful(s, start) && Possible(s, r) && r.op.Update?
    requires UpdateError(s, r.op.actor, r.op.mediaError).None?
    ensures Faithful(Apply(s, r), start)
  {
    var name, avatar, actor := r.op.name, r.op.avatar, r.op.actor;
    var s1 := s.(name := if name.Some? then name.value else s.name,
                 avatar := if avatar.Some? then avatar.value else s.avatar);
    var s2 := if s1.name != s.name then PostSystem(s1, actor, RoomRenamed(actor, s1.name), r.id, r.now) else s1;
    NameReported(s, s1, s2, actor, r.id, r.id', r.now, start);
    if avatar.Some? {
      ReportedChange(s2, s2, actor, AvatarChanged(actor), r.id', r.now, start);
    }
  }

  lemma AddFaithful(s: RoomState, r: Request, start: Roster)
    requires Faithful(s, start) && Possible(s, r) && r.op.Add?
    requires AddError(s, r.op.actor, r.op.usersOk).None?
    ensures Faithful(Apply(s, r), start)
  {
    var added := AddedOf(s.members, r.op.users);
    AddedOfLists(s.members, r.op.users);
    if added != [] {
      var s1 := s.(members := WithAdded(s.members, ToSet(added), MaxOf(s.log.Keys), r.op.clock));
      assert ActiveSet(s1.members) == ActiveSet(s.members) + ToSet(added);
      ReportedChange(s, s1, r.op.actor, MemberJoined(r.op.actor, added), r.id, r.now, start);
    }
  }

  lemma SetRoleFaithful(s: RoomState, r: Request, start: Roster)
    requires Faithful(s, start) && Possible(s, r) && r.op.SetRole?
    requires RoleChangeError(s, r.op.actor, r.op.target).None?
    ensures Faithful(Apply(s, r), start)
  {
    var s' := Apply(s, r);
    assert ActiveSet(s'.members) == ActiveSet(s.members);
    ReportedChange(s, s.(members := s'.members), r.op.actor, RoleChanged(r.op.actor, r.op.target, r.op.role),
                   r.id, r.now, start);
  }

  lemma RemoveFaithful(s: RoomState, r: Request, start: Roster)
    requires Faithful(s, start) && Possible(s, r) && r.op.Remove?
    requires RemoveError(s.members, r.op.actor, r.op.target).None?
    ensures Faithful(Apply(s, r), start)
  {
    var actor, target := r.op.actor, r.op.target;
    var s' := Apply(s, r);
    assert ActiveSet(s'.members) == ActiveSet(s.members) - {target};
    ReportedChange(s, s.(members := s'.members), actor,
                   if target == actor then MemberLeft(actor) else MemberKicked(actor, target), r.id, r.now, start);
  }

  lemma ReadFaithful(s: RoomState, r: Request, start: Roster)
    requires Faithful(s, start) && r.op.Read?
    ensures Faithful(Apply(s, r), start)
  {
    assert ActiveSet(Apply(s, r).members) == ActiveSet(s.members);
  }

  lemma StepFaithful(s: RoomState, r: Request, start: Roster)
    requires Faithful(s, start) && Possible(s, r)
    ensures Faithful(Apply(s, r), start)
  {
    match r.op
    case Post(_, _) => PostFaithful(s, r, start);
    case Delete(_, _, _) => DeleteFaithful(s, r, start);
    case Read(_, _) => ReadFaithful(s, r, start);
    case Update(actor, _, _, mediaError) =>
      if UpdateError(s, actor, mediaError).None? { UpdateFaithful(s, r, start); }
    case Add(actor, _, usersOk, _) =>
      if AddError(s, actor, usersOk).None? { AddFaithful(s, r, start); }
    case SetRole(actor, target, _) =>
      if RoleChangeError(s, actor, target).None? { SetRoleFaithful(s, r, start); }
    case Remove(actor, target, _) =>
      if RemoveError(s.members, actor, target).None? { RemoveFaithful(s, r, start); }
  }

  lemma {:induction false} RunFaithful(states: seq<RoomState>, requests: seq<Request>, n: nat, start: Roster)
    requires IsRun(states, requests) && n < |states| && Faithful(states[0], start)
    ensures Faithful(states[n], start)
  {
    if n > 0 {
      RunFaithful(states, requests, n - 1, start);
      assert StepAt(states, requests, n - 1);
      StepFaithful(states[n - 1], requests[n - 1], start);
    }
  }

  lemma CreatedFaithful(room: RoomId, creator: UserId, invited: seq<UserId>, name: Option<string>,
                        avatar: Option<string>, clock: UserId -> nat, id: MessageId, now: nat)
    requires id != ""
    ensures Faithful(Created(room, creator, invited, name, avatar, clock, id, now),
                     Roster(ToSet([creator] + invited), name))
  {
    var s := RoomState(room, name, avatar, Founders(creator, invited, clock), map[], None);
    var start := Roster(ToSet([creator] + invited), name);
    assert ActiveSet(s.members) == ToSet([creator] + invited);
    SystemTells(s, creator, RoomCreated(creator), id, now, start);
  }

  /**
   * From the list a group was created with and its first name, its SYSTEM messages in sequence order
   * yield, after any run of requests, exactly the active members and the current name.
   */
  lemma MessagesTellTheRoster(room: RoomId, creator: UserId, invited: seq<UserId>, name: Option<string>,
                              avatar: Option<string>, clock: UserId -> nat, id: MessageId, now: nat,
                              states: seq<RoomState>, requests: seq<Request>, n: nat)
    requires id != "" && IsRun(states, requests) && n < |states|
    requires states[0] == Created(room, creator, invited, name, avatar, clock, id, now)
    ensures Told(states[n], Roster(ToSet([creator] + invited), name))
         == Roster(ActiveSet(states[n].members), states[n].name)
  {
    CreatedFaithful(room, creator, invited, name, avatar, clock, id, now);
    RunFaithful(states, requests, n, Roster(ToSet([creator] + invited), name));
  }

  // ------------------------------------------------------------------ rows are permanent

  /** A SYSTEM row, and a row already unsent, stays as it is; any other may at most be unsent. */
  predicate RowKept(m: Message, m': Message) {
    || m' == m
    || (!m.kind.System? && m.deletedAt.None? && m'.deletedAt.Some? && m' == Unsent(m, m'.deletedAt.value))
  }

  predicate KeepsRows(log: MessageLog, log': MessageLog) {
    forall q :: q in log ==> q in log' && RowKept(log[q], log'[q])
  }

  lemma KeepsRowsChains(a: MessageLog, b: MessageLog, c: MessageLog)
    requires KeepsRows(a, b) && KeepsRows(b, c)
    ensures KeepsRows(a, c)
  {
  }

  lemma PostSystemKeepsRows(s: RoomState, actor: UserId, payload: Payload, id: MessageId, now: nat)
    ensures KeepsRows(s.log, PostSystem(s, actor, payload, id, now).log)
  {
  }

  lemma PostKeepsRows(s: RoomState, r: Request)
    requires r.op.Post?
    ensures KeepsRows(s.log, Apply(s, r).log)
  {
  }

  lemma DeleteKeepsRows(s: RoomState, r: Request)
    requires r.op.Delete?
    ensures KeepsRows(s.log, Apply(s, r).log)
  {
  }

  lemma UpdateKeepsRows(s: RoomState, r: Request)
    requires r.op.Update? && UpdateError(s, r.op.actor, r.op.mediaError).None?
    ensures KeepsRows(s.log, Apply(s, r).log)
  {
    var name, avatar, actor := r.op.name, r.op.avatar, r.op.actor;
    var s1 := s.(name := if name.Some? then name.value else s.name,
                 avatar := if avatar.Some? then avatar.value else s.avatar);
    var s2 := if s1.name != s.name then PostSystem(s1, actor, RoomRenamed(actor, s1.name), r.id, r.now) else s1;
    PostSystemKeepsRows(s1, actor, RoomRenamed(actor, s1.name), r.id, r.now);
    PostSystemKeepsRows(s2, actor, AvatarChanged(actor), r.id', r.now);
    KeepsRowsChains(s.log, s2.log, Apply(s, r).log);
  }

  /** Membership changes leave the log to the SYSTEM message that reports them. */
  lemma ReportKeepsRows(s: RoomState, r: Request)
    requires r.op.Add? || r.op.SetRole? || r.op.Remove?
    ensures KeepsRows(s.log, Apply(s, r).log)
  {
    var s1 := s.(members := Apply(s, r).members);
    match r.op
    case Add(actor, users, _, _) =>
      PostSystemKeepsRows(s1, actor, MemberJoined(actor, AddedOf(s.members, users)), r.id, r.now);
    case SetRole(actor, target, role) =>
      PostSystemKeepsRows(s1, actor, RoleChanged(actor, target, role), r.id, r.now);
    case Remove(actor, target, _) =>
      PostSystemKeepsRows(s1, actor, if target == actor then MemberLeft(actor) else MemberKicked(actor, target),
                          r.id, r.now);
  }

  lemma StepKeepsRows(s: RoomState, r: Request)
    ensures KeepsRows(s.log, Apply(s, r).log)
  {
    match r.op
    case Post(_, _) => PostKeepsRows(s, r);
    case Delete(_, _, _) => DeleteKeepsRows(s, r);
    case Read(_, _) =>
    case Update(actor, _, _, mediaError) =>
      if UpdateError(s, actor, mediaError).None? { UpdateKeepsRows(s, r); }
    case _ => ReportKeepsRows(s, r);
  }

  lemma RunStepKeepsRows(states: seq<RoomState>, requests: seq<Request>, i: nat)
    requires IsRun(states, requests) && i < |requests|
    ensures KeepsRows(states[i].log, states[i + 1].log)
  {
    assert StepAt(states, requests, i);
    StepKeepsRows(states[i], requests[i]);
  }

  lemma {:induction false} KeepsRowsAlong(logs: seq<MessageLog>, m: nat, n: nat)
    requires m <= n < |logs| && forall i :: 0 <= i < |logs| - 1 ==> KeepsRows(logs[i], logs[i + 1])
    ensures KeepsRows(logs[m], logs[n])
  {
    if m < n {
      KeepsRowsAlong(logs, m, n - 1);
      assert KeepsRows(logs[n - 1], logs[n - 1 + 1]);
      KeepsRowsChains(logs[m], logs[n - 1], logs[n]);
    }
  }

  /** No run ever removes a row, and none unsends or alters a SYSTEM message. */
  lemma RowsArePermanent(states: seq<RoomState>, requests: seq<Request>, m: nat, n: nat)
    requires IsRun(states, requests) && m <= n < |states|
    ensures KeepsRows(states[m].log, states[n].log)
  {
    var logs := seq(|states|, i requires 0 <= i < |states| => states[i].log);
    forall i | 0 <= i < |logs| - 1 ensures KeepsRows(logs[i], logs[i + 1]) {
      RunStepKeepsRows(states, requests, i);
    }
    KeepsRowsAlong(logs, m, n);
    assert logs[m] == states[m].log && logs[n] == states[n].log;
  }
}
