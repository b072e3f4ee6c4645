/**
 * One-to-one rooms: `createDirect` as a concurrent protocol. Every database statement is one atomic
 * step; calls for any pairs interleave with departures and with calls that die at any await.
 */
module DirectRooms {
  import opened Common
  import opened Domain
  import opened RoomModel
  import opened RoomOps

  // ------------------------------------------------------------------ the pair key

  predicate StringLe(a: string, b: string) {
    if a == "" then true
    else if b == "" then false
    else a[0] < b[0] || (a[0] == b[0] && StringLe(a[1..], b[1..]))
  }

  lemma {:induction false} StringLeTotal(a: string, b: string)
    ensures StringLe(a, b) || StringLe(b, a)
    ensures StringLe(a, b) && StringLe(b, a) ==> a == b
  {
    if a != "" && b != "" && a[0] == b[0] {
      StringLeTotal(a[1..], b[1..]);
      assert a == [a[0]] + a[1..] && b == [b[0]] + b[1..];
    }
  }

  /** The two ids, sorted and joined. */
  function DirectKey(a: UserId, b: UserId): string {
    if StringLe(a, b) then a + ":" + b else b + ":" + a
  }

  /** Generated ids contain no separator. */
  predicate Plain(id: UserId) {
    ':' !in id
  }

  lemma JoinInjective(a: string, b: string, c: string, d: string)
    requires Plain(a) && Plain(c) && a + ":" + b == c + ":" + d
    ensures a == c && b == d
  {
    var x, y := a + ":" + b, c + ":" + d;
    assert x[|a|] == ':' && y[|c|] == ':';
    assert forall i :: 0 <= i < |a| ==> x[i] == a[i] && a[i] in a;
    assert forall i :: 0 <= i < |c| ==> y[i] == c[i] && c[i] in c;
    assert |a| == |c|;
    assert a == x[..|a|] && c == y[..|c|];
    assert b == x[|a| + 1..] && d == y[|c| + 1..];
  }

  /**
   * For generated ids the key identifies the unordered pair. (With a separator inside, as in
   * {"a:b", "c"} and {"a", "b:c"}, two pairs could share a key.)
   */
  lemma DirectKeyIdentifiesPair(a: UserId, b: UserId, c: UserId, d: UserId)
    requires Plain(a) && Plain(b) && Plain(c) && Plain(d)
    ensures DirectKey(a, b) == DirectKey(c, d) <==> {a, b} == {c, d}
  {
    StringLeTotal(a, b);
    StringLeTotal(c, d);
    if DirectKey(a, b) == DirectKey(c, d) {
      var (x, y) := if StringLe(a, b) then (a, b) else (b, a);
      var (z, w) := if StringLe(c, d) then (c, d) else (d, c);
      JoinInjective(x, y, z, w);
    } else {
      assert {a, b} == {c, d} ==> a in {c, d} && b in {c, d} && c in {a, b} && d in {a, b};
    }
  }

  // ------------------------------------------------------------------ the protocol

  type CallId = nat

  datatype Direct = Direct(key: string, createdBy: UserId, members: Members)

  datatype Pc =
    | Start
    | Users
    | Find
    | Create
    | Refetch
    | Reactivate(room: RoomId)
    | View(room: RoomId, isNew: bool)
    | Emit(room: RoomId)
    | Returned(room: RoomId)
    | Failed(error: Error)

  datatype Call = Call(creator: UserId, others: seq<UserId>, pc: Pc)

  /** `author` is a history variable: the call that created a room. */
  datatype Sys = Sys(
    rooms: map<RoomId, Direct>,
    calls: map<CallId, Call>,
    emitted: seq<RoomId>,
    author: map<RoomId, CallId>)

  datatype Action =
    | Begin(call: CallId, creator: UserId, others: seq<UserId>)
    | Step(call: CallId, id: RoomId, now: nat)
    | Throw(call: CallId)
    | Leave(room: RoomId, actor: UserId, target: UserId)

  function KeyOf(c: Call): string
    requires |c.others| == 1
  {
    DirectKey(c.creator, c.others[0])
  }

  predicate HasKey(rooms: map<RoomId, Direct>, key: string, r: RoomId) {
    r in rooms && rooms[r].key == key
  }

  ghost predicate KeyTaken(rooms: map<RoomId, Direct>, key: string) {
    exists r :: HasKey(rooms, key, r)
  }

  predicate Goes(s: Sys, c: CallId, pc: Pc, s': Sys)
    requires c in s.calls
  {
    s' == s.(calls := s.calls[c := s.calls[c].(pc := pc)])
  }

  function Pair(a: UserId, b: UserId, now: nat): Members {
    map[a := Member(MEMBER, now, 0, true), b := Member(MEMBER, now, 0, true)]
  }

  /** `updateMany` on the rows of the two users that have left. */
  function Reactivated(members: Members, users: set<UserId>): Members {
    map u | u in members :: if u in users then members[u].(active := true) else members[u]
  }

  ghost predicate Advance(s: Sys, c: CallId, id: RoomId, now: nat, s': Sys)
    requires c in s.calls
  {
    var call := s.calls[c];
    match call.pc
    case Start =>
      Goes(s, c, if |call.others| != 1 || call.others[0] == call.creator then Failed(Validation) else Users, s')
    case Users =>
      // only existing active users pass; their ids are generated
      || Goes(s, c, Failed(Forbidden), s')
      || (Plain(call.creator) && (forall u :: u in call.others ==> Plain(u)) && Goes(s, c, Find, s'))
    case Find =>
      |call.others| == 1 &&
      if KeyTaken(s.rooms, KeyOf(call)) then HasKey(s.rooms, KeyOf(call), id) && Goes(s, c, Reactivate(id), s')
      else Goes(s, c, Create, s')
    case Create =>
      |call.others| == 1 &&
      if KeyTaken(s.rooms, KeyOf(call)) then Goes(s, c, Refetch, s')
      else
        && id !in s.rooms
        && s' == s.(
          rooms := s.rooms[id := Direct(KeyOf(call), call.creator, Pair(call.creator, call.others[0], now))],
          author := s.author[id := c],
          calls := s.calls[c := call.(pc := View(id, true))])
    case Refetch =>
      |call.others| == 1 &&
      if KeyTaken(s.rooms, KeyOf(call)) then HasKey(s.rooms, KeyOf(call), id) && Goes(s, c, Reactivate(id), s')
      else Goes(s, c, Failed(Internal), s')
    case Reactivate(r) =>
      |call.others| == 1 &&
      if r in s.rooms then
        Goes(s.(rooms := s.rooms[r := s.rooms[r].(
               members := Reactivated(s.rooms[r].members, {call.creator, call.others[0]}))]), c, View(r, false), s')
      else Goes(s, c, View(r, false), s')
    case View(r, isNew) =>
      Goes(s, c, if r !in s.rooms then Failed(NotFound) else if isNew then Emit(r) else Returned(r), s')
    case Emit(r) =>
      Goes(s.(emitted := s.emitted + [r]), c, Returned(r), s')
    case Returned(_) => false
    case Failed(_) => false
  }

  ghost predicate Next(s: Sys, a: Action, s': Sys) {
    match a
    case Begin(c, creator, others) =>
      c !in s.calls && s' == s.(calls := s.calls[c := Call(creator, others, Start)])
    case Step(c, id, now) =>
      c in s.calls && Advance(s, c, id, now, s')
    case Throw(c) =>
      && c in s.calls && !s.calls[c].pc.Returned? && !s.calls[c].pc.Failed?
      && Goes(s, c, Failed(Internal), s')
    case Leave(r, actor, target) =>
      // DELETE /rooms/:id/members/:userId; the group operations refuse a direct room
      && r in s.rooms && RemoveError(s.rooms[r].members, actor, target).None?
      && s' == s.(rooms := s.rooms[r := s.rooms[r].(members := Departed(s.rooms[r].members, target))])
  }

  ghost predicate IsRun(run: seq<Sys>, acts: seq<Action>) {
    && |run| == |acts| + 1
    && forall i :: 0 <= i < |acts| ==> Next(run[i], acts[i], run[i + 1])
  }

  // ------------------------------------------------------------------ the invariant

  /** The room of the pair: exactly two rows, both MEMBER. */
  predicate PairRoom(room: Direct, a: UserId, b: UserId) {
    && Plain(a) && Plain(b) && a != b
    && room.key == DirectKey(a, b)
    && room.members.Keys == {a, b}
    && room.members[a].role == MEMBER && room.members[b].role == MEMBER
  }

  ghost predicate RoomsOk(rooms: map<RoomId, Direct>) {
    && (forall r :: r in rooms ==> exists a, b :: PairRoom(rooms[r], a, b))
    && (forall q, r :: q in rooms && r in rooms && rooms[q].key == rooms[r].key ==> q == r)
  }

  predicate Asked(call: Call) {
    && |call.others| == 1 && call.others[0] != call.creator
    && Plain(call.creator) && Plain(call.others[0])
  }

  predicate Knows(s: Sys, c: CallId, r: RoomId)
    requires c in s.calls
  {
    Asked(s.calls[c]) && HasKey(s.rooms, KeyOf(s.calls[c]), r)
  }

  ghost predicate CallOk(s: Sys, c: CallId)
    requires c in s.calls
  {
    match s.calls[c].pc
    case Users => |s.calls[c].others| == 1 && s.calls[c].others[0] != s.calls[c].creator
    case Find => Asked(s.calls[c])
    case Create => Asked(s.calls[c])
    case Refetch => Asked(s.calls[c]) && KeyTaken(s.rooms, KeyOf(s.calls[c]))
    case Reactivate(r) => Knows(s, c, r)
    case View(r, isNew) => Knows(s, c, r) && (isNew ==> r in s.author && s.author[r] == c)
    case Emit(r) => Knows(s, c, r) && r in s.author && s.author[r] == c
    case Returned(r) => Knows(s, c, r)
    case _ => true
  }

  ghost predicate Init(s: Sys) {
    RoomsOk(s.rooms) && s.calls == map[] && s.emitted == [] && s.author == map[]
  }
}
