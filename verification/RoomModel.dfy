/** One room as values: its counter key, message index, member rows and name. */
module RoomModel {
  import opened Common
  import opened Domain

  /** `active` is `leftAt == null`; departed members keep their row. */
  datatype Member = Member(role: Role, joinedAt: nat, lastReadSeq: int, active: bool)

  /** `log` is the index (roomId, seq) of the Message table, restricted to the room. */
  datatype RoomState = RoomState(
    roomId: RoomId,
    name: Option<string>,
    avatar: Option<string>,
    members: map<UserId, Member>,
    log: map<nat, Message>,
    counter: Option<nat>)

  type MessageLog = map<nat, Message>
  type Members = map<UserId, Member>

  predicate IsActive(members: Members, u: UserId) {
    u in members && members[u].active
  }

  function ActiveSet(members: Members): set<UserId> {
    set u | u in members && members[u].active
  }

  predicate KeyUsed(log: MessageLog, key: string) {
    exists q :: q in log.Keys && log[q].key == Some(key)
  }

  predicate IdUsed(log: MessageLog, id: MessageId) {
    exists q :: q in log.Keys && log[q].id == id
  }

  /** The row would repeat a `clientMessageId` of the room. */
  predicate Repeats(log: MessageLog, p: Params) {
    p.key.Some? && KeyUsed(log, p.key.value)
  }

  /** The row would reply to a message the room does not have. */
  predicate Dangles(log: MessageLog, p: Params) {
    p.replyTo.Some? && !IdUsed(log, p.replyTo.value)
  }

  /** What the primary key and the two unique constraints of Message guarantee. */
  ghost predicate LogOk(log: MessageLog, room: RoomId) {
    && (forall q :: q in log ==> log[q].seqNo == q && log[q].roomId == room && log[q].id != "")
    && (forall p, q | p in log && q in log ::
          (log[p].id == log[q].id ==> p == q)
          && (log[p].key.Some? && log[p].key == log[q].key ==> p == q))
  }

  /** The number a send tries first: the counter, initialised from the table when missing, plus one. */
  ghost function FirstTry(used: set<nat>, counter: Option<nat>): nat {
    (if counter.None? then MaxOf(used) else counter.value) + 1
  }

  /** The number an undisturbed send ends with. */
  ghost function NextFree(used: set<nat>, counter: Option<nat>): (n: nat)
    ensures n !in used
  {
    if FirstTry(used, counter) in used then MaxOf(used) + 1 else FirstTry(used, counter)
  }

  /** The room after row `p` was written under number `n`. */
  function Appended(s: RoomState, p: Params, id: MessageId, n: nat, now: nat): RoomState {
    s.(log := s.log[n := RowOf(p, id, n, now)], counter := Some(n))
  }

  ghost function Posted(s: RoomState, p: Params, id: MessageId, now: nat): RoomState {
    Appended(s, p, id, NextFree(s.log.Keys, s.counter), now)
  }

  /** The characters `trim` removes. */
  predicate IsSpace(c: char) {
    var u := c as int;
    || 9 <= u <= 13 || u == 32 || u == 0xA0 || u == 0x1680 || 0x2000 <= u <= 0x200A
    || u in {0x2028, 0x2029, 0x202F, 0x205F, 0x3000, 0xFEFF}
  }

  predicate Blank(text: string) {
    forall k :: 0 <= k < |text| ==> IsSpace(text[k])
  }

  /** The checks of `createMessage` in their order; `ownsMedia` answers the Media table. */
  function SendError(s: RoomState, p: Params, ownsMedia: Result<bool, Error>): Option<Error> {
    if p.isSystem then None
    else if !IsActive(s.members, p.sender) then Some(Forbidden)
    else if p.kind.System? then Some(Validation)
    else if p.kind.Text? && (p.content.None? || Blank(p.content.value)) then Some(Validation)
    else if p.kind.Media? && (p.mediaId.None? || p.mediaId.value == "") then Some(Validation)
    else if p.mediaId.Some? && p.mediaId.value != "" && ownsMedia.Err? then Some(ownsMedia.error)
    else if p.replyTo.Some? && p.replyTo.value != "" && !IdUsed(s.log, p.replyTo.value) then Some(Validation)
    else None
  }

  /** Active members other than the sender who have read up to `m`. */
  function Readers(members: Members, m: Message): set<UserId> {
    set u | u in members && members[u].active && u != m.sender && members[u].lastReadSeq >= m.seqNo
  }

  /** Numbers of the live messages of others above the member's read position. */
  function Unread(log: MessageLog, u: UserId, lastReadSeq: int): set<nat> {
    set q | q in log && q > lastReadSeq && log[q].deletedAt.None? && log[q].sender != u
  }

  /** Deleted messages hide body and media. */
  function Serialize(m: Message): Message {
    if m.deletedAt.Some? then m.(content := None, mediaId := None) else m
  }

  datatype Sent = Sent(row: Message, duplicate: bool)

  /** `findUnique` by key and by primary key; `LogOk` makes the row found unique. */
  ghost function RowOfKey(log: MessageLog, key: string): Message
    requires KeyUsed(log, key)
  {
    var q :| q in log.Keys && log[q].key == Some(key);
    log[q]
  }

  ghost function SeqOfId(log: MessageLog, id: MessageId): (q: nat)
    requires IdUsed(log, id)
    ensures q in log && log[q].id == id
  {
    var q :| q in log.Keys && log[q].id == id;
    q
  }

  /**
   * `createMessage` as one undisturbed request. A key that is in use ends at the first lookup, except
   * the empty key, which JavaScript treats as absent there but the table does not.
   */
  ghost function Send(s: RoomState, p: Params, id: MessageId, now: nat, ownsMedia: Result<bool, Error>)
    : (RoomState, Result<Sent, Error>)
  {
    if Repeats(s.log, p) && p.key.value != "" then
      (s, Ok(Sent(RowOfKey(s.log, p.key.value), true)))
    else if SendError(s, p, ownsMedia).Some? then
      (s, Err(SendError(s, p, ownsMedia).value))
    else if Repeats(s.log, p) then
      (s.(counter := Some(FirstTry(s.log.Keys, s.counter))), Ok(Sent(RowOfKey(s.log, p.key.value), true)))
    else if Dangles(s.log, p) then
      (s.(counter := Some(NextFree(s.log.Keys, s.counter))), Err(Internal))
    else
      var s' := Posted(s, p, id, now);
      (s', Ok(Sent(s'.log[s'.counter.value], false)))
  }

  ghost function PostSystem(s: RoomState, actor: UserId, payload: Payload, id: MessageId, now: nat): RoomState {
    Posted(s, SystemParams(s.roomId, actor, payload), id, now)
  }

  function MarkRead(s: RoomState, u: UserId, upTo: int): RoomState {
    if IsActive(s.members, u) && s.members[u].lastReadSeq < upTo then
      s.(members := s.members[u := s.members[u].(lastReadSeq := upTo)])
    else s
  }

  /** `softDelete`; times are in milliseconds, the window in seconds. */
  ghost function SoftDelete(s: RoomState, id: MessageId, requester: UserId, now: nat, windowSec: nat)
    : (RoomState, Result<bool, Error>)
  {
    if !IdUsed(s.log, id) then (s, Err(NotFound)) else
      var q := SeqOfId(s.log, id);
      var m := s.log[q];
      if m.kind.System? || m.sender != requester then (s, Err(Forbidden))
      else if m.deletedAt.Some? then (s, Ok(false))
      else if now - m.createdAt > 1000 * windowSec then (s, Err(Forbidden))
      else (s.(log := s.log[q := Unsent(m, now)]), Ok(true))
  }
}
