/**
 * `createMessage` as a concurrent protocol over two stores.
 *
 * Every Redis command and every database statement is one atomic step; any number of calls, in any
 * rooms, interleave. A call may also die at any await, the counter key of a room may vanish, and
 * senders may unsend rows, all at any moment.
 */
module SendProtocol {
  import opened Common
  import opened Domain

  type CallId = nat

  datatype Failure = Rejected | SeqConflict | Thrown

  /** Where a call stands: the await it is about to perform, with the locals it still needs. */
  datatype Pc =
    | Lookup
    | Checks
    | ReplyCheck
    | Exists(attempt: nat)
    | ReadMax(attempt: nat)
    | SetNx(attempt: nat, max: nat)
    | Incr(attempt: nat)
    | Insert(attempt: nat, seqNo: nat)
    | ResyncRead(attempt: nat)
    | ResyncSet(attempt: nat, max: nat)
    | Refetch
    | Touch(id: MessageId)
    | Emit(id: MessageId)
    | Returned(id: MessageId, duplicate: bool)
    | Failed(reason: Failure)

  datatype Call = Call(params: Params, pc: Pc)

  /**
   * `counters` holds the Redis keys `room:{id}:seq`, `rows` the Message table by primary key.
   * `author` is a history variable: the call whose insert made a row.
   */
  datatype Sys = Sys(
    counters: map<RoomId, nat>,
    rows: map<MessageId, Message>,
    calls: map<CallId, Call>,
    emitted: seq<MessageId>,
    author: map<MessageId, CallId>)

  datatype Action =
    | Begin(call: CallId, params: Params)
    | Step(call: CallId, id: MessageId, now: nat)
    | Throw(call: CallId)
    | LoseKey(room: RoomId)
    | Unsend(id: MessageId, now: nat)

  // ------------------------------------------------------------------ queries on the Message table

  ghost function Seqs(rows: map<MessageId, Message>, room: RoomId): set<nat> {
    set i | i in rows && rows[i].roomId == room :: rows[i].seqNo
  }

  /** `findUnique({ roomId_clientMessageId })` finds row `i`. */
  predicate KeyRow(rows: map<MessageId, Message>, room: RoomId, key: string, i: MessageId) {
    i in rows && rows[i].roomId == room && rows[i].key == Some(key)
  }

  ghost predicate KeyTaken(rows: map<MessageId, Message>, room: RoomId, key: string) {
    exists i :: KeyRow(rows, room, key, i)
  }

  /** The insert would violate the unique constraint (roomId, clientMessageId). */
  ghost predicate KeyClash(rows: map<MessageId, Message>, p: Params) {
    p.key.Some? && KeyTaken(rows, p.roomId, p.key.value)
  }

  /** The insert would violate the unique constraint (roomId, seq). */
  ghost predicate SeqClash(rows: map<MessageId, Message>, p: Params, n: nat) {
    n in Seqs(rows, p.roomId)
  }

  // ------------------------------------------------------------------ the step relation

  predicate Goes(s: Sys, c: CallId, pc: Pc, s': Sys)
    requires c in s.calls
  {
    s' == s.(calls := s.calls[c := s.calls[c].(pc := pc)])
  }

  /** The insert statement: any violated constraint may be the one reported. */
  ghost predicate InsertStep(s: Sys, c: CallId, i: MessageId, now: nat, s': Sys)
    requires c in s.calls && s.calls[c].pc.Insert?
  {
    var p, a, n := s.calls[c].params, s.calls[c].pc.attempt, s.calls[c].pc.seqNo;
    if KeyClash(s.rows, p) || SeqClash(s.rows, p, n) then
      || (KeyClash(s.rows, p) && Goes(s, c, Refetch, s'))
      || (SeqClash(s.rows, p, n) && Goes(s, c, ResyncRead(a), s'))
    else if p.replyTo.Some? && p.replyTo.value !in s.rows then
      Goes(s, c, Failed(Thrown), s')  // foreign key on replyToId
    else
      && i !in s.rows && i != ""
      && s' == s.(
        rows := s.rows[i := RowOf(p, i, n, now)],
        author := s.author[i := c],
        calls := s.calls[c := s.calls[c].(pc := Touch(i))])
  }

  ghost predicate Advance(s: Sys, c: CallId, i: MessageId, now: nat, s': Sys)
    requires c in s.calls
  {
    var p := s.calls[c].params;
    var room := p.roomId;
    match s.calls[c].pc
    case Lookup =>
      if p.key.Some? && p.key.value != "" && KeyTaken(s.rows, room, p.key.value) then
        KeyRow(s.rows, room, p.key.value, i) && Goes(s, c, Returned(i, true), s')
      else
        Goes(s, c, if p.isSystem then Exists(0) else Checks, s')
    case Checks =>
      // membership, payload and media checks; a client may not send SYSTEM
      Goes(s, c, Failed(Rejected), s') || (!p.kind.System? && Goes(s, c, ReplyCheck, s'))
    case ReplyCheck =>
      if p.replyTo.Some? && p.replyTo.value != ""
         && !(p.replyTo.value in s.rows && s.rows[p.replyTo.value].roomId == room) then
        Goes(s, c, Failed(Rejected), s')
      else
        Goes(s, c, Exists(0), s')
    case Exists(a) =>
      Goes(s, c, if room in s.counters then Incr(a) else ReadMax(a), s')
    case ReadMax(a) =>
      Goes(s, c, SetNx(a, MaxOf(Seqs(s.rows, room))), s')
    case SetNx(a, m) =>
      var counters := if room in s.counters then s.counters else s.counters[room := m];
      Goes(s.(counters := counters), c, Incr(a), s')
    case Incr(a) =>
      var n := if room in s.counters then s.counters[room] + 1 else 1;
      Goes(s.(counters := s.counters[room := n]), c, Insert(a, n), s')
    case Insert(_, _) =>
      InsertStep(s, c, i, now, s')
    case ResyncRead(a) =>
      Goes(s, c, ResyncSet(a, MaxOf(Seqs(s.rows, room))), s')
    case ResyncSet(a, m) =>
      Goes(s.(counters := s.counters[room := m]), c,
           if a + 1 < SEQ_RETRY then Exists(a + 1) else Failed(SeqConflict), s')
    case Refetch =>
      if p.key.Some? && KeyTaken(s.rows, room, p.key.value) then
        KeyRow(s.rows, room, p.key.value, i) && Goes(s, c, Returned(i, true), s')
      else
        Goes(s, c, Failed(Thrown), s')  // existing! on a missing row
    case Touch(m) =>
      Goes(s, c, Emit(m), s')
    case Emit(m) =>
      Goes(s.(emitted := s.emitted + [m]), c, Returned(m, false), s')
    case Returned(_, _) => false
    case Failed(_) => false
  }

  ghost predicate Next(s: Sys, a: Action, s': Sys) {
    match a
    case Begin(c, p) =>
      // createSystemMessage passes neither a key nor a reply target
      && c !in s.calls
      && (p.isSystem ==> p.key.None? && p.replyTo.None?)
      && s' == s.(calls := s.calls[c := Call(p, Lookup)])
    case Step(c, i, now) =>
      c in s.calls && Advance(s, c, i, now, s')
    case Throw(c) =>
      && c in s.calls && !s.calls[c].pc.Returned? && !s.calls[c].pc.Failed?
      && Goes(s, c, Failed(Thrown), s')
    case LoseKey(room) =>
      s' == s.(counters := s.counters - {room})
    case Unsend(i, now) =>
      i in s.rows && !s.rows[i].kind.System? && s' == s.(rows := s.rows[i := Unsent(s.rows[i], now)])
  }

  /** `run[i]` is the state before `acts[i]`. */
  ghost predicate IsRun(run: seq<Sys>, acts: seq<Action>) {
    && |run| == |acts| + 1
    && forall i :: 0 <= i < |acts| ==> Next(run[i], acts[i], run[i + 1])
  }

  // ------------------------------------------------------------------ what the database guarantees

  ghost predicate UniqueRows(rows: map<MessageId, Message>) {
    && "" !in rows
    && (forall i :: i in rows ==> rows[i].id == i)
    && (forall i, j | i in rows && j in rows && rows[i].roomId == rows[j].roomId ::
          (rows[i].seqNo == rows[j].seqNo ==> i == j)
          && (rows[i].key.Some? && rows[i].key == rows[j].key ==> i == j))
  }

  /** A table left by earlier runs, no calls in progress, any counters at all. */
  ghost predicate Init(s: Sys) {
    UniqueRows(s.rows) && s.calls == map[] && s.emitted == [] && s.author == map[]
  }
}
