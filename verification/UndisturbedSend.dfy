/** The send protocol, run by one call alone, does to a room what `Posted` describes. */
module UndisturbedSend {
  import opened Common
  import opened Domain
  import opened RoomModel
  import opened SendProtocol
  import SendOnce
  import opened ConcurrentHistory

  function CounterOf(s: Sys, room: RoomId): Option<nat> {
    if room in s.counters then Some(s.counters[room]) else None
  }

  ghost function First(s0: Sys, room: RoomId): nat {
    FirstTry(Seqs(s0.rows, room), CounterOf(s0, room))
  }

  ghost function Final(s0: Sys, room: RoomId): nat {
    NextFree(Seqs(s0.rows, room), CounterOf(s0, room))
  }

  ghost function Top(s0: Sys, room: RoomId): nat {
    MaxOf(Seqs(s0.rows, room))
  }

  /** Row `i` is the only change, under the number an undisturbed send ends with. */
  ghost predicate Wrote(s0: Sys, s: Sys, p: Params, i: MessageId) {
    && i != "" && i !in s0.rows && i in s.rows && !KeyClash(s0.rows, p)
    && s.rows == s0.rows[i := RowOf(p, i, Final(s0, p.roomId), s.rows[i].createdAt)]
    && CounterOf(s, p.roomId) == Some(Final(s0, p.roomId))
  }

  /** The second attempt: the first number was taken, the counter is the maximum. */
  ghost predicate Retries(s0: Sys, s: Sys, room: RoomId) {
    Clashes(s0, room) && CounterOf(s, room) == Some(Top(s0, room))
  }

  /** The first number is taken. */
  ghost predicate Clashes(s0: Sys, room: RoomId) {
    First(s0, room) in Seqs(s0.rows, room)
  }

  /** Where call `c`, alone since state `s0`, can be. */
  ghost predicate SoloOk(s0: Sys, s: Sys, c: CallId)
    requires c in s0.calls && c in s.calls
  {
    var p, pc := s.calls[c].params, s.calls[c].pc;
    var room := p.roomId;
    && p == s0.calls[c].params
    && (pc.Touch? || pc.Emit? || (pc.Returned? && !pc.duplicate) || s.rows == s0.rows)
    && match pc
       case Exists(a) => (a == 0 && CounterOf(s, room) == CounterOf(s0, room)) || (a == 1 && Retries(s0, s, room))
       case ReadMax(a) => a == 0 && CounterOf(s, room) == CounterOf(s0, room) == None
       case SetNx(a, m) => a == 0 && CounterOf(s, room) == CounterOf(s0, room) == None && m == Top(s0, room)
       case Incr(a) => (a == 0 && CounterOf(s, room) == Some(First(s0, room) - 1)) || (a == 1 && Retries(s0, s, room))
       case Insert(a, n) =>
         && CounterOf(s, room) == Some(n)
         && ((a == 0 && n == First(s0, room)) || (a == 1 && Clashes(s0, room) && n == Top(s0, room) + 1))
       case ResyncRead(a) => a == 0 && Clashes(s0, room)
       case ResyncSet(a, m) => a == 0 && Clashes(s0, room) && m == Top(s0, room)
       case Refetch => KeyClash(s0.rows, p)
       case Touch(i) => Wrote(s0, s, p, i)
       case Emit(i) => Wrote(s0, s, p, i)
       case Returned(i, duplicate) =>
         if duplicate then p.key.Some? && KeyRow(s0.rows, room, p.key.value, i) else Wrote(s0, s, p, i)
       case Failed(why) => why != SeqConflict
       case _ => CounterOf(s, room) == CounterOf(s0, room)
  }

  /** The steps a call alone has left, at most. */
  ghost function StepsLeft(s0: Sys, s: Sys, c: CallId): nat
    requires c in s.calls
  {
    var clashes := Clashes(s0, s.calls[c].params.roomId);
    match s.calls[c].pc
    case Lookup => 13
    case Checks => 12
    case ReplyCheck => 11
    case Exists(a) => if a == 0 then 10 else 5
    case ReadMax(_) => 9
    case SetNx(_, _) => 8
    case Incr(a) => if a == 0 && clashes then 9 else 4
    case Insert(a, _) => if a == 0 && clashes then 8 else 3
    case ResyncRead(_) => 7
    case ResyncSet(_, _) => 6
    case Refetch => 1
    case Touch(_) => 2
    case Emit(_) => 1
    case _ => 0
  }

  lemma SoloInsert(s0: Sys, s: Sys, c: CallId, i: MessageId, now: nat, s': Sys)
    requires c in s0.calls && c in s.calls && c in s'.calls && s.calls[c].pc.Insert?
    requires SoloOk(s0, s, c) && InsertStep(s, c, i, now, s')
    ensures SoloOk(s0, s', c) && StepsLeft(s0, s', c) < StepsLeft(s0, s, c)
  {
    var p, n := s.calls[c].params, s.calls[c].pc.seqNo;
    if s.calls[c].pc.attempt == 1 {
      assert n !in Seqs(s0.rows, p.roomId);
    }
  }

  lemma SoloLookup(s0: Sys, s: Sys, c: CallId, i: MessageId, now: nat, s': Sys)
    requires c in s0.calls && c in s.calls && c in s'.calls && SoloOk(s0, s, c) && Advance(s, c, i, now, s')
    requires s.calls[c].pc.Lookup? || s.calls[c].pc.Checks? || s.calls[c].pc.ReplyCheck? || s.calls[c].pc.Refetch?
    ensures SoloOk(s0, s', c) && StepsLeft(s0, s', c) < StepsLeft(s0, s, c)
  {
  }

  lemma SoloRead(s0: Sys, s: Sys, c: CallId, i: MessageId, now: nat, s': Sys)
    requires c in s0.calls && c in s.calls && c in s'.calls && SoloOk(s0, s, c) && Advance(s, c, i, now, s')
    requires s.calls[c].pc.Exists? || s.calls[c].pc.ReadMax? || s.calls[c].pc.ResyncRead?
    ensures SoloOk(s0, s', c) && StepsLeft(s0, s', c) < StepsLeft(s0, s, c)
  {
  }

  lemma SoloWrite(s0: Sys, s: Sys, c: CallId, i: MessageId, now: nat, s': Sys)
    requires c in s0.calls && c in s.calls && c in s'.calls && SoloOk(s0, s, c) && Advance(s, c, i, now, s')
    requires s.calls[c].pc.SetNx? || s.calls[c].pc.Incr? || s.calls[c].pc.ResyncSet?
    ensures SoloOk(s0, s', c) && StepsLeft(s0, s', c) < StepsLeft(s0, s, c)
  {
  }

  lemma SoloTell(s0: Sys, s: Sys, c: CallId, i: MessageId, now: nat, s': Sys)
    requires c in s0.calls && c in s.calls && c in s'.calls && SoloOk(s0, s, c) && Advance(s, c, i, now, s')
    requires s.calls[c].pc.Touch? || s.calls[c].pc.Emit?
    ensures SoloOk(s0, s', c) && StepsLeft(s0, s', c) < StepsLeft(s0, s, c)
  {
  }

  lemma SoloStep(s0: Sys, s: Sys, c: CallId, i: MessageId, now: nat, s': Sys)
    requires c in s0.calls && c in s.calls && c in s'.calls
    requires SoloOk(s0, s, c) && Next(s, Step(c, i, now), s')
    ensures SoloOk(s0, s', c) && StepsLeft(s0, s', c) < StepsLeft(s0, s, c)
  {
    match s.calls[c].pc
    case Insert(_, _) => SoloInsert(s0, s, c, i, now, s');
    case Lookup => SoloLookup(s0, s, c, i, now, s');
    case Checks => SoloLookup(s0, s, c, i, now, s');
    case ReplyCheck => SoloLookup(s0, s, c, i, now, s');
    case Refetch => SoloLookup(s0, s, c, i, now, s');
    case Touch(_) => SoloTell(s0, s, c, i, now, s');
    case Emit(_) => SoloTell(s0, s, c, i, now, s');
    case SetNx(_, _) => SoloWrite(s0, s, c, i, now, s');
    case Incr(_) => SoloWrite(s0, s, c, i, now, s');
    case ResyncSet(_, _) => SoloWrite(s0, s, c, i, now, s');
    case _ => SoloRead(s0, s, c, i, now, s');
  }

  /** From `run[0]` on, only call `c` moves. */
  ghost predicate Alone(run: seq<Sys>, acts: seq<Action>, c: CallId) {
    && IsRun(run, acts)
    && c in run[0].calls && run[0].calls[c].pc == Lookup
    && forall i :: 0 <= i < |acts| ==> acts[i].Step? && acts[i].call == c
  }

  lemma {:induction false} SoloRun(run: seq<Sys>, acts: seq<Action>, n: nat, c: CallId)
    requires Alone(run, acts, c) && n < |run|
    ensures c in run[n].calls && SoloOk(run[0], run[n], c) && n + StepsLeft(run[0], run[n], c) <= 13
  {
    if n > 0 {
      SoloRun(run, acts, n - 1, c);
      var s, a, s' := run[n - 1], acts[n - 1], run[n];
      assert Next(s, a, s');
      SendOnce.StepShape(s, c, a.id, a.now, s');
      SoloStep(run[0], s, c, a.id, a.now, s');
    }
  }

  // ------------------------------------------------------------------ the room, seen by number

  /** A new row is one more entry in the index of its room, and no change in the others. */
  lemma IndexAppend(rows: map<MessageId, Message>, i: MessageId, m: Message, room: RoomId)
    requires UniqueRows(rows) && i !in rows && m.seqNo !in Seqs(rows, m.roomId)
    ensures IndexOf(rows[i := m], room) ==
      if room == m.roomId then IndexOf(rows, room)[m.seqNo := m] else IndexOf(rows, room)
  {
    var rows' := rows[i := m];
    forall j | j in rows && rows[j].roomId == room ensures rows[j].seqNo in Seqs(rows', room) {
      assert rows'[j] == rows[j];
    }
    assert m.roomId == room ==> rows'[i].seqNo in Seqs(rows', room);
    forall q | q in Seqs(rows, room) ensures RowAt(rows', room, q) == RowAt(rows, room, q) {
      var j :| j in rows && rows[j].roomId == room && rows[j].seqNo == q;
      OnlyRow(rows, j);
      OnlyRowOfMore(rows, i, m, j);
    }
    if m.roomId == room { OnlyRowOfMore(rows, i, m, i); }
  }

  lemma OnlyRow(rows: map<MessageId, Message>, j: MessageId)
    requires UniqueRows(rows) && j in rows
    ensures rows[j].seqNo in Seqs(rows, rows[j].roomId) && RowAt(rows, rows[j].roomId, rows[j].seqNo) == rows[j]
  {
  }

  lemma OnlyRowOfMore(rows: map<MessageId, Message>, i: MessageId, m: Message, j: MessageId)
    requires UniqueRows(rows) && i !in rows && m.seqNo !in Seqs(rows, m.roomId) && (j == i || j in rows)
    ensures var rows', row := rows[i := m], if j == i then m else rows[j];
      row.seqNo in Seqs(rows', row.roomId) && RowAt(rows', row.roomId, row.seqNo) == row
  {
    var rows', row := rows[i := m], if j == i then m else rows[j];
    assert rows'[j] == row;
    forall k | k in rows' && rows'[k].roomId == row.roomId && rows'[k].seqNo == row.seqNo ensures k == j {
      if k != i { assert rows[k].seqNo in Seqs(rows, rows[k].roomId); }
      if j != i { assert rows[j].seqNo in Seqs(rows, rows[j].roomId); }
    }
  }

  /** The state of a room as the one-request model has it. */
  ghost predicate Shows(s: Sys, st: RoomState) {
    st.log == IndexOf(s.rows, st.roomId) && st.counter == CounterOf(s, st.roomId)
  }

  /**
   * A call that runs alone and returns a new row has done to its room exactly what `Posted` says,
   * whatever the counter was, and has left every other room alone.
   */
  lemma SoloCallPosts(run: seq<Sys>, acts: seq<Action>, n: nat, c: CallId, st: RoomState, other: RoomId)
    requires Alone(run, acts, c) && n < |run| && UniqueRows(run[0].rows)
    requires c in run[n].calls && run[n].calls[c].pc.Returned? && !run[n].calls[c].pc.duplicate
    requires st.roomId == run[n].calls[c].params.roomId && Shows(run[0], st)
    ensures var i, p := run[n].calls[c].pc.id, run[n].calls[c].params;
      && i in run[n].rows
      && !Repeats(st.log, p)
      && Shows(run[n], Posted(st, p, i, run[n].rows[i].createdAt))
    ensures other != st.roomId ==> IndexOf(run[n].rows, other) == IndexOf(run[0].rows, other)
  {
    SoloRun(run, acts, n, c);
    var i, p := run[n].calls[c].pc.id, run[n].calls[c].params;
    assert st.log.Keys == Seqs(run[0].rows, st.roomId);
    IndexAppend(run[0].rows, i, run[n].rows[i], st.roomId);
    IndexAppend(run[0].rows, i, run[n].rows[i], other);
    if Repeats(st.log, p) {
      var q :| q in st.log.Keys && st.log[q].key == p.key;
      var j :| j in run[0].rows && run[0].rows[j].roomId == st.roomId && run[0].rows[j].seqNo == q;
      OnlyRow(run[0].rows, j);
      assert KeyRow(run[0].rows, st.roomId, p.key.value, j);
    }
  }

  /** A call that runs alone and finds its key used returns the row with that key and writes nothing. */
  lemma SoloCallFindsDuplicate(run: seq<Sys>, acts: seq<Action>, n: nat, c: CallId, st: RoomState)
    requires Alone(run, acts, c) && n < |run| && UniqueRows(run[0].rows)
    requires c in run[n].calls && run[n].calls[c].pc.Returned? && run[n].calls[c].pc.duplicate
    requires st.roomId == run[n].calls[c].params.roomId && Shows(run[0], st)
    ensures run[n].rows == run[0].rows
    ensures var i, p := run[n].calls[c].pc.id, run[n].calls[c].params;
      i in run[n].rows && Repeats(st.log, p) && RowOfKey(st.log, p.key.value) == run[n].rows[i]
  {
    SoloRun(run, acts, n, c);
    var i, p := run[n].calls[c].pc.id, run[n].calls[c].params;
    OnlyRow(run[0].rows, i);
    IndexIsTheRoom(run[0].rows, st.roomId);
    assert run[0].rows[i].seqNo in st.log.Keys;
  }

  /** A resend ends with its first lookup: no check, no number drawn. */
  lemma SoloResendIsAnswered(run: seq<Sys>, acts: seq<Action>, c: CallId)
    requires Alone(run, acts, c) && |acts| > 0 && KeyClash(run[0].rows, run[0].calls[c].params)
    requires run[0].calls[c].params.key != Some("")
    ensures |acts| == 1 && run[1].counters == run[0].counters && run[1].rows == run[0].rows
    ensures c in run[1].calls && run[1].calls[c].pc.Returned? && run[1].calls[c].pc.duplicate
  {
    assert Next(run[0], acts[0], run[1]) && acts[0].Step? && acts[0].call == c;
    assert |acts| > 1 ==> acts[1].Step? && acts[1].call == c && Next(run[1], acts[1], run[2]);
  }

  // ------------------------------------------------------------------ a call that runs alone returns

  predicate Ended(pc: Pc) {
    pc.Returned? || pc.Failed?
  }

  ghost predicate CanStep(s: Sys, c: CallId)
    requires c in s.calls
  {
    exists i, now, s' :: Advance(s, c, i, now, s')
  }

  function Goto(s: Sys, c: CallId, pc: Pc): Sys
    requires c in s.calls
  {
    s.(calls := s.calls[c := s.calls[c].(pc := pc)])
  }

  lemma InsertCanStep(s: Sys, c: CallId)
    requires c in s.calls && s.calls[c].pc.Insert?
    ensures CanStep(s, c)
  {
    var p, a, n := s.calls[c].params, s.calls[c].pc.attempt, s.calls[c].pc.seqNo;
    if KeyClash(s.rows, p) {
      assert Advance(s, c, "", 0, Goto(s, c, Refetch));
    } else if SeqClash(s.rows, p, n) {
      assert Advance(s, c, "", 0, Goto(s, c, ResyncRead(a)));
    } else if p.replyTo.Some? && p.replyTo.value !in s.rows {
      assert Advance(s, c, "", 0, Goto(s, c, Failed(Thrown)));
    } else {
      var i := FreshString(s.rows.Keys);
      var s' := Goto(s, c, Touch(i)).(rows := s.rows[i := RowOf(p, i, n, 0)], author := s.author[i := c]);
      assert Advance(s, c, i, 0, s');
    }
  }

  lemma LookupCanStep(s: Sys, c: CallId)
    requires c in s.calls && (s.calls[c].pc.Lookup? || s.calls[c].pc.Refetch?)
    ensures CanStep(s, c)
  {
    var p := s.calls[c].params;
    if p.key.Some? && KeyTaken(s.rows, p.roomId, p.key.value) && (p.key.value != "" || s.calls[c].pc.Refetch?) {
      var i :| KeyRow(s.rows, p.roomId, p.key.value, i);
      assert Advance(s, c, i, 0, Goto(s, c, Returned(i, true)));
    } else if s.calls[c].pc.Refetch? {
      assert Advance(s, c, "", 0, Goto(s, c, Failed(Thrown)));
    } else {
      assert Advance(s, c, "", 0, Goto(s, c, if p.isSystem then Exists(0) else Checks));
    }
  }

  lemma CountCanStep(s: Sys, c: CallId)
    requires c in s.calls && !s.calls[c].pc.Insert? && !s.calls[c].pc.Lookup? && !s.calls[c].pc.Refetch?
    requires !Ended(s.calls[c].pc)
    ensures CanStep(s, c)
  {
    var p := s.calls[c].params;
    var room := p.roomId;
    match s.calls[c].pc
    case Checks => assert Advance(s, c, "", 0, Goto(s, c, Failed(Rejected)));
    case ReplyCheck =>
      var ok := p.replyTo.None? || p.replyTo.value == "" || TargetOk(s, p);
      assert Advance(s, c, "", 0, Goto(s, c, if ok then Exists(0) else Failed(Rejected)));
    case Exists(a) => assert Advance(s, c, "", 0, Goto(s, c, if room in s.counters then Incr(a) else ReadMax(a)));
    case ReadMax(a) => assert Advance(s, c, "", 0, Goto(s, c, SetNx(a, MaxOf(Seqs(s.rows, room)))));
    case SetNx(a, m) =>
      var counters := if room in s.counters then s.counters else s.counters[room := m];
      assert Advance(s, c, "", 0, Goto(s.(counters := counters), c, Incr(a)));
    case Incr(a) =>
      var n := if room in s.counters then s.counters[room] + 1 else 1;
      assert Advance(s, c, "", 0, Goto(s.(counters := s.counters[room := n]), c, Insert(a, n)));
    case ResyncRead(a) => assert Advance(s, c, "", 0, Goto(s, c, ResyncSet(a, MaxOf(Seqs(s.rows, room)))));
    case ResyncSet(a, m) =>
      var pc := if a + 1 < SEQ_RETRY then Exists(a + 1) else Failed(SeqConflict);
      assert Advance(s, c, "", 0, Goto(s.(counters := s.counters[room := m]), c, pc));
    case Touch(i) => assert Advance(s, c, "", 0, Goto(s, c, Emit(i)));
    case Emit(i) => assert Advance(s, c, "", 0, Goto(s.(emitted := s.emitted + [i]), c, Returned(i, false)));
  }

  /** No call is ever stuck. */
  lemma AlwaysCanStep(s: Sys, c: CallId)
    requires c in s.calls && !Ended(s.calls[c].pc)
    ensures CanStep(s, c)
  {
    match s.calls[c].pc
    case Insert(_, _) => InsertCanStep(s, c);
    case Lookup => LookupCanStep(s, c);
    case Refetch => LookupCanStep(s, c);
    case _ => CountCanStep(s, c);
  }

  /** The reply target, if any, is a row of the room. */
  predicate TargetOk(s: Sys, p: Params) {
    p.replyTo.Some? ==> p.replyTo.value in s.rows && s.rows[p.replyTo.value].roomId == p.roomId
  }

  /** The membership, payload and media checks let the call pass. */
  ghost predicate Accepted(run: seq<Sys>, c: CallId) {
    forall k :: 0 < k < |run| ==> PassesChecks(run[k - 1], run[k], c)
  }

  predicate PassesChecks(s: Sys, s': Sys, c: CallId) {
    c in s.calls && c in s'.calls && s.calls[c].pc.Checks? ==> s'.calls[c].pc.ReplyCheck?
  }

  /** On its way to a new row. */
  predicate OnCourse(s: Sys, c: CallId)
    requires c in s.calls
  {
    !s.calls[c].pc.Refetch? && !s.calls[c].pc.Failed? && (s.calls[c].pc.Returned? ==> !s.calls[c].pc.duplicate)
  }

  lemma WhyFailed(s: Sys, c: CallId, i: MessageId, now: nat, s': Sys)
    requires c in s.calls && c in s'.calls && Advance(s, c, i, now, s') && s'.calls[c].pc.Failed?
    ensures s.calls[c].pc.Checks? || s.calls[c].pc.Refetch? || s'.calls[c].pc == Failed(SeqConflict)
      || ((s.calls[c].pc.ReplyCheck? || s.calls[c].pc.Insert?) && !TargetOk(s, s.calls[c].params))
  {
  }

  lemma StaysOnCourse(s0: Sys, s: Sys, c: CallId, i: MessageId, now: nat, s': Sys)
    requires c in s0.calls && c in s.calls && c in s'.calls && SoloOk(s0, s, c) && SoloOk(s0, s', c) && OnCourse(s, c)
    requires Advance(s, c, i, now, s') && PassesChecks(s, s', c)
    requires !KeyClash(s0.rows, s.calls[c].params) && TargetOk(s0, s.calls[c].params)
    ensures OnCourse(s', c)
  {
    if s'.calls[c].pc.Failed? {
      WhyFailed(s, c, i, now, s');
    }
  }

  lemma {:induction false} CourseRun(run: seq<Sys>, acts: seq<Action>, n: nat, c: CallId)
    requires Alone(run, acts, c) && Accepted(run, c) && n < |run|
    requires !KeyClash(run[0].rows, run[0].calls[c].params) && TargetOk(run[0], run[0].calls[c].params)
    ensures c in run[n].calls && OnCourse(run[n], c)
  {
    if n > 0 {
      CourseRun(run, acts, n - 1, c);
      SoloRun(run, acts, n - 1, c);
      SoloRun(run, acts, n, c);
      assert Next(run[n - 1], acts[n - 1], run[n]) && PassesChecks(run[n - 1], run[n], c);
      StaysOnCourse(run[0], run[n - 1], c, acts[n - 1].id, acts[n - 1].now, run[n]);
    }
  }

  /**
   * A call that runs alone ends within thirteen of its own steps, and until then can always go on; with
   * an unused key, accepted by the checks and with a valid reply target, it ends by returning a new row.
   */
  lemma SoloCallReturns(run: seq<Sys>, acts: seq<Action>, c: CallId)
    requires Alone(run, acts, c)
    ensures |acts| <= 13
    ensures c in run[|acts|].calls && (CanStep(run[|acts|], c) <==> !Ended(run[|acts|].calls[c].pc))
    ensures !KeyClash(run[0].rows, run[0].calls[c].params) && TargetOk(run[0], run[0].calls[c].params)
      && Accepted(run, c) && !CanStep(run[|acts|], c)
      ==> run[|acts|].calls[c].pc.Returned? && !run[|acts|].calls[c].pc.duplicate
  {
    SoloRun(run, acts, |acts|, c);
    var last := run[|acts|];
    if !Ended(last.calls[c].pc) { AlwaysCanStep(last, c); }
    if !KeyClash(run[0].rows, run[0].calls[c].params) && TargetOk(run[0], run[0].calls[c].params) && Accepted(run, c) {
      CourseRun(run, acts, |acts|, c);
    }
  }

  /** A call that runs alone never needs a third attempt and never fails with the sequence conflict. */
  lemma SoloCallNeedsTwoAttempts(run: seq<Sys>, acts: seq<Action>, n: nat, c: CallId)
    requires Alone(run, acts, c) && n < |run|
    ensures c in run[n].calls && run[n].calls[c].pc != Failed(SeqConflict)
    ensures match run[n].calls[c].pc
            case Exists(a) => a <= 1
            case Insert(a, _) => a <= 1
            case ResyncRead(a) => a == 0
            case _ => true
  {
    SoloRun(run, acts, n, c);
  }
}
