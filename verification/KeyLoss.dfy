/**
 * When the loss of a counter key does harm: exactly when a call needs the key. Then, without any
 * further loss, numbers can collide and their order can turn against real time.
 */
module KeyLoss {
  import opened Common
  import opened Domain
  import opened SendProtocol
  import opened SendOnce
  import opened SendOrder

  // ------------------------------------------------------------------ continuations without key loss

  ghost predicate Path(s: Sys, run: seq<Sys>, acts: seq<Action>, s': Sys) {
    && IsRun(run, acts) && run[0] == s && run[|acts|] == s'
    && forall i :: 0 <= i < |acts| ==> !acts[i].LoseKey?
  }

  ghost predicate Reach(s: Sys, s': Sys) {
    exists run, acts :: Path(s, run, acts, s')
  }

  lemma ReachStep(s: Sys, a: Action, s': Sys)
    requires Next(s, a, s') && !a.LoseKey?
    ensures Reach(s, s')
  {
    assert Path(s, [s, s'], [a], s');
  }

  lemma ReachJoin(s: Sys, t: Sys, u: Sys)
    requires Reach(s, t) && Reach(t, u)
    ensures Reach(s, u)
  {
    var run1, acts1 :| Path(s, run1, acts1, t);
    var run2, acts2 :| Path(t, run2, acts2, u);
    var n := |acts1|;
    var run, acts := run1[..n] + run2, acts1 + acts2;
    forall i | 0 <= i < |acts| ensures Next(run[i], acts[i], run[i + 1]) {
      if i < n {
        assert Next(run1[i], acts1[i], run1[i + 1]);
      } else {
        assert Next(run2[i - n], acts2[i - n], run2[i - n + 1]);
      }
    }
    assert Path(s, run, acts, u);
  }

  // ------------------------------------------------------------------ fresh calls that draw numbers

  /** A SYSTEM message of the room, which passes every check. */
  function Notice(room: RoomId): Params {
    SystemParams(room, "user", AvatarChanged("user"))
  }

  function With(s: Sys, c: CallId, room: RoomId, pc: Pc): Sys {
    s.(calls := s.calls[c := Call(Notice(room), pc)])
  }

  function Moved(s: Sys, c: CallId, pc: Pc): Sys
    requires c in s.calls
  {
    s.(calls := s.calls[c := s.calls[c].(pc := pc)])
  }

  /** The counter a call finds or makes. */
  ghost function Base(s: Sys, room: RoomId): nat {
    if room in s.counters then s.counters[room] else MaxOf(Seqs(s.rows, room))
  }

  lemma Enters(s: Sys, room: RoomId) returns (f: CallId, s': Sys)
    ensures f !in s.calls && Reach(s, s')
    ensures s' == With(s.(counters := s.counters[room := Base(s, room)]), f, room, Incr(0))
  {
    f := MaxOf(s.calls.Keys) + 1;
    var s1, s2 := With(s, f, room, Lookup), With(s, f, room, Exists(0));
    ReachStep(s, Begin(f, Notice(room)), s1);
    ReachStep(s1, Step(f, "", 0), s2);
    ReachJoin(s, s1, s2);
    s' := With(s.(counters := s.counters[room := Base(s, room)]), f, room, Incr(0));
    if room in s.counters {
      assert s.counters == s.counters[room := Base(s, room)];
      ReachStep(s2, Step(f, "", 0), s');
    } else {
      InitialisesCounter(s, f, room, s2, s');
    }
    ReachJoin(s, s2, s');
  }

  lemma InitialisesCounter(s: Sys, f: CallId, room: RoomId, s2: Sys, s': Sys)
    requires room !in s.counters && s2 == With(s, f, room, Exists(0))
    requires s' == With(s.(counters := s.counters[room := Base(s, room)]), f, room, Incr(0))
    ensures Reach(s2, s')
  {
    var s3, s4 := With(s, f, room, ReadMax(0)), With(s, f, room, SetNx(0, Base(s, room)));
    ReachStep(s2, Step(f, "", 0), s3);
    ReachStep(s3, Step(f, "", 0), s4);
    ReachStep(s4, Step(f, "", 0), s');
    ReachJoin(s2, s3, s4);
    ReachJoin(s2, s4, s');
  }

  lemma Draws(s: Sys, room: RoomId) returns (f: CallId, s': Sys)
    ensures var n := Base(s, room) + 1;
      && f !in s.calls && Reach(s, s')
      && s' == With(s.(counters := s.counters[room := n]), f, room, Insert(0, n))
  {
    var n := Base(s, room) + 1;
    var s1: Sys;
    f, s1 := Enters(s, room);
    s' := With(s.(counters := s.counters[room := n]), f, room, Insert(0, n));
    ReachStep(s1, Step(f, "", 0), s');
    ReachJoin(s, s1, s');
  }

  /** Only the counter of the room has changed, and new calls have begun, `f` holding `n`. */
  predicate Holding(s: Sys, s': Sys, room: RoomId, f: CallId, n: nat) {
    && s'.rows == s.rows && s'.counters == s.counters[room := n]
    && (forall c :: c in s.calls ==> c in s'.calls && s'.calls[c] == s.calls[c])
    && f !in s.calls && f in s'.calls && s'.calls[f] == Call(Notice(room), Insert(0, n))
  }

  lemma {:induction false} DrawsUpTo(s: Sys, room: RoomId, n: nat) returns (f: CallId, s': Sys)
    requires Base(s, room) < n
    ensures Reach(s, s') && Holding(s, s', room, f, n)
    decreases n - Base(s, room)
  {
    f, s' := Draws(s, room);
    if Base(s, room) + 1 < n {
      var s1 := s';
      f, s' := DrawsUpTo(s1, room, n);
      ReachJoin(s, s1, s');
    }
  }

  /** The row `f` writes, and all that changes until it has returned. */
  function Completed(s: Sys, f: CallId, room: RoomId, n: nat, i: MessageId): Sys {
    With(s.(rows := s.rows[i := RowOf(Notice(room), i, n, 0)], author := s.author[i := f], emitted := s.emitted + [i]),
         f, room, Returned(i, false))
  }

  lemma Completes(s: Sys, f: CallId, room: RoomId, n: nat) returns (i: MessageId, s': Sys)
    requires f in s.calls && s.calls[f] == Call(Notice(room), Insert(0, n)) && n !in Seqs(s.rows, room)
    ensures i !in s.rows && Reach(s, s') && s' == Completed(s, f, room, n, i)
  {
    i := FreshString(s.rows.Keys);
    var written := s.(rows := s.rows[i := RowOf(Notice(room), i, n, 0)], author := s.author[i := f]);
    var s1, s2 := With(written, f, room, Touch(i)), With(written, f, room, Emit(i));
    s' := Completed(s, f, room, n, i);
    ReachStep(s, Step(f, i, 0), s1);
    ReachStep(s1, Step(f, i, 0), s2);
    ReachStep(s2, Step(f, i, 0), s');
    ReachJoin(s, s1, s2);
    ReachJoin(s, s2, s');
  }

  lemma SeqsWith(rows: map<MessageId, Message>, i: MessageId, m: Message, room: RoomId)
    requires i !in rows && m.roomId == room
    ensures Seqs(rows[i := m], room) == Seqs(rows, room) + {m.seqNo}
  {
    forall x | x in Seqs(rows, room) ensures x in Seqs(rows[i := m], room) {
      var j :| j in rows && rows[j].roomId == room && rows[j].seqNo == x;
      assert rows[i := m][j] == rows[j];
    }
    assert rows[i := m][i].seqNo in Seqs(rows[i := m], room);
  }

  // ------------------------------------------------------------------ from a needed key to a collision

  ghost predicate Collided(s: Sys, room: RoomId) {
    exists c :: c in s.calls && s.calls[c].params.roomId == room && s.calls[c].pc.ResyncRead?
  }

  lemma Collides(s: Sys, c: CallId, s0: Sys) returns (s': Sys)
    requires Reach(s0, s) && c in s.calls && s.calls[c].pc.Insert?
    requires s.calls[c].pc.seqNo in Seqs(s.rows, s.calls[c].params.roomId)
    ensures Reach(s0, s') && Collided(s', s.calls[c].params.roomId)
  {
    s' := Moved(s, c, ResyncRead(s.calls[c].pc.attempt));
    assert InsertStep(s, c, "", 0, s');
    ReachStep(s, Step(c, "", 0), s');
    ReachJoin(s0, s, s');
    assert s'.calls[c].pc.ResyncRead?;
  }

  /** A counter behind the table: fresh calls draw up to a number that is taken. */
  lemma LaggingCollides(s0: Sys, s: Sys, room: RoomId) returns (s': Sys)
    requires Reach(s0, s) && room in s.counters && s.counters[room] < MaxOf(Seqs(s.rows, room))
    ensures Reach(s0, s') && Collided(s', room)
  {
    var f, s1 := DrawsUpTo(s, room, MaxOf(Seqs(s.rows, room)));
    ReachJoin(s0, s, s1);
    s' := Collides(s1, f, s0);
  }

  /** A number held beyond the table: fresh calls, counting from the table, draw it again. */
  lemma HeldCollides(lost: Sys, room: RoomId, c: CallId) returns (s': Sys)
    requires room !in lost.counters && c in lost.calls && lost.calls[c].params.roomId == room
    requires lost.calls[c].pc.Insert? && AllBelow(Seqs(lost.rows, room), lost.calls[c].pc.seqNo)
    requires lost.calls[c].pc.seqNo > 0
    ensures Reach(lost, s') && Collided(s', room)
  {
    var n := lost.calls[c].pc.seqNo;
    var f, s1 := DrawsUpTo(lost, room, n);
    var i, s2 := Completes(s1, f, room, n);
    ReachJoin(lost, s1, s2);
    SeqsWith(s1.rows, i, RowOf(Notice(room), i, n, 0), room);
    s' := Collides(s2, c, lost);
  }

  lemma HarmCollides(s: Sys, room: RoomId, c: CallId, lost: Sys) returns (s': Sys)
    requires SeqInv(s) && c in s.calls && NeedsKey(s, c, room) && Next(s, LoseKey(room), lost)
    ensures Reach(lost, s') && Collided(s', room)
  {
    assert PcOk(s, c);
    match s.calls[c].pc
    case SetNx(a, m) =>
      var s1 := Moved(lost.(counters := lost.counters[room := m]), c, Incr(a));
      ReachStep(lost, Step(c, "", 0), s1);
      s' := LaggingCollides(lost, s1, room);
    case Incr(a) =>
      var s1 := Moved(lost.(counters := lost.counters[room := 1]), c, Insert(a, 1));
      ReachStep(lost, Step(c, "", 0), s1);
      if 1 in Seqs(s.rows, room) {
        s' := Collides(s1, c, lost);
      } else {
        s' := LaggingCollides(lost, s1, room);
      }
    case Insert(_, _) =>
      s' := HeldCollides(lost, room, c);
  }

  // ------------------------------------------------------------------ from a collision to reversed order

  /**
   * The maximum a resync has read can be outdated when it is set: a fresh call returns a number two
   * beyond, then the resync winds the counter back, and a later call returns a smaller number.
   */
  lemma CollisionReverses(s: Sys, room: RoomId) returns (s1: Sys, s2: Sys)
    requires Collided(s, room)
    ensures Reach(s, s1) && Reach(s1, s2) && !InOrder(s1, s2, room)
  {
    var d :| d in s.calls && s.calls[d].params.roomId == room && s.calls[d].pc.ResyncRead?;
    var a, top := s.calls[d].pc.attempt, MaxOf(Seqs(s.rows, room));
    var read := Moved(s, d, ResyncSet(a, top));
    ReachStep(s, Step(d, "", 0), read);
    var n := if Base(read, room) > top then Base(read, room) + 2 else top + 2;
    var f, held := DrawsUpTo(read, room, n);
    var i: MessageId;
    i, s1 := Completes(held, f, room, n);
    ReachJoin(s, read, held);
    ReachJoin(s, held, s1);
    SeqsWith(s.rows, i, RowOf(Notice(room), i, n, 0), room);
    var g: CallId;
    g, s2 := WindsBack(s1, d, room);
    assert HasReturned(s1, f, room) && HasReturnedNew(s2, g, room);
  }

  lemma WindsBack(s1: Sys, d: CallId, room: RoomId) returns (g: CallId, s2: Sys)
    requires d in s1.calls && s1.calls[d].params.roomId == room && s1.calls[d].pc.ResyncSet?
    requires s1.calls[d].pc.max + 1 !in Seqs(s1.rows, room)
    ensures Reach(s1, s2) && g !in s1.calls && HasReturnedNew(s2, g, room)
    ensures s2.calls[g].pc.id in s2.rows && s2.rows[s2.calls[g].pc.id].seqNo == s1.calls[d].pc.max + 1
  {
    var a, top := s1.calls[d].pc.attempt, s1.calls[d].pc.max;
    var pc := if a + 1 < SEQ_RETRY then Exists(a + 1) else Failed(SeqConflict);
    var back := Moved(s1.(counters := s1.counters[room := top]), d, pc);
    ReachStep(s1, Step(d, "", 0), back);
    var held: Sys, j: MessageId;
    g, held := Draws(back, room);
    j, s2 := Completes(held, g, room, top + 1);
    ReachJoin(s1, back, held);
    ReachJoin(s1, held, s2);
  }

  // ------------------------------------------------------------------ the exact condition

  /** No continuation makes an insert of the room lose on its number. */
  ghost predicate NeverCollides(s: Sys, room: RoomId) {
    forall s1 :: Reach(s, s1) ==> !Collided(s1, room)
  }

  /** In every continuation numbers of the room follow real time. */
  ghost predicate StaysInOrder(s: Sys, room: RoomId) {
    forall s1, s2 :: Reach(s, s1) && Reach(s1, s2) ==> InOrder(s1, s2, room)
  }

  lemma InvContinues(s: Sys, s': Sys, room: RoomId)
    requires OnceInv(s) && SeqInv(s) && Reach(s, s')
    ensures OnceInv(s') && SeqInv(s') && !Collided(s', room)
  {
    var run, acts :| Path(s, run, acts, s');
    OnceRun(run, acts, |acts|);
    SeqRun(run, acts, |acts|);
    forall c | c in s'.calls ensures !s'.calls[c].pc.ResyncRead? { assert PcOk(s', c); }
  }

  lemma OrderContinues(s: Sys, s': Sys, room: RoomId)
    requires OnceInv(s) && SeqInv(s) && Reach(s, s')
    ensures InOrder(s, s', room)
  {
    var run, acts :| Path(s, run, acts, s');
    OrderRun(run, acts, 0, |acts|, room);
  }

  /**
   * Losing a counter key is safe exactly if no call of the room needs it: otherwise, and without any
   * further loss, inserts can collide, and a call can return a smaller number than one before it.
   */
  lemma LossIsSafeIff(s: Sys, room: RoomId, lost: Sys)
    requires OnceInv(s) && SeqInv(s) && Next(s, LoseKey(room), lost)
    ensures NeverCollides(lost, room) <==> Harmless(s, room)
    ensures StaysInOrder(lost, room) <==> Harmless(s, room)
  {
    if Harmless(s, room) {
      OnceStep(s, LoseKey(room), lost);
      LossKeepsInv(s, room, lost);
      forall s1 | Reach(lost, s1) ensures !Collided(s1, room) { InvContinues(lost, s1, room); }
      forall s1, s2 | Reach(lost, s1) && Reach(s1, s2) ensures InOrder(s1, s2, room) {
        InvContinues(lost, s1, room);
        OrderContinues(s1, s2, room);
      }
    } else {
      var c :| c in s.calls && NeedsKey(s, c, room);
      var s1 := HarmCollides(s, room, c, lost);
      var s2, s3 := CollisionReverses(s1, room);
      ReachJoin(lost, s1, s2);
    }
  }

  /** From an orderly table, one loss between the EXISTS and the INCR of a call can reverse the order. */
  lemma LossReversesOrder(room: RoomId) returns (s0: Sys, s: Sys, lost: Sys, s1: Sys, s2: Sys)
    ensures Init(s0) && CountersAhead(s0)
    ensures Reach(s0, s) && Next(s, LoseKey(room), lost) && Reach(lost, s1) && Reach(s1, s2)
    ensures !InOrder(s1, s2, room)
  {
    var row := RowOf(Notice(room), "first", 1, 0);
    s0 := Sys(map[room := 1], map["first" := row], map[], [], map[]);
    assert Seqs(s0.rows, room) == {1} by { assert s0.rows["first"].seqNo in Seqs(s0.rows, room); }
    var c: CallId;
    c, s := Enters(s0, room);
    lost := s.(counters := s.counters - {room});
    InitInv(s0);
    InvContinues(s0, s, room);
    assert NeedsKey(s, c, room);
    LossIsSafeIff(s, room, lost);
    s1, s2 :| Reach(lost, s1) && Reach(s1, s2) && !InOrder(s1, s2, room);
  }
}
