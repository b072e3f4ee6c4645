/**
 * Sequence numbers while no counter key is lost under a call that needs it: collisions cannot happen
 * and numbers follow real time.
 */
module SendOrder {
  import opened Common
  import opened Domain
  import opened SendProtocol
  import opened SendOnce

  predicate AllAtMost(s: set<nat>, m: nat) {
    forall x :: x in s ==> x <= m
  }

  predicate AllBelow(s: set<nat>, n: nat) {
    forall x :: x in s ==> x < n
  }

  /** Every counter that exists is at or ahead of the rows of its room. */
  ghost predicate CountersAhead(s: Sys) {
    forall r :: r in s.counters ==> AllAtMost(Seqs(s.rows, r), s.counters[r])
  }

  /**
   * No retry has begun; a number in flight is not yet used, and not beyond the counter or, without a
   * counter, beyond the table, from which the counter will be made again.
   */
  ghost predicate PcOk(s: Sys, c: CallId)
    requires c in s.calls
  {
    var room := s.calls[c].params.roomId;
    match s.calls[c].pc
    case Exists(a) => a == 0
    case ReadMax(a) => a == 0
    case SetNx(a, m) => a == 0 && (room in s.counters || AllAtMost(Seqs(s.rows, room), m))
    case Incr(a) => a == 0 && (room in s.counters || AllAtMost(Seqs(s.rows, room), 0))
    case Insert(a, n) =>
      && a == 0 && n > 0 && n !in Seqs(s.rows, room)
      && (if room in s.counters then n <= s.counters[room] else !AllBelow(Seqs(s.rows, room), n))
    case ResyncRead(_) => false
    case ResyncSet(_, _) => false
    case Failed(why) => why != SeqConflict
    case _ => true
  }

  /** Numbers in flight in one room are pairwise distinct. */
  predicate HeldDistinct(s: Sys) {
    forall c, d :: c in s.calls && d in s.calls && c != d
      && s.calls[c].pc.Insert? && s.calls[d].pc.Insert?
      && s.calls[c].params.roomId == s.calls[d].params.roomId
      ==> s.calls[c].pc.seqNo != s.calls[d].pc.seqNo
  }

  ghost predicate SeqInv(s: Sys) {
    CountersAhead(s) && (forall c :: c in s.calls ==> PcOk(s, c)) && HeldDistinct(s)
  }

  /**
   * The call would come into conflict without the counter key: it holds a number beyond the table,
   * or is about to count from an outdated maximum, or from nothing in a room that has rows.
   */
  ghost predicate NeedsKey(s: Sys, c: CallId, room: RoomId)
    requires c in s.calls
  {
    s.calls[c].params.roomId == room &&
      match s.calls[c].pc
      case SetNx(_, m) => !AllAtMost(Seqs(s.rows, room), m)
      case Incr(_) => !AllAtMost(Seqs(s.rows, room), 0)
      case Insert(_, n) => AllBelow(Seqs(s.rows, room), n)
      case _ => false
  }

  ghost predicate Harmless(s: Sys, room: RoomId) {
    forall c :: c in s.calls ==> !NeedsKey(s, c, room)
  }

  /** Counter keys vanish, if at all, only when no call of their room needs them. */
  ghost predicate HarmlessLosses(run: seq<Sys>, acts: seq<Action>)
    requires |run| == |acts| + 1
  {
    forall i :: 0 <= i < |acts| && acts[i].LoseKey? ==> Harmless(run[i], acts[i].room)
  }

  lemma LossKeepsInv(s: Sys, room: RoomId, s': Sys)
    requires SeqInv(s) && Harmless(s, room) && Next(s, LoseKey(room), s')
    ensures SeqInv(s')
  {
    forall c | c in s'.calls ensures PcOk(s', c) {
      assert PcOk(s, c) && !NeedsKey(s, c, room);
    }
  }

  /** How a step changes the numbers in use and the counters of a room. */
  lemma SeqsChange(s: Sys, c: CallId, i: MessageId, now: nat, s': Sys, r: RoomId)
    requires c in s.calls && Advance(s, c, i, now, s') && PcOk(s, c)
    ensures s'.rows == s.rows || (s.calls[c].pc.Insert? && s'.calls[c].pc.Touch?)
    ensures Seqs(s'.rows, r) ==
      if s'.rows != s.rows && s.calls[c].params.roomId == r then Seqs(s.rows, r) + {s.calls[c].pc.seqNo}
      else Seqs(s.rows, r)
    ensures r in s.counters ==> r in s'.counters && s.counters[r] <= s'.counters[r]
    ensures r != s.calls[c].params.roomId ==> (r in s.counters <==> r in s'.counters)
    ensures r != s.calls[c].params.roomId && r in s.counters ==> s'.counters[r] == s.counters[r]
  {
    StepShape(s, c, i, now, s');
    if s'.rows != s.rows {
      assert s'.rows == s.rows[i := s'.rows[i]];
      forall x | x in Seqs(s.rows, r) ensures x in Seqs(s'.rows, r) {
        var j :| j in s.rows && s.rows[j].roomId == r && s.rows[j].seqNo == x;
        assert s'.rows[j] == s.rows[j];
      }
      if s.calls[c].params.roomId == r { assert s'.rows[i].seqNo in Seqs(s'.rows, r); }
    }
  }

  /** The other calls are not disturbed by a step of `c`. */
  lemma PcFrame(s: Sys, c: CallId, i: MessageId, now: nat, s': Sys, d: CallId)
    requires c in s.calls && d in s.calls && d != c && Advance(s, c, i, now, s')
    requires PcOk(s, c) && PcOk(s, d) && s'.calls[d] == s.calls[d]
    requires s.calls[c].pc.Insert? && s.calls[d].pc.Insert? && s.calls[c].params.roomId == s.calls[d].params.roomId
      ==> s.calls[c].pc.seqNo != s.calls[d].pc.seqNo
    ensures PcOk(s', d)
  {
    SeqsChange(s, c, i, now, s', s.calls[d].params.roomId);
  }

  /** What INCR returns. */
  function Drawn(s: Sys, room: RoomId): nat {
    if room in s.counters then s.counters[room] + 1 else 1
  }

  /** A number drawn is above every number of the room, persisted or in flight. */
  lemma DrawnIsNew(s: Sys, c: CallId, d: CallId)
    requires CountersAhead(s) && c in s.calls && PcOk(s, c) && s.calls[c].pc.Incr?
    requires d in s.calls && PcOk(s, d) && s.calls[d].params.roomId == s.calls[c].params.roomId
    ensures AllBelow(Seqs(s.rows, s.calls[c].params.roomId), Drawn(s, s.calls[c].params.roomId))
    ensures s.calls[d].pc.Insert? ==> s.calls[d].pc.seqNo < Drawn(s, s.calls[c].params.roomId)
  {
  }

  lemma PcMove(s: Sys, c: CallId, i: MessageId, now: nat, s': Sys)
    requires CountersAhead(s) && c in s.calls && c in s'.calls && PcOk(s, c) && Advance(s, c, i, now, s')
    ensures PcOk(s', c)
  {
    var room := s.calls[c].params.roomId;
    if s.calls[c].pc.Insert? {
      assert !SeqClash(s.rows, s.calls[c].params, s.calls[c].pc.seqNo);
    } else if s.calls[c].pc.Incr? {
      DrawnIsNew(s, c, c);
      assert s'.counters[room] == Drawn(s, room) && Drawn(s, room) !in Seqs(s.rows, room);
    }
  }

  lemma AheadMove(s: Sys, c: CallId, i: MessageId, now: nat, s': Sys)
    requires CountersAhead(s) && c in s.calls && PcOk(s, c) && Advance(s, c, i, now, s')
    ensures CountersAhead(s')
  {
    forall r | r in s'.counters ensures AllAtMost(Seqs(s'.rows, r), s'.counters[r]) {
      SeqsChange(s, c, i, now, s', r);
    }
  }

  lemma HeldMove(s: Sys, c: CallId, i: MessageId, now: nat, s': Sys)
    requires SeqInv(s) && c in s.calls && Advance(s, c, i, now, s')
    ensures HeldDistinct(s')
  {
    StepShape(s, c, i, now, s');
    assert PcOk(s, c);
    if s'.calls[c].pc.Insert? {
      var room := s.calls[c].params.roomId;
      assert s.calls[c].pc.Incr? && s'.calls[c].pc.seqNo == Drawn(s, room);
      forall d | d in s.calls && d != c && s.calls[d].pc.Insert? && s.calls[d].params.roomId == room
        ensures s.calls[d].pc.seqNo != s'.calls[c].pc.seqNo
      {
        DrawnIsNew(s, c, d);
      }
    }
  }

  lemma SeqStep(s: Sys, a: Action, s': Sys)
    requires SeqInv(s) && Next(s, a, s') && (a.LoseKey? ==> Harmless(s, a.room))
    ensures SeqInv(s')
  {
    if a.LoseKey? {
      LossKeepsInv(s, a.room, s');
    } else if a.Step? {
      var c, i, now := a.call, a.id, a.now;
      StepShape(s, c, i, now, s');
      AheadMove(s, c, i, now, s');
      HeldMove(s, c, i, now, s');
      forall d | d in s'.calls ensures PcOk(s', d) {
        assert PcOk(s, d) && PcOk(s, c);
        if d == c { PcMove(s, c, i, now, s'); } else { PcFrame(s, c, i, now, s', d); }
      }
    } else {
      SeqStepElsewhere(s, a, s');
    }
  }

  lemma SeqStepElsewhere(s: Sys, a: Action, s': Sys)
    requires SeqInv(s) && Next(s, a, s') && !a.LoseKey? && !a.Step?
    ensures SeqInv(s')
  {
    forall r ensures Seqs(s'.rows, r) == Seqs(s.rows, r) {
      UnsendKeepsSeqs(s, a, s', r);
    }
    forall d | d in s'.calls ensures PcOk(s', d) {
      if d in s.calls { assert PcOk(s, d); }
    }
  }

  lemma UnsendKeepsSeqs(s: Sys, a: Action, s': Sys, r: RoomId)
    requires Next(s, a, s') && !a.Step?
    ensures Seqs(s'.rows, r) == Seqs(s.rows, r)
  {
    forall x | x in Seqs(s.rows, r) ensures x in Seqs(s'.rows, r) {
      var j :| j in s.rows && s.rows[j].roomId == r && s.rows[j].seqNo == x;
      assert j in s'.rows && s'.rows[j].roomId == r && s'.rows[j].seqNo == x;
    }
    forall x | x in Seqs(s'.rows, r) ensures x in Seqs(s.rows, r) {
      var j :| j in s'.rows && s'.rows[j].roomId == r && s'.rows[j].seqNo == x;
      assert j in s.rows && s.rows[j].roomId == r && s.rows[j].seqNo == x;
    }
  }

  lemma {:induction false} SeqRun(run: seq<Sys>, acts: seq<Action>, n: nat)
    requires IsRun(run, acts) && HarmlessLosses(run, acts) && n < |run| && SeqInv(run[0])
    ensures SeqInv(run[n])
  {
    if n > 0 {
      SeqRun(run, acts, n - 1);
      SeqStep(run[n - 1], acts[n - 1], run[n]);
    }
  }

  /**
   * With every counter missing or ahead at the start and keys lost only where no call needs them:
   * numbers held in flight differ from each other and from every persisted number; a counter that
   * exists covers both; and no call ever resyncs or fails with the sequence conflict.
   */
  lemma CollisionsUnreachable(run: seq<Sys>, acts: seq<Action>, n: nat, c: CallId)
    requires IsRun(run, acts) && HarmlessLosses(run, acts) && n < |run| && c in run[n].calls
    requires run[0].calls == map[] && CountersAhead(run[0])
    ensures !run[n].calls[c].pc.ResyncRead? && !run[n].calls[c].pc.ResyncSet?
    ensures run[n].calls[c].pc != Failed(SeqConflict)
    ensures run[n].calls[c].pc.Insert? ==>
      var r, q := run[n].calls[c].params.roomId, run[n].calls[c].pc.seqNo;
      && q !in Seqs(run[n].rows, r)
      && (if r in run[n].counters then q <= run[n].counters[r] else !AllBelow(Seqs(run[n].rows, r), q))
      && forall d :: d in run[n].calls && d != c && run[n].calls[d].pc.Insert? && run[n].calls[d].params.roomId == r
           ==> run[n].calls[d].pc.seqNo != q
    ensures forall r :: r in run[n].counters ==> AllAtMost(Seqs(run[n].rows, r), run[n].counters[r])
  {
    SeqRun(run, acts, n);
    assert PcOk(run[n], c);
  }

  // ------------------------------------------------------------------ numbers follow real time

  /** A call outside `earlier` holds or has inserted only numbers above everything in `base`. */
  predicate LateOk(s: Sys, room: RoomId, base: set<nat>, earlier: set<CallId>, c: CallId)
    requires c in s.calls
  {
    c !in earlier && s.calls[c].params.roomId == room ==>
      match s.calls[c].pc
      case Insert(_, n) => forall x :: x in base ==> x < n
      case Touch(i) => i in s.rows && forall x :: x in base ==> x < s.rows[i].seqNo
      case Emit(i) => i in s.rows && forall x :: x in base ==> x < s.rows[i].seqNo
      case Returned(i, duplicate) => duplicate || (i in s.rows && forall x :: x in base ==> x < s.rows[i].seqNo)
      case _ => true
  }

  lemma LateMove(s: Sys, c: CallId, i: MessageId, now: nat, s': Sys, room: RoomId, base: set<nat>, earlier: set<CallId>)
    requires CountersAhead(s) && c in s.calls && c in s'.calls && PcOk(s, c) && Advance(s, c, i, now, s')
    requires base <= Seqs(s.rows, room) && LateOk(s, room, base, earlier, c)
    ensures LateOk(s', room, base, earlier, c)
  {
    StepShape(s, c, i, now, s');
    if s.calls[c].pc.Incr? && s.calls[c].params.roomId == room {
      DrawnIsNew(s, c, c);
    }
  }

  lemma LateStep(s: Sys, a: Action, s': Sys, room: RoomId, base: set<nat>, earlier: set<CallId>)
    requires CountersAhead(s) && (forall c :: c in s.calls ==> PcOk(s, c)) && Next(s, a, s')
    requires base <= Seqs(s.rows, room) && earlier <= s.calls.Keys
    requires forall c :: c in s.calls ==> LateOk(s, room, base, earlier, c)
    ensures base <= Seqs(s'.rows, room) && earlier <= s'.calls.Keys
    ensures forall c :: c in s'.calls ==> LateOk(s', room, base, earlier, c)
  {
    if a.Step? {
      var c, i, now := a.call, a.id, a.now;
      assert PcOk(s, c);
      SeqsChange(s, c, i, now, s', room);
      StepShape(s, c, i, now, s');
      forall d | d in s'.calls ensures LateOk(s', room, base, earlier, d) {
        assert LateOk(s, room, base, earlier, d);
        if d == c { LateMove(s, c, i, now, s', room, base, earlier); }
      }
    } else {
      UnsendKeepsSeqs(s, a, s', room);
      forall d | d in s'.calls ensures LateOk(s', room, base, earlier, d) {
        LateElsewhere(s, a, s', room, base, earlier, d);
      }
    }
  }

  lemma LateElsewhere(s: Sys, a: Action, s': Sys, room: RoomId, base: set<nat>, earlier: set<CallId>, d: CallId)
    requires Next(s, a, s') && !a.Step? && d in s'.calls
    requires d in s.calls ==> LateOk(s, room, base, earlier, d)
    ensures LateOk(s', room, base, earlier, d)
  {
  }

  lemma {:induction false} LateRun(run: seq<Sys>, acts: seq<Action>, m: nat, n: nat, room: RoomId)
    requires IsRun(run, acts) && HarmlessLosses(run, acts) && m <= n < |run|
    requires SeqInv(run[0])
    ensures Seqs(run[m].rows, room) <= Seqs(run[n].rows, room) && run[m].calls.Keys <= run[n].calls.Keys
    ensures forall c :: c in run[n].calls ==>
      LateOk(run[n], room, Seqs(run[m].rows, room), run[m].calls.Keys, c)
  {
    if m < n {
      LateRun(run, acts, m, n - 1, room);
      SeqRun(run, acts, n - 1);
      LateStep(run[n - 1], acts[n - 1], run[n], room, Seqs(run[m].rows, room), run[m].calls.Keys);
    }
  }

  /** Call `c` has returned a row of the room. */
  predicate HasReturned(s: Sys, c: CallId, room: RoomId) {
    c in s.calls && s.calls[c].params.roomId == room && s.calls[c].pc.Returned?
  }

  predicate HasReturnedNew(s: Sys, c: CallId, room: RoomId) {
    HasReturned(s, c, room) && !s.calls[c].pc.duplicate
  }

  predicate SmallerSeq(s: Sys, i: MessageId, s': Sys, j: MessageId) {
    i in s.rows && j in s'.rows && s.rows[i].seqNo < s'.rows[j].seqNo
  }

  /**
   * Real-time order of two instants: whatever has been returned by `s` has a smaller number than
   * whatever a call that begins after `s` has newly returned by `s'`.
   */
  ghost predicate InOrder(s: Sys, s': Sys, room: RoomId) {
    forall c, d :: HasReturned(s, c, room) && d !in s.calls && HasReturnedNew(s', d, room) ==>
      SmallerSeq(s, s.calls[c].pc.id, s', s'.calls[d].pc.id)
  }

  lemma ReturnedRow(s: Sys, c: CallId, room: RoomId)
    requires OnceInv(s) && HasReturned(s, c, room)
    ensures s.calls[c].pc.id in s.rows && s.rows[s.calls[c].pc.id].seqNo in Seqs(s.rows, room)
  {
    assert CallOk(s, c);
  }

  lemma LateIsLarger(s: Sys, s': Sys, room: RoomId, c: CallId, d: CallId)
    requires OnceInv(s) && HasReturned(s, c, room) && d !in s.calls && HasReturnedNew(s', d, room)
    requires LateOk(s', room, Seqs(s.rows, room), s.calls.Keys, d)
    ensures SmallerSeq(s, s.calls[c].pc.id, s', s'.calls[d].pc.id)
  {
    ReturnedRow(s, c, room);
  }

  lemma OrderRun(run: seq<Sys>, acts: seq<Action>, m: nat, n: nat, room: RoomId)
    requires IsRun(run, acts) && HarmlessLosses(run, acts) && m <= n < |run|
    requires OnceInv(run[0]) && SeqInv(run[0])
    ensures InOrder(run[m], run[n], room)
  {
    OnceRun(run, acts, m);
    LateRun(run, acts, m, n, room);
    forall c, d | HasReturned(run[m], c, room) && d !in run[m].calls && HasReturnedNew(run[n], d, room)
      ensures SmallerSeq(run[m], run[m].calls[c].pc.id, run[n], run[n].calls[d].pc.id)
    {
      LateIsLarger(run[m], run[n], room, c, d);
    }
  }

  lemma InitInv(s: Sys)
    requires Init(s) && CountersAhead(s)
    ensures OnceInv(s) && SeqInv(s)
  {
  }

  /**
   * Sequence order extends real-time order: a call that begins after another call of the room has
   * returned, and that persists a new row, gets the larger number.
   */
  lemma LaterCallGetsLargerSeq(run: seq<Sys>, acts: seq<Action>, m: nat, n: nat, c: CallId, d: CallId)
    requires IsRun(run, acts) && HarmlessLosses(run, acts) && m <= n < |run|
    requires Init(run[0]) && CountersAhead(run[0])
    requires c in run[m].calls && run[m].calls[c].pc.Returned?
    requires d !in run[m].calls && d in run[n].calls
    requires run[n].calls[d].pc.Returned? && !run[n].calls[d].pc.duplicate
    requires run[n].calls[d].params.roomId == run[m].calls[c].params.roomId
    ensures var i, j := run[m].calls[c].pc.id, run[n].calls[d].pc.id;
      i in run[m].rows && j in run[n].rows && run[m].rows[i].seqNo < run[n].rows[j].seqNo
  {
    var room := run[m].calls[c].params.roomId;
    InitInv(run[0]);
    OrderRun(run, acts, m, n, room);
    assert HasReturned(run[m], c, room) && HasReturnedNew(run[n], d, room);
  }
}
