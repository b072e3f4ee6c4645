/** Replies, while no counter key is lost under a call that needs it: a reply target is an older message of the room. */
module SendReplies {
  import opened Common
  import opened Domain
  import opened SendProtocol
  import opened SendOnce
  import opened SendOrder

  predicate IsTarget(rows: map<MessageId, Message>, room: RoomId, t: MessageId) {
    t in rows && rows[t].roomId == room
  }

  predicate ReplyOk(rows: map<MessageId, Message>, i: MessageId)
    requires i in rows
  {
    rows[i].replyTo.Some? ==>
      var t := rows[i].replyTo.value;
      IsTarget(rows, rows[i].roomId, t) && rows[t].seqNo < rows[i].seqNo
  }

  predicate RepliesPointBack(rows: map<MessageId, Message>) {
    forall i :: i in rows ==> ReplyOk(rows, i)
  }

  /** A call past its reply check has a target in its room; the number it holds is above the target's. */
  predicate ReplyPcOk(s: Sys, c: CallId)
    requires c in s.calls
  {
    var p := s.calls[c].params;
    && (p.isSystem ==> p.replyTo.None?)
    && (p.replyTo.Some? && p.replyTo.value != "" ==>
         match s.calls[c].pc
         case Exists(_) => IsTarget(s.rows, p.roomId, p.replyTo.value)
         case ReadMax(_) => IsTarget(s.rows, p.roomId, p.replyTo.value)
         case SetNx(_, _) => IsTarget(s.rows, p.roomId, p.replyTo.value)
         case Incr(_) => IsTarget(s.rows, p.roomId, p.replyTo.value)
         case Insert(_, n) => IsTarget(s.rows, p.roomId, p.replyTo.value) && s.rows[p.replyTo.value].seqNo < n
         case _ => true)
  }

  ghost predicate ReplyInv(s: Sys) {
    && "" !in s.rows
    && RepliesPointBack(s.rows)
    && (forall c :: c in s.calls ==> ReplyPcOk(s, c))
  }

  lemma ReplyPcMove(s: Sys, c: CallId, i: MessageId, now: nat, s': Sys)
    requires CountersAhead(s) && c in s.calls && c in s'.calls
    requires PcOk(s, c) && ReplyPcOk(s, c) && Advance(s, c, i, now, s')
    ensures ReplyPcOk(s', c)
  {
    StepShape(s, c, i, now, s');
    var p := s.calls[c].params;
    if s.calls[c].pc.Incr? && p.replyTo.Some? && p.replyTo.value != "" {
      assert s.rows[p.replyTo.value].seqNo in Seqs(s.rows, p.roomId);
    }
  }

  lemma ReplyRowsMove(s: Sys, c: CallId, i: MessageId, now: nat, s': Sys)
    requires "" !in s.rows && RepliesPointBack(s.rows)
    requires c in s.calls && ReplyPcOk(s, c) && Advance(s, c, i, now, s')
    ensures "" !in s'.rows && RepliesPointBack(s'.rows)
  {
    StepShape(s, c, i, now, s');
    forall j | j in s'.rows ensures ReplyOk(s'.rows, j) {
      if j in s.rows { assert ReplyOk(s.rows, j); }
    }
  }

  predicate RowsKept(rows: map<MessageId, Message>, rows': map<MessageId, Message>) {
    forall i :: i in rows ==> i in rows' && Keeps(rows[i], rows'[i])
  }

  lemma ReplyPcFrame(s: Sys, s': Sys, d: CallId)
    requires RowsKept(s.rows, s'.rows) && d in s.calls && d in s'.calls
    requires s'.calls[d] == s.calls[d] && ReplyPcOk(s, d)
    ensures ReplyPcOk(s', d)
  {
  }

  lemma ReplyCallsMove(s: Sys, c: CallId, i: MessageId, now: nat, s': Sys)
    requires CountersAhead(s) && c in s.calls && PcOk(s, c) && Advance(s, c, i, now, s')
    requires forall d :: d in s.calls ==> ReplyPcOk(s, d)
    ensures forall d :: d in s'.calls ==> ReplyPcOk(s', d)
  {
    StepShape(s, c, i, now, s');
    assert RowsKept(s.rows, s'.rows);
    forall d | d in s'.calls ensures ReplyPcOk(s', d) {
      assert ReplyPcOk(s, d);
      if d == c { ReplyPcMove(s, c, i, now, s'); } else { ReplyPcFrame(s, s', d); }
    }
  }

  lemma ReplyElsewhere(s: Sys, a: Action, s': Sys)
    requires ReplyInv(s) && Next(s, a, s') && !a.Step?
    ensures ReplyInv(s')
  {
    assert RowsKept(s.rows, s'.rows);
    forall j | j in s'.rows ensures ReplyOk(s'.rows, j) { assert ReplyOk(s.rows, j); }
    forall d | d in s'.calls ensures ReplyPcOk(s', d) {
      if d in s.calls {
        assert ReplyPcOk(s, d);
        if s'.calls[d] == s.calls[d] { ReplyPcFrame(s, s', d); }
      }
    }
  }

  lemma ReplyStep(s: Sys, a: Action, s': Sys)
    requires SeqInv(s) && ReplyInv(s) && Next(s, a, s')
    ensures ReplyInv(s')
  {
    if a.Step? {
      assert PcOk(s, a.call) && ReplyPcOk(s, a.call);
      ReplyRowsMove(s, a.call, a.id, a.now, s');
      ReplyCallsMove(s, a.call, a.id, a.now, s');
    } else {
      ReplyElsewhere(s, a, s');
    }
  }

  /** Every row of every such run replies to an older row of its own room. */
  lemma {:induction false} RepliesStayBackward(run: seq<Sys>, acts: seq<Action>, n: nat)
    requires IsRun(run, acts) && HarmlessLosses(run, acts) && n < |run|
    requires Init(run[0]) && CountersAhead(run[0]) && RepliesPointBack(run[0].rows)
    ensures ReplyInv(run[n])
  {
    if n > 0 {
      RepliesStayBackward(run, acts, n - 1);
      SeqRun(run, acts, n - 1);
      ReplyStep(run[n - 1], acts[n - 1], run[n]);
    }
  }

  /** Following `replyToId` from a row. */
  function Chain(rows: map<MessageId, Message>, i: MessageId): (chain: seq<MessageId>)
    requires RepliesPointBack(rows) && i in rows
    ensures |chain| > 0 && chain[0] == i
    decreases rows[i].seqNo
  {
    assert ReplyOk(rows, i);
    if rows[i].replyTo.None? then [i] else [i] + Chain(rows, rows[i].replyTo.value)
  }

  /**
   * A reply chain ends at a message that replies to nothing, stays in one room, goes strictly back in
   * sequence order and is no longer than the sequence number it starts from allows.
   */
  lemma {:induction false} ChainEnds(rows: map<MessageId, Message>, i: MessageId)
    requires RepliesPointBack(rows) && i in rows
    ensures var ch := Chain(rows, i);
      && |ch| <= rows[i].seqNo + 1
      && (forall k :: 0 <= k < |ch| ==> ch[k] in rows && rows[ch[k]].roomId == rows[i].roomId)
      && (forall k :: 0 < k < |ch| ==>
            rows[ch[k - 1]].replyTo == Some(ch[k]) && rows[ch[k]].seqNo < rows[ch[k - 1]].seqNo)
      && rows[ch[|ch| - 1]].replyTo.None?
    decreases rows[i].seqNo
  {
    assert ReplyOk(rows, i);
    if rows[i].replyTo.Some? {
      ChainEnds(rows, rows[i].replyTo.value);
    }
  }
}
