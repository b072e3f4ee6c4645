/** Exactly-once sends: idempotency keys hold in every interleaving, even when the counter key vanishes. */
module SendOnce {
  import opened Common
  import opened Domain
  import opened SendProtocol

  /** What can happen to a persisted row: nothing, or an unsend. */
  predicate Keeps(m: Message, m': Message) {
    m' == m || (m'.deletedAt.Some? && m' == Unsent(m, m'.deletedAt.value))
  }

  /** Nothing recorded is lost: rows, authors, calls and their parameters, and keys in use. */
  ghost predicate Extends(s: Sys, s': Sys) {
    && (forall i :: i in s.rows ==> i in s'.rows && Keeps(s.rows[i], s'.rows[i]))
    && (forall i :: i in s.author ==> i in s'.author && s'.author[i] == s.author[i])
    && (forall c :: c in s.calls ==> c in s'.calls && s'.calls[c].params == s.calls[c].params)
  }

  /** The calls an action leaves where they stand. */
  predicate Bystander(a: Action, c: CallId) {
    match a
    case Begin(d, _) => c != d
    case Step(d, _, _) => c != d
    case Throw(d) => c != d
    case _ => true
  }

  lemma InsertShape(s: Sys, c: CallId, i: MessageId, now: nat, s': Sys)
    requires c in s.calls && s.calls[c].pc.Insert? && InsertStep(s, c, i, now, s')
    ensures s'.calls == s.calls[c := s.calls[c].(pc := s'.calls[c].pc)]
    ensures (s'.rows == s.rows && s'.author == s.author) || (s'.calls[c].pc == Touch(i) && i !in s.rows)
  {
  }

  /** A step moves its own call only; only a successful insert touches the table. */
  lemma StepShape(s: Sys, c: CallId, i: MessageId, now: nat, s': Sys)
    requires c in s.calls && Advance(s, c, i, now, s')
    ensures s'.calls.Keys == s.calls.Keys
    ensures s'.calls == s.calls[c := s.calls[c].(pc := s'.calls[c].pc)]
    ensures (s'.rows == s.rows && s'.author == s.author)
         || (s.calls[c].pc.Insert? && InsertStep(s, c, i, now, s') && s'.calls[c].pc == Touch(i) && i !in s.rows)
  {
    match s.calls[c].pc
    case Insert(_, _) => InsertShape(s, c, i, now, s');
    case _ =>
  }

  lemma StepExtends(s: Sys, c: CallId, i: MessageId, now: nat, s': Sys)
    requires c in s.calls && Advance(s, c, i, now, s')
    requires forall j :: j in s.author ==> j in s.rows
    ensures Extends(s, s')
    ensures forall d :: d in s.calls && d != c ==> s'.calls[d] == s.calls[d]
    ensures s'.calls.Keys == s.calls.Keys
  {
    StepShape(s, c, i, now, s');
    assert forall d :: d in s.calls && d != c ==> s'.calls[d] == s.calls[d];
    assert s'.calls[c].params == s.calls[c].params;
    if s'.rows != s.rows || s'.author != s.author {
      assert i !in s.rows && i !in s.author;
      assert forall j :: j in s.rows ==> s'.rows[j] == s.rows[j];
      assert forall j :: j in s.author ==> s'.author[j] == s.author[j];
    }
  }

  lemma NextExtends(s: Sys, a: Action, s': Sys)
    requires Next(s, a, s')
    requires forall j :: j in s.author ==> j in s.rows
    ensures Extends(s, s')
    ensures forall d :: d in s.calls && Bystander(a, d) ==> s'.calls[d] == s.calls[d]
    ensures forall d :: d in s'.calls && d !in s.calls ==> s'.calls[d].pc == Lookup
  {
    if a.Step? { StepExtends(s, a.call, a.id, a.now, s'); }
  }

  predicate AuthoredBy(s: Sys, c: CallId, i: MessageId) {
    && c in s.calls && i in s.author && s.author[i] == c && i in s.rows
    && Keeps(RowOf(s.calls[c].params, i, s.rows[i].seqNo, s.rows[i].createdAt), s.rows[i])
  }

  /** The row a call speaks of exists, and is its own row unless the call found a duplicate. */
  ghost predicate CallOk(s: Sys, c: CallId)
    requires c in s.calls
  {
    var p := s.calls[c].params;
    match s.calls[c].pc
    case Refetch => KeyClash(s.rows, p)
    case Touch(i) => AuthoredBy(s, c, i)
    case Emit(i) => AuthoredBy(s, c, i)
    case Returned(i, duplicate) =>
      if duplicate then p.key.Some? && KeyRow(s.rows, p.roomId, p.key.value, i) else AuthoredBy(s, c, i)
    case _ => true
  }

  predicate AuthorOk(s: Sys, i: MessageId)
    requires i in s.author
  {
    && i in s.rows && s.author[i] in s.calls
    && s.calls[s.author[i]].pc in {Touch(i), Emit(i), Returned(i, false), Failed(Thrown)}
  }

  /** Exactly the fresh returns have broadcast, each once. */
  ghost predicate EmitOk(s: Sys) {
    && (forall k :: 0 <= k < |s.emitted| ==>
          && s.emitted[k] in s.author && s.author[s.emitted[k]] in s.calls
          && s.calls[s.author[s.emitted[k]]].pc == Returned(s.emitted[k], false))
    && (forall j, k :: 0 <= j < k < |s.emitted| ==> s.emitted[j] != s.emitted[k])
    && (forall c :: c in s.calls && s.calls[c].pc.Returned? && !s.calls[c].pc.duplicate ==>
          s.calls[c].pc.id in s.emitted)
  }

  ghost predicate OnceInv(s: Sys) {
    && UniqueRows(s.rows)
    && (forall c :: c in s.calls ==> CallOk(s, c))
    && (forall i :: i in s.author ==> AuthorOk(s, i))
    && EmitOk(s)
  }

  lemma UniqueStep(s: Sys, a: Action, s': Sys)
    requires UniqueRows(s.rows) && Next(s, a, s')
    ensures UniqueRows(s'.rows)
  {
    if a.Step? && s.calls[a.call].pc.Insert? && s'.rows != s.rows {
      UniqueInsert(s, a.call, a.id, a.now, s');
    } else if a.Step? {
      StepShape(s, a.call, a.id, a.now, s');
    }
  }

  lemma UniqueInsert(s: Sys, c: CallId, id: MessageId, now: nat, s': Sys)
    requires UniqueRows(s.rows) && c in s.calls && s.calls[c].pc.Insert?
    requires InsertStep(s, c, id, now, s')
    ensures UniqueRows(s'.rows)
  {
    if s'.rows != s.rows {
      var p, n := s.calls[c].params, s.calls[c].pc.seqNo;
      forall i | i in s.rows && s.rows[i].roomId == p.roomId
        ensures s.rows[i].seqNo != n && (p.key.Some? ==> s.rows[i].key != p.key)
      {
        assert s.rows[i].seqNo in Seqs(s.rows, p.roomId);
        assert p.key.Some? ==> !KeyRow(s.rows, p.roomId, p.key.value, i);
      }
    }
  }

  lemma CallFrame(s: Sys, s': Sys, c: CallId)
    requires Extends(s, s') && c in s.calls && CallOk(s, c) && s'.calls[c] == s.calls[c]
    ensures CallOk(s', c)
  {
    var p := s.calls[c].params;
    if KeyClash(s.rows, p) {
      var i :| KeyRow(s.rows, p.roomId, p.key.value, i);
      assert KeyRow(s'.rows, p.roomId, p.key.value, i);
    }
  }

  lemma CallMove(s: Sys, c: CallId, i: MessageId, now: nat, s': Sys)
    requires c in s.calls && c in s'.calls && CallOk(s, c) && Advance(s, c, i, now, s')
    ensures CallOk(s', c)
  {
  }

  lemma CallStep(s: Sys, a: Action, s': Sys, c: CallId)
    requires (forall d :: d in s.calls ==> CallOk(s, d)) && (forall j :: j in s.author ==> AuthorOk(s, j))
    requires Next(s, a, s') && c in s'.calls
    ensures CallOk(s', c)
  {
    NextExtends(s, a, s');
    if c in s.calls {
      assert CallOk(s, c);
      if Bystander(a, c) {
        CallFrame(s, s', c);
      } else if a.Step? {
        CallMove(s, c, a.id, a.now, s');
      }
    }
  }

  lemma AuthorMove(s: Sys, c: CallId, j: MessageId, now: nat, s': Sys, i: MessageId)
    requires c in s.calls && CallOk(s, c) && Advance(s, c, j, now, s') && i in s'.author && s'.author[i] == c
    requires i in s.author ==> AuthorOk(s, i)
    ensures AuthorOk(s', i)
  {
  }

  lemma AuthorFrame(s: Sys, a: Action, s': Sys, i: MessageId)
    requires Next(s, a, s') && Extends(s, s')
    requires i in s.author && AuthorOk(s, i)
    requires a.Throw? || s'.calls[s.author[i]] == s.calls[s.author[i]]
    ensures AuthorOk(s', i)
  {
  }

  lemma AuthorsKnown(s: Sys, a: Action, s': Sys, i: MessageId)
    requires Next(s, a, s') && i in s'.author && !(a.Step? && s'.author[i] == a.call)
    ensures i in s.author
  {
    if a.Step? { StepShape(s, a.call, a.id, a.now, s'); }
  }

  lemma AuthorStep(s: Sys, a: Action, s': Sys, i: MessageId)
    requires (forall d :: d in s.calls ==> CallOk(s, d)) && (forall j :: j in s.author ==> AuthorOk(s, j))
    requires Next(s, a, s') && i in s'.author
    ensures AuthorOk(s', i)
  {
    NextExtends(s, a, s');
    if a.Step? && s'.author[i] == a.call {
      AuthorMove(s, a.call, a.id, a.now, s', i);
    } else {
      AuthorsKnown(s, a, s', i);
      assert a.Throw? || Bystander(a, s.author[i]);
      AuthorFrame(s, a, s', i);
    }
  }

  lemma EmittedBy(s: Sys, c: CallId, i: MessageId, now: nat, s': Sys)
    requires c in s.calls && c in s'.calls && Advance(s, c, i, now, s')
    ensures !s.calls[c].pc.Returned?
    ensures s.calls[c].pc.Emit? ==>
      s'.emitted == s.emitted + [s.calls[c].pc.id] && s'.calls[c].pc == Returned(s.calls[c].pc.id, false)
    ensures !s.calls[c].pc.Emit? ==>
      s'.emitted == s.emitted && (s'.calls[c].pc.Returned? ==> s'.calls[c].pc.duplicate)
  {
  }

  lemma EmitMove(s: Sys, c: CallId, i: MessageId, now: nat, s': Sys)
    requires c in s.calls && CallOk(s, c) && Advance(s, c, i, now, s') && EmitOk(s)
    requires forall j :: j in s.author ==> j in s.rows
    ensures EmitOk(s')
  {
    StepExtends(s, c, i, now, s');
    EmittedBy(s, c, i, now, s');
    var pc := s.calls[c].pc;
    if pc.Emit? {
      assert pc.id !in s.emitted;
    } else {
      forall k | 0 <= k < |s.emitted| ensures s.author[s.emitted[k]] != c {
        assert !pc.Returned?;
      }
    }
  }

  lemma EmitStep(s: Sys, a: Action, s': Sys)
    requires (forall d :: d in s.calls ==> CallOk(s, d)) && (forall j :: j in s.author ==> AuthorOk(s, j))
    requires EmitOk(s) && Next(s, a, s')
    ensures EmitOk(s')
  {
    if a.Step? {
      EmitMove(s, a.call, a.id, a.now, s');
    }
  }

  lemma OnceStep(s: Sys, a: Action, s': Sys)
    requires OnceInv(s) && Next(s, a, s')
    ensures OnceInv(s')
  {
    UniqueStep(s, a, s');
    forall c | c in s'.calls ensures CallOk(s', c) { CallStep(s, a, s', c); }
    forall i | i in s'.author ensures AuthorOk(s', i) { AuthorStep(s, a, s', i); }
    EmitStep(s, a, s');
  }

  lemma {:induction false} OnceRun(run: seq<Sys>, acts: seq<Action>, n: nat)
    requires IsRun(run, acts) && OnceInv(run[0]) && n < |run|
    ensures OnceInv(run[n])
  {
    if n > 0 {
      OnceRun(run, acts, n - 1);
      OnceStep(run[n - 1], acts[n - 1], run[n]);
    }
  }

  lemma OneRowPerKey(s: Sys, c: CallId, d: CallId)
    requires OnceInv(s) && c in s.calls && d in s.calls && s.calls[c].pc.Returned? && s.calls[d].pc.Returned?
    requires s.calls[c].params.key.Some? && s.calls[c].params.key == s.calls[d].params.key
    requires s.calls[c].params.roomId == s.calls[d].params.roomId
    ensures s.calls[c].pc.id == s.calls[d].pc.id
    ensures KeyRow(s.rows, s.calls[c].params.roomId, s.calls[c].params.key.value, s.calls[c].pc.id)
    ensures !s.calls[c].pc.duplicate && !s.calls[d].pc.duplicate ==> c == d
  {
    assert CallOk(s, c) && CallOk(s, d);
  }

  /**
   * Two calls with the same idempotency key (the empty key included) that both return, return the
   * same row, which carries that key; at most one of them reports it as new.
   */
  lemma ExactlyOnce(run: seq<Sys>, acts: seq<Action>, n: nat, c: CallId, d: CallId)
    requires IsRun(run, acts) && Init(run[0]) && n < |run|
    requires c in run[n].calls && d in run[n].calls
    requires run[n].calls[c].pc.Returned? && run[n].calls[d].pc.Returned?
    requires run[n].calls[c].params.key.Some?
    requires run[n].calls[c].params.key == run[n].calls[d].params.key
    requires run[n].calls[c].params.roomId == run[n].calls[d].params.roomId
    ensures run[n].calls[c].pc.id == run[n].calls[d].pc.id
    ensures KeyRow(run[n].rows, run[n].calls[c].params.roomId, run[n].calls[c].params.key.value, run[n].calls[c].pc.id)
    ensures !run[n].calls[c].pc.duplicate && !run[n].calls[d].pc.duplicate ==> c == d
  {
    OnceRun(run, acts, n);
    OneRowPerKey(run[n], c, d);
  }

  /** The row is what was asked for; its body and media are there until it is unsent, and gone then. */
  predicate Carries(m: Message, p: Params) {
    && m.roomId == p.roomId && m.sender == p.sender && m.kind == p.kind && m.replyTo == p.replyTo && m.key == p.key
    && (if m.deletedAt.None? then m.content == p.content && m.mediaId == p.mediaId
        else m.content.None? && m.mediaId.None?)
  }

  /** A call that returns a new row returns what it was asked to send, until the sender unsends it. */
  lemma FreshRowIsTheRequest(run: seq<Sys>, acts: seq<Action>, n: nat, c: CallId)
    requires IsRun(run, acts) && Init(run[0]) && n < |run| && c in run[n].calls
    requires run[n].calls[c].pc.Returned? && !run[n].calls[c].pc.duplicate
    ensures run[n].calls[c].pc.id in run[n].rows && Carries(run[n].rows[run[n].calls[c].pc.id], run[n].calls[c].params)
  {
    OnceRun(run, acts, n);
    assert CallOk(run[n], c);
  }

  // ------------------------------------------------------------------ three attempts

  predicate AttemptOk(pc: Pc) {
    match pc
    case Exists(a) => a < 3
    case ReadMax(a) => a < 3
    case SetNx(a, _) => a < 3
    case Incr(a) => a < 3
    case Insert(a, _) => a < 3
    case ResyncRead(a) => a < 3
    case ResyncSet(a, _) => a < 3
    case _ => true
  }

  lemma AttemptMove(s: Sys, c: CallId, i: MessageId, now: nat, s': Sys)
    requires c in s.calls && c in s'.calls && AttemptOk(s.calls[c].pc) && Advance(s, c, i, now, s')
    ensures AttemptOk(s'.calls[c].pc)
    ensures s'.calls[c].pc == Failed(SeqConflict) <==> s.calls[c].pc.ResyncSet? && s.calls[c].pc.attempt == 2
  {
  }

  lemma {:induction false} AttemptRun(run: seq<Sys>, acts: seq<Action>, n: nat, c: CallId)
    requires IsRun(run, acts) && Init(run[0]) && n < |run| && c in run[n].calls
    ensures AttemptOk(run[n].calls[c].pc)
  {
    if n > 0 {
      var s, a := run[n - 1], acts[n - 1];
      assert Next(s, a, run[n]);
      if a.Step? { StepShape(s, a.call, a.id, a.now, run[n]); }
      if c in s.calls { AttemptRun(run, acts, n - 1, c); }
      if a.Step? && a.call == c { AttemptMove(s, c, a.id, a.now, run[n]); }
    }
  }

  /** A call gives up on collisions exactly when its third attempt has collided, not before and not later. */
  lemma GivesUpAfterThree(run: seq<Sys>, acts: seq<Action>, i: nat, c: CallId)
    requires IsRun(run, acts) && Init(run[0]) && i < |acts| && acts[i].Step? && acts[i].call == c
    ensures c in run[i].calls && c in run[i + 1].calls
    ensures run[i + 1].calls[c].pc == Failed(SeqConflict) <==>
      run[i].calls[c].pc.ResyncSet? && run[i].calls[c].pc.attempt >= 2
  {
    var s, a := run[i], acts[i];
    assert Next(s, a, run[i + 1]);
    StepShape(s, c, a.id, a.now, run[i + 1]);
    AttemptRun(run, acts, i, c);
    AttemptMove(s, c, a.id, a.now, run[i + 1]);
  }

  /** The lookup after a lost insert race always finds the winner, so `existing!` is never null. */
  lemma LostRaceFindsWinner(run: seq<Sys>, acts: seq<Action>, n: nat, c: CallId)
    requires IsRun(run, acts) && Init(run[0]) && n < |run| && c in run[n].calls
    requires run[n].calls[c].pc.Refetch?
    ensures KeyClash(run[n].rows, run[n].calls[c].params)
  {
    OnceRun(run, acts, n);
    assert CallOk(run[n], c);
  }

  /**
   * `message.created` goes out for a row exactly when the inserting call returns it as new, at most
   * once per row and at most once per idempotency key of a room.
   */
  lemma BroadcastOnce(run: seq<Sys>, acts: seq<Action>, n: nat)
    requires IsRun(run, acts) && Init(run[0]) && n < |run|
    ensures forall i :: i in run[n].emitted <==>
      (exists c :: c in run[n].calls && run[n].calls[c].pc == Returned(i, false))
    ensures forall j, k :: 0 <= j < k < |run[n].emitted| ==>
      var x, y := run[n].emitted[j], run[n].emitted[k];
      && x in run[n].rows && y in run[n].rows && x != y
      && !(run[n].rows[x].roomId == run[n].rows[y].roomId
           && run[n].rows[x].key.Some? && run[n].rows[x].key == run[n].rows[y].key)
  {
    OnceRun(run, acts, n);
    var s := run[n];
    forall k | 0 <= k < |s.emitted| ensures s.emitted[k] in s.rows { assert AuthorOk(s, s.emitted[k]); }
  }
}
