/** Reading the history of a room while the send protocol runs. */
module ConcurrentHistory {
  import opened Common
  import opened Domain
  import opened RoomModel
  import opened History
  import opened SendProtocol
  import SendOnce

  ghost function RowAt(rows: map<MessageId, Message>, room: RoomId, q: nat): Message
    requires q in Seqs(rows, room)
  {
    var i :| i in rows && rows[i].roomId == room && rows[i].seqNo == q;
    rows[i]
  }

  /** The rows of one room by number: the log the other room operations work on. */
  ghost function IndexOf(rows: map<MessageId, Message>, room: RoomId): MessageLog {
    map q | q in Seqs(rows, room) :: RowAt(rows, room, q)
  }

  /** The index loses and confuses no row of the room. */
  lemma IndexIsTheRoom(rows: map<MessageId, Message>, room: RoomId)
    requires UniqueRows(rows)
    ensures LogOk(IndexOf(rows, room), room)
    ensures forall i :: i in rows && rows[i].roomId == room ==>
      rows[i].seqNo in IndexOf(rows, room) && IndexOf(rows, room)[rows[i].seqNo] == rows[i]
  {
  }

  predicate RowsKept(rows: map<MessageId, Message>, rows': map<MessageId, Message>) {
    forall i :: i in rows ==> i in rows' && SendOnce.Keeps(rows[i], rows'[i])
  }

  lemma KeptTwice(a: map<MessageId, Message>, b: map<MessageId, Message>, c: map<MessageId, Message>)
    requires RowsKept(a, b) && RowsKept(b, c)
    ensures RowsKept(a, c)
  {
  }

  lemma StepKeepsRows(s: Sys, a: Action, s': Sys)
    requires SendOnce.OnceInv(s) && Next(s, a, s')
    ensures RowsKept(s.rows, s'.rows)
  {
    forall i | i in s.author ensures i in s.rows { assert SendOnce.AuthorOk(s, i); }
    SendOnce.NextExtends(s, a, s');
  }

  lemma {:induction false} RunKeepsRows(run: seq<Sys>, acts: seq<Action>, m: nat, n: nat)
    requires IsRun(run, acts) && SendOnce.OnceInv(run[0]) && m <= n < |run|
    ensures RowsKept(run[m].rows, run[n].rows)
  {
    if m < n {
      RunKeepsRows(run, acts, m, n - 1);
      SendOnce.OnceRun(run, acts, n - 1);
      StepKeepsRows(run[n - 1], acts[n - 1], run[n]);
      KeptTwice(run[m].rows, run[n - 1].rows, run[n].rows);
    }
  }

  lemma SeqsGrow(run: seq<Sys>, acts: seq<Action>, m: nat, n: nat, room: RoomId)
    requires IsRun(run, acts) && Init(run[0]) && m <= n < |run|
    ensures Seqs(run[m].rows, room) <= Seqs(run[n].rows, room)
  {
    RunKeepsRows(run, acts, m, n);
    forall q | q in Seqs(run[m].rows, room) ensures q in Seqs(run[n].rows, room) {
      var i :| i in run[m].rows && run[m].rows[i].roomId == room && run[m].rows[i].seqNo == q;
      assert run[n].rows[i].seqNo == q;
    }
  }

  ghost predicate PageReadAt(run: seq<Sys>, room: RoomId, at: seq<nat>, limits: seq<nat>, pages: seq<Page>, i: nat)
    requires i < |at| == |limits| == |pages| && at[i] < |run|
  {
    PageFits(Seqs(run[at[i]].rows, room), CursorOf(pages, i), limits[i], pages[i])
  }

  /** Page `i` of a walk is read at instant `at[i]` of a run. */
  ghost predicate ReadsPages(run: seq<Sys>, room: RoomId, at: seq<nat>, limits: seq<nat>, pages: seq<Page>) {
    && |at| == |limits| == |pages| >= 1
    && (forall i :: 0 <= i < |at| ==> at[i] < |run|)
    && (forall i, j :: 0 <= i <= j < |at| ==> at[i] <= at[j])
    && (forall i :: 0 <= i < |pages| - 1 ==> pages[i].nextCursor.Some?)
    && (forall i :: 0 <= i < |pages| ==> PageReadAt(run, room, at, limits, pages, i))
  }

  /**
   * However sends, unsends, crashes and key losses interleave with a walk to the end, no number is
   * shown twice and every row that was there when the walk began is shown exactly once.
   */
  lemma WalkDuringSends(run: seq<Sys>, acts: seq<Action>, room: RoomId, at: seq<nat>, limits: seq<nat>,
                        pages: seq<Page>, i: MessageId)
    requires IsRun(run, acts) && Init(run[0]) && ReadsPages(run, room, at, limits, pages)
    requires pages[|pages| - 1].nextCursor.None?
    requires i in run[at[0]].rows && run[at[0]].rows[i].roomId == room
    ensures Falling(Shown(pages))
    ensures Once(Shown(pages), run[at[0]].rows[i].seqNo)
  {
    var tables := seq(|at|, k requires 0 <= k < |at| => Seqs(run[at[k]].rows, room));
    forall k, l | 0 <= k <= l < |tables| ensures tables[k] <= tables[l] {
      SeqsGrow(run, acts, at[k], at[l], room);
    }
    forall k | 0 <= k < |pages| ensures PageAt(tables, limits, pages, k) {
      assert PageReadAt(run, room, at, limits, pages, k);
    }
    WalkShowsEverything(tables, limits, pages);
    assert run[at[0]].rows[i].seqNo in tables[0];
  }
}
