/** Unread counts per member against read counts per message: two views of one relation. */
module ReadState {
  import opened Common
  import opened Domain
  import opened RoomModel

  // ------------------------------------------------------------------ sums over finite sets

  ghost function Sum<T(!new)>(s: set<T>, f: T -> int): int {
    if s == {} then 0 else
      var x :| x in s;
      f(x) + Sum(s - {x}, f)
  }

  /** Any element can be taken out first. */
  lemma {:induction false} SumTake<T(!new)>(s: set<T>, f: T -> int, x: T)
    requires x in s
    ensures Sum(s, f) == f(x) + Sum(s - {x}, f)
    decreases s
  {
    var y :| y in s && Sum(s, f) == f(y) + Sum(s - {y}, f);
    if y != x {
      SumTake(s - {y}, f, x);
      SumTake(s - {x}, f, y);
      assert s - {y} - {x} == s - {x} - {y};
    }
  }

  lemma {:induction false} SumSplit<T(!new)>(s: set<T>, f: T -> int, g: T -> int, p: T -> bool)
    requires forall x :: x in s ==> f(x) == g(x) + if p(x) then 1 else 0
    ensures Sum(s, f) == Sum(s, g) + |set x | x in s && p(x)|
    decreases s
  {
    if s != {} {
      var x :| x in s;
      SumTake(s, f, x);
      SumTake(s, g, x);
      SumSplit(s - {x}, f, g, p);
      var chosen := set y | y in s && p(y);
      assert (set y | y in s - {x} && p(y)) == chosen - {x};
      assert p(x) ==> x in chosen;
    } else {
      assert (set y | y in s && p(y)) == {};
    }
  }

  lemma {:induction false} SumZero<T(!new)>(s: set<T>, f: T -> int)
    requires forall x :: x in s ==> f(x) == 0
    ensures Sum(s, f) == 0
    decreases s
  {
    if s != {} {
      var x :| x in s;
      SumTake(s, f, x);
      SumZero(s - {x}, f);
    }
  }

  ghost function Partners<A(!new), B(!new)>(a: A, bs: set<B>, r: (A, B) -> bool): set<B> {
    set b | b in bs && r(a, b)
  }

  ghost function CoPartners<A(!new), B(!new)>(xs: set<A>, b: B, r: (A, B) -> bool): set<A> {
    set a | a in xs && r(a, b)
  }

  ghost function RowCounts<A(!new), B(!new)>(bs: set<B>, r: (A, B) -> bool): A -> int {
    a => |Partners(a, bs, r)|
  }

  ghost function ColumnCounts<A(!new), B(!new)>(xs: set<A>, r: (A, B) -> bool): B -> int {
    b => |CoPartners(xs, b, r)|
  }

  lemma ColumnTake<A(!new), B(!new)>(xs: set<A>, x: A, b: B, r: (A, B) -> bool)
    requires x in xs
    ensures ColumnCounts(xs, r)(b) == ColumnCounts(xs - {x}, r)(b) + if r(x, b) then 1 else 0
  {
    if r(x, b) {
      assert CoPartners(xs, b, r) == CoPartners(xs - {x}, b, r) + {x};
    } else {
      assert CoPartners(xs, b, r) == CoPartners(xs - {x}, b, r);
    }
  }

  /** A finite relation counted by rows and by columns. */
  lemma {:induction false} DoubleCount<A(!new), B(!new)>(xs: set<A>, ys: set<B>, r: (A, B) -> bool)
    ensures Sum(xs, RowCounts(ys, r)) == Sum(ys, ColumnCounts(xs, r))
    decreases xs
  {
    if xs == {} {
      forall b | b in ys ensures ColumnCounts(xs, r)(b) == 0 { assert CoPartners(xs, b, r) == {}; }
      SumZero(ys, ColumnCounts(xs, r));
    } else {
      var x :| x in xs;
      SumTake(xs, RowCounts(ys, r), x);
      DoubleCount(xs - {x}, ys, r);
      forall b | b in ys { ColumnTake(xs, x, b, r); }
      var p := (b: B) => r(x, b);
      SumSplit(ys, ColumnCounts(xs, r), ColumnCounts(xs - {x}, r), p);
      assert Partners(x, ys, r) == set b | b in ys && p(b);
    }
  }

  // ------------------------------------------------------------------ the room

  /** Active members other than the sender who have not read up to `m`. */
  function Missing(members: Members, m: Message): set<UserId> {
    set u | u in members && members[u].active && u != m.sender && members[u].lastReadSeq < m.seqNo
  }

  function SenderActive(members: Members, m: Message): nat {
    if IsActive(members, m.sender) then 1 else 0
  }

  /** Readers, non-readers and an active sender make up the active members. */
  lemma MissingCount(members: Members, m: Message)
    ensures |Missing(members, m)| == |ActiveSet(members)| - SenderActive(members, m) - |Readers(members, m)|
  {
    var missing, readers := Missing(members, m), Readers(members, m);
    var sender := if IsActive(members, m.sender) then {m.sender} else {};
    assert ActiveSet(members) == missing + readers + sender;
    assert missing !! readers && (missing + readers) !! sender;
  }

  /**
   * The documented "not read by" number, active members - 1 - readCount, is right exactly when the
   * sender is still an active member; otherwise it is one too small.
   */
  lemma DerivedUnreadByIff(members: Members, m: Message)
    ensures |Missing(members, m)| == |ActiveSet(members)| - 1 - |Readers(members, m)|
      <==> IsActive(members, m.sender)
    ensures !IsActive(members, m.sender) ==>
      |Missing(members, m)| == |ActiveSet(members)| - |Readers(members, m)|
  {
    MissingCount(members, m);
  }

  function LiveSeqs(log: MessageLog): set<nat> {
    set q | q in log && log[q].deletedAt.None?
  }

  function UnreadCount(s: RoomState): UserId -> int {
    u => if u in s.members then |Unread(s.log, u, s.members[u].lastReadSeq)| else 0
  }

  function UnreadBy(s: RoomState): int -> int {
    q => if q in s.log then
           |ActiveSet(s.members)| - SenderActive(s.members, s.log[q]) - |Readers(s.members, s.log[q])|
         else 0
  }

  function HasUnread(s: RoomState): (UserId, int) -> bool {
    (u, q) => u in s.members && q in s.log && s.members[u].lastReadSeq < q && s.log[q].sender != u
  }

  lemma {:induction false} SumSame<T(!new)>(s: set<T>, f: T -> int, g: T -> int)
    requires forall x :: x in s ==> f(x) == g(x)
    ensures Sum(s, f) == Sum(s, g)
    decreases s
  {
    if s != {} {
      var x :| x in s;
      SumTake(s, f, x);
      SumTake(s, g, x);
      SumSame(s - {x}, f, g);
    }
  }

  /**
   * In every state, the unread counts of the room list, summed over the active members, equal the
   * per-message numbers derived from `readCount`, summed over the live messages.
   */
  lemma UnreadCountsAgree(s: RoomState)
    requires LogOk(s.log, s.roomId)
    ensures Sum(ActiveSet(s.members), UnreadCount(s)) == Sum<int>(LiveSeqs(s.log), UnreadBy(s))
  {
    RowsAgree(s);
    ColumnsAgree(s);
    DoubleCount<UserId, int>(ActiveSet(s.members), LiveSeqs(s.log), HasUnread(s));
  }

  lemma RowsAgree(s: RoomState)
    ensures Sum(ActiveSet(s.members), UnreadCount(s))
         == Sum(ActiveSet(s.members), RowCounts<UserId, int>(LiveSeqs(s.log), HasUnread(s)))
  {
    var active, rows := ActiveSet(s.members), RowCounts<UserId, int>(LiveSeqs(s.log), HasUnread(s));
    forall u | u in active ensures UnreadCount(s)(u) == rows(u) { RowIsUnread(s, u, LiveSeqs(s.log)); }
    SumSame(active, UnreadCount(s), rows);
  }

  lemma ColumnsAgree(s: RoomState)
    requires LogOk(s.log, s.roomId)
    ensures Sum<int>(LiveSeqs(s.log), UnreadBy(s))
         == Sum<int>(LiveSeqs(s.log), ColumnCounts<UserId, int>(ActiveSet(s.members), HasUnread(s)))
  {
    var live: set<int> := LiveSeqs(s.log);
    var columns := ColumnCounts<UserId, int>(ActiveSet(s.members), HasUnread(s));
    forall q | q in live ensures UnreadBy(s)(q) == columns(q) { ColumnIsMissing(s, q, ActiveSet(s.members)); }
    SumSame(live, UnreadBy(s), columns);
  }

  lemma RowIsUnread(s: RoomState, u: UserId, live: set<int>)
    requires u in s.members && live == LiveSeqs(s.log)
    ensures UnreadCount(s)(u) == RowCounts<UserId, int>(live, HasUnread(s))(u)
  {
    var unread: set<int> := Unread(s.log, u, s.members[u].lastReadSeq);
    assert unread == Partners(u, live, HasUnread(s));
  }

  lemma ColumnIsMissing(s: RoomState, q: int, active: set<UserId>)
    requires q in s.log && s.log[q].seqNo == q && active == ActiveSet(s.members)
    ensures UnreadBy(s)(q) == ColumnCounts<UserId, int>(active, HasUnread(s))(q)
  {
    MissingCount(s.members, s.log[q]);
    assert Missing(s.members, s.log[q]) == CoPartners<UserId, int>(active, q, HasUnread(s));
  }
}
