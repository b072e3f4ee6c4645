/**
 * The membership row of one user, by statements: `addMembers` reads the head, then the rows, then
 * writes, and other invitations, departures, role changes, posts and `markRead` can come in between.
 */
module Invitations {
  import opened Common
  import opened Domain
  import opened RoomModel

  type CallId = nat

  /** Where an invitation of the user stands, with what it has read. */
  datatype Pc = Head | Find(head: nat) | Write(head: nat, found: Option<Member>) | Done | Failed

  datatype Sys = Sys(row: Option<Member>, head: nat, calls: map<CallId, Pc>)

  datatype Action =
    | Begin(call: CallId)
    | Step(call: CallId, now: nat)
    | Post(seqNo: nat)
    | Read(upTo: int)
    | Assign(role: Role)
    | Leave

  predicate Active(s: Sys) {
    s.row.Some? && s.row.value.active
  }

  function Position(s: Sys): int {
    if s.row.Some? then s.row.value.lastReadSeq else 0
  }

  predicate Advance(s: Sys, c: CallId, now: nat, s': Sys)
    requires c in s.calls
  {
    match s.calls[c]
    case Head => s' == s.(calls := s.calls[c := Find(s.head)])
    case Find(head) => s' == s.(calls := s.calls[c := Write(head, s.row)])
    case Write(head, None) =>
      // a row that has appeared meanwhile violates the unique constraint
      if s.row.None? then s' == s.(row := Some(Member(MEMBER, now, head, true)), calls := s.calls[c := Done])
      else s' == s.(calls := s.calls[c := Failed])
    case Write(head, Some(found)) =>
      if found.active then s' == s.(calls := s.calls[c := Done])
      else if s.row.None? then s' == s.(calls := s.calls[c := Failed])
      else s' == s.(row := Some(s.row.value.(active := true, role := MEMBER, joinedAt := now, lastReadSeq := head)),
                    calls := s.calls[c := Done])
    case Done => false
    case Failed => false
  }

  predicate Next(s: Sys, a: Action, s': Sys) {
    match a
    case Begin(c) => c !in s.calls && s' == s.(calls := s.calls[c := Head])
    case Step(c, now) => c in s.calls && Advance(s, c, now, s')
    case Post(n) => s' == s.(head := if n > s.head then n else s.head)
    case Read(upTo) =>
      s' == if Active(s) && s.row.value.lastReadSeq < upTo
            then s.(row := Some(s.row.value.(lastReadSeq := upTo))) else s
    case Assign(role) => s.row.Some? && s' == s.(row := Some(s.row.value.(role := role)))
    case Leave => s.row.Some? && s' == s.(row := Some(s.row.value.(active := false)))
  }

  ghost predicate IsRun(run: seq<Sys>, acts: seq<Action>) {
    && |run| == |acts| + 1
    && forall i :: 0 <= i < |acts| ==> Next(run[i], acts[i], run[i + 1])
  }

  /** An invitation that found the user gone writes over a row that is active again. */
  predicate Overwrites(s: Sys, a: Action) {
    && a.Step? && a.call in s.calls && Active(s)
    && s.calls[a.call].Write? && s.calls[a.call].found.Some? && !s.calls[a.call].found.value.active
  }

  /**
   * While the user stays, the position moves by a report beyond it or by such a write only, and it
   * falls exactly when the write brings a head that is behind it.
   */
  lemma PositionFallsIff(s: Sys, a: Action, s': Sys)
    requires Next(s, a, s') && Active(s) && Active(s')
    ensures Position(s') < Position(s) <==> Overwrites(s, a) && s.calls[a.call].head < Position(s)
    ensures !Overwrites(s, a) ==>
      Position(s') == if a.Read? && a.upTo > Position(s) then a.upTo else Position(s)
  {
  }

  // ------------------------------------------------------------------ one invitation at a time

  predicate Pending(s: Sys, c: CallId) {
    c in s.calls && !s.calls[c].Done? && !s.calls[c].Failed?
  }

  /** At most one invitation of the user is in progress. */
  predicate Serial(s: Sys) {
    forall c, d :: c in s.calls && d in s.calls && Pending(s, c) && Pending(s, d) ==> c == d
  }

  /** A pending invitation that found the user gone is right. */
  predicate FoundIsCurrent(s: Sys) {
    forall c :: c in s.calls && s.calls[c].Write? && s.calls[c].found.Some? && !s.calls[c].found.value.active ==>
      s.row.Some? && !s.row.value.active
  }

  lemma FoundStaysCurrent(s: Sys, a: Action, s': Sys)
    requires Next(s, a, s') && Serial(s) && FoundIsCurrent(s)
    ensures FoundIsCurrent(s')
  {
    if a.Step? {
      forall d | d in s.calls && d != a.call ensures !s.calls[d].Write? {
        assert Pending(s, a.call) && (s.calls[d].Write? ==> Pending(s, d));
      }
    }
  }

  lemma {:induction false} SerialRun(run: seq<Sys>, acts: seq<Action>, n: nat)
    requires IsRun(run, acts) && n < |run| && run[0].calls == map[]
    requires forall i :: 0 <= i < |run| ==> Serial(run[i])
    ensures FoundIsCurrent(run[n])
  {
    if n > 0 {
      SerialRun(run, acts, n - 1);
      FoundStaysCurrent(run[n - 1], acts[n - 1], run[n]);
    }
  }

  predicate Reports(a: Action, n: int) {
    a == Read(n)
  }

  /**
   * If invitations of a user do not overlap, then during a stay the position is the maximum of where
   * it was and of everything reported, statement by statement.
   */
  lemma {:induction false} SerialPositionIsMaximum(run: seq<Sys>, acts: seq<Action>, m: nat, n: nat)
    requires IsRun(run, acts) && m <= n < |run| && run[0].calls == map[]
    requires forall i :: 0 <= i < |run| ==> Serial(run[i])
    requires forall i :: m <= i <= n ==> Active(run[i])
    ensures Position(run[m]) <= Position(run[n])
    ensures forall i, x :: m <= i < n && Reports(acts[i], x) ==> x <= Position(run[n])
    ensures Position(run[n]) == Position(run[m])
      || exists i :: m <= i < n && Reports(acts[i], Position(run[n]))
  {
    if m < n {
      SerialPositionIsMaximum(run, acts, m, n - 1);
      SerialRun(run, acts, n - 1);
      PositionFallsIff(run[n - 1], acts[n - 1], run[n]);
      if Position(run[n]) != Position(run[n - 1]) { assert Reports(acts[n - 1], Position(run[n])); }
    }
  }

  // ------------------------------------------------------------------ two invitations that overlap

  function At(s: Sys, c: CallId, pc: Pc): Sys {
    s.(calls := s.calls[c := pc])
  }

  function Back(s: Sys, c: CallId): Sys {
    At(s.(row := Some(Member(MEMBER, 0, 5, true))), c, Done)
  }

  /** Two invitations find the user gone; the second writes after the user is back and has read on. */
  lemma OverlapLowersPosition() returns (run: seq<Sys>, acts: seq<Action>, m: nat, n: nat)
    ensures IsRun(run, acts) && run[0].calls == map[] && m <= n < |run|
    ensures forall i :: m <= i <= n ==> Active(run[i])
    ensures Position(run[n]) < Position(run[m])
  {
    var gone := Some(Member(MEMBER, 0, 0, false));
    var s0 := Sys(gone, 5, map[]);
    var s1 := At(s0, 0, Head);
    var s2 := At(s1, 0, Find(5));
    var s3 := At(s2, 0, Write(5, gone));
    var s4 := At(s3, 1, Head);
    var s5 := At(s4, 1, Find(5));
    var s6 := At(s5, 1, Write(5, gone));
    var s7 := Back(s6, 0);
    var s8 := s7.(row := Some(Member(MEMBER, 0, 7, true)));
    run := [s0, s1, s2, s3, s4, s5, s6, s7, s8, Back(s8, 1)];
    acts := [Begin(0), Step(0, 0), Step(0, 0), Begin(1), Step(1, 0), Step(1, 0), Step(0, 0), Read(7), Step(1, 0)];
    m, n := 8, 9;
  }
}
