/** What every interleaving of `createDirect` keeps: one room per pair, announced at most once. */
module DirectRoomRuns {
  import opened Common
  import opened Domain
  import opened RoomModel
  import opened DirectRooms

  /** The creating call of a room is still on its way with it, has returned it, or died. */
  predicate AuthorOk(s: Sys, r: RoomId)
    requires r in s.author
  {
    && r in s.rooms && s.author[r] in s.calls
    && s.calls[s.author[r]].pc in {View(r, true), Emit(r), Returned(r), Failed(Internal), Failed(NotFound)}
  }

  /** Exactly the rooms returned by their creating calls are announced, each once. */
  ghost predicate EmitOk(s: Sys) {
    && (forall k :: 0 <= k < |s.emitted| ==>
          && s.emitted[k] in s.author && s.author[s.emitted[k]] in s.calls
          && s.calls[s.author[s.emitted[k]]].pc == Returned(s.emitted[k]))
    && (forall j, k :: 0 <= j < k < |s.emitted| ==> s.emitted[j] != s.emitted[k])
    && (forall r :: r in s.author && s.author[r] in s.calls && s.calls[s.author[r]].pc == Returned(r) ==>
          r in s.emitted)
  }

  ghost predicate DirectInv(s: Sys) {
    && RoomsOk(s.rooms)
    && (forall c :: c in s.calls ==> CallOk(s, c))
    && (forall r :: r in s.author ==> AuthorOk(s, r))
    && EmitOk(s)
  }

  /** Rooms are never dropped; their key, their creator and the set of their rows never change. */
  ghost predicate RoomsKept(rooms: map<RoomId, Direct>, rooms': map<RoomId, Direct>) {
    forall r :: r in rooms ==>
      && r in rooms' && rooms'[r].key == rooms[r].key && rooms'[r].createdBy == rooms[r].createdBy
      && rooms'[r].members.Keys == rooms[r].members.Keys
      && forall u :: u in rooms[r].members ==> rooms'[r].members[u].role == rooms[r].members[u].role
  }

  /** A step moves its own call and touches at most one room. */
  lemma StepShape(s: Sys, c: CallId, id: RoomId, now: nat, s': Sys)
    requires c in s.calls && Advance(s, c, id, now, s')
    ensures s'.calls.Keys == s.calls.Keys
    ensures s'.calls == s.calls[c := s.calls[c].(pc := s'.calls[c].pc)]
    ensures s.calls[c].pc.Create? || s.calls[c].pc.Reactivate? || s'.rooms == s.rooms
    ensures s.calls[c].pc.Create? || s'.author == s.author
    ensures s.calls[c].pc.Emit? || s'.emitted == s.emitted
  {
  }

  lemma StepKeepsRooms(s: Sys, c: CallId, id: RoomId, now: nat, s': Sys)
    requires c in s.calls && Advance(s, c, id, now, s')
    ensures RoomsKept(s.rooms, s'.rooms)
  {
  }

  lemma NextKeepsRooms(s: Sys, a: Action, s': Sys)
    requires Next(s, a, s')
    ensures RoomsKept(s.rooms, s'.rooms)
  {
    if a.Step? { StepKeepsRooms(s, a.call, a.id, a.now, s'); }
  }

  lemma KeptRoomsOk(rooms: map<RoomId, Direct>, rooms': map<RoomId, Direct>)
    requires RoomsOk(rooms) && RoomsKept(rooms, rooms') && rooms'.Keys == rooms.Keys
    ensures RoomsOk(rooms')
  {
    forall r | r in rooms' ensures exists a, b :: PairRoom(rooms'[r], a, b) {
      var a, b :| PairRoom(rooms[r], a, b);
      assert a in rooms[r].members && b in rooms[r].members;
      assert PairRoom(rooms'[r], a, b);
    }
  }

  /** A new room for a free key. */
  lemma NewRoomOk(rooms: map<RoomId, Direct>, id: RoomId, room: Direct, a: UserId, b: UserId)
    requires RoomsOk(rooms) && id !in rooms && PairRoom(room, a, b) && !KeyTaken(rooms, room.key)
    ensures RoomsOk(rooms[id := room])
  {
    assert forall r :: r in rooms ==> !HasKey(rooms, room.key, r);
    var rooms' := rooms[id := room];
    forall r | r in rooms ensures exists x, y :: PairRoom(rooms'[r], x, y) {
      assert rooms'[r] == rooms[r];
    }
  }

  lemma CreateKeepsRoomsOk(s: Sys, c: CallId, id: RoomId, now: nat, s': Sys)
    requires RoomsOk(s.rooms) && c in s.calls && CallOk(s, c) && s.calls[c].pc.Create? && Advance(s, c, id, now, s')
    ensures RoomsOk(s'.rooms)
  {
    var call := s.calls[c];
    if !KeyTaken(s.rooms, KeyOf(call)) {
      NewRoomOk(s.rooms, id, s'.rooms[id], call.creator, call.others[0]);
    }
  }

  lemma NextKeepsRoomsOk(s: Sys, a: Action, s': Sys)
    requires RoomsOk(s.rooms) && (forall c :: c in s.calls ==> CallOk(s, c)) && Next(s, a, s')
    ensures RoomsOk(s'.rooms)
  {
    if a.Step? && s.calls[a.call].pc.Create? {
      assert CallOk(s, a.call);
      CreateKeepsRoomsOk(s, a.call, a.id, a.now, s');
    } else {
      NextKeepsRooms(s, a, s');
      if a.Step? { SameRooms(s, a.call, a.id, a.now, s'); }
      KeptRoomsOk(s.rooms, s'.rooms);
    }
  }

  lemma SameRooms(s: Sys, c: CallId, id: RoomId, now: nat, s': Sys)
    requires c in s.calls && Advance(s, c, id, now, s') && !s.calls[c].pc.Create?
    ensures s'.rooms.Keys == s.rooms.Keys
  {
  }

  lemma CallFrame(s: Sys, s': Sys, c: CallId)
    requires c in s.calls && c in s'.calls && s'.calls[c] == s.calls[c] && CallOk(s, c)
    requires RoomsKept(s.rooms, s'.rooms)
    requires forall r :: r in s.author ==> r in s'.author && (r in s.rooms ==> s'.author[r] == s.author[r])
    ensures CallOk(s', c)
  {
    if s.calls[c].pc.Refetch? {
      var r :| HasKey(s.rooms, KeyOf(s.calls[c]), r);
      assert HasKey(s'.rooms, KeyOf(s.calls[c]), r);
    }
  }

  lemma CallMove(s: Sys, c: CallId, id: RoomId, now: nat, s': Sys)
    requires c in s.calls && c in s'.calls && CallOk(s, c) && Advance(s, c, id, now, s')
    ensures CallOk(s', c)
  {
  }

  lemma CallsStep(s: Sys, a: Action, s': Sys, c: CallId)
    requires (forall d :: d in s.calls ==> CallOk(s, d)) && Next(s, a, s') && c in s'.calls
    ensures CallOk(s', c)
  {
    NextKeepsRooms(s, a, s');
    if c in s.calls {
      assert CallOk(s, c);
      if a.Step? {
        StepShape(s, a.call, a.id, a.now, s');
        if a.call == c { CallMove(s, c, a.id, a.now, s'); } else { CallFrame(s, s', c); }
      } else if s'.calls[c] == s.calls[c] {
        CallFrame(s, s', c);
      }
    }
  }

  lemma AuthorsStep(s: Sys, a: Action, s': Sys, r: RoomId)
    requires (forall q :: q in s.author ==> AuthorOk(s, q)) && Next(s, a, s') && r in s'.author
    ensures AuthorOk(s', r)
  {
    if a.Step? {
      StepShape(s, a.call, a.id, a.now, s');
      StepKeepsRooms(s, a.call, a.id, a.now, s');
      AuthorMove(s, a.call, a.id, a.now, s', r);
    } else {
      assert AuthorOk(s, r);
    }
  }

  lemma AuthorMove(s: Sys, c: CallId, id: RoomId, now: nat, s': Sys, r: RoomId)
    requires c in s.calls && c in s'.calls && Advance(s, c, id, now, s') && r in s'.author
    requires RoomsKept(s.rooms, s'.rooms)
    requires r in s.author ==> AuthorOk(s, r)
    ensures AuthorOk(s', r)
  {
  }

  lemma EmitMove(s: Sys, c: CallId, id: RoomId, now: nat, s': Sys)
    requires EmitOk(s) && c in s.calls && CallOk(s, c) && Advance(s, c, id, now, s')
    requires forall r :: r in s.author ==> AuthorOk(s, r)
    ensures EmitOk(s')
  {
    StepShape(s, c, id, now, s');
    assert !s.calls[c].pc.Returned?;
    if s.calls[c].pc.Emit? {
      var r := s.calls[c].pc.room;
      assert r !in s.emitted;
      assert s'.emitted == s.emitted + [r];
    }
  }

  lemma EmitElsewhere(s: Sys, a: Action, s': Sys)
    requires EmitOk(s) && (forall r :: r in s.author ==> AuthorOk(s, r)) && Next(s, a, s') && !a.Step?
    ensures EmitOk(s')
  {
  }

  lemma EmitStep(s: Sys, a: Action, s': Sys)
    requires EmitOk(s) && (forall r :: r in s.author ==> AuthorOk(s, r)) && Next(s, a, s')
    requires forall c :: c in s.calls ==> CallOk(s, c)
    ensures EmitOk(s')
  {
    if a.Step? {
      EmitMove(s, a.call, a.id, a.now, s');
    } else {
      EmitElsewhere(s, a, s');
    }
  }

  lemma DirectStep(s: Sys, a: Action, s': Sys)
    requires DirectInv(s) && Next(s, a, s')
    ensures DirectInv(s')
  {
    NextKeepsRoomsOk(s, a, s');
    forall c | c in s'.calls ensures CallOk(s', c) { CallsStep(s, a, s', c); }
    forall r | r in s'.author ensures AuthorOk(s', r) { AuthorsStep(s, a, s', r); }
    EmitStep(s, a, s');
  }

  lemma {:induction false} DirectRun(run: seq<Sys>, acts: seq<Action>, n: nat)
    requires IsRun(run, acts) && Init(run[0]) && n < |run|
    ensures DirectInv(run[n])
  {
    if n > 0 {
      DirectRun(run, acts, n - 1);
      DirectStep(run[n - 1], acts[n - 1], run[n]);
    }
  }

  /** The room a call for a pair of generated ids returns holds exactly that pair, both as MEMBER. */
  lemma ReturnsOwnPair(run: seq<Sys>, acts: seq<Action>, n: nat, c: CallId)
    requires IsRun(run, acts) && Init(run[0]) && n < |run|
    requires c in run[n].calls && run[n].calls[c].pc.Returned?
    ensures Asked(run[n].calls[c]) && run[n].calls[c].pc.room in run[n].rooms
    ensures var call := run[n].calls[c];
      var room := run[n].rooms[call.pc.room];
      && room.members.Keys == {call.creator, call.others[0]}
      && (forall u :: u in room.members ==> room.members[u].role == MEMBER)
  {
    DirectRun(run, acts, n);
    var s, call := run[n], run[n].calls[c];
    assert CallOk(s, c);
    var a, b :| PairRoom(s.rooms[call.pc.room], a, b);
    DirectKeyIdentifiesPair(a, b, call.creator, call.others[0]);
  }

  /**
   * Whoever asks, and however the calls interleave, all calls for one pair return the same room and
   * calls for different pairs return different rooms.
   */
  lemma OneRoomPerPair(run: seq<Sys>, acts: seq<Action>, n: nat, c: CallId, d: CallId)
    requires IsRun(run, acts) && Init(run[0]) && n < |run|
    requires c in run[n].calls && run[n].calls[c].pc.Returned?
    requires d in run[n].calls && run[n].calls[d].pc.Returned?
    ensures Asked(run[n].calls[c]) && Asked(run[n].calls[d])
    ensures run[n].calls[c].pc.room == run[n].calls[d].pc.room <==>
      {run[n].calls[c].creator, run[n].calls[c].others[0]} == {run[n].calls[d].creator, run[n].calls[d].others[0]}
  {
    DirectRun(run, acts, n);
    var x, y := run[n].calls[c], run[n].calls[d];
    assert CallOk(run[n], c) && CallOk(run[n], d);
    DirectKeyIdentifiesPair(x.creator, x.others[0], y.creator, y.others[0]);
  }

  /**
   * `room.created` goes out exactly for the rooms whose creating call has returned, at most once a
   * room and at most once a pair.
   */
  lemma AnnouncedOnce(run: seq<Sys>, acts: seq<Action>, n: nat)
    requires IsRun(run, acts) && Init(run[0]) && n < |run|
    ensures forall r :: r in run[n].emitted <==>
      r in run[n].author && run[n].author[r] in run[n].calls && run[n].calls[run[n].author[r]].pc == Returned(r)
    ensures forall j, k :: 0 <= j < k < |run[n].emitted| ==>
      var q, r := run[n].emitted[j], run[n].emitted[k];
      q in run[n].rooms && r in run[n].rooms && run[n].rooms[q].key != run[n].rooms[r].key
  {
    DirectRun(run, acts, n);
    var s := run[n];
    forall k | 0 <= k < |s.emitted| ensures s.emitted[k] in s.rooms { assert AuthorOk(s, s.emitted[k]); }
  }

  /** The lookup after losing the create race always finds the winner. */
  lemma LostRaceFindsWinner(run: seq<Sys>, acts: seq<Action>, n: nat, c: CallId)
    requires IsRun(run, acts) && Init(run[0]) && n < |run| && c in run[n].calls
    requires run[n].calls[c].pc.Refetch?
    ensures Asked(run[n].calls[c]) && KeyTaken(run[n].rooms, KeyOf(run[n].calls[c]))
  {
    DirectRun(run, acts, n);
    assert CallOk(run[n], c);
  }

  lemma KeptTwice(a: map<RoomId, Direct>, b: map<RoomId, Direct>, c: map<RoomId, Direct>)
    requires RoomsKept(a, b) && RoomsKept(b, c)
    ensures RoomsKept(a, c)
  {
  }

  /** The rows of a direct room are the same two users with the same roles forever. */
  lemma {:induction false} RowsForever(run: seq<Sys>, acts: seq<Action>, m: nat, n: nat)
    requires IsRun(run, acts) && m <= n < |run|
    ensures RoomsKept(run[m].rooms, run[n].rooms)
  {
    if m < n {
      RowsForever(run, acts, m, n - 1);
      NextKeepsRooms(run[n - 1], acts[n - 1], run[n]);
      KeptTwice(run[m].rooms, run[n - 1].rooms, run[n].rooms);
    }
  }

  /** Nobody can be removed from a direct room by the other side. */
  lemma OnlyOneselfCanLeave(run: seq<Sys>, acts: seq<Action>, n: nat)
    requires IsRun(run, acts) && Init(run[0]) && n < |acts| && acts[n].Leave?
    ensures acts[n].actor == acts[n].target
  {
    DirectRun(run, acts, n);
    assert Next(run[n], acts[n], run[n + 1]);
    var room := run[n].rooms[acts[n].room];
    var a, b :| PairRoom(room, a, b);
    assert acts[n].actor in room.members.Keys;
  }

  // ------------------------------------------------------------------ who is in the room

  /** No one goes out and nobody's join time or read position moves. */
  ghost predicate Stays(rooms: map<RoomId, Direct>, rooms': map<RoomId, Direct>) {
    forall r, u :: r in rooms && u in rooms[r].members ==>
      && r in rooms' && u in rooms'[r].members
      && rooms'[r].members[u] == rooms[r].members[u].(active := rooms'[r].members[u].active)
      && (rooms[r].members[u].active ==> rooms'[r].members[u].active)
  }

  /** A step of a call may bring someone back, and changes nothing else in a row. */
  lemma CallsTakeNobodyOut(s: Sys, a: Action, s': Sys)
    requires Next(s, a, s') && !a.Leave?
    ensures Stays(s.rooms, s'.rooms)
  {
    if a.Step? { StepTakesNobodyOut(s, a.call, a.id, a.now, s'); }
  }

  lemma StepTakesNobodyOut(s: Sys, c: CallId, id: RoomId, now: nat, s': Sys)
    requires c in s.calls && Advance(s, c, id, now, s')
    ensures Stays(s.rooms, s'.rooms)
  {
  }

  /** A departure takes the one who leaves out, in that room, and changes nothing else. */
  lemma LeaveTakesOneOut(s: Sys, a: Action, s': Sys)
    requires Next(s, a, s') && a.Leave?
    ensures a.room in s.rooms && a.target in s.rooms[a.room].members && s'.rooms.Keys == s.rooms.Keys
    ensures s'.rooms[a.room].members.Keys == s.rooms[a.room].members.Keys
    ensures s.rooms[a.room].members[a.target].active && !s'.rooms[a.room].members[a.target].active
    ensures forall r, u :: r in s.rooms && u in s.rooms[r].members && (r != a.room || u != a.target) ==>
      u in s'.rooms[r].members && s'.rooms[r].members[u] == s.rooms[r].members[u]
  {
  }

  ghost predicate BothIn(s: Sys, r: RoomId) {
    r in s.rooms && forall u :: u in s.rooms[r].members ==> s.rooms[r].members[u].active
  }

  /** The call has yet to create the room, or to bring its users back. */
  predicate StillToJoin(s: Sys, c: CallId) {
    c !in s.calls || !(s.calls[c].pc.View? || s.calls[c].pc.Emit? || s.calls[c].pc.Returned? || s.calls[c].pc.Failed?)
  }

  predicate HasJoined(s: Sys, c: CallId, r: RoomId) {
    c in s.calls && (s.calls[c].pc == View(r, true) || s.calls[c].pc == View(r, false)
                     || s.calls[c].pc == Emit(r) || s.calls[c].pc == Returned(r))
  }

  lemma JoiningStep(s: Sys, c: CallId, id: RoomId, now: nat, s': Sys, r: RoomId)
    requires RoomsOk(s.rooms) && c in s.calls && CallOk(s, c) && Advance(s, c, id, now, s')
    requires StillToJoin(s, c) && HasJoined(s', c, r)
    ensures BothIn(s', r)
  {
    var call := s.calls[c];
    if call.pc.Reactivate? {
      var a, b :| PairRoom(s.rooms[r], a, b);
      DirectKeyIdentifiesPair(a, b, call.creator, call.others[0]);
    }
  }

  predicate NoLeave(acts: seq<Action>, r: RoomId, m: nat, n: nat)
    requires m <= n <= |acts|
  {
    forall i :: m <= i < n ==> !(acts[i].Leave? && acts[i].room == r)
  }

  lemma JoinedStep(s: Sys, a: Action, s': Sys, c: CallId, r: RoomId)
    requires DirectInv(s) && Next(s, a, s') && !(a.Leave? && a.room == r)
    requires StillToJoin(s, c) || (HasJoined(s, c, r) ==> BothIn(s, r))
    requires HasJoined(s', c, r)
    ensures BothIn(s', r)
  {
    if StillToJoin(s, c) {
      assert a.Step? && a.call == c && CallOk(s, c) by { OwnStep(s, a, s', c, r); }
      JoiningStep(s, c, a.id, a.now, s', r);
    } else {
      HasJoinedBefore(s, a, s', c, r);
      if a.Leave? { LeaveTakesOneOut(s, a, s'); } else { CallsTakeNobodyOut(s, a, s'); }
      NextKeepsRooms(s, a, s');
    }
  }

  lemma OwnStep(s: Sys, a: Action, s': Sys, c: CallId, r: RoomId)
    requires DirectInv(s) && Next(s, a, s') && StillToJoin(s, c) && HasJoined(s', c, r)
    ensures a.Step? && a.call == c && CallOk(s, c)
  {
    if a.Step? { StepShape(s, a.call, a.id, a.now, s'); }
  }

  lemma HasJoinedBefore(s: Sys, a: Action, s': Sys, c: CallId, r: RoomId)
    requires Next(s, a, s') && !StillToJoin(s, c) && HasJoined(s', c, r)
    ensures HasJoined(s, c, r)
  {
    if a.Step? { StepShape(s, a.call, a.id, a.now, s'); }
  }

  lemma {:induction false} JoinedRun(run: seq<Sys>, acts: seq<Action>, m: nat, n: nat, c: CallId, r: RoomId)
    requires IsRun(run, acts) && Init(run[0]) && m <= n < |run|
    requires StillToJoin(run[m], c) && NoLeave(acts, r, m, n)
    ensures HasJoined(run[n], c, r) ==> BothIn(run[n], r)
  {
    if m < n {
      JoinedRun(run, acts, m, n - 1, c, r);
      DirectRun(run, acts, n - 1);
      if HasJoined(run[n], c, r) { JoinedStep(run[n - 1], acts[n - 1], run[n], c, r); }
    }
  }

  /**
   * Whoever calls has the room back: if nobody leaves between the statement with which the call
   * creates the room or brings its users back and its return, both users are in the room then.
   */
  lemma BothAreInOnReturn(run: seq<Sys>, acts: seq<Action>, m: nat, n: nat, c: CallId)
    requires IsRun(run, acts) && Init(run[0]) && m <= n < |run|
    requires c in run[n].calls && run[n].calls[c].pc.Returned?
    requires StillToJoin(run[m], c) && NoLeave(acts, run[n].calls[c].pc.room, m, n)
    ensures var call := run[n].calls[c];
      && Asked(call) && call.pc.room in run[n].rooms
      && IsActive(run[n].rooms[call.pc.room].members, call.creator)
      && IsActive(run[n].rooms[call.pc.room].members, call.others[0])
  {
    JoinedRun(run, acts, m, n, c, run[n].calls[c].pc.room);
    ReturnsOwnPair(run, acts, n, c);
  }

  // ------------------------------------------------------------------ what a new room looks like

  /** The creating step records its caller and the two users, who have read nothing. */
  lemma CreatedAsAsked(s: Sys, c: CallId, id: RoomId, now: nat, s': Sys)
    requires c in s.calls && CallOk(s, c) && Advance(s, c, id, now, s') && s'.rooms.Keys != s.rooms.Keys
    ensures var call := s.calls[c];
      && Asked(call) && s'.rooms.Keys == s.rooms.Keys + {id} && id !in s.rooms
      && s'.rooms[id].createdBy == call.creator
      && s'.rooms[id].members.Keys == {call.creator, call.others[0]}
      && (forall u :: u in s'.rooms[id].members ==> s'.rooms[id].members[u] == Member(MEMBER, now, 0, true))
  {
  }
}
