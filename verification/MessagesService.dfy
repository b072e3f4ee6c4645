/** `MessagesService`, one request at a time. */
module MessagesService {
  import opened Common
  import opened Domain
  import opened RoomModel
  import opened RoomDb
  import opened History

  method NextSeq(db: Db) returns (n: nat)
    modifies db`counter
    ensures n == FirstTry(db.log.Keys, old(db.counter))
    ensures db.counter == Some(n)
  {
    var found := db.Exists();
    if !found {
      var max := db.MaxSeq();
      var _ := db.SetNx(max);
    }
    n := db.Incr();
  }

  method ResyncSeq(db: Db)
    modifies db`counter
    ensures db.counter == Some(MaxOf(db.log.Keys))
  {
    var max := db.MaxSeq();
    db.Set(max);
  }

  /**
   * Undisturbed, the retry loop needs at most two attempts and never gives up: an unused key gets the
   * number `NextFree`; a used key yields `None` and leaves the log alone.
   */
  method PersistWithSeq(db: Db, p: Params, id: MessageId, now: nat)
    returns (r: Result<Option<Message>, Error>, ghost attempts: nat)
    requires db.Valid() && p.roomId == db.roomId && id != "" && !IdUsed(db.log, id)
    modifies db`counter, db`log
    ensures db.Valid() && db.counter.Some? && 1 <= attempts <= 2
    ensures !Repeats(old(db.log), p) ==> db.counter.value == NextFree(old(db.log.Keys), old(db.counter))
    ensures !Repeats(old(db.log), p) && !Dangles(old(db.log), p) ==>
      r == Ok(Some(RowOf(p, id, db.counter.value, now))) && db.State() == Posted(old(db.State()), p, id, now)
    ensures Repeats(old(db.log), p) || Dangles(old(db.log), p) ==>
      db.log == old(db.log) && r == if Repeats(db.log, p) then Ok(None) else Err(Internal)
    ensures Repeats(old(db.log), p) ==>
      db.counter.value in {FirstTry(db.log.Keys, old(db.counter)), NextFree(db.log.Keys, old(db.counter))}
  {
    var attempt := 0;
    while attempt < SEQ_RETRY
      invariant 0 <= attempt <= SEQ_RETRY
      invariant db.Valid() && db.log == old(db.log)
      invariant attempt == 0 ==> db.counter == old(db.counter)
      invariant attempt > 0 ==>
        && attempt == 1 && FirstTry(db.log.Keys, old(db.counter)) in db.log
        && db.counter == Some(MaxOf(db.log.Keys))
    {
      var n := NextSeq(db);
      var inserted := db.Insert(p, id, n, now);
      attempts := attempt + 1;
      match inserted
      case Inserted(row) => return Ok(Some(row)), attempts;
      case KeyViolation => return Ok(None), attempts;
      case ForeignKeyViolation => return Err(Internal), attempts;
      case SeqViolation =>
        ResyncSeq(db);
        attempt := attempt + 1;
    }
    r := Err(Conflict);
  }

  /** The insert of an empty key already in use collides on the number as well; either may be reported. */
  ghost predicate ClashesTwice(s: RoomState, p: Params) {
    p.key == Some("") && Repeats(s.log, p) && FirstTry(s.log.Keys, s.counter) in s.log
  }

  /** The one place where messages are stored. */
  method CreateMessage(db: Db, p: Params, id: MessageId, now: nat, ownsMedia: Result<bool, Error>)
    returns (r: Result<Sent, Error>)
    requires db.Valid() && p.roomId == db.roomId && id != "" && !IdUsed(db.log, id)
    modifies db`counter, db`log
    ensures db.Valid()
    ensures r == Send(old(db.State()), p, id, now, ownsMedia).1
    ensures var s' := Send(old(db.State()), p, id, now, ownsMedia).0;
      || db.State() == s'
      || (ClashesTwice(old(db.State()), p) && SendError(old(db.State()), p, ownsMedia).None?
          && db.State() == s'.(counter := Some(NextFree(old(db.log.Keys), old(db.counter)))))
  {
    if p.key.Some? && p.key.value != "" && KeyUsed(db.log, p.key.value) {
      var found := FindByKey(db, p.key.value);
      return Ok(Sent(found, true));
    }
    var refused := CheckSend(db, p, ownsMedia);
    if refused.Some? { return Err(refused.value); }
    var persisted, _ := PersistWithSeq(db, p, id, now);
    if persisted.Err? { return Err(persisted.error); }
    if persisted.value.None? {
      var winner := FindByKey(db, p.key.value);
      return Ok(Sent(winner, true));
    }
    r := Ok(Sent(persisted.value.value, false));
  }

  /** assertActiveMember, validatePayload, assertOwnedMedia and assertReplyTarget. */
  method CheckSend(db: Db, p: Params, ownsMedia: Result<bool, Error>) returns (refused: Option<Error>)
    ensures refused == SendError(db.State(), p, ownsMedia)
  {
    if !p.isSystem {
      if !IsActive(db.members, p.sender) { return Some(Forbidden); }
      match p.kind {
      case Text => if p.content.None? || Blank(p.content.value) { return Some(Validation); }
      case Media => if p.mediaId.None? || p.mediaId.value == "" { return Some(Validation); }
      case System(_) => return Some(Validation);
      }
      if p.mediaId.Some? && p.mediaId.value != "" && ownsMedia.Err? { return Some(ownsMedia.error); }
      if p.replyTo.Some? && p.replyTo.value != "" && !IdUsed(db.log, p.replyTo.value) { return Some(Validation); }
    }
    refused := None;
  }

  method FindByKey(db: Db, key: string) returns (row: Message)
    requires db.Valid() && KeyUsed(db.log, key)
    ensures row == RowOfKey(db.log, key)
  {
    var q :| q in db.log.Keys && db.log[q].key == Some(key);
    row := db.log[q];
  }

  method CreateSystemMessage(db: Db, actor: UserId, payload: Payload, id: MessageId, now: nat)
    requires db.Valid() && id != "" && !IdUsed(db.log, id)
    modifies db`counter, db`log
    ensures db.Valid()
    ensures db.State() == PostSystem(old(db.State()), actor, payload, id, now)
  {
    var _ := CreateMessage(db, SystemParams(db.roomId, actor, payload), id, now, Ok(true));
  }

  /** Returns the receivers of `message.read`, if it is sent. */
  method MarkReadUpTo(db: Db, u: UserId, upTo: int) returns (notified: Option<set<UserId>>)
    modifies db`members
    ensures db.State() == MarkRead(old(db.State()), u, upTo)
    ensures notified == if db.members == old(db.members) then None else Some(ActiveSet(db.members))
  {
    if !IsActive(db.members, u) || db.members[u].lastReadSeq >= upTo { return None; }
    db.members := db.members[u := db.members[u].(lastReadSeq := upTo)];
    notified := Some(ActiveSet(db.members));
  }

  /** Returns the receivers of `message.deleted`, if it is sent. */
  method SoftDeleteMessage(db: Db, id: MessageId, requester: UserId, now: nat, windowSec: nat)
    returns (r: Result<Option<set<UserId>>, Error>)
    requires db.Valid()
    modifies db`log
    ensures db.Valid()
    ensures db.State() == SoftDelete(old(db.State()), id, requester, now, windowSec).0
    ensures match SoftDelete(old(db.State()), id, requester, now, windowSec).1
            case Err(e) => r == Err(e)
            case Ok(deleted) => r == Ok(if deleted then Some(ActiveSet(db.members)) else None)
  {
    if !IdUsed(db.log, id) { return Err(NotFound); }
    var q :| q in db.log.Keys && db.log[q].id == id;
    var m := db.log[q];
    if m.kind.System? { return Err(Forbidden); }
    if m.sender != requester { return Err(Forbidden); }
    if m.deletedAt.Some? { return Ok(None); }
    if now - m.createdAt > 1000 * windowSec { return Err(Forbidden); }
    db.log := db.log[q := Unsent(m, now)];
    r := Ok(Some(ActiveSet(db.members)));
  }

  predicate CountsAsUnread(log: MessageLog, q: nat, u: UserId, lastReadSeq: int) {
    q in log && q > lastReadSeq && log[q].deletedAt.None? && log[q].sender != u
  }

  /** `count` over the rows of the room; 0 exactly if no row counts. */
  method CountUnread(db: Db, u: UserId, lastReadSeq: int) returns (count: nat)
    ensures count == |Unread(db.log, u, lastReadSeq)|
    ensures count == 0 <==> forall q :: q in db.log ==> !CountsAsUnread(db.log, q, u, lastReadSeq)
  {
    var log := db.log;
    ghost var unread := Unread(log, u, lastReadSeq);
    assert forall q :: q in unread <==> CountsAsUnread(log, q, u, lastReadSeq);
    ghost var counted := {};
    var rest := log.Keys;
    count := 0;
    while rest != {}
      invariant rest <= log.Keys
      invariant counted == unread - rest && count == |counted|
      decreases rest
    {
      var q :| q in rest;
      rest := rest - {q};
      if CountsAsUnread(log, q, u, lastReadSeq) {
        count, counted := count + 1, counted + {q};
      }
    }
    assert counted == unread;
  }

  datatype Item = Item(row: Message, readCount: nat)

  predicate Renders(db: Db, page: seq<nat>, items: seq<Item>)
    reads db
  {
    && |items| == |page|
    && forall k :: 0 <= k < |items| ==>
         page[k] in db.log && items[k] == Item(Serialize(db.log[page[k]]), |Readers(db.members, db.log[page[k]])|)
  }

  method Render(db: Db, page: seq<nat>) returns (items: seq<Item>)
    requires forall k :: 0 <= k < |page| ==> page[k] in db.log
    ensures Renders(db, page, items)
  {
    items := [];
    for i := 0 to |page|
      invariant Renders(db, page[..i], items)
    {
      var m := db.log[page[i]];
      items := items + [Item(Serialize(m), |Readers(db.members, m)|)];
    }
    assert page[..|page|] == page;
  }

  /** One history page: the numbers of `PageOf`, each row serialized with its read count. */
  method ListMessages(db: Db, cursor: Option<int>, limit: nat)
    returns (items: seq<Item>, nextCursor: Option<int>)
    requires limit >= 1
    ensures nextCursor == PageOf(db.log.Keys, cursor, limit).nextCursor
    ensures Renders(db, PageOf(db.log.Keys, cursor, limit).items, items)
  {
    DescMembers(Below(db.log.Keys, cursor));
    var rows := db.FindManyDesc(cursor, limit + 1);
    var hasMore := |rows| > limit;
    var page := if hasMore then rows[..limit] else rows;
    nextCursor := if hasMore then Some(page[|page| - 1]) else None;
    items := Render(db, page);
  }
}
