/** What a sender, and a member who unsends, is told, and what it means for the log. */
module SendResults {
  import opened Common
  import opened Domain
  import opened RoomModel

  /** The row is the request, written at `now` under `n` and not unsent. */
  predicate IsRequest(m: Message, p: Params, n: nat, now: nat) {
    && m.roomId == p.roomId && m.sender == p.sender && m.seqNo == n && m.kind == p.kind
    && m.content == p.content && m.mediaId == p.mediaId && m.replyTo == p.replyTo && m.key == p.key
    && m.createdAt == now && m.deletedAt.None?
  }

  /** `m` is the only row that has been added. */
  predicate Adds(log: MessageLog, log': MessageLog, m: Message) {
    m.seqNo !in log && log' == log[m.seqNo := m]
  }

  /** `m` is a row of the log, the one with the key. */
  predicate IsRowOfKey(log: MessageLog, key: Option<string>, m: Message) {
    m.seqNo in log && log[m.seqNo] == m && key.Some? && m.key == key
  }

  /**
   * A send reports a new row exactly if the row it returns is new, and then that row is the request
   * and nothing else has changed; it reports a duplicate exactly if the key was used, and then the row
   * is the one of the key and the log is as before. An error leaves the log as it was.
   */
  lemma SendAnswers(s: RoomState, p: Params, id: MessageId, now: nat, ownsMedia: Result<bool, Error>)
    requires LogOk(s.log, s.roomId) && p.roomId == s.roomId && !IdUsed(s.log, id)
    ensures var (s', r) := Send(s, p, id, now, ownsMedia);
      && s' == s.(log := s'.log, counter := s'.counter)
      && (r.Err? ==> s'.log == s.log)
      && (r.Ok? ==>
            && (!r.value.duplicate <==> !IdUsed(s.log, r.value.row.id))
            && (!r.value.duplicate ==>
                  && Adds(s.log, s'.log, r.value.row) && IsRequest(r.value.row, p, r.value.row.seqNo, now)
                  && r.value.row.id == id)
            && (r.value.duplicate <==> p.key.Some? && KeyUsed(s.log, p.key.value))
            && (r.value.duplicate ==> s'.log == s.log && IsRowOfKey(s.log, p.key, r.value.row)))
  {
    var (s', r) := Send(s, p, id, now, ownsMedia);
    if r.Ok? && r.value.duplicate {
      var q :| q in s.log.Keys && s.log[q].key == p.key && s.log[q] == r.value.row;
      assert IdUsed(s.log, r.value.row.id);
    }
  }

  /** A resend of a used, non-empty key is answered whatever has become of the member or the payload. */
  lemma ResendIsAnswered(s: RoomState, p: Params, id: MessageId, now: nat, ownsMedia: Result<bool, Error>, q: nat)
    requires LogOk(s.log, s.roomId) && q in s.log && s.log[q].key == p.key
    requires p.key.Some? && p.key.value != ""
    ensures Send(s, p, id, now, ownsMedia) == (s, Ok(Sent(s.log[q], true)))
  {
    assert q in s.log.Keys && KeyUsed(s.log, p.key.value);
  }

  // ------------------------------------------------------------------ which requests are refused

  predicate HasText(content: Option<string>) {
    content.Some? && exists k :: 0 <= k < |content.value| && !IsSpace(content.value[k])
  }

  predicate NonEmpty(x: Option<string>) {
    x.Some? && x.value != ""
  }

  /** A text with a visible character, or a media message with a media id; never a SYSTEM message. */
  predicate BodyOk(p: Params) {
    (p.kind.Text? && HasText(p.content)) || (p.kind.Media? && NonEmpty(p.mediaId))
  }

  predicate MediaOk(p: Params, ownsMedia: Result<bool, Error>) {
    NonEmpty(p.mediaId) ==> ownsMedia.Ok?
  }

  predicate ReplyOk(s: RoomState, p: Params) {
    NonEmpty(p.replyTo) ==> exists q :: q in s.log.Keys && s.log[q].id == p.replyTo.value
  }

  /**
   * A first send by a client succeeds exactly for an active member with a body, media of its own and a
   * reply target in the room; otherwise the first thing amiss is what it is told. (An empty reply
   * target passes the check, and then has no row to refer to.)
   */
  lemma FirstSendSucceedsIff(s: RoomState, p: Params, id: MessageId, now: nat, ownsMedia: Result<bool, Error>)
    requires LogOk(s.log, s.roomId) && !p.isSystem
    requires p.key.Some? ==> !KeyUsed(s.log, p.key.value)
    ensures var r := Send(s, p, id, now, ownsMedia).1;
      && (r.Ok? <==>
            && IsActive(s.members, p.sender) && BodyOk(p) && MediaOk(p, ownsMedia) && ReplyOk(s, p)
            && p.replyTo != Some(""))
      && (!IsActive(s.members, p.sender) ==> r == Err(Forbidden))
      && (IsActive(s.members, p.sender) && !BodyOk(p) ==> r == Err(Validation))
      && (IsActive(s.members, p.sender) && BodyOk(p) && !MediaOk(p, ownsMedia) ==> r == Err(ownsMedia.error))
      && (IsActive(s.members, p.sender) && BodyOk(p) && MediaOk(p, ownsMedia) && !ReplyOk(s, p) ==>
            r == Err(Validation))
  {
    if p.content.Some? {
      assert HasText(p.content) <==> !Blank(p.content.value);
    }
  }

  /** A SYSTEM message of the server is always stored. */
  lemma SystemSendSucceeds(s: RoomState, actor: UserId, payload: Payload, id: MessageId, now: nat)
    ensures var (s', r) := Send(s, SystemParams(s.roomId, actor, payload), id, now, Ok(true));
      && r.Ok? && !r.value.duplicate && Adds(s.log, s'.log, r.value.row)
      && r.value.row.sender == actor && r.value.row.kind == System(payload) && r.value.row.key.None?
  {
  }

  // ------------------------------------------------------------------ unsend

  /** Only body and media are gone; the placeholder keeps its place, sender, kind, reply target and key. */
  predicate IsPlaceholder(m: Message, m': Message, now: nat) {
    && m'.id == m.id && m'.roomId == m.roomId && m'.sender == m.sender && m'.seqNo == m.seqNo
    && m'.kind == m.kind && m'.replyTo == m.replyTo && m'.key == m.key && m'.createdAt == m.createdAt
    && m'.content.None? && m'.mediaId.None? && m'.deletedAt == Some(now)
  }

  /**
   * A row is unsent exactly if it is the requester's own, not a SYSTEM message, still live and no older
   * than the window, to the millisecond; that row becomes a placeholder and nothing else changes.
   */
  lemma UnsendIff(s: RoomState, q: nat, requester: UserId, now: nat, windowSec: nat)
    requires LogOk(s.log, s.roomId) && q in s.log
    ensures var m, (s', r) := s.log[q], SoftDelete(s, s.log[q].id, requester, now, windowSec);
      && s' == s.(log := s'.log)
      && (r == Ok(true) <==>
            && m.sender == requester && !m.kind.System? && m.deletedAt.None?
            && now <= m.createdAt + 1000 * windowSec)
      && (r == Ok(true) ==>
            && s'.log.Keys == s.log.Keys && IsPlaceholder(m, s'.log[q], now)
            && forall k :: k in s.log && k != q ==> s'.log[k] == s.log[k])
      && (r != Ok(true) ==> s' == s)
      && (r == Ok(false) <==> m.sender == requester && !m.kind.System? && m.deletedAt.Some?)
      && (r.Err? ==> r == Err(Forbidden))
  {
    assert q in s.log.Keys && IdUsed(s.log, s.log[q].id);
  }

  lemma UnsendUnknown(s: RoomState, id: MessageId, requester: UserId, now: nat, windowSec: nat)
    requires forall q :: q in s.log ==> s.log[q].id != id
    ensures SoftDelete(s, id, requester, now, windowSec) == (s, Err(NotFound))
  {
  }

  /** No reader is shown the body of an unsent row, and everything else is shown as it is stored. */
  lemma UnsentIsHidden(m: Message)
    ensures m.deletedAt.Some? ==> Serialize(m).content.None? && Serialize(m).mediaId.None?
    ensures m.deletedAt.None? ==> Serialize(m) == m
    ensures Serialize(m) == m.(content := Serialize(m).content, mediaId := Serialize(m).mediaId)
  {
  }
}
