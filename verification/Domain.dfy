/** The rows of the chat database and the SYSTEM message payloads. */
module Domain {
  import opened Common

  type UserId = string
  type RoomId = string
  type MessageId = string

  const SEQ_RETRY: nat := 3

  // Declared in the order of the database enum.
  datatype Role = OWNER | ADMIN | MEMBER

  datatype Payload =
    | RoomCreated(actor: UserId)
    | MemberJoined(actor: UserId, targets: seq<UserId>)
    | MemberLeft(actor: UserId)
    | MemberKicked(actor: UserId, target: UserId)
    | RoomRenamed(actor: UserId, name: Option<string>)
    | AvatarChanged(actor: UserId)
    | RoleChanged(actor: UserId, target: UserId, role: Role)

  // IMAGE, GIF, VIDEO and FILE are treated alike by the services.
  datatype Kind = Text | Media | System(payload: Payload)

  datatype Message = Message(
    id: MessageId,
    roomId: RoomId,
    sender: UserId,
    seqNo: nat,
    kind: Kind,
    content: Option<string>,
    mediaId: Option<string>,
    replyTo: Option<MessageId>,
    key: Option<string>,         // clientMessageId
    createdAt: nat,
    deletedAt: Option<nat>)

  /** The arguments of `createMessage`; `isSystem` marks the SYSTEM messages of the rooms service. */
  datatype Params = Params(
    roomId: RoomId,
    sender: UserId,
    kind: Kind,
    content: Option<string>,
    mediaId: Option<string>,
    key: Option<string>,
    replyTo: Option<MessageId>,
    isSystem: bool)

  /** The row an insert writes, given the primary key and the clock of the database. */
  function RowOf(p: Params, id: MessageId, n: nat, now: nat): Message {
    Message(id, p.roomId, p.sender, n, p.kind, p.content, p.mediaId, p.replyTo, p.key, now, None)
  }

  function SystemParams(room: RoomId, actor: UserId, payload: Payload): Params {
    Params(room, actor, System(payload), None, None, None, None, true)
  }

  /** What an unsend leaves of a row: body and media are nulled, the placeholder stays. */
  function Unsent(m: Message, now: nat): Message {
    m.(content := None, mediaId := None, deletedAt := Some(now))
  }
}
