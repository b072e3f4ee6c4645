# A model of the chat backend's rooms, messages, sessions and presence

This project models the parts of the backend in which several requests, nodes or stores have to agree,
and proves what those parts promise. It is written in Dafny; to verify it, run
`dafny verify dfyconfig.toml`.

## What is modelled

**Sending a message, with full interleaving** (`SendProtocol.dfy`). `createMessage` is a state machine:
every Redis command (`EXISTS`, `SET NX`, `INCR`, `SET`) and every database statement is one atomic step,
each call has a program counter and its local values, and any number of calls in any rooms interleave.
At any moment a call may die, a sender may unsend a row, and the counter key of a room may vanish. When an
insert violates both unique constraints, either one may be the one reported. `SendOnce.dfy` proves the
idempotency guarantees in all runs. `SendOrder.dfy` and `SendReplies.dfy` prove the ordering guarantees in
the runs in which counter keys vanish, if at all, only while no call of their room needs them, and
`KeyLoss.dfy` proves that this condition is exact. `ConcurrentHistory.dfy` proves that reading the history page by page while
all this goes on misses and repeats nothing. `UndisturbedSend.dfy` ties the two levels together: a call of
the protocol that happens to run alone does exactly what the one-request model below says.

**One room, one request at a time.** `RoomModel.dfy` describes a room by value: member rows, the messages
by number, the counter key. `RoomDb.dfy` is the store as an object whose methods update it;
`MessagesService.dfy` and `RoomsService.dfy` are the services as methods on it, loops included, each proved
against a function on the room state. About those functions the lemmas show: what senders are answered and
what an unsend leaves (`SendResults.dfy`), who may do what in a group and what it changes (`Permissions.dfy`),
what a missing, lagging or leading counter does (`SelfHealing.dfy`), what pages contain (`History.dfy`), that unread counts and read
counts agree (`ReadState.dfy`), how each request changes unread counts and where read positions end
(`UnreadChanges.dfy`), that a group has one owner (`Ownership.dfy`), who inherits it (`Succession.dfy`), and
that its SYSTEM messages tell its membership and name (`Replay.dfy`). `Invitations.dfy` takes the membership
row of one user apart into statements, where two invitations can overlap.

**One-to-one rooms, with full interleaving** (`DirectRooms.dfy`, `DirectRoomRuns.dfy`): the create race on
`directKey`, reactivation and departures.

**Sessions and the whitelist** (`Sessions.dfy`, `AuthService.dfy`, `SessionRuns.dfy`, `WhitelistRuns.dfy`): login, rotation with
reuse detection, logout, and the admin requests, over whole runs; refresh keys may also expire at any time.

**Presence** (`Presence.dfy`): the socket set of a user with its time to live, heartbeats that may be late,
node crashes and the online/offline announcements, over discrete time.

The clock, generated ids (row ids, token ids, socket ids), verified token payloads and the answers of the
media and user tables are parameters. Sequence numbers and times are mathematical integers; the program
itself relies on sequence numbers staying below 2^53.

## Where the code and its documentation differ

- The README of the program derives the number of people who have not read a message as active members
  minus 1 minus `readCount`. `ReadState.DerivedUnreadByIff` shows that this is right exactly when the sender is
  still an active member; after the sender has left it is one too small.
- `seq` is documented as increasing. `SelfHealing.OrderKeptIff` gives the exact condition for an undisturbed
  send: the counter is missing, not behind the table, or about to collide. A room is documented to recover
  from a lost counter key by resyncing. `KeyLoss.LossIsSafeIff` gives the exact condition under
  interleaving: the loss is safe exactly if, when it happens, no call of the room holds a number above all
  persisted ones, is about to set an outdated maximum, or is about to increment while the room has rows.
  Otherwise inserts can collide, and, because a resync can set an outdated maximum, a message can get a
  smaller number than one returned before it was sent.
- A comment says that read positions only ever advance. That holds request by request
  (`UnreadChanges.ReadPositionIsMaximum`), and statement by statement as long as invitations of one user do
  not overlap (`Invitations.SerialPositionIsMaximum`); if two overlap, the later write can put back an older
  head (`Invitations.PositionFallsIff`, `Invitations.OverlapLowersPosition`).
- With a presence TTL of one second the heartbeat period equals the TTL, and a connected socket can appear
  offline: `Presence.ConfiguredHeartbeatIff`.
- An empty `clientMessageId` skips the first lookup but is stored and unique; the guarantees of `SendOnce`
  hold for it as for any other key.

## Model

| member | source | states |
|---|---|---|
| SendOnce.ExactlyOnce | src/messages/messages.service.ts:93-131 | in every interleaving, key losses and crashes included, two returned calls with one room and key return the same row, which carries the key, and at most one reports it as new |
| SendOnce.FreshRowIsTheRequest | src/messages/messages.service.ts:136-149 | a call that returns a new row returns the sender, room, key, kind, reply target, body and media it was given; once unsent, the body and media are gone and the rest stays |
| SendOnce.LostRaceFindsWinner | src/messages/messages.service.ts:113-121 | whenever an insert lost on the key, a row with that key is there for the second lookup |
| SendOnce.BroadcastOnce | src/messages/messages.service.ts:128-130 | a row is in the broadcast log exactly if its inserting call returned it as new; no row and no key of a room is broadcast twice |
| SendOnce.OnceRun | src/messages/messages.service.ts:93-167 | the inductive invariant behind these holds in every state of every run |
| SendOnce.GivesUpAfterThree | src/messages/messages.service.ts:134-167 | in every run a call fails with the sequence conflict exactly when its third attempt has collided |
| SendOrder.CollisionsUnreachable | src/messages/messages.service.ts:75-87 | with counters missing or ahead at the start and keys lost only where no call needs them, numbers in flight differ from each other and from all persisted ones, counters that exist cover both, and no call resyncs or fails with the conflict |
| SendOrder.SeqRun | src/messages/messages.service.ts:134-167 | the inductive invariant over the EXISTS, max, SET NX, INCR and insert steps |
| KeyLoss.LossIsSafeIff | src/messages/messages.service.ts:75-87 | from any state of such a run, losing a counter key leaves every continuation without further loss free of collisions exactly if no call of the room needs the key, and leaves every such continuation in real-time order exactly under the same condition |
| KeyLoss.CollisionReverses | src/messages/messages.service.ts:84-87 | from any state in which a call of the room is about to resync, a continuation returns a number and then, to a call begun afterwards, a smaller one |
| KeyLoss.LossReversesOrder | src/messages/messages.service.ts:77-81 | from a table and counter in order, a run that loses one key, between EXISTS and INCR, and reverses the order |
| SendOrder.LaterCallGetsLargerSeq | src/messages/messages.service.ts:75-82 | in those runs a call that begins after another call of its room has returned, and inserts, gets the larger number |
| SendReplies.RepliesStayBackward | src/messages/messages.service.ts:327-335 | in those runs every reply target is a row of the same room with a smaller number |
| SendReplies.ChainEnds | src/messages/messages.service.ts:104-109 | following replyToId goes strictly back in one room, and ends within seq + 1 rows at a row that replies to nothing |
| ConcurrentHistory.IndexIsTheRoom | prisma/schema.prisma:158-159 | under the two unique constraints the rows of a room are a log by number that loses and confuses no row |
| ConcurrentHistory.WalkDuringSends | src/messages/messages.service.ts:188-226 | pages read at any instants of any run show no number twice and every row present at the first page exactly once |
| UndisturbedSend.SoloCallPosts | src/messages/messages.service.ts:93-167 | a protocol call that runs alone, from any table and counter, and returns a new row has turned its room into `Posted` of it, counter included, and left other rooms alone |
| UndisturbedSend.SoloCallFindsDuplicate | src/messages/messages.service.ts:97-121 | one that runs alone and reports a duplicate returns the row of its key and writes no row |
| UndisturbedSend.SoloResendIsAnswered | src/messages/messages.service.ts:96-102 | one that runs alone with a used, non-empty key ends at its first lookup, before any check and without drawing a number |
| UndisturbedSend.SoloCallReturns | src/messages/messages.service.ts:93-167 | one that runs alone ends within thirteen of its steps and is never stuck before; with an unused key, passed checks and a valid reply target it ends by returning a new row |
| UndisturbedSend.SoloCallNeedsTwoAttempts | src/messages/messages.service.ts:134-167 | one that runs alone never makes a third attempt and never fails with the sequence conflict |
| RoomDb.Db.SetNx | src/redis/redis.service.ts:45-48 | sets the key only if it is missing and says whether it did |
| RoomDb.Db.Incr | src/redis/redis.service.ts:58-60 | one more than the key, a missing key counting as 0 |
| RoomDb.Db.MaxSeq | src/messages/messages.service.ts:67-73 | the largest number of the room, 0 for an empty room |
| RoomDb.Db.FindManyDesc | src/messages/messages.service.ts:200-204 | the first `take` numbers below the cursor, largest first |
| RoomDb.Db.Insert | prisma/schema.prisma:139-163 | which constraint violations are possible when, and that exactly an insert without violation adds exactly the row |
| MessagesService.NextSeq | src/messages/messages.service.ts:75-82 | the counter, started from the table when missing, plus one |
| MessagesService.ResyncSeq | src/messages/messages.service.ts:84-87 | the counter is the table maximum |
| MessagesService.PersistWithSeq | src/messages/messages.service.ts:134-167 | for every table and counter: at most two attempts and never a conflict; counter + 1 if free, else maximum + 1; a used key yields null and no row; a dangling reply target fails without a row |
| MessagesService.CreateMessage | src/messages/messages.service.ts:93-131 | result and new state are those of `Send`, which the rows of `SendResults` below describe; only if an empty key repeats and the number collides too, the counter may be the resynced one |
| SendResults.SendAnswers | src/messages/messages.service.ts:96-130 | `duplicate: false` exactly if the returned row is new, and then it is the request field by field and the only change; `duplicate: true` exactly if the key was used, and then it is the row of the key and nothing is added; an error adds nothing |
| SendResults.ResendIsAnswered | src/messages/messages.service.ts:96-102 | a resend of a used, non-empty key gets its row whatever has become of membership and payload, and not even the counter moves |
| SendResults.FirstSendSucceedsIff | src/messages/messages.service.ts:104-109 | a first send succeeds exactly for an active member with a body, own media and a reply target in the room; otherwise the first thing amiss is the error |
| SendResults.SystemSendSucceeds | src/messages/messages.service.ts:170-183 | a SYSTEM message of the server is always stored, as given |
| MessagesService.CheckSend | src/messages/messages.service.ts:298-335 | the first failing check among membership, payload, media and reply target |
| MessagesService.CreateSystemMessage | src/messages/messages.service.ts:170-183 | the message is appended and nothing else changes |
| MessagesService.MarkReadUpTo | src/messages/messages.service.ts:231-242 | only an active member's position moves, only forward; the event goes to the active members exactly if it moved |
| MessagesService.SoftDeleteMessage | src/messages/messages.service.ts:259-285 | answer and new state of `SoftDelete`, which `SendResults.UnsendIff` describes, with the receivers of the event |
| SendResults.UnsendIff | src/messages/messages.service.ts:262-280 | a row is unsent exactly if it is the requester's own, not SYSTEM, live and within the window, boundary included; it loses body and media only, and no other row changes; a repeated unsend succeeds without effect |
| SendResults.UnsendUnknown | src/messages/messages.service.ts:260-261 | an id the room does not have is not found |
| SendResults.UnsentIsHidden | src/messages/messages.service.ts:357-375 | readers are shown no body and no media of an unsent row, and everything else as stored |
| MessagesService.CountUnread | src/messages/messages.service.ts:245-254 | counting the rows one by one gives the size of the set `Unread`, about which `ReadState` and `UnreadChanges` speak; 0 exactly if every row is at or below the position, unsent or the member's own |
| MessagesService.ListMessages | src/messages/messages.service.ts:188-226 | the page and cursor of `PageOf`, which `History.PageIsInterval` describes, each row serialized with the number of active readers other than the sender |
| MessagesService.Render | src/messages/messages.service.ts:214-220 | every row of the page with its read count, in order |
| SelfHealing.GaplessContinues | src/messages/messages.service.ts:134-167 | over rows 1..n with the counter missing or at most n, the next number is n + 1 |
| SelfHealing.OrderKeptIff | src/messages/messages.service.ts:75-87 | an undisturbed send gets the largest number so far exactly if the counter is missing, not behind, or about to collide |
| SelfHealing.LaggingCounterHeals | src/messages/messages.service.ts:157-161 | from any counter, after (free numbers up to the maximum) + 1 sends the counter has caught up and stays so |
| SelfHealing.HealingBoundIsSharp | src/messages/messages.service.ts:157-161 | one send fewer is not always enough |
| History.PageIsInterval | src/messages/messages.service.ts:200-206 | a page is everything from its next cursor, or from the beginning, up to its own cursor, newest first, at most `limit` rows; there is a next cursor exactly if something older remains |
| History.WalkShowsEverything | src/messages/messages.service.ts:222-225 | with inserts between pages and any limits, the walk is strictly falling and shows everything present at the start exactly once |
| History.QuietWalkIsTheLog | src/messages/messages.service.ts:188-226 | on a quiet room the pages put together are the whole log, newest first |
| History.QuietPagesAreFull | src/messages/messages.service.ts:205-224 | on a quiet room every page but the last is full, and only the page of an empty room is empty |
| History.WalkEnds | src/messages/messages.service.ts:222-225 | cursors fall, so a walk has at most newest number + 2 pages |
| ReadState.MissingCount | src/messages/messages.service.ts:214-220 | non-readers, readers and an active sender make up the active members |
| ReadState.DerivedUnreadByIff | README.md:140-148 | the documented unread-by number is right exactly if the sender is active, else one too small |
| ReadState.DoubleCount | README.md:144-149 | a finite relation has as many pairs counted by rows as by columns |
| ReadState.UnreadCountsAgree | src/messages/messages.service.ts:244-254 | unread counts summed over active members equal active - active sender - readCount summed over live messages |
| UnreadChanges.PostUnread | src/messages/messages.service.ts:245-254 | a new message is one more unread exactly for the other members positioned below it |
| UnreadChanges.UnsendUnread | src/messages/messages.service.ts:276-280 | an unsend is one less exactly for those who had the message unread |
| UnreadChanges.ReadUnread | src/messages/messages.service.ts:231-242 | reading up to n removes exactly what was unread up to n, for the reader only |
| UnreadChanges.NewcomerUnread | src/rooms/rooms.service.ts:286-326 | a newly added member has exactly one unread message, the join notice |
| UnreadChanges.OthersAfterInvitation | src/rooms/rooms.service.ts:293-326 | for everyone else the notice counts like any message of the actor |
| UnreadChanges.ReadPositionIsMaximum | src/messages/messages.service.ts:231-242 | request by request: while a member stays, the position is the maximum of the initial one and all reported ones, whatever other requests come in whatever order |
| Invitations.PositionFallsIff | src/rooms/rooms.service.ts:286-311 | statement by statement: the position of a staying member falls exactly when an invitation that had found the user gone writes a head behind it |
| Invitations.SerialPositionIsMaximum | src/rooms/rooms.service.ts:286-311 | statement by statement: if invitations of the user do not overlap, the position during a stay is the maximum of the initial one and all reported ones |
| Invitations.OverlapLowersPosition | src/rooms/rooms.service.ts:293-306 | a run in which two overlapping invitations lower the position of a member who stays |
| UnreadChanges.ReadersStay | src/messages/messages.service.ts:214-218 | request by request: a reader of a message stays one while staying in the room |
| RoomsService.CreateGroup | src/rooms/rooms.service.ts:139-165 | errors, and the new group with one row per founder and its ROOM_CREATED message |
| RoomsService.UpdateRoom | src/rooms/rooms.service.ts:236-274 | new name and avatar, a rename message exactly if the name changed, an avatar message exactly if one was given |
| RoomsService.AddMembers | src/rooms/rooms.service.ts:276-328 | the loop adds exactly the invited users not active, as MEMBER read up to the head, and reports exactly those |
| RoomsService.UpdateMemberRole | src/rooms/rooms.service.ts:330-373 | answer and new state are those of `RoleChangeError` and `RoleChange` (see `Permissions.RoleOutcome`) |
| RoomsService.TransferOwnership | src/rooms/rooms.service.ts:425-437 | from the ordered answer of the database, a most senior member is made OWNER, or nobody if the group is empty |
| RoomsService.RemoveMember | src/rooms/rooms.service.ts:375-423 | answer and new state are those of `RemoveError` and `Removed` (see `Permissions.RemoveOutcome`), with an heir the database lists first |
| Permissions.RemoveOutcome | src/rooms/rooms.service.ts:386-417 | a target goes out exactly if it is the actor, or the actor is OWNER and the target is not, or the actor is ADMIN and the target MEMBER; then only its row and, for an owner, the heir's role change, and one message tells leaving from kicking; otherwise nothing changes |
| Permissions.RoleOutcome | src/rooms/rooms.service.ts:338-368 | roles are assigned exactly by an owner to another active member; the target has that role, the actor is ADMIN if it was OWNER, everyone else as before, and one message tells it |
| Permissions.AddOutcome | src/rooms/rooms.service.ts:282-326 | exactly owners and ADMINs add active users; each invited user not in the room starts a new stay as MEMBER read up to the head, everyone else is left alone, and the message lists exactly the newcomers, if any |
| Permissions.UpdateOutcome | src/rooms/rooms.service.ts:242-267 | exactly owners and ADMINs change name and avatar; a message goes out exactly for a different name and for a given avatar |
| Permissions.CreatedOutcome | src/rooms/rooms.service.ts:139-163 | the creator starts as OWNER and each invited user as MEMBER, having read nothing, and message 1 is ROOM_CREATED |
| Permissions.RefusalOf | src/rooms/rooms.service.ts:383-396 | which error answers which refused request |
| Permissions.GoesOutOnlyByRight | src/rooms/rooms.service.ts:386-401 | whoever becomes inactive was removed by someone with the right to |
| Permissions.ComesInOnlyByInvitation | src/rooms/rooms.service.ts:282-313 | whoever becomes active was invited by an owner or ADMIN |
| Permissions.OwnerLeavesOnlyByItself | src/rooms/rooms.service.ts:392 | in every run an active owner becomes inactive only by its own request |
| Permissions.RolesChangeOnlyByOwners | src/rooms/rooms.service.ts:337-358 | in every run the role of a member who stays changes only by an owner's request or when an owner leaves |
| RoomOps.AddedOfLists | src/rooms/rooms.service.ts:297-313 | the users reported as joined are exactly the invited ones who were not active, each once |
| Ownership.ApplyKeepsOwner | src/rooms/rooms.service.ts:346-358 | every request keeps the single owner |
| Ownership.OneOwnerAlways | src/rooms/rooms.service.ts:388-406 | over every run a group with active members has exactly one active OWNER |
| Ownership.OneOwnerFromCreation | src/rooms/rooms.service.ts:139-157 | the same from creation on, as existence and uniqueness |
| Ownership.EmptyForever | src/common/guards/room-member.guard.ts:35-44 | a group that is empty keeps its rows, name and avatar forever and gets no message; its messages stay as they are or are unsent |
| Succession.OwnerLeavesTo | src/rooms/rooms.service.ts:403-406 | the new owner is an earliest-joined ADMIN if any, else an earliest-joined MEMBER; every other row is unchanged |
| Succession.OwnersLeaveInOrder | src/rooms/rooms.service.ts:425-437 | successive owners leave in order of rank and join time of the original group, nobody twice |
| Succession.OwnersLeaveGroupEmpty | src/rooms/rooms.service.ts:398-406 | each such departure leaves one member fewer, and the group is empty exactly after as many as it had members |
| Replay.MessagesTellTheRoster | src/rooms/rooms.service.ts:408-417 | after any run from creation, the SYSTEM messages folded in order give exactly the active members and the name |
| Replay.StepFaithful | src/messages/system-message.ts:5-12 | every request keeps the told roster equal to the stored one |
| Replay.RowsArePermanent | src/messages/messages.service.ts:262-280 | no run removes a row, alters a SYSTEM message or changes an unsent row; others are at most unsent |
| DirectRooms.DirectKeyIdentifiesPair | src/rooms/rooms.service.ts:54-56 | for ids without the separator, equal keys mean the same unordered pair, and conversely |
| DirectRoomRuns.OneRoomPerPair | src/rooms/rooms.service.ts:82-124 | in every interleaving two returned calls have the same room exactly if they asked for the same pair |
| DirectRoomRuns.ReturnsOwnPair | src/rooms/rooms.service.ts:96-110 | the returned room holds exactly the two users, both MEMBER |
| DirectRoomRuns.AnnouncedOnce | src/rooms/rooms.service.ts:121-123 | room.created goes out exactly for rooms whose creating call returned, once a room and once a pair |
| DirectRoomRuns.LostRaceFindsWinner | src/rooms/rooms.service.ts:112-119 | the lookup after a lost create race always finds the winner |
| DirectRoomRuns.RowsForever | src/rooms/rooms.service.ts:96-137 | a direct room keeps its key and creator, and its rows their users and roles, forever |
| DirectRoomRuns.BothAreInOnReturn | src/rooms/rooms.service.ts:127-137 | in every interleaving, if nobody leaves between the statement that creates the room or brings its users back and the return of the call, both users are in the room then |
| DirectRoomRuns.CallsTakeNobodyOut | src/rooms/rooms.service.ts:132-135 | no step of a call takes anyone out or moves a join time or read position |
| DirectRoomRuns.LeaveTakesOneOut | src/rooms/rooms.service.ts:398-401 | a departure takes out the one who leaves and changes nothing else |
| DirectRoomRuns.CreatedAsAsked | src/rooms/rooms.service.ts:96-109 | a new room records its caller and holds the two users, both in, as MEMBER, having read nothing |
| DirectRoomRuns.OnlyOneselfCanLeave | src/rooms/rooms.service.ts:388-396 | in a direct room nobody can remove the other |
| AuthService.DelByPattern | src/redis/redis.service.ts:79-90 | whatever batches and repetitions SCAN returns, exactly the tokens of the account are deleted |
| AuthService.PatternIsPerAccount | src/auth/auth.service.ts:186-188 | for ids without the separator the revocation pattern matches exactly the keys of its own account |
| AuthService.KakaoLogin | src/auth/auth.service.ts:43-92 | result and new state of `Login`: queueing, refusal, upsert, admission, one token |
| AuthService.IssueTokens | src/auth/auth.service.ts:121-139 | exactly the new token becomes live |
| AuthService.RefreshTokens | src/auth/auth.service.ts:142-171 | result and new state of `Refresh`: rotation, reuse and inactive account |
| AuthService.LogoutToken | src/auth/auth.service.ts:173-184 | only the presented token is revoked |
| AuthService.AdminCreateEntry | src/admin/admin.service.ts:21-38 | the refusals and the new invited entry |
| AuthService.AdminUpdateEntry | src/admin/admin.service.ts:59-78 | answer and new state are those of `UpdateEntry` (see `WhitelistRuns.UpdateIsRecorded` and `WhitelistRuns.UpdateReachesAccount`) |
| AuthService.Enforce | src/admin/admin.service.ts:87-97 | the linked account is suspended and loses all its tokens, and is the one disconnected |
| AuthService.Restore | src/admin/admin.service.ts:99-105 | only a suspended linked account becomes active |
| AuthService.AdminRemoveEntry | src/admin/admin.service.ts:80-84 | the entry is gone, accounts and tokens stay |
| AuthService.ApproveAccessRequest | src/admin/admin.service.ts:135-161 | the request becomes an invitation once, a blocked member stays blocked |
| SessionRuns.BlockHolds | src/admin/admin.service.ts:87-97 | over every run the account of a blocked member (with a non-empty kakaoId) is inactive and without live tokens |
| SessionRuns.BlockedIsShutOut | src/auth/strategies/jwt.strategy.ts:22-35 | so no login, refresh or account check succeeds for a blocked member |
| SessionRuns.LoginIffAdmitted | src/auth/auth.service.ts:50-79 | login succeeds exactly for members with an unblocked entry, and what it leaves; a refusal queues exactly the unlisted |
| SessionRuns.DeadForever | src/auth/auth.service.ts:154-170 | a token that is not live never is again |
| SessionRuns.RedeemedAtMostOnce | src/auth/auth.service.ts:142-171 | each refresh token is redeemed at most once in any run |
| SessionRuns.ReuseEndsAllSessions | src/auth/auth.service.ts:155-160 | presenting a token whose key is gone leaves the account no live token, and all its earlier tokens stay dead |
| SessionRuns.BlockEndsAllSessions | src/admin/admin.service.ts:92-94 | tokens issued before a block stay dead, unblocked or not |
| SessionRuns.RefreshKeepsSessionCount | src/auth/auth.service.ts:169-170 | a successful refresh keeps the number of sessions of its account and touches no other account |
| WhitelistRuns.UpdateIsRecorded | src/admin/admin.service.ts:59-69 | in every run a request with a standing puts exactly that standing in exactly that entry; otherwise nothing changes |
| WhitelistRuns.UpdateReachesAccount | src/admin/admin.service.ts:71-105 | blocking suspends the linked account and ends its tokens, lifting a block makes a suspended account active, and no other account or token is touched |
| WhitelistRuns.BlockLasts | src/admin/admin.service.ts:71-97 | from a block until the next decision of an admin about the entry it is blocked, every login is refused, and the account passes no check and has no token |
| WhitelistRuns.UnblockedCanLogIn | src/admin/admin.service.ts:73-76 | after any other standing is set the member can log in, with its old account |
| WhitelistRuns.CreateOutcome | src/admin/admin.service.ts:21-38 | exactly unlisted, named people can be listed; the entry is as given and invited |
| WhitelistRuns.ApproveOutcome | src/admin/admin.service.ts:135-161 | approval takes the ticket and lists its member as invited unless listed; a blocked member is refused, with nothing changed |
| WhitelistRuns.ApprovedCanLogIn | src/auth/auth.service.ts:50-66 | a stranger is refused and queued; after approval of that ticket the login succeeds |
| WhitelistRuns.RemoveOutcome | src/admin/admin.service.ts:80-84 | removal takes the entry off the list and nothing else |
| WhitelistRuns.DismissAndBootOutcome | src/admin/admin.service.ts:164-167 | dismissal removes the ticket only; seeding invites exactly those not listed yet |
| WhitelistRuns.RefreshSucceedsIff | src/auth/auth.service.ts:142-171 | refresh succeeds exactly with a live token of an active account and exchanges it; any other verified token ends all sessions of its account |
| Presence.PresenceDb.AddConnection | src/presence/presence.service.ts:32-37 | the socket is registered with a full TTL; true exactly if nobody else was registered |
| Presence.PresenceDb.RemoveConnection | src/presence/presence.service.ts:40-51 | the socket is gone; true exactly if nobody else is registered, and then lastSeenAt is set unless that update fails |
| Presence.PresenceDb.Heartbeat | src/presence/presence.service.ts:53-55 | the TTL is renewed; an expired key is not revived |
| Presence.PresenceDb.IsOnline | src/presence/presence.service.ts:57-59 | true exactly if a socket is registered |
| Presence.LiveSocketIsOnline | src/realtime/realtime.gateway.ts:82-93 | if period plus lateness is below the TTL, a user with a live socket is online at every instant of every run |
| Presence.SlowHeartbeatLosesSocket | src/realtime/realtime.gateway.ts:85-93 | otherwise there is a run in which a connected socket is offline |
| Presence.NeverDropsIff | src/realtime/realtime.gateway.ts:82-93 | live sockets are online in every run exactly if period plus lateness is below the TTL |
| Presence.ConfiguredHeartbeatIff | src/realtime/realtime.gateway.ts:92 | with the configured period and punctual timers that is so exactly from a TTL of two seconds on, which also bears lateness below half the TTL |
| Presence.StaleUserExpires | src/presence/presence.service.ts:6-10 | a user without live sockets for a TTL, after any crashes, is offline |
| Presence.AnnouncedChanges | src/realtime/realtime.gateway.ts:96-114 | apart from expiry, presence changes exactly when and as announced |
| Presence.AnnouncementsAlternate | src/realtime/realtime.gateway.ts:106-114 | without crashes announcements alternate from online on, and the last agrees with isOnline and with there being a live socket |

The rows of methods in `AuthService` tie the object form of the handlers to the functions of `Sessions.dfy`;
apart from `DelByPattern`, what the handlers achieve is stated about those functions, by `SessionRuns` and `WhitelistRuns`.

## Left out

- AuthService.KakaoLogin: the attempt counter and the profile fields of a queued access request, which are only shown.
- Interleaving inside one room request, one login or one admin request: these check and then act in separate
  awaits, so their run theorems are about whole requests; sends, one-to-one creation and invitations of one
  user are interleaved step by step.
- A leaked heartbeat of a socket that disconnects while its connection handler is still awaiting: connect and
  disconnect are single steps in the presence model.
- A failure of the SYSTEM message that follows a membership change: it is taken to succeed.
- `lastMessageAt`, room list order and the room list cursor, which is a nullable, non-unique timestamp.
- Room views, lifecycle events of groups, `message.created` receivers and previews: fields are copied.
- JSON encoding of SYSTEM payloads: the payload is a value in the row.
- A page cursor that is not an integer, and `Number` and `BigInt` conversions.
- Rows written by hand: numbers are natural numbers and the unique constraints always hold.
- Media, push, profiles, user search, Kakao and token cryptography: outside calls.
- SendProtocol clock: every insert takes an arbitrary creation time; nothing is claimed about times.
