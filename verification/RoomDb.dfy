/** The stores behind one room: the Redis counter key and the database rows. */
module RoomDb {
  import opened Common
  import opened Domain
  import opened RoomModel
  import opened History

  datatype InsertResult = Inserted(row: Message) | KeyViolation | SeqViolation | ForeignKeyViolation

  method Largest(s: set<nat>) returns (max: nat)
    ensures max == MaxOf(s)
  {
    max := 0;
    var rest := s;
    while rest != {}
      invariant rest <= s
      invariant forall q :: q in s && q !in rest ==> q <= max
      invariant (max in s && max !in rest) || (max == 0 && rest == s)
      decreases rest
    {
      var q :| q in rest;
      if q >= max { max := q; }
      rest := rest - {q};
    }
    MaxOfIs(s, max);
  }

  class Db {
    const roomId: RoomId
    var name: Option<string>
    var avatar: Option<string>
    var members: Members
    var log: MessageLog
    var counter: Option<nat>

    constructor (roomId: RoomId, name: Option<string>, avatar: Option<string>, members: Members)
      ensures State() == RoomState(roomId, name, avatar, members, map[], None) && Valid()
    {
      this.roomId := roomId;
      this.name := name;
      this.avatar := avatar;
      this.members := members;
      this.log := map[];
      this.counter := None;
    }

    ghost predicate Valid()
      reads this
    {
      LogOk(log, roomId)
    }

    ghost function State(): RoomState
      reads this
    {
      RoomState(roomId, name, avatar, members, log, counter)
    }

    method Exists() returns (found: bool)
      ensures found <==> counter.Some?
    {
      found := counter.Some?;
    }

    method SetNx(value: nat) returns (done: bool)
      modifies this`counter
      ensures done <==> old(counter).None?
      ensures counter == if done then Some(value) else old(counter)
    {
      done := counter.None?;
      if done { counter := Some(value); }
    }

    method Set(value: nat)
      modifies this`counter
      ensures counter == Some(value)
    {
      counter := Some(value);
    }

    /** INCR treats a missing key as 0. */
    method Incr() returns (value: nat)
      modifies this`counter
      ensures value == (if old(counter).None? then 0 else old(counter).value) + 1
      ensures counter == Some(value)
    {
      value := (if counter.None? then 0 else counter.value) + 1;
      counter := Some(value);
    }

    /** `aggregate({ _max: { seq } })`, with `?? 0`. */
    method MaxSeq() returns (max: nat)
      ensures max == MaxOf(log.Keys)
    {
      max := Largest(log.Keys);
    }

    /** `findMany({ where: { seq: { lt } }, orderBy: { seq: 'desc' }, take })`, by number. */
    method FindManyDesc(cursor: Option<int>, take: nat) returns (rows: seq<nat>)
      ensures var all := Desc(Below(log.Keys, cursor)); rows == all[..Min(take, |all|)]
    {
      rows := [];
      var rest := Below(log.Keys, cursor);
      while |rows| < take && rest != {}
        invariant |rows| <= take
        invariant rows + Desc(rest) == Desc(Below(log.Keys, cursor))
        decreases rest
      {
        var q := Largest(rest);
        rows, rest := rows + [q], rest - {q};
      }
    }

    /**
     * `message.create`. The constraints are (roomId, seq), (roomId, clientMessageId) and the foreign
     * key on replyToId; when both unique constraints are violated either one is reported.
     */
    method Insert(p: Params, id: MessageId, n: nat, now: nat) returns (r: InsertResult)
      requires Valid() && p.roomId == roomId && id != "" && !IdUsed(log, id)
      modifies this`log
      ensures Valid()
      ensures r.KeyViolation? ==> Repeats(old(log), p)
      ensures r.SeqViolation? ==> n in old(log)
      ensures r.ForeignKeyViolation? <==> n !in old(log) && !Repeats(old(log), p) && Dangles(old(log), p)
      ensures r.Inserted? <==> n !in old(log) && !Repeats(old(log), p) && !Dangles(old(log), p)
      ensures log == if r.Inserted? then old(log)[n := r.row] else old(log)
      ensures r.Inserted? ==> r.row == RowOf(p, id, n, now)
    {
      if Repeats(log, p) && n in log {
        if * { r := KeyViolation; } else { r := SeqViolation; }
      } else if Repeats(log, p) {
        r := KeyViolation;
      } else if n in log {
        r := SeqViolation;
      } else if Dangles(log, p) {
        r := ForeignKeyViolation;
      } else {
        r := Inserted(RowOf(p, id, n, now));
        log := log[n := r.row];
      }
    }
  }
}
