/** Presence of one user: a Redis set of socket ids with a time to live, kept up by heartbeats. */
module Presence {
  import opened Common

  type SocketId = string

  datatype Key = Key(members: set<SocketId>, expireAt: Option<nat>)

  // ------------------------------------------------------------------ PresenceService on Redis

  /** The members Redis still answers with at time `now`. */
  function Present(key: Option<Key>, now: nat): set<SocketId> {
    if key.Some? && (key.value.expireAt.Some? ==> now < key.value.expireAt.value) then key.value.members else {}
  }

  function Registered(key: Option<Key>, now: nat, ttl: nat, id: SocketId): Option<Key> {
    Some(Key(Present(key, now) + {id}, Some(now + ttl)))
  }

  function Deregistered(key: Option<Key>, now: nat, id: SocketId): Option<Key> {
    if Present(key, now) - {id} == {} then None
    else Some(key.value.(members := key.value.members - {id}))
  }

  function Refreshed(key: Option<Key>, now: nat, ttl: nat): Option<Key> {
    if Present(key, now) == {} then None else Some(key.value.(expireAt := Some(now + ttl)))
  }

  class PresenceDb {
    const ttl: nat
    var now: nat
    var key: Option<Key>
    var lastSeenAt: Option<nat>  // of the User row

    constructor (ttl: nat)
      ensures this.ttl == ttl && now == 0 && key == None && lastSeenAt == None
    {
      this.ttl := ttl;
      now, key, lastSeenAt := 0, None, None;
    }

    function Online(): set<SocketId>
      reads this
    {
      Present(key, now)
    }

    // Redis removes a key that has expired or whose set has become empty.

    method Sadd(id: SocketId)
      modifies this`key
      ensures Online() == old(Online()) + {id}
      ensures key.Some? && key.value.expireAt == if old(Online()) == {} then None else old(key).value.expireAt
    {
      if Online() == {} { key := Some(Key({id}, None)); }
      else { key := Some(key.value.(members := key.value.members + {id})); }
    }

    method Srem(id: SocketId)
      modifies this`key
      ensures key == Deregistered(old(key), now, id)
    {
      key := if Online() - {id} == {} then None else Some(key.value.(members := key.value.members - {id}));
    }

    method Scard() returns (count: nat)
      ensures count == |Online()|
    {
      count := |Online()|;
    }

    method Expire()
      modifies this`key
      ensures key == Refreshed(old(key), now, ttl)
    {
      key := if Online() == {} then None else Some(key.value.(expireAt := Some(now + ttl)));
    }

    method Del()
      modifies this`key
      ensures key == None
    {
      key := None;
    }

    /** Returns whether the user has come online: exactly when nobody else was registered. */
    method AddConnection(id: SocketId) returns (becameOnline: bool)
      requires ttl > 0
      modifies this`key
      ensures key == Registered(old(key), now, ttl, id)
      ensures Online() == old(Online()) + {id} && key.Some? && key.value.expireAt == Some(now + ttl)
      ensures becameOnline <==> old(Online()) <= {id}
    {
      Sadd(id);
      Expire();
      var count := Scard();
      OneElement(Online(), id);
      becameOnline := count == 1;
    }

    /**
     * Returns whether the user has gone offline: exactly when nobody else is registered. Exactly then
     * `lastSeenAt` is set, unless that update fails, which is ignored.
     */
    method RemoveConnection(id: SocketId, updateFails: bool) returns (becameOffline: bool)
      modifies this`key, this`lastSeenAt
      ensures key == Deregistered(old(key), now, id)
      ensures Online() == old(Online()) - {id}
      ensures key.Some? ==> key.value.expireAt == old(key).value.expireAt
      ensures becameOffline <==> old(Online()) <= {id}
      ensures lastSeenAt == if becameOffline && !updateFails then Some(now) else old(lastSeenAt)
    {
      Srem(id);
      var count := Scard();
      if count == 0 {
        Del();
        if !updateFails { lastSeenAt := Some(now); }
        return true;
      }
      becameOffline := false;
    }

    method Heartbeat()
      modifies this`key
      ensures key == Refreshed(old(key), now, ttl)
      ensures ttl > 0 ==> Online() == old(Online())
      ensures old(Online()) != {} ==> key.Some? && key.value.expireAt == Some(now + ttl)
    {
      Expire();
    }

    method IsOnline() returns (online: bool)
      ensures online <==> Online() != {}
    {
      var count := Scard();
      online := count > 0;
    }
  }

  lemma OneElement<T>(s: set<T>, x: T)
    requires x in s
    ensures |s| == 1 <==> s <= {x}
  {
    assert s == {x} + (s - {x});
  }

  // ------------------------------------------------------------------ the user's sockets over time

  /** Times in one unit; a timer may fire up to `lateness` after it is due. */
  datatype Timing = Timing(ttl: nat, period: nat, lateness: nat)

  /** `due` holds the sockets of the user on live nodes, with the next heartbeat of each. */
  datatype State = State(now: nat, key: Option<Key>, due: map<SocketId, nat>, events: seq<bool>)

  datatype Action =
    | Connect(id: SocketId)
    | Disconnect(id: SocketId)
    | Beat(id: SocketId)
    | Crash(lost: set<SocketId>)
    | Tick

  predicate Online(s: State) {
    Present(s.key, s.now) != {}
  }

  /** Event `true` is the broadcast "online", `false` the broadcast "offline". */
  predicate Next(t: Timing, s: State, a: Action, s': State) {
    match a
    case Connect(id) =>
      // socket ids are generated
      && id !in s.due && id !in Present(s.key, s.now)
      && s' == s.(
        key := Registered(s.key, s.now, t.ttl, id),
        due := s.due[id := s.now + t.period],
        events := if Present(s.key, s.now) <= {id} then s.events + [true] else s.events)
    case Disconnect(id) =>
      && id in s.due
      && s' == s.(
        key := Deregistered(s.key, s.now, id),
        due := s.due - {id},
        events := if Present(s.key, s.now) <= {id} then s.events + [false] else s.events)
    case Beat(id) =>
      && id in s.due && s.due[id] <= s.now
      && s' == s.(key := Refreshed(s.key, s.now, t.ttl), due := s.due[id := s.now + t.period])
    case Crash(lost) =>
      lost <= s.due.Keys && s' == s.(due := s.due - lost)
    case Tick =>
      // no timer is overdue by more than the lateness
      && (forall id :: id in s.due ==> s.now < s.due[id] + t.lateness)
      && s' == s.(now := s.now + 1)
  }

  predicate IsRun(t: Timing, run: seq<State>, acts: seq<Action>) {
    && |run| == |acts| + 1
    && forall i :: 0 <= i < |acts| ==> Next(t, run[i], acts[i], run[i + 1])
  }

  const NOBODY: State := State(0, None, map[], [])

  /** A live socket is a member, and the key outlives its next heartbeat however late. */
  predicate SocketOk(t: Timing, s: State, id: SocketId)
    requires id in s.due
  {
    && s.key.Some? && s.key.value.expireAt.Some? && id in s.key.value.members
    && s.now <= s.due[id] + t.lateness
    && s.due[id] + t.ttl <= s.key.value.expireAt.value + t.period
  }

  predicate LiveInv(t: Timing, s: State) {
    && (s.key.Some? ==> s.key.value.expireAt.Some? && s.key.value.expireAt.value <= s.now + t.ttl)
    && (forall id :: id in s.due ==> SocketOk(t, s, id))
  }

  lemma SocketSeen(t: Timing, s: State, id: SocketId)
    requires t.period + t.lateness < t.ttl && LiveInv(t, s) && id in s.due
    ensures id in Present(s.key, s.now) && Online(s)
  {
  }

  lemma LiveStep(t: Timing, s: State, a: Action, s': State)
    requires t.period + t.lateness < t.ttl && LiveInv(t, s) && Next(t, s, a, s')
    ensures LiveInv(t, s')
  {
  }

  lemma {:induction false} LiveRun(t: Timing, run: seq<State>, acts: seq<Action>, n: nat)
    requires t.period + t.lateness < t.ttl && IsRun(t, run, acts) && run[0] == NOBODY && n < |run|
    ensures LiveInv(t, run[n])
  {
    if n > 0 {
      LiveRun(t, run, acts, n - 1);
      LiveStep(t, run[n - 1], acts[n - 1], run[n]);
    }
  }

  /** If heartbeats, late as they may be, come faster than the key expires, a live socket is online. */
  lemma LiveSocketIsOnline(t: Timing, run: seq<State>, acts: seq<Action>, n: nat, id: SocketId)
    requires t.period + t.lateness < t.ttl && IsRun(t, run, acts) && run[0] == NOBODY && n < |run|
    requires id in run[n].due
    ensures Online(run[n])
  {
    LiveRun(t, run, acts, n);
    SocketSeen(t, run[n], id);
  }

  /** Otherwise a socket that stays connected can drop out of sight. */
  lemma SlowHeartbeatLosesSocket(t: Timing) returns (run: seq<State>, acts: seq<Action>)
    requires t.period + t.lateness >= t.ttl
    ensures IsRun(t, run, acts) && run[0] == NOBODY
    ensures var last := run[|run| - 1]; last.due != map[] && !Online(last)
  {
    var at := (n: nat) => State(n, Some(Key({"s"}, Some(t.ttl))), map["s" := t.period], [true]);
    run := [NOBODY] + seq(t.ttl + 1, i requires i >= 0 => at(i));
    acts := [Connect("s")] + seq(t.ttl, i => Tick);
    assert Present(NOBODY.key, 0) + {"s"} == {"s"};
    assert Next(t, run[0], acts[0], run[1]) by { assert run[1] == at(0) && NOBODY.events + [true] == [true]; }
    forall i | 1 <= i < |acts| ensures Next(t, run[i], acts[i], run[i + 1]) {
      assert run[i] == at(i - 1) && run[i + 1] == at(i) && acts[i] == Tick;
    }
    assert "s" in run[|run| - 1].due;
  }

  /** In every run, whoever has a live socket is online. */
  ghost predicate NeverDrops(t: Timing) {
    forall run, acts, n, id :: IsRun(t, run, acts) && run[0] == NOBODY && LiveAt(run, n, id) ==> Online(run[n])
  }

  predicate LiveAt(run: seq<State>, n: nat, id: SocketId) {
    n < |run| && id in run[n].due
  }

  lemma NeverDropsIff(t: Timing)
    ensures NeverDrops(t) <==> t.period + t.lateness < t.ttl
  {
    if t.period + t.lateness < t.ttl {
      forall run, acts, n, id | IsRun(t, run, acts) && run[0] == NOBODY && LiveAt(run, n, id) ensures Online(run[n]) {
        LiveSocketIsOnline(t, run, acts, n, id);
      }
    } else {
      var run, acts := SlowHeartbeatLosesSocket(t);
      var id :| id in run[|run| - 1].due;
      assert LiveAt(run, |run| - 1, id);
    }
  }

  /** The configured heartbeat: half the TTL in whole seconds, at least one; times in milliseconds. */
  function Configured(ttlSec: nat, lateness: nat): Timing {
    Timing(1000 * ttlSec, 1000 * (if ttlSec / 2 < 1 then 1 else ttlSec / 2), lateness)
  }

  /**
   * With punctual timers the configured heartbeat keeps live sockets online exactly from a TTL of two
   * seconds on; from there on it also bears any lateness below half the TTL.
   */
  lemma ConfiguredHeartbeatIff(ttlSec: nat, lateness: nat)
    ensures NeverDrops(Configured(ttlSec, 0)) <==> ttlSec >= 2
    ensures ttlSec >= 2 && 2 * lateness < 1000 * ttlSec ==> NeverDrops(Configured(ttlSec, lateness))
  {
    NeverDropsIff(Configured(ttlSec, 0));
    NeverDropsIff(Configured(ttlSec, lateness));
  }

  // ------------------------------------------------------------------ stale keys expire

  lemma NotEmpty<V>(m: map<SocketId, V>, id: SocketId, value: V)
    ensures m[id := value] != map[]
  {
    assert id in m[id := value];
  }

  lemma {:induction false} QuietKey(t: Timing, run: seq<State>, acts: seq<Action>, m: nat, n: nat)
    requires IsRun(t, run, acts) && m <= n < |run|
    requires forall i :: m <= i <= n ==> run[i].due == map[]
    ensures run[n].key == run[m].key
  {
    if m < n {
      QuietKey(t, run, acts, m, n - 1);
      var s, a, s' := run[n - 1], acts[n - 1], run[n];
      assert Next(t, s, a, s');
      match a
      case Connect(id) => NotEmpty<int>(s.due, id, s.now + t.period);
      case _ =>
    }
  }

  /** A user whose last socket is gone, by whatever crash, is offline a TTL later at the latest. */
  lemma StaleUserExpires(t: Timing, run: seq<State>, acts: seq<Action>, m: nat, n: nat)
    requires t.period + t.lateness < t.ttl && IsRun(t, run, acts) && run[0] == NOBODY && m <= n < |run|
    requires forall i :: m <= i <= n ==> run[i].due == map[]
    requires run[n].now >= run[m].now + t.ttl
    ensures !Online(run[n])
  {
    LiveRun(t, run, acts, m);
    QuietKey(t, run, acts, m, n);
  }

  // ------------------------------------------------------------------ announcements

  /** Apart from expiry, presence changes exactly when it is announced, and as announced. */
  lemma AnnouncedChanges(t: Timing, s: State, a: Action, s': State)
    requires t.ttl > 0 && Next(t, s, a, s')
    ensures Online(s) != Online(s') ==>
      (s'.events == s.events + [Online(s')]) || (a.Tick? && Online(s) && s'.events == s.events)
    ensures s'.events != s.events ==> s'.events == s.events + [Online(s')]
  {
  }

  predicate Alternating(events: seq<bool>) {
    forall i :: 0 <= i < |events| ==> (events[i] <==> i % 2 == 0)
  }

  predicate CrashFree(acts: seq<Action>) {
    forall i :: 0 <= i < |acts| ==> !acts[i].Crash?
  }

  /** Without crashes the set is exactly the live sockets, and the announcements end as things are. */
  predicate QuietInv(s: State) {
    && Present(s.key, s.now) == s.due.Keys
    && Alternating(s.events)
    && (Online(s) <==> |s.events| % 2 == 1)
  }

  lemma QuietStep(t: Timing, s: State, a: Action, s': State)
    requires t.period + t.lateness < t.ttl && LiveInv(t, s) && QuietInv(s) && Next(t, s, a, s') && !a.Crash?
    ensures QuietInv(s')
  {
    LiveStep(t, s, a, s');
    forall id | id in s'.due ensures id in Present(s'.key, s'.now) { SocketSeen(t, s', id); }
    assert forall id :: id in Present(s'.key, s'.now) ==> id in s'.due;
    AnnouncedChanges(t, s, a, s');
  }

  lemma {:induction false} QuietRun(t: Timing, run: seq<State>, acts: seq<Action>, n: nat)
    requires t.period + t.lateness < t.ttl && IsRun(t, run, acts) && CrashFree(acts) && run[0] == NOBODY && n < |run|
    ensures QuietInv(run[n])
  {
    if n > 0 {
      QuietRun(t, run, acts, n - 1);
      LiveRun(t, run, acts, n - 1);
      QuietStep(t, run[n - 1], acts[n - 1], run[n]);
    }
  }

  /**
   * Without crashes, online and offline announcements of a user alternate, beginning with online, and
   * the last one agrees with `isOnline`, which agrees with there being a live socket.
   */
  lemma AnnouncementsAlternate(t: Timing, run: seq<State>, acts: seq<Action>, n: nat)
    requires t.period + t.lateness < t.ttl && IsRun(t, run, acts) && CrashFree(acts) && run[0] == NOBODY && n < |run|
    ensures Alternating(run[n].events)
    ensures Online(run[n]) <==> run[n].due != map[]
    ensures run[n].events != [] ==> run[n].events[|run[n].events| - 1] == Online(run[n])
    ensures run[n].events == [] ==> !Online(run[n])
  {
    QuietRun(t, run, acts, n);
  }
}
