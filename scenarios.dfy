/**
 * End-to-end runs of the session store and the relay on fresh objects, as a
 * client sees them. Each run states what its calls return or send.
 */
module Scenarios {
  import opened Wrappers
  import opened Models
  import opened Claims
  import opened SessionService
  import opened Connections
  import opened Signaling

  /** The hub context of a connection authenticated as `userId`, as the token issuer writes its claims. */
  function Caller(connectionId: string, userId: int, name: string): (ctx: HubCallerContext)
    requires Int32Min <= userId <= Int32Max
    ensures ctx.connectionId == connectionId && GetUserId(ctx.nameIdentifier) == (if userId == 0 then 0 else userId)
  {
    UserIdClaimRoundTrip(userId);
    HubCallerContext(connectionId, Some(IntToString(userId)), Some(name))
  }

  /**
   * In an Active session with room for two that nobody has joined, users 1 and
   * 2 are admitted as newcomers on "c1" and "c2", each adding one row.
   */
  lemma TwoNewcomers(ss: seq<Session>, guid: string, now: int)
    requires |ss| == 1 && ss[0].sessionId == guid && ss[0].status == Active && ss[0].maxParticipants >= 2
    ensures FindSession(ss, guid) == Some(0)
    ensures var r1 := JoinedRow(1, ss[0].id, 1, "c1", now);
            var r2 := JoinedRow(2, ss[0].id, 2, "c2", now);
      && CheckJoin(ss, [], guid) == Admit(0) && JoinRows([], ss[0].id, 1, "c1", now) == [r1]
      && CheckJoin(ss, [r1], guid) == Admit(0) && JoinRows([r1], ss[0].id, 2, "c2", now) == [r1, r2]
      && ActiveCount([r1], ss[0].id) == 1 && ActiveCount([r1, r2], ss[0].id) == 2
  {
    var key := ss[0].id;
    var r1 := JoinedRow(1, key, 1, "c1", now);
    var r2 := JoinedRow(2, key, 2, "c2", now);
    assert FindActiveSession(ss, guid) == Some(0);
    assert ActiveCount([], key) == 0;
    assert ActiveCount([r1], key) == 1 by {
      assert [r1][..0] == [];
    }
    assert FindMembership([r1], key, 2).None?;
    assert ActiveCount([r1, r2], key) == 2 by {
      assert [r1, r2][..1] == [r1];
    }
  }

  /** Once both are in, a session of capacity 2 is full. */
  lemma CapacityTwoVerdicts(ss: seq<Session>, guid: string, now: int)
    requires |ss| == 1 && ss[0].sessionId == guid && ss[0].status == Active && ss[0].maxParticipants == 2
    ensures CheckJoin(ss, [JoinedRow(1, ss[0].id, 1, "c1", now), JoinedRow(2, ss[0].id, 2, "c2", now)], guid) == SessionFull
  {
    TwoNewcomers(ss, guid, now);
    assert FindActiveSession(ss, guid) == Some(0);
  }

  /**
   * A session of capacity 2 ("standup"): the first join reports one active
   * participant, the second two, and a third user is rejected.
   */
  method CapacityIsEnforced(guid: string, now: int, username: int -> string)
    returns (first: Option<SessionDetail>, second: Option<SessionDetail>, third: Option<SessionDetail>)
    ensures first.Some? && first.value.summary.currentParticipants == 1 && first.value.summary.status == Active
    ensures second.Some? && second.value.summary.currentParticipants == 2
    ensures third.None?
  {
    var store := new SessionStore();
    var _ := store.Create(1, "standup", 2, VideoCall, guid, now, None);
    ghost var ss := store.sessions;
    ghost var r1 := JoinedRow(1, ss[0].id, 1, "c1", now);
    ghost var r2 := JoinedRow(2, ss[0].id, 2, "c2", now);
    TwoNewcomers(ss, guid, now);
    CapacityTwoVerdicts(ss, guid, now);
    first := store.Join(1, guid, "c1", now, username);
    assert store.participants == [r1];
    second := store.Join(2, guid, "c2", now, username);
    assert store.participants == [r1, r2];
    third := store.Join(3, guid, "c3", now, username);
  }

  /**
   * The full check comes before the membership check: once a capacity-2
   * session is full, even a member re-joining it (say, after a reconnect) is
   * rejected, and its row keeps the old connection.
   */
  method MemberRejoiningFullSessionIsRejected(guid: string, now: int, username: int -> string)
    returns (rejoin: Option<SessionDetail>, row: SessionParticipant)
    ensures rejoin.None?
    ensures row.userId == 1 && IsActive(row) && row.connectionId == "c1"
  {
    var store := new SessionStore();
    var _ := store.Create(1, "standup", 2, VideoCall, guid, now, None);
    ghost var ss := store.sessions;
    ghost var r1 := JoinedRow(1, ss[0].id, 1, "c1", now);
    ghost var r2 := JoinedRow(2, ss[0].id, 2, "c2", now);
    TwoNewcomers(ss, guid, now);
    CapacityTwoVerdicts(ss, guid, now);
    var _ := store.Join(1, guid, "c1", now, username);
    assert store.participants == [r1];
    var _ := store.Join(2, guid, "c2", now, username);
    assert store.participants == [r1, r2];
    rejoin := store.Join(1, guid, "c1-again", now, username);
    row := store.participants[0];
  }

  /**
   * In an Active session of capacity 10 that has no row yet, or only the
   * active row of `userId`, a join is admitted: as a first join, as a
   * re-join of `userId`, or as a newcomer for anyone else.
   */
  lemma SmallSessionAdmits(ss: seq<Session>, guid: string, userId: int, connectionId: string, now: int)
    requires |ss| == 1 && ss[0].sessionId == guid && ss[0].status == Active && ss[0].maxParticipants == 10
    ensures CheckJoin(ss, [], guid) == Admit(0)
    ensures var ps := [JoinedRow(1, ss[0].id, userId, connectionId, now)];
      && CheckJoin(ss, ps, guid) == Admit(0)
      && FindMembership(ps, ss[0].id, userId) == Some(0)
      && forall other | other != userId :: FindMembership(ps, ss[0].id, other).None?
  {
    var ps := [JoinedRow(1, ss[0].id, userId, connectionId, now)];
    assert FindActiveSession(ss, guid) == Some(0);
    assert ActiveCount(ps, ss[0].id) == 1 by {
      assert ps[..0] == [];
    }
  }

  /**
   * Set identities for the one- and two-member groups below (TwoMembers,
   * ReconnectKeepsOneRow, ChatReachesAllStatusReachesOthers,
   * DropIsAnnouncedOnce): stated once so that each scenario only names the
   * two connection ids instead of re-deriving the group after every step.
   */
  lemma Pairs<T>(x: T, y: T)
    requires x != y
    ensures var none: set<T> := {}; none + {x} == {x}
    ensures {x} + {y} == {x, y}
    ensures {x, y} - {x} == {y} && {x, y} - {y} == {x}
  {
  }

  /**
   * Map identities for the registries of two connections below
   * (ReconnectKeepsOneRow, DropIsAnnouncedOnce), which remove one of two
   * bindings.
   */
  lemma MapPairs<K, V>(x: K, y: K, a: V, b: V)
    requires x != y
    ensures map[x := a, y := b] - {y} == map[x := a] && map[x := a, y := b] - {x} == map[y := b]
    ensures map[x := a] - {y} == map[x := a] && y !in map[x := a]
  {
  }

  /** A relay over a fresh store holding one session `guid` (capacity 10) that nobody has joined yet. */
  method FreshRelay(guid: string, now: int) returns (hub: SignalingHub)
    ensures fresh(hub) && fresh(hub.store) && fresh(hub.registry) && hub.Valid()
    ensures |hub.store.sessions| == 1 && hub.store.sessions[0].sessionId == guid
    ensures hub.store.sessions[0].status == Active && hub.store.sessions[0].maxParticipants == 10
    ensures hub.store.participants == [] && hub.registry.connections == map[] && hub.groups == map[] && hub.outbox == []
  {
    var store := new SessionStore();
    var _ := store.Create(1, "standup", 10, VideoCall, guid, now, None);
    var registry := new ConnectionManager();
    hub := new SignalingHub(store, registry);
  }

  /**
   * Users 1 and 2 join over the relay on connections "c1" and "c2": both are
   * in the session's group and bound in the registry.
   */
  method TwoMembers(guid: string, now: int, username: int -> string) returns (hub: SignalingHub)
    ensures fresh(hub) && fresh(hub.store) && fresh(hub.registry) && hub.Valid()
    ensures Members(hub.groups, guid) == {"c1", "c2"}
    ensures hub.registry.connections == map["c1" := ConnectionInfo(1, guid), "c2" := ConnectionInfo(2, guid)]
    ensures |hub.store.participants| == 2
    ensures hub.store.participants[0].userId == 1 && hub.store.participants[0].connectionId == "c1"
  {
    hub := FreshRelay(guid, now);
    ghost var ss := hub.store.sessions;
    ghost var r1 := JoinedRow(1, ss[0].id, 1, "c1", now);
    ghost var r2 := JoinedRow(2, ss[0].id, 2, "c2", now);
    TwoNewcomers(ss, guid, now);
    Pairs("c1", "c2");
    hub.JoinSession(Caller("c1", 1, "alice"), guid, now, username);
    assert hub.store.sessions == ss && hub.store.participants == [r1];
    assert Members(hub.groups, guid) == {"c1"};
    assert hub.registry.connections == map["c1" := ConnectionInfo(1, guid)];
    hub.JoinSession(Caller("c2", 2, "bob"), guid, now, username);
    assert hub.store.participants == [r1, r2];
    assert Members(hub.groups, guid) == {"c1", "c2"};
  }

  /**
   * User 1 reconnects on "c2" without leaving: its one row now carries "c2",
   * no row is added, and tearing down the old connection "c1" leaves the row
   * as it is.
   */
  method ReconnectKeepsOneRow(guid: string, now: int, username: int -> string)
    returns (rows: seq<SessionParticipant>, bindings: map<string, ConnectionInfo>)
    ensures |rows| == 1 && rows[0].userId == 1 && rows[0].connectionId == "c2" && IsActive(rows[0])
    ensures rows[0].status == Connected
    ensures bindings == map["c2" := ConnectionInfo(1, guid)]
  {
    var hub := FreshRelay(guid, now);
    var key := hub.store.sessions[0].id;
    var first := Caller("c1", 1, "alice");
    var second := Caller("c2", 1, "alice");
    Pairs("c1", "c2");
    SmallSessionAdmits(hub.store.sessions, guid, 1, "c1", now);
    hub.JoinSession(first, guid, now, username);
    ghost var joined := [JoinedRow(1, key, 1, "c1", now)];
    assert hub.store.participants == joined;
    assert hub.registry.connections == map["c1" := ConnectionInfo(1, guid)];
    hub.JoinSession(second, guid, now, username);
    assert hub.store.participants == joined[0 := Rejoined(joined[0], "c2")];
    assert hub.registry.connections == map["c1" := ConnectionInfo(1, guid), "c2" := ConnectionInfo(1, guid)];
    MapPairs("c1", "c2", ConnectionInfo(1, guid), ConnectionInfo(1, guid));
    ghost var rejoined := hub.store.participants;
    hub.OnDisconnected(first, None, now);
    assert hub.store.participants == rejoined;
    assert hub.registry.connections == map["c2" := ConnectionInfo(1, guid)];
    rows := hub.store.participants;
    bindings := hub.registry.connections;
  }

  /**
   * In a session of two members, a chat message from user 1 reaches both,
   * the sender included, while user 1's status change reaches only the other.
   */
  method ChatReachesAllStatusReachesOthers(guid: string, now: int, username: int -> string)
    returns (chat: Send, status: Send)
    ensures chat == Send({"c1", "c2"}, ReceiveMessage(1, "alice", "hello", now))
    ensures status == Send({"c2"}, ParticipantStatusChanged(1, "c1", true, false, now))
  {
    var hub := TwoMembers(guid, now, username);
    Pairs("c1", "c2");
    hub.SendMessage(Caller("c1", 1, "alice"), guid, "hello", now);
    chat := hub.outbox[|hub.outbox| - 1];
    hub.UpdateStatus(Caller("c1", 1, "alice"), guid, true, false, now);
    status := hub.outbox[|hub.outbox| - 1];
  }

  /**
   * Connection "c2" drops abruptly: the remaining member receives exactly one
   * ParticipantLeft, the binding is gone, and a second disconnect signal for
   * the same connection sends nothing more.
   */
  method DropIsAnnouncedOnce(guid: string, now: int, username: int -> string)
    returns (firstDrop: seq<Send>, secondDrop: seq<Send>, bindings: map<string, ConnectionInfo>)
    ensures firstDrop == [Send({"c1"}, ParticipantLeft(2, "c2", now))]
    ensures secondDrop == []
    ensures bindings == map["c1" := ConnectionInfo(1, guid)]
  {
    var hub := TwoMembers(guid, now, username);
    Pairs("c1", "c2");
    MapPairs("c1", "c2", ConnectionInfo(1, guid), ConnectionInfo(2, guid));
    var bob := Caller("c2", 2, "bob");
    var before := hub.outbox;
    ghost var bound := hub.registry.connections;
    assert hub.registry.GetConnectionInfo("c2") == Some(ConnectionInfo(2, guid));
    assert Members(hub.groups, guid) - {"c2"} == {"c1"};
    hub.OnDisconnected(bob, Some("connection reset"), now);
    assert hub.outbox == before + [Send({"c1"}, ParticipantLeft(2, "c2", now))];
    assert hub.registry.connections == bound - {"c2"} == map["c1" := ConnectionInfo(1, guid)];
    firstDrop := hub.outbox[|before|..];
    assert firstDrop == [Send({"c1"}, ParticipantLeft(2, "c2", now))];
    var middle := hub.outbox;
    assert hub.registry.GetConnectionInfo("c2") == None;
    hub.OnDisconnected(bob, None, now);
    assert hub.outbox == middle;
    secondDrop := hub.outbox[|middle|..];
    assert |secondDrop| == 0;
    assert hub.registry.connections == map["c1" := ConnectionInfo(1, guid)] - {"c2"} == map["c1" := ConnectionInfo(1, guid)];
    bindings := hub.registry.connections;
  }
}
