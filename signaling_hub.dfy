/**
 * The signalling relay (SignalingHub). Each hub method is one transition of a
 * small world: the session store, the connection registry, the transport's
 * broadcast groups (group name -> connection ids), an outbox recording every
 * SendAsync the hub makes (who is addressed and with what), and the connection
 * audit log. The calling connection and its claims arrive as a context value;
 * the clock arrives as `now`.
 */
module Signaling {
  import opened Wrappers
  import opened Models
  import opened Claims
  import opened SessionService
  import opened Connections

  /** The calling connection: its transport id and the claims of its token. */
  datatype HubCallerContext = HubCallerContext(
    connectionId: string,
    nameIdentifier: Option<string>,
    name: Option<string>)

  /** A client payload (SDP offer or answer, ICE candidate) relayed without inspection. */
  type Payload = string

  /** The client methods the hub invokes, with the fields of their envelopes. */
  datatype HubMessage =
    | ParticipantJoined(userId: int, connectionId: string, timestamp: int)
    | ParticipantLeft(userId: int, connectionId: string, timestamp: int)
    | ReceiveOffer(fromConnectionId: string, fromUserId: int, offer: Payload, timestamp: int)
    | ReceiveAnswer(fromConnectionId: string, fromUserId: int, answer: Payload, timestamp: int)
    | ReceiveIceCandidate(fromConnectionId: string, candidate: Payload, timestamp: int)
    | ParticipantStatusChanged(userId: int, connectionId: string, isMuted: bool, isVideoEnabled: bool, timestamp: int)
    | ReceiveMessage(userId: int, username: string, message: string, timestamp: int)
    | Error(message: string)

  /** One SendAsync: the connections it addresses and the message. A vanished recipient silently receives nothing. */
  datatype Send = Send(recipients: set<string>, message: HubMessage)

  type Groups = map<string, set<string>>

  function Members(groups: Groups, group: string): set<string> {
    if group in groups then groups[group] else {}
  }

  /** Groups.AddToGroupAsync. */
  function AddToGroup(groups: Groups, group: string, connectionId: string): (g: Groups)
    ensures Members(g, group) == Members(groups, group) + {connectionId}
    ensures forall other | other != group :: Members(g, other) == Members(groups, other)
  {
    groups[group := Members(groups, group) + {connectionId}]
  }

  /** Groups.RemoveFromGroupAsync. */
  function RemoveFromGroup(groups: Groups, group: string, connectionId: string): (g: Groups)
    ensures Members(g, group) == Members(groups, group) - {connectionId}
    ensures forall other | other != group :: Members(g, other) == Members(groups, other)
  {
    if group in groups then groups[group := groups[group] - {connectionId}] else groups
  }

  /** What the transport does once a connection has gone: it leaves every group. */
  function DropConnection(groups: Groups, connectionId: string): (g: Groups)
    ensures forall group :: Members(g, group) == Members(groups, group) - {connectionId}
  {
    map group | group in groups :: groups[group] - {connectionId}
  }

  /** Every bound connection is a member of the group of the session it is bound to. */
  predicate BoundImpliesGrouped(bindings: map<string, ConnectionInfo>, groups: Groups) {
    forall c | c in bindings :: c in Members(groups, bindings[c].sessionId)
  }

  lemma RemoveAbsent(bindings: map<string, ConnectionInfo>, c: string)
    requires c !in bindings
    ensures bindings - {c} == bindings
  {
  }

  /** Unbinding a connection and taking it out of groups keeps every other binding grouped. */
  lemma UnbindKeepsGrouped(bindings: map<string, ConnectionInfo>, groups: Groups, c: string, group: string)
    requires BoundImpliesGrouped(bindings, groups)
    ensures BoundImpliesGrouped(bindings - {c}, groups)
    ensures BoundImpliesGrouped(bindings - {c}, RemoveFromGroup(groups, group, c))
    ensures BoundImpliesGrouped(bindings - {c}, DropConnection(groups, c))
  {
  }

  /** The log row OnConnectedAsync writes. */
  function OpenedLog(key: int, userId: int, connectionId: string, ipAddress: string, userAgent: string, now: int): (l: ConnectionLog)
    ensures l.disconnectedAt.None? && l.disconnectReason.None? && l.sessionKey.None?
    ensures l.connectionId == connectionId && l.userId == userId && l.connectedAt == now
  {
    ConnectionLog(key, userId, None, connectionId, ipAddress, userAgent, now, None, None)
  }

  /** The first log row of the connection that is still open. */
  function FirstOpenLog(logs: seq<ConnectionLog>, connectionId: string): Option<nat> {
    FirstMatch(logs, (l: ConnectionLog) => OpenFor(l, connectionId))
  }

  function ClosedLog(l: ConnectionLog, now: int, reason: string): ConnectionLog {
    l.(disconnectedAt := Some(now), disconnectReason := Some(reason))
  }

  /** A row of the connection's log that has not been closed yet. */
  predicate OpenFor(l: ConnectionLog, connectionId: string) {
    l.connectionId == connectionId && l.disconnectedAt.None?
  }

  /**
   * The log after a disconnect: the connection's first open row gets the
   * disconnect time and reason, and no other row changes. With no open row
   * the log is unchanged.
   */
  function CloseFirstOpenLog(logs: seq<ConnectionLog>, connectionId: string, now: int, reason: string): (r: seq<ConnectionLog>)
    ensures |r| == |logs|
    ensures (forall i | 0 <= i < |logs| :: !OpenFor(logs[i], connectionId)) ==> r == logs
    ensures forall k | 0 <= k < |logs| && OpenFor(logs[k], connectionId) && (forall i | 0 <= i < k :: !OpenFor(logs[i], connectionId)) ::
              r == logs[k := ClosedLog(logs[k], now, reason)]
  {
    match FirstOpenLog(logs, connectionId)
    case None => logs
    case Some(k) => logs[k := ClosedLog(logs[k], now, reason)]
  }

  class SignalingHub {
    const store: SessionStore
    const registry: ConnectionManager
    var groups: Groups
    var outbox: seq<Send>
    var logs: seq<ConnectionLog>

    ghost predicate Valid()
      reads this, store, registry
    {
      store.Valid() && BoundImpliesGrouped(registry.connections, groups)
    }

    /** A freshly started relay: no live connection, no group, nothing sent. */
    constructor (store: SessionStore, registry: ConnectionManager)
      requires store.Valid() && registry.connections == map[]
      ensures Valid() && this.store == store && this.registry == registry
      ensures groups == map[] && outbox == [] && logs == []
    {
      this.store := store;
      this.registry := registry;
      groups := map[];
      outbox := [];
      logs := [];
    }

    /**
     * OnConnectedAsync: appends an open log row for the connection ("Unknown"
     * for a missing address or agent); nothing else changes.
     */
    method OnConnected(ctx: HubCallerContext, ipAddress: Option<string>, userAgent: Option<string>, now: int)
      requires Valid()
      modifies this
      ensures Valid()
      ensures groups == old(groups) && outbox == old(outbox)
      ensures logs == old(logs) + [OpenedLog(|old(logs)| + 1, GetUserId(ctx.nameIdentifier), ctx.connectionId,
                                             ipAddress.GetOr("Unknown"), userAgent.GetOr("Unknown"), now)]
    {
      var userId := GetUserId(ctx.nameIdentifier);
      logs := logs + [OpenedLog(|logs| + 1, userId, ctx.connectionId,
                                ipAddress.GetOr("Unknown"), userAgent.GetOr("Unknown"), now)];
    }

    /**
     * OnDisconnectedAsync: only when the connection is bound, announces
     * ParticipantLeft to the other members of its session's group and unbinds
     * it, so a second disconnect sends nothing. Closes the connection's first open
     * log row with the exception message or "Normal disconnect". The participant
     * row in the store is left as it is. Afterwards the transport drops the
     * connection from every group.
     */
    method OnDisconnected(ctx: HubCallerContext, exception: Option<string>, now: int)
      requires Valid()
      modifies this, registry
      ensures Valid()
      ensures unchanged(store)
      ensures registry.connections == old(registry.connections) - {ctx.connectionId}
      ensures groups == DropConnection(old(groups), ctx.connectionId)
      ensures match old(registry.GetConnectionInfo(ctx.connectionId))
        case Some(info) =>
          outbox == old(outbox) + [Send(Members(old(groups), info.sessionId) - {ctx.connectionId},
                                        ParticipantLeft(GetUserId(ctx.nameIdentifier), ctx.connectionId, now))]
        case None => outbox == old(outbox)
      ensures logs == CloseFirstOpenLog(old(logs), ctx.connectionId, now, exception.GetOr("Normal disconnect"))
    {
      var userId := GetUserId(ctx.nameIdentifier);
      assert store as object != registry;
      logs := CloseFirstOpenLog(logs, ctx.connectionId, now, exception.GetOr("Normal disconnect"));
      Drop(ctx.connectionId, userId, now);
    }

    /**
     * The relay side of OnDisconnected: a bound connection's session hears
     * ParticipantLeft from it; then it is unbound and leaves every group.
     */
    method Drop(connectionId: string, userId: int, now: int)
      requires BoundImpliesGrouped(registry.connections, groups)
      modifies this, registry
      ensures BoundImpliesGrouped(registry.connections, groups)
      ensures logs == old(logs)
      ensures registry.connections == old(registry.connections) - {connectionId}
      ensures groups == DropConnection(old(groups), connectionId)
      ensures match old(registry.GetConnectionInfo(connectionId))
        case Some(info) =>
          outbox == old(outbox) + [Send(Members(old(groups), info.sessionId) - {connectionId}, ParticipantLeft(userId, connectionId, now))]
        case None => outbox == old(outbox)
    {
      ghost var bindings := registry.connections;
      var info := registry.GetConnectionInfo(connectionId);
      if info.Some? {
        outbox := outbox + [Send(Members(groups, info.value.sessionId) - {connectionId}, ParticipantLeft(userId, connectionId, now))];
        registry.RemoveConnection(connectionId);
      } else {
        RemoveAbsent(bindings, connectionId);
      }
      assert registry.connections == bindings - {connectionId};
      UnbindKeepsGrouped(bindings, groups, connectionId, "");
      groups := DropConnection(groups, connectionId);
    }

    /**
     * JoinSession: asks the store to admit the caller. On a rejection only an
     * Error goes back to the caller. On success the caller joins the session's
     * group and is bound in the registry (overwriting an earlier binding), and
     * ParticipantJoined goes to every other member of the group.
     */
    method JoinSession(ctx: HubCallerContext, sessionId: string, now: int, username: int -> string)
      requires Valid()
      modifies this, store, registry
      ensures Valid()
      ensures logs == old(logs)
      ensures store.sessions == old(store.sessions)
      ensures match CheckJoin(old(store.sessions), old(store.participants), sessionId)
        case Admit(k) =>
          && store.participants == JoinRows(old(store.participants), old(store.sessions)[k].id,
                                            GetUserId(ctx.nameIdentifier), ctx.connectionId, now)
          && groups == AddToGroup(old(groups), sessionId, ctx.connectionId)
          && registry.connections == old(registry.connections)[ctx.connectionId := ConnectionInfo(GetUserId(ctx.nameIdentifier), sessionId)]
          && outbox == old(outbox) + [Send(Members(groups, sessionId) - {ctx.connectionId},
                                           ParticipantJoined(GetUserId(ctx.nameIdentifier), ctx.connectionId, now))]
        case _ =>
          && store.participants == old(store.participants)
          && groups == old(groups)
          && registry.connections == old(registry.connections)
          && outbox == old(outbox) + [Send({ctx.connectionId}, Error("Failed to join session"))]
    {
      var userId := GetUserId(ctx.nameIdentifier);
      var session := store.Join(userId, sessionId, ctx.connectionId, now, username);
      if session.None? {
        outbox := outbox + [Send({ctx.connectionId}, Error("Failed to join session"))];
        return;
      }
      Subscribe(ctx.connectionId, userId, sessionId, now);
    }

    /** The relay side of an admitted join: enter the group, bind, and tell the other members. */
    method Subscribe(connectionId: string, userId: int, sessionId: string, now: int)
      requires BoundImpliesGrouped(registry.connections, groups)
      modifies this, registry
      ensures BoundImpliesGrouped(registry.connections, groups)
      ensures logs == old(logs)
      ensures groups == AddToGroup(old(groups), sessionId, connectionId)
      ensures registry.connections == old(registry.connections)[connectionId := ConnectionInfo(userId, sessionId)]
      ensures outbox == old(outbox) + [Send(Members(groups, sessionId) - {connectionId}, ParticipantJoined(userId, connectionId, now))]
    {
      ghost var bindings := registry.connections;
      groups := AddToGroup(groups, sessionId, connectionId);
      registry.AddConnection(connectionId, userId, sessionId);
      assert registry.connections == bindings[connectionId := ConnectionInfo(userId, sessionId)];
      outbox := outbox + [Send(Members(groups, sessionId) - {connectionId}, ParticipantJoined(userId, connectionId, now))];
    }

    /**
     * LeaveSession: asks the store to soft-leave the caller's row and carries on
     * whatever it answers: the caller leaves the group and is unbound, and
     * ParticipantLeft goes to the members that remain.
     */
    method LeaveSession(ctx: HubCallerContext, sessionId: string, now: int)
      requires Valid()
      modifies this, store, registry
      ensures Valid()
      ensures logs == old(logs)
      ensures store.sessions == old(store.sessions)
      ensures match LeaveTarget(old(store.sessions), old(store.participants), GetUserId(ctx.nameIdentifier), sessionId)
        case Some(j) => store.participants == old(store.participants)[j := SoftLeft(old(store.participants)[j], now)]
        case None => store.participants == old(store.participants)
      ensures groups == RemoveFromGroup(old(groups), sessionId, ctx.connectionId)
      ensures registry.connections == old(registry.connections) - {ctx.connectionId}
      ensures outbox == old(outbox) + [Send(Members(groups, sessionId) - {ctx.connectionId},
                                            ParticipantLeft(GetUserId(ctx.nameIdentifier), ctx.connectionId, now))]
    {
      var userId := GetUserId(ctx.nameIdentifier);
      var _ := store.Leave(userId, sessionId, now);
      Unsubscribe(ctx.connectionId, userId, sessionId, now);
    }

    /** The relay side of LeaveSession: leave the group, unbind, and tell the members that remain. */
    method Unsubscribe(connectionId: string, userId: int, sessionId: string, now: int)
      requires BoundImpliesGrouped(registry.connections, groups)
      modifies this, registry
      ensures BoundImpliesGrouped(registry.connections, groups)
      ensures logs == old(logs)
      ensures groups == RemoveFromGroup(old(groups), sessionId, connectionId)
      ensures registry.connections == old(registry.connections) - {connectionId}
      ensures outbox == old(outbox) + [Send(Members(groups, sessionId) - {connectionId}, ParticipantLeft(userId, connectionId, now))]
    {
      ghost var bindings := registry.connections;
      UnbindKeepsGrouped(bindings, groups, connectionId, sessionId);
      groups := RemoveFromGroup(groups, sessionId, connectionId);
      registry.RemoveConnection(connectionId);
      assert registry.connections == bindings - {connectionId};
      outbox := outbox + [Send(Members(groups, sessionId) - {connectionId}, ParticipantLeft(userId, connectionId, now))];
    }

    /** SendOffer: exactly one message, to the target alone, naming the caller; membership is not checked. */
    method SendOffer(ctx: HubCallerContext, targetConnectionId: string, offer: Payload, now: int)
      requires Valid()
      modifies this
      ensures Valid()
      ensures groups == old(groups) && logs == old(logs)
      ensures outbox == old(outbox) + [Send({targetConnectionId},
                                            ReceiveOffer(ctx.connectionId, GetUserId(ctx.nameIdentifier), offer, now))]
    {
      var userId := GetUserId(ctx.nameIdentifier);
      outbox := outbox + [Send({targetConnectionId}, ReceiveOffer(ctx.connectionId, userId, offer, now))];
    }

    /** SendAnswer: exactly one message, to the target alone, naming the caller; membership is not checked. */
    method SendAnswer(ctx: HubCallerContext, targetConnectionId: string, answer: Payload, now: int)
      requires Valid()
      modifies this
      ensures Valid()
      ensures groups == old(groups) && logs == old(logs)
      ensures outbox == old(outbox) + [Send({targetConnectionId},
                                            ReceiveAnswer(ctx.connectionId, GetUserId(ctx.nameIdentifier), answer, now))]
    {
      var userId := GetUserId(ctx.nameIdentifier);
      outbox := outbox + [Send({targetConnectionId}, ReceiveAnswer(ctx.connectionId, userId, answer, now))];
    }

    /** SendIceCandidate: exactly one message, to the target alone; its envelope names the caller's connection but not its user. */
    method SendIceCandidate(ctx: HubCallerContext, targetConnectionId: string, candidate: Payload, now: int)
      requires Valid()
      modifies this
      ensures Valid()
      ensures groups == old(groups) && logs == old(logs)
      ensures outbox == old(outbox) + [Send({targetConnectionId}, ReceiveIceCandidate(ctx.connectionId, candidate, now))]
    {
      outbox := outbox + [Send({targetConnectionId}, ReceiveIceCandidate(ctx.connectionId, candidate, now))];
    }

    /**
     * UpdateStatus: records the flags on the caller's active row if there is one,
     * then announces ParticipantStatusChanged to the other members of the group
     * whether or not a row was updated.
     */
    method UpdateStatus(ctx: HubCallerContext, sessionId: string, isMuted: bool, isVideoEnabled: bool, now: int)
      requires Valid()
      modifies this, store
      ensures Valid()
      ensures groups == old(groups) && logs == old(logs)
      ensures store.sessions == old(store.sessions)
      ensures match FindByConnection(old(store.participants), ctx.connectionId)
        case Some(j) => store.participants == old(store.participants)[j := WithMedia(old(store.participants)[j], isMuted, isVideoEnabled)]
        case None => store.participants == old(store.participants)
      ensures outbox == old(outbox) + [Send(Members(groups, sessionId) - {ctx.connectionId},
        ParticipantStatusChanged(GetUserId(ctx.nameIdentifier), ctx.connectionId, isMuted, isVideoEnabled, now))]
    {
      var userId := GetUserId(ctx.nameIdentifier);
      var _ := store.UpdateParticipantStatus(ctx.connectionId, isMuted, isVideoEnabled);
      outbox := outbox + [Send(Members(groups, sessionId) - {ctx.connectionId},
                               ParticipantStatusChanged(userId, ctx.connectionId, isMuted, isVideoEnabled, now))];
    }

    /** SendMessage: one ReceiveMessage to the whole group, the sender included; "Unknown" when the token has no name. */
    method SendMessage(ctx: HubCallerContext, sessionId: string, message: string, now: int)
      requires Valid()
      modifies this
      ensures Valid()
      ensures groups == old(groups) && logs == old(logs)
      ensures outbox == old(outbox) + [Send(Members(groups, sessionId),
        ReceiveMessage(GetUserId(ctx.nameIdentifier), ctx.name.GetOr("Unknown"), message, now))]
    {
      var userId := GetUserId(ctx.nameIdentifier);
      var username := ctx.name.GetOr("Unknown");
      outbox := outbox + [Send(Members(groups, sessionId), ReceiveMessage(userId, username, message, now))];
    }
  }
}
