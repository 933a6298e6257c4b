/**
 * The live-connection registry (ConnectionManager): which user and which session
 * each live connection is attached to. It is rebuilt from nothing on restart.
 */
module Connections {
  import opened Wrappers

  datatype ConnectionInfo = ConnectionInfo(userId: int, sessionId: string)

  /** The connection ids bound to `sessionId`. */
  function BoundTo(m: map<string, ConnectionInfo>, sessionId: string): set<string> {
    set c | c in m && m[c].sessionId == sessionId
  }

  /**
   * Binding a connection moves it into its new session's set and out of every
   * other session's set; nothing else moves.
   */
  lemma BoundToAfterAdd(m: map<string, ConnectionInfo>, c: string, info: ConnectionInfo, sessionId: string)
    ensures BoundTo(m[c := info], sessionId)
         == if info.sessionId == sessionId then BoundTo(m, sessionId) + {c} else BoundTo(m, sessionId) - {c}
  {
    var after := BoundTo(m[c := info], sessionId);
    var expected := if info.sessionId == sessionId then BoundTo(m, sessionId) + {c} else BoundTo(m, sessionId) - {c};
    forall x ensures x in after <==> x in expected {
      if x != c {
        assert x in after <==> x in m && m[x].sessionId == sessionId;
      }
    }
  }

  /** Unbinding a connection removes it from every session's set and from nowhere else. */
  lemma BoundToAfterRemove(m: map<string, ConnectionInfo>, c: string, sessionId: string)
    ensures BoundTo(m - {c}, sessionId) == BoundTo(m, sessionId) - {c}
  {
    var after := BoundTo(m - {c}, sessionId);
    forall x ensures x in after <==> x in BoundTo(m, sessionId) - {c} {
      if x != c {
        assert x in after <==> x in m && m[x].sessionId == sessionId;
      }
    }
  }

  class ConnectionManager {
    var connections: map<string, ConnectionInfo>

    constructor ()
      ensures connections == map[]
    {
      connections := map[];
    }

    /**
     * AddConnection: binds `connectionId` to (userId, sessionId), overwriting any
     * earlier binding; every other binding is unchanged. The count grows by one
     * exactly when the id was not bound before.
     */
    method AddConnection(connectionId: string, userId: int, sessionId: string)
      modifies this
      ensures connections == old(connections)[connectionId := ConnectionInfo(userId, sessionId)]
      ensures GetConnectionInfo(connectionId) == Some(ConnectionInfo(userId, sessionId))
      ensures forall c | c != connectionId :: (c in connections <==> c in old(connections))
      ensures forall c | c != connectionId && c in connections :: connections[c] == old(connections)[c]
      ensures GetActiveConnectionsCount()
           == if connectionId in old(connections) then old(GetActiveConnectionsCount()) else old(GetActiveConnectionsCount()) + 1
    {
      connections := connections[connectionId := ConnectionInfo(userId, sessionId)];
    }

    /**
     * RemoveConnection: drops the binding of `connectionId` if there is one and
     * does nothing otherwise, so a second removal changes nothing; every other
     * binding is unchanged. The count drops by one exactly when the id was bound.
     */
    method RemoveConnection(connectionId: string)
      modifies this
      ensures connections == old(connections) - {connectionId}
      ensures GetConnectionInfo(connectionId).None?
      ensures connectionId !in old(connections) ==> connections == old(connections)
      ensures forall c | c != connectionId :: (c in connections <==> c in old(connections))
      ensures forall c | c != connectionId && c in connections :: connections[c] == old(connections)[c]
      ensures GetActiveConnectionsCount()
           == if connectionId in old(connections) then old(GetActiveConnectionsCount()) - 1 else old(GetActiveConnectionsCount())
    {
      connections := connections - {connectionId};
    }

    /** GetConnectionInfo: the stored pair when `connectionId` is bound, None otherwise. */
    function GetConnectionInfo(connectionId: string): (r: Option<ConnectionInfo>)
      reads this
      ensures r.Some? <==> connectionId in connections
      ensures r.Some? ==> r.value == connections[connectionId]
    {
      if connectionId in connections then Some(connections[connectionId]) else None
    }

    /** GetConnectionsBySession: exactly the bound connection ids whose session is `sessionId`. */
    function GetConnectionsBySession(sessionId: string): (r: set<string>)
      reads this
      ensures forall c :: c in r <==> GetConnectionInfo(c).Some? && GetConnectionInfo(c).value.sessionId == sessionId
    {
      BoundTo(connections, sessionId)
    }

    /** GetActiveConnectionsCount: the number of live bindings. */
    function GetActiveConnectionsCount(): (n: nat)
      reads this
      ensures n == |connections.Keys|
    {
      |connections|
    }
  }
}
