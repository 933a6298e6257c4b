/**
 * The durable records of the store: sessions, participation rows, users and the
 * connection audit log, with the default values their initialisers give.
 * Clock readings (C#'s DateTime) are ints counting seconds; a nullable timestamp
 * is an Option.
 */
module Models {
  import opened Wrappers

  const SecondsPerMinute: int := 60

  datatype SessionStatus = Active | Ended | Paused

  datatype SessionType = AudioOnly | VideoCall | ScreenShare | Mixed

  /** The default capacity of a session. */
  const DefaultMaxParticipants: int := 10

  datatype Session = Session(
    id: int,               // numeric storage key, internal only
    sessionId: string,     // opaque generated identifier handed to clients
    name: string,
    creatorId: int,
    maxParticipants: int,
    createdAt: int,
    endedAt: Option<int>,
    status: SessionStatus,
    sessionType: SessionType)

  /**
   * A Session as its initialisers leave it. `key` is the storage key the store
   * assigns, `guid` the freshly generated identifier, `now` the clock reading.
   */
  function NewSession(key: int, guid: string, now: int): (s: Session)
    ensures s.id == key && s.sessionId == guid && s.createdAt == now
    ensures s.name == "" && s.maxParticipants == DefaultMaxParticipants
    ensures s.endedAt.None? && s.status == Active && s.sessionType == VideoCall
  {
    Session(key, guid, "", 0, DefaultMaxParticipants, now, None, Active, VideoCall)
  }

  datatype ParticipantStatus = Connected | Disconnected | Reconnecting

  /** One user's membership of one session; `sessionKey` refers to Session.id. */
  datatype SessionParticipant = SessionParticipant(
    id: int,
    sessionKey: int,
    userId: int,
    connectionId: string,
    joinedAt: int,
    leftAt: Option<int>,
    status: ParticipantStatus,
    isMuted: bool,
    isVideoEnabled: bool)

  /** A participation row is active until its leave timestamp is set. */
  predicate IsActive(p: SessionParticipant) {
    p.leftAt.None?
  }

  /** A SessionParticipant as its initialisers leave it. */
  function NewParticipant(key: int, now: int): (p: SessionParticipant)
    ensures p.id == key && p.joinedAt == now && p.connectionId == ""
    ensures IsActive(p) && p.status == Connected
    ensures !p.isMuted && p.isVideoEnabled
  {
    SessionParticipant(key, 0, 0, "", now, None, Connected, false, true)
  }

  datatype User = User(
    id: int,
    username: string,
    email: string,
    passwordHash: string,
    createdAt: int,
    lastLoginAt: Option<int>,
    isActive: bool)

  /** Audit row written when a live connection opens and closed when it drops. */
  datatype ConnectionLog = ConnectionLog(
    id: int,
    userId: int,
    sessionKey: Option<int>,
    connectionId: string,
    ipAddress: string,
    userAgent: string,
    connectedAt: int,
    disconnectedAt: Option<int>,
    disconnectReason: Option<string>)
}
