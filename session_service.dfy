/**
 * The session store and the rules that change it (SessionService): creating a
 * session, joining it under the capacity rule, reading it back, leaving it,
 * ending it and recording a participant's mute/video flags.
 *
 * The store is modelled as one object holding the Sessions table and the
 * SessionParticipants table as sequences in insertion order; storage keys are
 * assigned 1, 2, 3, ... as an identity column does. Operations run one at a time.
 */
module SessionService {
  import opened Wrappers
  import opened Models

  // ---------------------------------------------------------------------------
  // Read models handed back to callers

  datatype SessionResponse = SessionResponse(
    sessionId: string,
    name: string,
    maxParticipants: int,
    currentParticipants: int,
    status: SessionStatus,
    sessionType: SessionType,
    createdAt: int,
    creatorUsername: string)

  datatype ParticipantInfo = ParticipantInfo(
    username: string,
    joinedAt: int,
    status: ParticipantStatus,
    isMuted: bool,
    isVideoEnabled: bool)

  /** SessionDetailResponse: the summary fields plus the active participants. */
  datatype SessionDetail = SessionDetail(summary: SessionResponse, participants: seq<ParticipantInfo>)

  // ---------------------------------------------------------------------------
  // Lookups (each is a FirstOrDefault of the source)

  function FindSession(ss: seq<Session>, sessionId: string): Option<nat> {
    FirstMatch(ss, (s: Session) => s.sessionId == sessionId)
  }

  function FindActiveSession(ss: seq<Session>, sessionId: string): Option<nat> {
    FirstMatch(ss, (s: Session) => s.sessionId == sessionId && s.status == Active)
  }

  /** A row of the session with storage key `key` that nobody has left. */
  predicate ActiveIn(p: SessionParticipant, key: int) {
    p.sessionKey == key && IsActive(p)
  }

  /** The user's active row in the session with storage key `key`. */
  function FindMembership(ps: seq<SessionParticipant>, key: int, userId: int): Option<nat> {
    FirstMatch(ps, (p: SessionParticipant) => ActiveIn(p, key) && p.userId == userId)
  }

  /** The active row currently bound to `connectionId`, in any session. */
  function FindByConnection(ps: seq<SessionParticipant>, connectionId: string): Option<nat> {
    FirstMatch(ps, (p: SessionParticipant) => p.connectionId == connectionId && IsActive(p))
  }

  // ---------------------------------------------------------------------------
  // Counting and listing the active rows of a session

  /** Number of active rows of the session with storage key `key`. */
  function ActiveCount(ps: seq<SessionParticipant>, key: int): nat {
    if ps == [] then 0
    else ActiveCount(ps[..|ps| - 1], key) + (if ActiveIn(ps[|ps| - 1], key) then 1 else 0)
  }

  /** The active rows of the session, in store order. */
  function ActiveRows(ps: seq<SessionParticipant>, key: int): (r: seq<SessionParticipant>)
    ensures |r| == ActiveCount(ps, key)
    ensures forall p | p in r :: ActiveIn(p, key) && p in ps
    ensures forall i | 0 <= i < |ps| && ActiveIn(ps[i], key) :: ps[i] in r
  {
    if ps == [] then []
    else
      var rest := ActiveRows(ps[..|ps| - 1], key);
      assert forall i | 0 <= i < |ps| - 1 :: ps[..|ps| - 1][i] == ps[i];
      if ActiveIn(ps[|ps| - 1], key) then rest + [ps[|ps| - 1]] else rest
  }

  /** A session has no active row exactly when its active count is zero. */
  lemma ActiveCountZero(ps: seq<SessionParticipant>, key: int)
    ensures ActiveCount(ps, key) == 0 <==> forall i | 0 <= i < |ps| :: !ActiveIn(ps[i], key)
  {
    var rows := ActiveRows(ps, key);
    if ActiveCount(ps, key) != 0 {
      assert rows[0] in rows;
      var j :| 0 <= j < |ps| && ps[j] == rows[0];
    }
  }

  lemma ActiveCountAppend(ps: seq<SessionParticipant>, p: SessionParticipant, key: int)
    ensures ActiveCount(ps + [p], key) == ActiveCount(ps, key) + (if ActiveIn(p, key) then 1 else 0)
  {
    assert (ps + [p])[..|ps|] == ps;
  }

  /** A change that makes no row active for `key` cannot raise that session's count. */
  lemma {:induction false} ActiveCountMonotone(before: seq<SessionParticipant>, after: seq<SessionParticipant>, key: int)
    requires |before| == |after|
    requires forall i | 0 <= i < |after| :: ActiveIn(after[i], key) ==> ActiveIn(before[i], key)
    ensures ActiveCount(after, key) <= ActiveCount(before, key)
  {
    if after != [] {
      var n := |after| - 1;
      ActiveCountMonotone(before[..n], after[..n], key);
    }
  }

  // ---------------------------------------------------------------------------
  // Invariants of the two tables

  /** Storage keys are the identity column 1, 2, 3, ... */
  predicate SessionKeysInOrder(ss: seq<Session>) {
    forall i | 0 <= i < |ss| :: ss[i].id == i + 1
  }

  /** The unique index on Session.SessionId. */
  predicate UniqueSessionIds(ss: seq<Session>) {
    forall i, j | 0 <= i < j < |ss| :: ss[i].sessionId != ss[j].sessionId
  }

  /** The foreign key from SessionParticipant.SessionId to Session.Id. */
  predicate RowsReferenceSessions(ps: seq<SessionParticipant>, sessionCount: int) {
    forall i | 0 <= i < |ps| :: 1 <= ps[i].sessionKey <= sessionCount
  }

  /** At most one active row per (session, user). */
  predicate OneActiveRowPerUser(ps: seq<SessionParticipant>) {
    forall i, j | 0 <= i < |ps| && 0 <= j < |ps| && i != j ::
      IsActive(ps[i]) && IsActive(ps[j]) && ps[i].sessionKey == ps[j].sessionKey ==> ps[i].userId != ps[j].userId
  }

  /**
   * No session holds more active rows than its MaxParticipants (and a session
   * whose MaxParticipants is not positive holds none).
   */
  predicate WithinCapacity(ss: seq<Session>, ps: seq<SessionParticipant>) {
    forall i | 0 <= i < |ss| ::
      ActiveCount(ps, ss[i].id) == 0 || ActiveCount(ps, ss[i].id) <= ss[i].maxParticipants
  }

  predicate StoreInvariant(ss: seq<Session>, ps: seq<SessionParticipant>) {
    && SessionKeysInOrder(ss)
    && UniqueSessionIds(ss)
    && RowsReferenceSessions(ps, |ss|)
    && OneActiveRowPerUser(ps)
    && WithinCapacity(ss, ps)
  }

  /**
   * Participation history is kept: no row disappears or changes session, user or
   * join time, and a leave timestamp once set is never unset or changed.
   */
  predicate HistoryKept(before: seq<SessionParticipant>, after: seq<SessionParticipant>) {
    && |before| <= |after|
    && forall i | 0 <= i < |before| ::
      && after[i].sessionKey == before[i].sessionKey
      && after[i].userId == before[i].userId
      && after[i].joinedAt == before[i].joinedAt
      && (before[i].leftAt.Some? ==> after[i].leftAt == before[i].leftAt)
  }

  lemma HistoryKeptTransitive(a: seq<SessionParticipant>, b: seq<SessionParticipant>, c: seq<SessionParticipant>)
    requires HistoryKept(a, b) && HistoryKept(b, c)
    ensures HistoryKept(a, c)
  {
    forall i | 0 <= i < |a|
      ensures c[i].sessionKey == a[i].sessionKey && c[i].userId == a[i].userId && c[i].joinedAt == a[i].joinedAt
      ensures a[i].leftAt.Some? ==> c[i].leftAt == a[i].leftAt
    {
      assert b[i].sessionKey == a[i].sessionKey;
    }
  }

  /** A change of the rows that keeps every row's session and user and activates nothing. */
  predicate Deactivating(before: seq<SessionParticipant>, after: seq<SessionParticipant>) {
    && |before| == |after|
    && forall i | 0 <= i < |after| ::
      && after[i].sessionKey == before[i].sessionKey
      && after[i].userId == before[i].userId
      && (IsActive(after[i]) ==> IsActive(before[i]))
  }

  /** Leaving, ending and flag updates cannot break the store invariant. */
  lemma DeactivatingKeepsInvariant(ss: seq<Session>, before: seq<SessionParticipant>, after: seq<SessionParticipant>)
    requires StoreInvariant(ss, before)
    requires Deactivating(before, after)
    ensures StoreInvariant(ss, after)
  {
    forall i | 0 <= i < |ss|
      ensures ActiveCount(after, ss[i].id) <= ActiveCount(before, ss[i].id)
    {
      ActiveCountMonotone(before, after, ss[i].id);
    }
  }

  // ---------------------------------------------------------------------------
  // Creating a session

  /** The row CreateSessionAsync adds. */
  function CreatedSession(key: int, userId: int, name: string, maxParticipants: int,
                          sessionType: SessionType, guid: string, now: int): Session
  {
    NewSession(key, guid, now).(name := name, creatorId := userId,
                                maxParticipants := maxParticipants, sessionType := sessionType)
  }

  // ---------------------------------------------------------------------------
  // Joining a session

  /** How JoinSessionAsync answers, before it changes anything. Both rejections reach the caller as null. */
  datatype JoinVerdict = NoActiveSession | SessionFull | Admit(index: nat)

  /**
   * The two rejections of JoinSessionAsync, in its order: no Active session with
   * that id, then a full session. Membership is not consulted, so a member
   * re-joining a full session is rejected as well.
   */
  function CheckJoin(ss: seq<Session>, ps: seq<SessionParticipant>, sessionId: string): (v: JoinVerdict)
    ensures v.NoActiveSession? <==>
      forall i | 0 <= i < |ss| :: !(ss[i].sessionId == sessionId && ss[i].status == Active)
    ensures v.Admit? ==>
      && v.index < |ss| && ss[v.index].sessionId == sessionId && ss[v.index].status == Active
      && ActiveCount(ps, ss[v.index].id) < ss[v.index].maxParticipants
    ensures v.SessionFull? ==>
      exists k | 0 <= k < |ss| :: && ss[k].sessionId == sessionId && ss[k].status == Active
                                   && ActiveCount(ps, ss[k].id) >= ss[k].maxParticipants
  {
    match FindActiveSession(ss, sessionId)
    case None => NoActiveSession
    case Some(k) =>
      if ActiveCount(ps, ss[k].id) >= ss[k].maxParticipants then SessionFull else Admit(k)
  }

  /** A reconnecting member keeps its row: new connection id, status Connected. */
  function Rejoined(p: SessionParticipant, connectionId: string): SessionParticipant {
    p.(connectionId := connectionId, status := Connected)
  }

  /** The row a first-time joiner gets. */
  function JoinedRow(rowKey: int, key: int, userId: int, connectionId: string, now: int): SessionParticipant {
    NewParticipant(rowKey, now).(sessionKey := key, userId := userId, connectionId := connectionId)
  }

  /** The participant rows after an admitted join of `userId` to the session with storage key `key`. */
  function JoinRows(ps: seq<SessionParticipant>, key: int, userId: int, connectionId: string, now: int): (r: seq<SessionParticipant>)
    ensures |r| == |ps| + (if FindMembership(ps, key, userId).None? then 1 else 0)
    ensures forall i | 0 <= i < |ps| && FindMembership(ps, key, userId) != Some(i) :: r[i] == ps[i]
  {
    match FindMembership(ps, key, userId)
    case Some(j) => ps[j := Rejoined(ps[j], connectionId)]
    case None => ps + [JoinedRow(|ps| + 1, key, userId, connectionId, now)]
  }

  /**
   * After a join the user holds an active, Connected row bound to the new
   * connection, and no other row changed its session, user or activity.
   */
  lemma JoinRowsMembership(ps: seq<SessionParticipant>, key: int, userId: int, connectionId: string, now: int)
    ensures var after := JoinRows(ps, key, userId, connectionId, now);
      && FindMembership(after, key, userId).Some?
      && after[FindMembership(after, key, userId).value].connectionId == connectionId
      && after[FindMembership(after, key, userId).value].status == Connected
  {
    var after := JoinRows(ps, key, userId, connectionId, now);
    match FindMembership(ps, key, userId)
    case Some(j) =>
      assert ActiveIn(after[j], key) && after[j].userId == userId;
      assert FindMembership(after, key, userId).value == j;
    case None =>
      var n := |ps|;
      assert ActiveIn(after[n], key) && after[n].userId == userId;
      assert FindMembership(after, key, userId).value == n;
  }

  /**
   * A join adds one active row to the session when the user was not yet a member
   * and none when it was; the counts of other sessions do not move.
   */
  lemma JoinRowsCount(ps: seq<SessionParticipant>, key: int, userId: int, connectionId: string, now: int, other: int)
    ensures ActiveCount(JoinRows(ps, key, userId, connectionId, now), key)
         == ActiveCount(ps, key) + (if FindMembership(ps, key, userId).None? then 1 else 0)
    ensures other != key ==>
      ActiveCount(JoinRows(ps, key, userId, connectionId, now), other) == ActiveCount(ps, other)
  {
    var after := JoinRows(ps, key, userId, connectionId, now);
    match FindMembership(ps, key, userId)
    case Some(j) =>
      assert after == ps[j := Rejoined(ps[j], connectionId)];
      ActiveCountMonotone(ps, after, key);
      ActiveCountMonotone(after, ps, key);
      ActiveCountMonotone(ps, after, other);
      ActiveCountMonotone(after, ps, other);
    case None =>
      ActiveCountAppend(ps, JoinedRow(|ps| + 1, key, userId, connectionId, now), key);
      ActiveCountAppend(ps, JoinedRow(|ps| + 1, key, userId, connectionId, now), other);
  }

  /** A join never gives a user a second active row in the same session. */
  lemma JoinRowsOneActive(ps: seq<SessionParticipant>, key: int, userId: int, connectionId: string, now: int)
    requires OneActiveRowPerUser(ps)
    ensures OneActiveRowPerUser(JoinRows(ps, key, userId, connectionId, now))
  {
  }

  /** An admitted join keeps the store invariant: one active row per user, capacity respected. */
  lemma AdmittedJoinKeepsInvariant(ss: seq<Session>, ps: seq<SessionParticipant>, sessionId: string,
                                   userId: int, connectionId: string, now: int)
    requires StoreInvariant(ss, ps)
    requires CheckJoin(ss, ps, sessionId).Admit?
    ensures StoreInvariant(ss, JoinRows(ps, ss[CheckJoin(ss, ps, sessionId).index].id, userId, connectionId, now))
  {
    var k := CheckJoin(ss, ps, sessionId).index;
    var key := ss[k].id;
    var after := JoinRows(ps, key, userId, connectionId, now);
    assert key == k + 1;
    assert RowsReferenceSessions(after, |ss|);
    JoinRowsOneActive(ps, key, userId, connectionId, now);
    forall i | 0 <= i < |ss|
      ensures ActiveCount(after, ss[i].id) == 0 || ActiveCount(after, ss[i].id) <= ss[i].maxParticipants
    {
      JoinRowsCount(ps, key, userId, connectionId, now, ss[i].id);
    }
    assert WithinCapacity(ss, after);
  }

  /** Sessions whose status or end time changed keep the store invariant. */
  lemma RestampedSessionsKeepInvariant(ss: seq<Session>, ss2: seq<Session>, ps: seq<SessionParticipant>)
    requires StoreInvariant(ss, ps)
    requires |ss2| == |ss|
    requires forall i | 0 <= i < |ss| ::
      ss2[i].id == ss[i].id && ss2[i].sessionId == ss[i].sessionId && ss2[i].maxParticipants == ss[i].maxParticipants
    ensures StoreInvariant(ss2, ps)
  {
  }

  lemma JoinRowsHistory(ps: seq<SessionParticipant>, key: int, userId: int, connectionId: string, now: int)
    ensures HistoryKept(ps, JoinRows(ps, key, userId, connectionId, now))
  {
  }

  // ---------------------------------------------------------------------------
  // Reading sessions back

  function Summary(s: Session, ps: seq<SessionParticipant>, username: int -> string): SessionResponse {
    SessionResponse(s.sessionId, s.name, s.maxParticipants, ActiveCount(ps, s.id),
                    s.status, s.sessionType, s.createdAt, username(s.creatorId))
  }

  function Info(p: SessionParticipant, username: int -> string): ParticipantInfo {
    ParticipantInfo(username(p.userId), p.joinedAt, p.status, p.isMuted, p.isVideoEnabled)
  }

  /** The session's summary with one entry per active row of the session, and no other. */
  function Detail(s: Session, ps: seq<SessionParticipant>, username: int -> string): (d: SessionDetail)
    ensures |d.participants| == ActiveCount(ps, s.id)
    ensures forall x :: x in d.participants <==> exists p | p in ps && ActiveIn(p, s.id) :: x == Info(p, username)
  {
    var rows := ActiveRows(ps, s.id);
    var infos := seq(|rows|, i requires 0 <= i < |rows| => Info(rows[i], username));
    InfosOfActiveRows(ps, s.id, rows, infos, username);
    SessionDetail(Summary(s, ps, username), infos)
  }

  lemma InfosOfActiveRows(ps: seq<SessionParticipant>, key: int, rows: seq<SessionParticipant>,
                          infos: seq<ParticipantInfo>, username: int -> string)
    requires rows == ActiveRows(ps, key)
    requires |infos| == |rows| && forall i | 0 <= i < |rows| :: infos[i] == Info(rows[i], username)
    ensures forall x :: x in infos <==> exists p | p in ps && ActiveIn(p, key) :: x == Info(p, username)
  {
    forall x | x in infos
      ensures exists p | p in ps && ActiveIn(p, key) :: x == Info(p, username)
    {
      var i :| 0 <= i < |infos| && infos[i] == x;
      assert rows[i] in rows;
    }
    forall x | exists p | p in ps && ActiveIn(p, key) :: x == Info(p, username)
      ensures x in infos
    {
      var p :| p in ps && ActiveIn(p, key) && x == Info(p, username);
      var j :| 0 <= j < |ps| && ps[j] == p;
      assert p in rows;
      var i :| 0 <= i < |rows| && rows[i] == p;
      assert infos[i] == x;
    }
  }

  /** The sessions with status Active, in store order. */
  function ActiveOnly(ss: seq<Session>): (r: seq<Session>)
    ensures |r| <= |ss|
    ensures forall s :: s in r <==> s in ss && s.status == Active
  {
    if ss == [] then []
    else if ss[0].status == Active then [ss[0]] + ActiveOnly(ss[1..])
    else ActiveOnly(ss[1..])
  }

  function Summaries(ss: seq<Session>, ps: seq<SessionParticipant>, username: int -> string): seq<SessionResponse> {
    seq(|ss|, i requires 0 <= i < |ss| => Summary(ss[i], ps, username))
  }

  predicate NewestFirst(rs: seq<SessionResponse>) {
    forall i, j | 0 <= i < j < |rs| :: rs[i].createdAt >= rs[j].createdAt
  }

  /** An entry at least as new as every entry of a newest-first list can go in front of it. */
  lemma PrependNewestFirst(y: SessionResponse, rs: seq<SessionResponse>)
    requires NewestFirst(rs)
    requires forall z | z in rs :: y.createdAt >= z.createdAt
    ensures NewestFirst([y] + rs)
  {
    var r := [y] + rs;
    forall i, j | 0 <= i < j < |r| ensures r[i].createdAt >= r[j].createdAt {
      assert r[j] == rs[j - 1];
      if i > 0 {
        assert r[i] == rs[i - 1];
      }
    }
  }

  /** The head of a newest-first list is at least as new as every entry. */
  lemma HeadIsNewest(rs: seq<SessionResponse>)
    requires NewestFirst(rs)
    ensures forall z | z in rs :: rs[0].createdAt >= z.createdAt
  {
    forall z | z in rs ensures rs[0].createdAt >= z.createdAt {
      var j :| 0 <= j < |rs| && rs[j] == z;
    }
  }

  /**
   * The recursive step of the insertion: when the head is newer than `x`, the
   * head followed by `x` inserted into the rest is still newest first and
   * holds exactly the entries of `rs` and `x`.
   */
  lemma InsertStep(x: SessionResponse, rs: seq<SessionResponse>, tail: seq<SessionResponse>)
    requires NewestFirst(rs) && rs != [] && rs[0].createdAt > x.createdAt
    requires NewestFirst(tail) && multiset(tail) == multiset(rs[1..]) + multiset{x}
    requires forall y | y in tail :: y == x || y in rs[1..]
    ensures NewestFirst([rs[0]] + tail)
    ensures multiset([rs[0]] + tail) == multiset(rs) + multiset{x}
    ensures forall y | y in [rs[0]] + tail :: y == x || y in rs
  {
    assert rs == [rs[0]] + rs[1..];
    HeadIsNewest(rs);
    PrependNewestFirst(rs[0], tail);
  }

  /** Places `x` before the first entry that is not newer than it. */
  function InsertNewestFirst(x: SessionResponse, rs: seq<SessionResponse>): (r: seq<SessionResponse>)
    requires NewestFirst(rs)
    ensures NewestFirst(r)
    ensures multiset(r) == multiset(rs) + multiset{x}
    ensures forall y | y in r :: y == x || y in rs
  {
    if rs == [] || rs[0].createdAt <= x.createdAt then
      HeadIsNewest(rs);
      PrependNewestFirst(x, rs);
      [x] + rs
    else
      var tail := InsertNewestFirst(x, rs[1..]);
      InsertStep(x, rs, tail);
      [rs[0]] + tail
  }

  /** OrderByDescending(CreatedAt): a stable insertion sort, newest first. */
  function SortNewestFirst(rs: seq<SessionResponse>): (r: seq<SessionResponse>)
    ensures NewestFirst(r)
    ensures multiset(r) == multiset(rs)
  {
    if rs == [] then []
    else
      assert rs == [rs[0]] + rs[1..];
      InsertNewestFirst(rs[0], SortNewestFirst(rs[1..]))
  }

  // ---------------------------------------------------------------------------
  // Leaving, ending and flag updates

  /** The soft leave: the row stays, with a leave timestamp and status Disconnected. */
  function SoftLeft(p: SessionParticipant, now: int): SessionParticipant {
    p.(leftAt := Some(now), status := Disconnected)
  }

  /** The row LeaveSessionAsync closes: the user's active row in the session with that id. */
  function LeaveTarget(ss: seq<Session>, ps: seq<SessionParticipant>, userId: int, sessionId: string): Option<nat> {
    match FindSession(ss, sessionId)
    case None => None
    case Some(k) => FindMembership(ps, ss[k].id, userId)
  }

  /** The session EndSessionAsync ends: the one with that id, when `userId` created it. Its status is not consulted. */
  function EndTarget(ss: seq<Session>, userId: int, sessionId: string): (r: Option<nat>)
    ensures r.Some? <==> FindSession(ss, sessionId).Some? && ss[FindSession(ss, sessionId).value].creatorId == userId
  {
    match FindSession(ss, sessionId)
    case None => None
    case Some(k) => if ss[k].creatorId == userId then Some(k) else None
  }

  function Finished(s: Session, now: int): Session {
    s.(status := Ended, endedAt := Some(now))
  }

  /** Every active row of the session soft-left; every other row as it was. */
  function EndAll(ps: seq<SessionParticipant>, key: int, now: int): seq<SessionParticipant> {
    seq(|ps|, i requires 0 <= i < |ps| => if ActiveIn(ps[i], key) then SoftLeft(ps[i], now) else ps[i])
  }

  /** Ending session `k` keeps the store invariant and the participation history. */
  lemma EndKeepsInvariant(ss: seq<Session>, ps: seq<SessionParticipant>, k: nat, now: int)
    requires StoreInvariant(ss, ps) && k < |ss|
    ensures StoreInvariant(ss[k := Finished(ss[k], now)], EndAll(ps, ss[k].id, now))
    ensures HistoryKept(ps, EndAll(ps, ss[k].id, now))
  {
    var ended := ss[k := Finished(ss[k], now)];
    RestampedSessionsKeepInvariant(ss, ended, ps);
    DeactivatingKeepsInvariant(ended, ps, EndAll(ps, ss[k].id, now));
  }

  /**
   * After a session is ended none of its rows is active, every row that was
   * active carries the end time and status Disconnected, and the rows of other
   * sessions are untouched.
   */
  lemma EndAllClears(ps: seq<SessionParticipant>, key: int, now: int)
    ensures ActiveCount(EndAll(ps, key, now), key) == 0
    ensures forall i | 0 <= i < |ps| && ActiveIn(ps[i], key) ::
      EndAll(ps, key, now)[i].leftAt == Some(now) && EndAll(ps, key, now)[i].status == Disconnected
    ensures forall i | 0 <= i < |ps| && ps[i].sessionKey != key :: EndAll(ps, key, now)[i] == ps[i]
  {
    ActiveCountZero(EndAll(ps, key, now), key);
  }

  function WithMedia(p: SessionParticipant, isMuted: bool, isVideoEnabled: bool): SessionParticipant {
    p.(isMuted := isMuted, isVideoEnabled := isVideoEnabled)
  }

  // ---------------------------------------------------------------------------
  // The store

  class SessionStore {
    var sessions: seq<Session>
    var participants: seq<SessionParticipant>

    ghost predicate Valid()
      reads this
    {
      StoreInvariant(sessions, participants)
    }

    constructor ()
      ensures Valid() && sessions == [] && participants == []
    {
      sessions := [];
      participants := [];
    }

    /**
     * CreateSessionAsync: appends one Active session created by `userId` and
     * reports it with no participants. `guid` is the freshly generated session
     * id, which no session carries yet; `creatorName` is the creator's username
     * if the user table has that user.
     */
    method Create(userId: int, name: string, maxParticipants: int, sessionType: SessionType,
                  guid: string, now: int, creatorName: Option<string>) returns (r: SessionResponse)
      requires Valid()
      requires FindSession(sessions, guid).None?
      modifies this
      ensures Valid()
      ensures participants == old(participants)
      ensures sessions == old(sessions) + [CreatedSession(|old(sessions)| + 1, userId, name, maxParticipants, sessionType, guid, now)]
      ensures sessions[|sessions| - 1].status == Active && sessions[|sessions| - 1].creatorId == userId
      ensures r.currentParticipants == 0 == ActiveCount(participants, sessions[|sessions| - 1].id)
      ensures && r.sessionId == guid && r.name == name && r.maxParticipants == maxParticipants
              && r.status == Active && r.sessionType == sessionType && r.createdAt == now
      ensures r.creatorUsername == creatorName.GetOr("Unknown")
    {
      var key := |sessions| + 1;
      var session := CreatedSession(key, userId, name, maxParticipants, sessionType, guid, now);
      ActiveCountZero(participants, key);
      sessions := sessions + [session];
      r := SessionResponse(session.sessionId, session.name, session.maxParticipants, 0,
                           session.status, session.sessionType, session.createdAt, creatorName.GetOr("Unknown"));
    }

    /**
     * JoinSessionAsync: rejects (null) when no Active session has that id or the
     * session is full; otherwise re-binds the user's active row to the new
     * connection, or adds a row, and returns the session as GetSession reads it.
     */
    method Join(userId: int, sessionId: string, connectionId: string, now: int, username: int -> string)
      returns (r: Option<SessionDetail>)
      requires Valid()
      modifies this
      ensures Valid()
      ensures sessions == old(sessions)
      ensures HistoryKept(old(participants), participants)
      ensures match CheckJoin(old(sessions), old(participants), sessionId)
        case Admit(k) =>
          && participants == JoinRows(old(participants), sessions[k].id, userId, connectionId, now)
          && r == GetSession(sessionId, username) && r.Some?
        case _ => participants == old(participants) && r.None?
    {
      var verdict := CheckJoin(sessions, participants, sessionId);
      if !verdict.Admit? {
        return None;
      }
      var k := verdict.index;
      var key := sessions[k].id;
      var before := participants;
      var existing := FindMembership(participants, key, userId);
      if existing.None? {
        var row := JoinedRow(|participants| + 1, key, userId, connectionId, now);
        participants := participants + [row];
      } else {
        var j := existing.value;
        participants := participants[j := Rejoined(participants[j], connectionId)];
      }
      assert participants == JoinRows(before, key, userId, connectionId, now);
      AdmittedJoinKeepsInvariant(sessions, before, sessionId, userId, connectionId, now);
      JoinRowsHistory(before, key, userId, connectionId, now);
      r := GetSession(sessionId, username);
      assert FindSession(sessions, sessionId).Some?;
    }

    /**
     * GetSessionAsync: the session with that id, whatever its status, with its
     * active participants only; null when there is no such session.
     */
    function GetSession(sessionId: string, username: int -> string): (r: Option<SessionDetail>)
      reads this
      ensures r.None? <==> forall i | 0 <= i < |sessions| :: sessions[i].sessionId != sessionId
      ensures r.Some? ==>
        var k := FindSession(sessions, sessionId).value;
        var found := sessions[k];
        && r.value.summary.sessionId == sessionId == found.sessionId
        && r.value.summary.name == found.name
        && r.value.summary.maxParticipants == found.maxParticipants
        && r.value.summary.status == found.status
        && r.value.summary.sessionType == found.sessionType
        && r.value.summary.createdAt == found.createdAt
        && r.value.summary.creatorUsername == username(found.creatorId)
        && r.value.summary.currentParticipants == |r.value.participants| == ActiveCount(participants, found.id)
        && forall x :: x in r.value.participants <==> exists p | p in participants && ActiveIn(p, found.id) :: x == Info(p, username)
    {
      match FindSession(sessions, sessionId)
      case None => None
      case Some(k) => Some(Detail(sessions[k], participants, username))
    }

    /**
     * GetActiveSessionsAsync: one summary per Active session and no other,
     * newest first, each with its live active-participant count.
     */
    function ListActiveSessions(username: int -> string): (r: seq<SessionResponse>)
      reads this
      ensures multiset(r) == multiset(Summaries(ActiveOnly(sessions), participants, username))
      ensures NewestFirst(r)
      ensures forall i | 0 <= i < |r| :: r[i].status == Active
    {
      var all := Summaries(ActiveOnly(sessions), participants, username);
      var r := SortNewestFirst(all);
      assert forall i | 0 <= i < |r| :: r[i].status == Active by {
        forall i | 0 <= i < |r| ensures r[i].status == Active {
          assert r[i] in multiset(all);
          var j :| 0 <= j < |all| && all[j] == r[i];
          assert ActiveOnly(sessions)[j] in ActiveOnly(sessions);
        }
      }
      r
    }

    /**
     * LeaveSessionAsync: false, changing nothing, when the session does not
     * exist or the user has no active row in it; otherwise soft-leaves that row.
     */
    method Leave(userId: int, sessionId: string, now: int) returns (ok: bool)
      requires Valid()
      modifies this
      ensures Valid()
      ensures sessions == old(sessions)
      ensures HistoryKept(old(participants), participants)
      ensures match LeaveTarget(sessions, old(participants), userId, sessionId)
        case None => !ok && participants == old(participants)
        case Some(j) => ok && participants == old(participants)[j := SoftLeft(old(participants)[j], now)]
    {
      var target := LeaveTarget(sessions, participants, userId, sessionId);
      if target.None? {
        return false;
      }
      var j := target.value;
      var before := participants;
      participants := participants[j := SoftLeft(participants[j], now)];
      DeactivatingKeepsInvariant(sessions, before, participants);
      ok := true;
    }

    /**
     * EndSessionAsync: false, changing nothing, unless the session exists and
     * `userId` created it; otherwise marks it Ended at `now` and soft-leaves
     * every active row of it.
     */
    method End(userId: int, sessionId: string, now: int) returns (ok: bool)
      requires Valid()
      modifies this
      ensures Valid()
      ensures HistoryKept(old(participants), participants)
      ensures match EndTarget(old(sessions), userId, sessionId)
        case None => !ok && sessions == old(sessions) && participants == old(participants)
        case Some(k) =>
          && ok
          && sessions == old(sessions)[k := Finished(old(sessions)[k], now)]
          && participants == EndAll(old(participants), old(sessions)[k].id, now)
    {
      var target := EndTarget(sessions, userId, sessionId);
      if target.None? {
        return false;
      }
      var k := target.value;
      var key := sessions[k].id;
      EndKeepsInvariant(sessions, participants, k, now);
      sessions := sessions[k := Finished(sessions[k], now)];
      ghost var ended := sessions;
      ghost var before := participants;
      ghost var after := EndAll(before, key, now);
      var i := 0;
      while i < |participants|
        invariant sessions == ended
        invariant 0 <= i <= |participants| == |before|
        invariant forall m | 0 <= m < i :: participants[m] == after[m]
        invariant forall m | i <= m < |participants| :: participants[m] == before[m]
      {
        assert after[i] == if ActiveIn(before[i], key) then SoftLeft(before[i], now) else before[i];
        if ActiveIn(participants[i], key) {
          participants := participants[i := SoftLeft(participants[i], now)];
        }
        i := i + 1;
      }
      assert participants == after;
      ok := true;
    }

    /**
     * UpdateParticipantStatusAsync: false, changing nothing, when no active row
     * is bound to `connectionId`; otherwise sets that row's mute and video flags.
     */
    method UpdateParticipantStatus(connectionId: string, isMuted: bool, isVideoEnabled: bool) returns (ok: bool)
      requires Valid()
      modifies this
      ensures Valid()
      ensures sessions == old(sessions)
      ensures HistoryKept(old(participants), participants)
      ensures match FindByConnection(old(participants), connectionId)
        case None => !ok && participants == old(participants)
        case Some(j) => ok && participants == old(participants)[j := WithMedia(old(participants)[j], isMuted, isVideoEnabled)]
    {
      var target := FindByConnection(participants, connectionId);
      if target.None? {
        return false;
      }
      var j := target.value;
      var before := participants;
      participants := participants[j := WithMedia(participants[j], isMuted, isVideoEnabled)];
      DeactivatingKeepsInvariant(sessions, before, participants);
      ok := true;
    }
  }
}
