/**
 * AuthService: registration and login against the user table. SHA-256 of the
 * password's UTF-8 bytes is the uninterpreted function `sha256`, giving 32
 * bytes; the Base64 step is modelled. The signed JWT is the string
 * `token` the signer produced; `now` is the clock in seconds and
 * `expirationMinutes` the optional "Jwt:ExpirationMinutes" setting.
 */
module AuthService {
  import opened Wrappers
  import opened Models
  import Base64

  /** The "Jwt:ExpirationMinutes" setting when the configuration leaves it out. */
  const DefaultExpirationMinutes: int := 1440

  datatype AuthResponse = AuthResponse(token: string, username: string, email: string, expiresAt: int)

  /** A SHA-256 digest: 32 bytes. */
  type Digest = d: seq<Base64.byte> | |d| == 32 witness seq(32, i => 0)

  /**
   * HashPassword: the Base64 text of the password's digest, always 44
   * characters of which only the last is padding.
   */
  function HashPassword(sha256: string -> Digest, password: string): (r: string)
    ensures |r| == 44 && Base64.PaddedBy(r, 1)
  {
    Base64.Encode(sha256(password))
  }

  /** Two passwords hash alike exactly when their digests are equal: Base64 loses nothing. */
  lemma SameHashSameDigest(sha256: string -> Digest, p: string, q: string)
    ensures HashPassword(sha256, p) == HashPassword(sha256, q) <==> sha256(p) == sha256(q)
  {
    Base64.Injective(sha256(p), sha256(q));
  }

  /** VerifyPassword: re-hash and compare. */
  function VerifyPassword(sha256: string -> Digest, password: string, passwordHash: string): (ok: bool)
    ensures ok <==> HashPassword(sha256, password) == passwordHash
  {
    HashPassword(sha256, password) == passwordHash
  }

  /** A password always verifies against its own hash, and against another password's hash exactly when the digests agree. */
  lemma VerifyOwnHash(sha256: string -> Digest, password: string, other: string)
    ensures VerifyPassword(sha256, password, HashPassword(sha256, password))
    ensures VerifyPassword(sha256, password, HashPassword(sha256, other)) <==> sha256(password) == sha256(other)
  {
    SameHashSameDigest(sha256, password, other);
  }

  /** The instant a token issued at `now` expires. */
  function ExpiresAt(now: int, expirationMinutes: Option<int>): (t: int)
    ensures expirationMinutes.None? ==> t == now + 1440 * SecondsPerMinute
    ensures expirationMinutes.Some? ==> t - now == expirationMinutes.value * SecondsPerMinute
  {
    now + expirationMinutes.GetOr(DefaultExpirationMinutes) * SecondsPerMinute
  }

  function FindByEmail(users: seq<User>, email: string): Option<nat> {
    FirstMatch(users, (u: User) => u.email == email)
  }

  function FindByUsername(users: seq<User>, username: string): Option<nat> {
    FirstMatch(users, (u: User) => u.username == username)
  }

  /** The primary key is the row number: user i (from 1) is at position i - 1. */
  predicate KeysInOrder(users: seq<User>) {
    forall i | 0 <= i < |users| :: users[i].id == i + 1
  }

  /** The unique indexes on Email and on Username. */
  predicate UniqueCredentials(users: seq<User>) {
    forall i, j | 0 <= i < j < |users| :: users[i].email != users[j].email && users[i].username != users[j].username
  }

  /** The row Register inserts. */
  function NewUser(key: int, username: string, email: string, passwordHash: string, now: int): (u: User)
    ensures u.isActive && u.lastLoginAt.None? && u.createdAt == now
  {
    User(key, username, email, passwordHash, now, None, true)
  }

  /** Under unique emails, the user found by email is the only one with that email. */
  lemma FoundByEmailIsOnly(users: seq<User>, email: string, k: nat)
    requires UniqueCredentials(users)
    requires k < |users| && users[k].email == email
    ensures FindByEmail(users, email) == Some(k)
  {
  }

  class UserStore {
    var users: seq<User>

    ghost predicate Valid()
      reads this
    {
      KeysInOrder(users) && UniqueCredentials(users)
    }

    constructor ()
      ensures Valid() && users == []
    {
      users := [];
    }

    /**
     * RegisterAsync: null, with nothing added, when the email or the username
     * is taken; otherwise adds one active user holding the password's hash and
     * answers with that user's name, email and a token expiring after the
     * configured number of minutes.
     */
    method Register(username: string, email: string, password: string, sha256: string -> Digest,
                    token: string, expirationMinutes: Option<int>, now: int) returns (r: Option<AuthResponse>)
      requires Valid()
      modifies this
      ensures Valid()
      ensures r.None? <==> ((exists i | 0 <= i < |old(users)| :: old(users)[i].email == email)
                            || (exists i | 0 <= i < |old(users)| :: old(users)[i].username == username))
      ensures r.None? ==> users == old(users)
      ensures r.Some? ==>
        && users == old(users) + [NewUser(|old(users)| + 1, username, email, HashPassword(sha256, password), now)]
        && r.value == AuthResponse(token, username, email, ExpiresAt(now, expirationMinutes))
    {
      if FindByEmail(users, email).Some? {
        return None;
      }
      if FindByUsername(users, username).Some? {
        return None;
      }
      var user := NewUser(|users| + 1, username, email, HashPassword(sha256, password), now);
      users := users + [user];
      r := Some(AuthResponse(token, user.username, user.email, ExpiresAt(now, expirationMinutes)));
    }

    /**
     * LoginAsync: null, with nothing changed, when no user has the email, the
     * password does not verify or the user is inactive; otherwise stamps that
     * user's last login and no other row, and answers with its name and email.
     */
    method Login(email: string, password: string, sha256: string -> Digest,
                 token: string, expirationMinutes: Option<int>, now: int) returns (r: Option<AuthResponse>)
      requires Valid()
      modifies this
      ensures Valid()
      ensures r.None? ==> users == old(users)
      ensures match FindByEmail(old(users), email)
        case None => r.None?
        case Some(k) =>
          if !VerifyPassword(sha256, password, old(users)[k].passwordHash) || !old(users)[k].isActive then r.None?
          else && users == old(users)[k := old(users)[k].(lastLoginAt := Some(now))]
               && r == Some(AuthResponse(token, old(users)[k].username, old(users)[k].email, ExpiresAt(now, expirationMinutes)))
    {
      var found := FindByEmail(users, email);
      if found.None? || !VerifyPassword(sha256, password, users[found.value].passwordHash) {
        return None;
      }
      var k := found.value;
      if !users[k].isActive {
        return None;
      }
      users := users[k := users[k].(lastLoginAt := Some(now))];
      r := Some(AuthResponse(token, users[k].username, users[k].email, ExpiresAt(now, expirationMinutes)));
    }

    /** GetUserByIdAsync: a lookup by primary key. */
    function GetUserById(userId: int): (r: Option<User>)
      reads this
      ensures r.Some? ==> r.value in users && r.value.id == userId
      ensures r.None? <==> forall i | 0 <= i < |users| :: users[i].id != userId
      ensures KeysInOrder(users) ==> (r.Some? <==> 1 <= userId <= |users|)
    {
      assert KeysInOrder(users) && 1 <= userId <= |users| ==> users[userId - 1].id == userId;
      match FirstMatch(users, (u: User) => u.id == userId)
      case None => None
      case Some(k) => Some(users[k])
    }

    /** GetUserByEmailAsync: the user with that email, if any. */
    function GetUserByEmail(email: string): (r: Option<User>)
      reads this
      ensures r.Some? ==> r.value in users && r.value.email == email
      ensures r.None? <==> forall i | 0 <= i < |users| :: users[i].email != email
    {
      match FindByEmail(users, email)
      case None => None
      case Some(k) => Some(users[k])
    }
  }

  /**
   * Registering and then logging in with the same email and password.
   * After a successful registration the login succeeds and names the new
   * account. After a refused one the table is unchanged, so the login is
   * decided by the account that already holds the email, if any: it succeeds
   * exactly when that account is active and the password hashes to its hash.
   */
  method RegisterThenLogin(store: UserStore, username: string, email: string, password: string,
                           sha256: string -> Digest, token: string, expirationMinutes: Option<int>, now: int)
    returns (registered: Option<AuthResponse>, loggedIn: Option<AuthResponse>)
    requires store.Valid()
    modifies store
    ensures store.Valid()
    ensures registered.Some? ==> loggedIn.Some? && loggedIn.value.username == username && loggedIn.value.email == email
    ensures registered.None? && FindByEmail(old(store.users), email).None? ==> loggedIn.None?
    ensures registered.None? && FindByEmail(old(store.users), email).Some? ==>
      var holder := old(store.users)[FindByEmail(old(store.users), email).value];
      (loggedIn.Some? <==> holder.isActive && HashPassword(sha256, password) == holder.passwordHash)
  {
    registered := store.Register(username, email, password, sha256, token, expirationMinutes, now);
    if registered.Some? {
      var k := |store.users| - 1;
      FoundByEmailIsOnly(store.users, email, k);
      VerifyOwnHash(sha256, password, password);
    }
    loggedIn := store.Login(email, password, sha256, token, expirationMinutes, now);
  }
}
