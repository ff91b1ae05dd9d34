// The authentication engine: login with a lockout after repeated failures,
// registration with case-insensitive unique usernames, password change,
// recovery by key, and logout. BCrypt is a parameter (`verify`, `hash` for
// passwords, `keyHash`, `keyVerify` for recovery keys); the random bytes of
// the recovery key are passed in.

module AuthEngines {
  import opened Common
  import opened Domain
  import opened Text
  import RecoveryKeys

  const MaxFailedAttempts: int := 3
  const LockoutMinutes: int := 5
  const MinPasswordLength: int := 6

  /** Whether a password matches a stored hash (`PasswordHasher.Verify`). */
  type Verifier = (string, string) -> bool
  /** `PasswordHasher.Hash` / `RecoveryKeyGenerator.Hash`. */
  type Hasher = string -> string

  // ---------------------------------------------------------------------------
  // The lockout state of one user
  // ---------------------------------------------------------------------------

  /** `IsUserLockedOut`: a lockout end still in the future. */
  predicate LockedOut(u: User, now: int) {
    u.lockoutEndTime.Some? && u.lockoutEndTime.value > now
  }

  /** The minutes of lockout left, rounded up. */
  function RemainingMinutes(u: User, now: int): (m: int)
    requires LockedOut(u, now)
    ensures m >= 1
  {
    (u.lockoutEndTime.value - now + SecondsPerMinute - 1) / SecondsPerMinute
  }

  /** `HandleFailedLoginAsync`: one more failed attempt; from the third on, the
    * user is locked for five minutes from now. */
  function AfterFailure(u: User, now: int): (r: User)
    ensures r.failedLoginAttempts == u.failedLoginAttempts + 1
    ensures r.failedLoginAttempts >= MaxFailedAttempts ==>
      r.lockoutEndTime == Some(now + LockoutMinutes * SecondsPerMinute) && LockedOut(r, now)
    ensures r.failedLoginAttempts < MaxFailedAttempts ==> r.lockoutEndTime == u.lockoutEndTime
    ensures r.id == u.id && r.username == u.username && r.passwordHash == u.passwordHash
  {
    var attempts := u.failedLoginAttempts + 1;
    if attempts >= MaxFailedAttempts then
      u.(failedLoginAttempts := attempts, lockoutEndTime := Some(now + LockoutMinutes * SecondsPerMinute))
    else u.(failedLoginAttempts := attempts)
  }

  /** `HandleSuccessfulLoginAsync`: the counter and the lockout are cleared. */
  function AfterSuccess(u: User, now: int): (r: User)
    ensures r.failedLoginAttempts == 0 && r.lockoutEndTime.None? && r.lastLoginAt == Some(now)
    ensures !LockedOut(r, now)
    ensures r.id == u.id && r.username == u.username && r.passwordHash == u.passwordHash
  {
    u.(failedLoginAttempts := 0, lockoutEndTime := None, lastLoginAt := Some(now))
  }

  /** `n` failed logins in a row, all at time `now`. */
  function Failures(u: User, n: nat, now: int): User {
    if n == 0 then u else AfterFailure(Failures(u, n - 1, now), now)
  }

  /** From a clean state, the first two failures leave the user free and the
    * third locks the account for five minutes. */
  lemma {:induction false} ThirdFailureLocks(u: User, n: nat, now: int)
    requires u.failedLoginAttempts == 0 && !LockedOut(u, now)
    ensures Failures(u, n, now).failedLoginAttempts == n
    ensures LockedOut(Failures(u, n, now), now) <==> n >= MaxFailedAttempts
  {
    if n > 0 {
      ThirdFailureLocks(u, n - 1, now);
    }
  }

  /** The counter is not reset when a lockout expires: the first failure after
    * it locks the account again at once. */
  lemma FailureAfterExpiryRelocks(u: User, now: int)
    requires u.failedLoginAttempts >= MaxFailedAttempts && !LockedOut(u, now)
    ensures LockedOut(AfterFailure(u, now), now)
    ensures AfterFailure(u, now).lockoutEndTime == Some(now + 300)
  {
  }

  // ---------------------------------------------------------------------------
  // Usernames
  // ---------------------------------------------------------------------------

  /** The lookup `u.Username.ToLower() == username.ToLower().Trim()`. */
  predicate NameMatches(u: User, username: string) {
    ToLower(u.username) == Trim(ToLower(username))
  }

  /** No two users share a username, ignoring case. */
  predicate DistinctUsernames(users: seq<User>) {
    forall i, j :: 0 <= i < j < |users| ==> ToLower(users[i].username) != ToLower(users[j].username)
  }

  predicate UniqueUserIds(users: seq<User>) {
    forall i, j :: 0 <= i < j < |users| ==> users[i].id != users[j].id
  }

  /** The lookup of `LoginAsync` (active users only) or of `RegisterAsync` and
    * `RecoverAsync` (all users). */
  function Lookup(username: string, activeOnly: bool): User -> bool {
    (u: User) => NameMatches(u, username) && (!activeOnly || u.isActive)
  }

  /** `FirstOrDefaultAsync(p)`: the position of the first user satisfying `p`. */
  function FirstMatch(users: seq<User>, p: User -> bool): (k: Option<nat>)
    ensures k.Some? ==> k.value < |users| && p(users[k.value])
    ensures k.Some? ==> forall i :: 0 <= i < k.value ==> !p(users[i])
    ensures k.None? ==> forall i :: 0 <= i < |users| ==> !p(users[i])
  {
    if users == [] then None
    else if p(users[0]) then Some(0)
    else match FirstMatch(users[1..], p)
      case None => None
      case Some(k) => Some(k + 1)
  }

  function FindUser(users: seq<User>, username: string, activeOnly: bool): (k: Option<nat>)
    ensures k.Some? ==> (k.value < |users| && NameMatches(users[k.value], username)
      && (activeOnly ==> users[k.value].isActive))
    ensures k.None? ==> forall i :: 0 <= i < |users| ==>
      !NameMatches(users[i], username) || (activeOnly && !users[i].isActive)
  {
    FirstMatch(users, Lookup(username, activeOnly))
  }

  /** With distinct usernames, the lookup finds the one user of that name. */
  lemma FindUserUnique(users: seq<User>, username: string, i: nat)
    requires DistinctUsernames(users) && i < |users| && NameMatches(users[i], username)
    ensures FindUser(users, username, false) == Some(i)
  {
    var k := FindUser(users, username, false);
    assert Lookup(username, false)(users[i]);
  }

  /** The position of the user with an id. */
  function IndexOfUser(users: seq<User>, id: int): (k: Option<nat>)
    ensures k.Some? ==> k.value < |users| && users[k.value].id == id
    ensures k.None? ==> forall i :: 0 <= i < |users| ==> users[i].id != id
  {
    if users == [] then None
    else if users[0].id == id then Some(0)
    else match IndexOfUser(users[1..], id)
      case None => None
      case Some(k) => Some(k + 1)
  }

  /** The user `RegisterAsync` stores: the trimmed name, the password's hash,
    * the recovery key's hash, no failures. */
  function NewUser(id: int, username: string, password: string, recoveryKeyHash: string, now: int, hash: Hasher): (u: User)
    ensures u.id == id && u.username == Trim(username) && u.isActive
    ensures u.passwordHash == hash(password) && u.recoveryKeyHash == recoveryKeyHash
    ensures u.failedLoginAttempts == 0 && !LockedOut(u, now)
  {
    User(id, Trim(username), hash(password), recoveryKeyHash, 0, None, None, true, now, None)
  }

  /** `RegisterResult`: the new user and the recovery key shown to them once. */
  datatype Registration = Registration(user: User, recoveryKey: string)

  /** The key registration hands out opens the account again: typed in any
    * form with the same clean text (with or without dashes, in any case), it
    * passes `RecoveryKeyGenerator.Verify` against the stored hash, provided
    * BCrypt accepts a text against its own (never blank) hash. */
  lemma GeneratedKeyRecovers(randomBytes: seq<nat>, typed: string, keyHash: Hasher, keyVerify: Verifier)
    requires |randomBytes| == RecoveryKeys.KeyLength
    requires forall x :: keyVerify(x, keyHash(x)) && !IsBlank(keyHash(x))
    requires !IsBlank(typed) && RecoveryKeys.Clean(typed) == RecoveryKeys.Clean(RecoveryKeys.FormattedKey(RecoveryKeys.RawKey(randomBytes)))
    ensures var key := RecoveryKeys.FormattedKey(RecoveryKeys.RawKey(randomBytes));
      RecoveryKeys.Hash(key, keyHash).Success?
      && RecoveryKeys.Verify(typed, RecoveryKeys.Hash(key, keyHash).value, keyVerify)
  {
    RecoveryKeys.GeneratedKeyValid(randomBytes);
  }

  /** A name the registration check accepts differs, ignoring case, from every
    * stored name once it is trimmed. */
  lemma FreeNameIsNew(users: seq<User>, username: string)
    requires FindUser(users, username, false).None?
    ensures forall i :: 0 <= i < |users| ==> ToLower(users[i].username) != ToLower(Trim(username))
  {
    ToLowerTrim(username);
  }

  /** A user the registration check lets through keeps usernames distinct. */
  lemma RegisterKeepsUsernames(users: seq<User>, username: string, u: User)
    requires DistinctUsernames(users) && FindUser(users, username, false).None? && u.username == Trim(username)
    ensures DistinctUsernames(users + [u])
  {
    FreeNameIsNew(users, username);
    var all := users + [u];
    forall i, j | 0 <= i < j < |all|
      ensures ToLower(all[i].username) != ToLower(all[j].username)
    {
      if j == |users| {
        assert all[j] == u && all[i] == users[i];
      } else {
        assert all[i] == users[i] && all[j] == users[j];
      }
    }
  }

  // ---------------------------------------------------------------------------
  // Messages of the input checks
  // ---------------------------------------------------------------------------

  const EnterUsername := Validation("enter the username")
  const EnterPassword := Validation("enter the password")
  const UsernameTooShort := Validation("the username must be at least 3 characters")
  const PasswordTooShort := Validation("the password must be at least 6 characters")
  const EnterCurrentPassword := Validation("enter the current password")
  const EnterNewPassword := Validation("enter the new password")
  const SamePassword := Validation("the new password must differ from the current one")
  const EnterRecoveryKey := Validation("enter the recovery key")

  /** The input checks of `RegisterAsync`, in order. */
  function RegisterInputError(username: string, password: string): (e: Option<Error>)
    ensures e.None? <==> !IsBlank(username) && |Trim(username)| >= 3 && !IsBlank(password) && |password| >= MinPasswordLength
  {
    if IsBlank(username) then Some(EnterUsername)
    else if |Trim(username)| < 3 then Some(UsernameTooShort)
    else if IsBlank(password) then Some(EnterPassword)
    else if |password| < MinPasswordLength then Some(PasswordTooShort)
    else None
  }

  /** The input checks of `ChangePasswordAsync`, in order. */
  function ChangeInputError(currentPassword: string, newPassword: string): (e: Option<Error>)
    ensures e.None? <==> (!IsBlank(currentPassword) && !IsBlank(newPassword) && |newPassword| >= MinPasswordLength
      && currentPassword != newPassword)
  {
    if IsBlank(currentPassword) then Some(EnterCurrentPassword)
    else if IsBlank(newPassword) then Some(EnterNewPassword)
    else if |newPassword| < MinPasswordLength then Some(PasswordTooShort)
    else if currentPassword == newPassword then Some(SamePassword)
    else None
  }

  /** The input checks of `RecoverAsync`, in order. */
  function RecoverInputError(username: string, recoveryKey: string, newPassword: string): (e: Option<Error>)
    ensures e.None? <==> (!IsBlank(username) && !IsBlank(recoveryKey) && !IsBlank(newPassword)
      && |newPassword| >= MinPasswordLength)
  {
    if IsBlank(username) then Some(EnterUsername)
    else if IsBlank(recoveryKey) then Some(EnterRecoveryKey)
    else if IsBlank(newPassword) then Some(EnterNewPassword)
    else if |newPassword| < MinPasswordLength then Some(PasswordTooShort)
    else None
  }

  // ---------------------------------------------------------------------------
  // The engine
  // ---------------------------------------------------------------------------

  class AuthEngine {
    var users: seq<User>
    var currentUser: Option<User>
    /** The identity the database gives the next registered user. */
    var nextId: int

    predicate Valid()
      reads this`users, this`nextId
    {
      && UniqueUserIds(users)
      && (forall i :: 0 <= i < |users| ==> users[i].id < nextId)
      && DistinctUsernames(users)
    }

    constructor(initial: seq<User>, firstId: int)
      requires UniqueUserIds(initial) && DistinctUsernames(initial)
      requires forall i :: 0 <= i < |initial| ==> initial[i].id < firstId
      ensures Valid() && users == initial && currentUser.None? && nextId == firstId
    {
      users := initial;
      currentUser := None;
      nextId := firstId;
    }

    predicate IsAuthenticated()
      reads this
    {
      currentUser.Some?
    }

    /** `LoginAsync`. A locked user is refused before the password is checked;
      * a wrong password counts a failure; a right one clears the counter and
      * makes the user current. */
    method Login(username: string, password: string, now: int, verify: Verifier) returns (r: Result<User>)
      requires Valid()
      modifies this`users, this`currentUser
      ensures Valid() && nextId == old(nextId)
      ensures IsBlank(username) ==> r == Failure(EnterUsername) && unchanged(this)
      ensures !IsBlank(username) && IsBlank(password) ==> r == Failure(EnterPassword) && unchanged(this)
      ensures !IsBlank(username) && !IsBlank(password) ==>
        match FindUser(old(users), username, true)
        case None => r == Failure(InvalidCredentials()) && unchanged(this)
        case Some(k) =>
          var u := old(users)[k];
          if LockedOut(u, now) then r == Failure(AccountLocked(RemainingMinutes(u, now))) && unchanged(this)
          else if !verify(password, u.passwordHash) then
            r == Failure(InvalidCredentials()) && users == old(users)[k := AfterFailure(u, now)]
            && currentUser == old(currentUser)
          else
            r == Success(AfterSuccess(u, now)) && users == old(users)[k := AfterSuccess(u, now)]
            && currentUser == Some(AfterSuccess(u, now))
    {
      if IsBlank(username) {
        return Failure(EnterUsername);
      }
      if IsBlank(password) {
        return Failure(EnterPassword);
      }
      var found := FindUser(users, username, true);
      match found {
        case None =>
          return Failure(InvalidCredentials());
        case Some(k) =>
          var u := users[k];
          if LockedOut(u, now) {
            return Failure(AccountLocked(RemainingMinutes(u, now)));
          }
          if !verify(password, u.passwordHash) {
            Replace(k, AfterFailure(u, now));
            return Failure(InvalidCredentials());
          }
          var v := AfterSuccess(u, now);
          Replace(k, v);
          currentUser := Some(v);
          r := Success(v);
      }
    }

    /** `RegisterAsync`: the input checks, then a case-insensitive duplicate
      * check on the trimmed name; the new user has no failures. */
    method Register(username: string, password: string, randomBytes: seq<nat>, now: int, hash: Hasher, keyHash: Hasher)
      returns (r: Result<Registration>)
      requires Valid()
      requires |randomBytes| == RecoveryKeys.KeyLength && forall i :: 0 <= i < |randomBytes| ==> randomBytes[i] < 256
      modifies this`users, this`nextId
      ensures Valid() && currentUser == old(currentUser)
      ensures RegisterInputError(username, password).Some? ==>
        r == Failure(RegisterInputError(username, password).value) && users == old(users) && nextId == old(nextId)
      ensures RegisterInputError(username, password).None? && FindUser(old(users), username, false).Some? ==>
        r == Failure(DuplicateUsername()) && users == old(users) && nextId == old(nextId)
      ensures RegisterInputError(username, password).None? && FindUser(old(users), username, false).None? ==>
        var key := RecoveryKeys.FormattedKey(RecoveryKeys.RawKey(randomBytes));
        && r.Success? && r.value.recoveryKey == key
        && RecoveryKeys.Hash(key, keyHash) == Success(r.value.user.recoveryKeyHash)
        && r.value.user == NewUser(old(nextId), username, password, r.value.user.recoveryKeyHash, now, hash)
        && users == old(users) + [r.value.user] && nextId == old(nextId) + 1
    {
      var e := RegisterInputError(username, password);
      if e.Some? {
        return Failure(e.value);
      }
      if FindUser(users, username, false).Some? {
        return Failure(DuplicateUsername());
      }
      var key := RecoveryKeys.Generate(randomBytes);
      var keyHashed := RecoveryKeys.Hash(key, keyHash);
      var u := NewUser(nextId, username, password, keyHashed.value, now, hash);
      RegisterKeepsUsernames(users, username, u);
      Add(u);
      r := Success(Registration(u, key));
    }

    method Add(u: User)
      requires Valid() && u.id == nextId
      requires DistinctUsernames(users + [u])
      modifies this`users, this`nextId
      ensures Valid() && users == old(users) + [u] && nextId == old(nextId) + 1 && currentUser == old(currentUser)
    {
      users := users + [u];
      nextId := nextId + 1;
    }

    /** The stored user at `k` replaced by one with the same id and name. */
    method Replace(k: nat, v: User)
      requires Valid() && k < |users| && v.id == users[k].id && v.username == users[k].username
      modifies this`users
      ensures Valid() && users == old(users)[k := v]
    {
      users := users[k := v];
      assert forall i :: 0 <= i < |users| ==> users[i].id == old(users)[i].id && users[i].username == old(users)[i].username;
    }

    /** `ChangePasswordAsync`. */
    method ChangePassword(userId: int, currentPassword: string, newPassword: string, now: int,
                          verify: Verifier, hash: Hasher) returns (r: Result<bool>)
      requires Valid()
      modifies this`users
      ensures Valid() && nextId == old(nextId) && currentUser == old(currentUser)
      ensures ChangeInputError(currentPassword, newPassword).Some? ==>
        r == Failure(ChangeInputError(currentPassword, newPassword).value) && users == old(users)
      ensures ChangeInputError(currentPassword, newPassword).None? ==>
        match IndexOfUser(old(users), userId)
        case None => r == Failure(UserNotFound()) && users == old(users)
        case Some(k) =>
          if !verify(currentPassword, old(users)[k].passwordHash) then
            r == Failure(InvalidCurrentPassword()) && users == old(users)
          else
            r == Success(true)
            && users == old(users)[k := old(users)[k].(passwordHash := hash(newPassword), updatedAt := Some(now))]
    {
      var e := ChangeInputError(currentPassword, newPassword);
      if e.Some? {
        return Failure(e.value);
      }
      match IndexOfUser(users, userId) {
        case None =>
          return Failure(UserNotFound());
        case Some(k) =>
          if !verify(currentPassword, users[k].passwordHash) {
            return Failure(InvalidCurrentPassword());
          }
          Replace(k, users[k].(passwordHash := hash(newPassword), updatedAt := Some(now)));
          r := Success(true);
      }
    }

    /** `RecoverAsync`: with the right recovery key the password is replaced and
      * the lockout lifted, whether or not the user is active. */
    method Recover(username: string, recoveryKey: string, newPassword: string, now: int,
                   keyVerify: Verifier, hash: Hasher) returns (r: Result<bool>)
      requires Valid()
      modifies this`users
      ensures Valid() && nextId == old(nextId) && currentUser == old(currentUser)
      ensures RecoverInputError(username, recoveryKey, newPassword).Some? ==>
        r == Failure(RecoverInputError(username, recoveryKey, newPassword).value) && users == old(users)
      ensures RecoverInputError(username, recoveryKey, newPassword).None? ==>
        match FindUser(old(users), username, false)
        case None => r == Failure(UserNotFound()) && users == old(users)
        case Some(k) =>
          if !RecoveryKeys.Verify(recoveryKey, old(users)[k].recoveryKeyHash, keyVerify) then
            r == Failure(InvalidRecoveryKey()) && users == old(users)
          else
            r == Success(true) && users == old(users)[k := Recovered(old(users)[k], newPassword, now, hash)]
    {
      var e := RecoverInputError(username, recoveryKey, newPassword);
      if e.Some? {
        return Failure(e.value);
      }
      match FindUser(users, username, false) {
        case None =>
          return Failure(UserNotFound());
        case Some(k) =>
          if !RecoveryKeys.Verify(recoveryKey, users[k].recoveryKeyHash, keyVerify) {
            return Failure(InvalidRecoveryKey());
          }
          Replace(k, Recovered(users[k], newPassword, now, hash));
          r := Success(true);
      }
    }

    /** `LogoutAsync`. */
    method Logout()
      modifies this`currentUser
      ensures currentUser.None? && users == old(users) && nextId == old(nextId)
    {
      currentUser := None;
    }
  }

  /** The user after a recovery: new password, no failures, no lockout. */
  function Recovered(u: User, newPassword: string, now: int, hash: Hasher): (r: User)
    ensures r.passwordHash == hash(newPassword) && r.failedLoginAttempts == 0 && !LockedOut(r, now)
    ensures r.id == u.id && r.username == u.username && r.recoveryKeyHash == u.recoveryKeyHash
  {
    u.(passwordHash := hash(newPassword), failedLoginAttempts := 0, lockoutEndTime := None, updatedAt := Some(now))
  }
}
