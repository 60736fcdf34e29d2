/**
 * The auth routes: user-id allocation, signup with its email and password
 * rules, login for the configured admin and for users (recording the device),
 * and refresh-token renewal. Tokens themselves are foreign: a login or a
 * refresh answers the claims the new tokens carry.
 */
module AuthRoutes {

  import opened Common
  import opened Text
  import opened Ids
  import opened AdminModel
  import opened UserModel
  import opened Store

  const UserPrefix := "U"
  const UserSeed := "U10001"
  const MinPasswordLength := 6

  /** generateUserId: "U10001" first, then the successor of the greatest userId. */
  method GenerateUserId(db: Database) returns (id: string)
    ensures db.users == map[] ==> id == UserSeed
    ensures db.users != map[] ==>
      exists last :: IsLexMax(last, db.users.Keys) && id == Successor(UserPrefix, last)
    ensures id == AllocatedId(UserPrefix, UserSeed, db.users.Keys)
  {
    id := NextId(UserPrefix, UserSeed, db.users.Keys);
  }

  // ------------------------------------------------------------------ email

  /** The characters of the `\s` class of JavaScript regular expressions. */
  function IsJsWhitespace(c: char): (w: bool)
    ensures c as int < 0x80 ==> (w <==> c == ' ' || '\t' <= c <= '\r')
    ensures w ==> c != '@' && c != '.'
  {
    || c == ' ' || c == '\t' || c == '\n' || c == '\U{000B}' || c == '\U{000C}' || c == '\r'
    || c == '\U{00A0}' || c == '\U{1680}' || ('\U{2000}' <= c <= '\U{200A}')
    || c == '\U{2028}' || c == '\U{2029}' || c == '\U{202F}' || c == '\U{205F}'
    || c == '\U{3000}' || c == '\U{FEFF}'
  }

  /** A character of the class `[^\s@]`. */
  predicate PatternChar(c: char)
  {
    !IsJsWhitespace(c) && c != '@'
  }

  /** A non-empty run of the class `[^\s@]`. */
  predicate PatternRun(t: string)
  {
    |t| > 0 && forall k :: 0 <= k < |t| ==> PatternChar(t[k])
  }

  /**
   * The signup email pattern: a run, "@", a run, ".", a run, covering the
   * whole string, where a run is one or more characters that are neither
   * whitespace nor "@".
   */
  ghost function MatchesEmailPattern(s: string): (m: bool)
    ensures m ==> |s| >= 5 && s[0] != '@' && '@' in s
  {
    exists i, j :: 0 <= i < j < |s| && s[i] == '@' && s[j] == '.'
      && PatternRun(s[..i]) && PatternRun(s[i + 1..j]) && PatternRun(s[j + 1..])
  }

  /**
   * A direct test of the email pattern: no whitespace, exactly one "@" and not
   * first, and a "." strictly inside the part after it.
   */
  function ValidEmail(s: string): (v: bool)
    ensures v ==> |s| >= 5 && s[0] != '@' && '@' in s
  {
    && (forall k :: 0 <= k < |s| ==> !IsJsWhitespace(s[k]))
    && var i := IndexOf(s, '@');
       && 0 < i
       && '@' !in s[i + 1..]
       && i + 2 < |s| - 1
       && '.' in s[i + 2..|s| - 1]
  }

  /** A non-empty stretch of run characters is a run. */
  lemma RunOfStretch(s: string, a: int, b: int)
    requires 0 <= a < b <= |s|
    requires forall k :: a <= k < b ==> PatternChar(s[k])
    ensures PatternRun(s[a..b])
  {
    forall k | 0 <= k < b - a
      ensures PatternChar(s[a..b][k])
    {
      assert s[a..b][k] == s[a + k];
    }
  }

  /** The characters of a run are run characters. */
  lemma StretchOfRun(s: string, a: int, b: int)
    requires 0 <= a <= b <= |s|
    requires PatternRun(s[a..b])
    ensures forall k :: a <= k < b ==> PatternChar(s[k])
  {
    forall k | a <= k < b
      ensures PatternChar(s[k])
    {
      assert s[k] == s[a..b][k - a];
    }
  }

  /** What the direct test accepts, the pattern matches. */
  lemma ValidEmailMatchesPattern(s: string)
    requires ValidEmail(s)
    ensures MatchesEmailPattern(s)
  {
    var i := IndexOf(s, '@');
    var inner := s[i + 2..|s| - 1];
    var d := IndexOf(inner, '.');
    var j := i + 2 + d;
    assert s[j] == inner[d];
    forall k | 0 <= k < |s| && k != i
      ensures PatternChar(s[k])
    {
      if k < i {
        assert s[k] == s[..i][k];
      } else {
        assert s[k] == s[i + 1..][k - i - 1];
      }
    }
    RunOfStretch(s, 0, i);
    RunOfStretch(s, i + 1, j);
    RunOfStretch(s, j + 1, |s|);
    assert s[..i] == s[0..i] && s[j + 1..] == s[j + 1..|s|];
  }

  /** A character missing from every position of a stretch is missing from it. */
  lemma AbsentFromStretch(s: string, a: int, b: int, c: char)
    requires 0 <= a <= b <= |s|
    requires forall k :: a <= k < b ==> s[k] != c
    ensures c !in s[a..b]
  {
    forall k | 0 <= k < b - a
      ensures s[a..b][k] != c
    {
      assert s[a..b][k] == s[a + k];
    }
  }

  /** A match with "@" at `i` and "." at `j` passes the direct test. */
  lemma MatchIsValidEmail(s: string, i: int, j: int)
    requires 0 <= i < j < |s| && s[i] == '@' && s[j] == '.'
    requires PatternRun(s[0..i]) && PatternRun(s[i + 1..j]) && PatternRun(s[j + 1..|s|])
    ensures ValidEmail(s)
  {
    StretchOfRun(s, 0, i);
    StretchOfRun(s, i + 1, j);
    StretchOfRun(s, j + 1, |s|);
    assert forall k :: 0 <= k < |s| && k != i && k != j ==> PatternChar(s[k]);
    AbsentFromStretch(s, 0, i, '@');
    AbsentFromStretch(s, i + 1, |s|, '@');
    assert s == s[0..i] + s[i..];
    IndexOfAfter(s[0..i], s[i..], '@');
    assert s[i + 2..|s| - 1][j - i - 2] == '.';
  }

  /** What the pattern matches, the direct test accepts. */
  lemma PatternIsValidEmail(s: string)
    requires MatchesEmailPattern(s)
    ensures ValidEmail(s)
  {
    var i, j :| 0 <= i < j < |s| && s[i] == '@' && s[j] == '.'
      && PatternRun(s[..i]) && PatternRun(s[i + 1..j]) && PatternRun(s[j + 1..]);
    assert s[..i] == s[0..i] && s[j + 1..] == s[j + 1..|s|];
    MatchIsValidEmail(s, i, j);
  }

  /** The direct test accepts exactly the strings the pattern matches. */
  lemma ValidEmailIffPattern(s: string)
    ensures ValidEmail(s) <==> MatchesEmailPattern(s)
  {
    if ValidEmail(s) {
      ValidEmailMatchesPattern(s);
    }
    if MatchesEmailPattern(s) {
      PatternIsValidEmail(s);
    }
  }

  // ----------------------------------------------------------------- signup

  datatype SignupError = MissingSignupFields | InvalidEmail | WeakPassword | ReservedEmail | EmailTaken | SignupFailed
  {
    function HttpStatus(): int
    {
      match this
      case MissingSignupFields => 400
      case InvalidEmail => 400
      case WeakPassword => 400
      case ReservedEmail => 403
      case EmailTaken => 409
      case SignupFailed => 500
    }
  }

  /**
   * The input checks of POST /signup, in order: all three fields, the email
   * pattern, the password length, the reserved admin email.
   */
  function SignupCheck(name: Option<string>, email: Option<string>, password: Option<string>, adminEmail: string)
    : (r: Option<SignupError>)
    ensures (!Truthy(name) || !Truthy(email) || !Truthy(password)) ==> r == Some(MissingSignupFields)
    ensures r == Some(InvalidEmail) <==>
      Truthy(name) && Truthy(email) && Truthy(password) && !MatchesEmailPattern(email.value)
    ensures r == Some(WeakPassword) <==>
      && Truthy(name) && Truthy(email) && Truthy(password) && MatchesEmailPattern(email.value)
      && |password.value| < MinPasswordLength
    ensures r == Some(ReservedEmail) <==>
      && Truthy(name) && Truthy(email) && Truthy(password) && MatchesEmailPattern(email.value)
      && |password.value| >= MinPasswordLength && email.value == adminEmail
    ensures r.None? <==>
      && Truthy(name) && Truthy(email) && Truthy(password) && MatchesEmailPattern(email.value)
      && |password.value| >= MinPasswordLength && email.value != adminEmail
  {
    if !Truthy(name) || !Truthy(email) || !Truthy(password) then Some(MissingSignupFields)
    else
      ValidEmailIffPattern(email.value);
      if !ValidEmail(email.value) then Some(InvalidEmail)
      else if |password.value| < MinPasswordLength then Some(WeakPassword)
      else if email.value == adminEmail then Some(ReservedEmail)
      else None
  }

  /** Some user is registered under `email`. */
  predicate EmailRegistered(users: map<string, User>, email: string)
  {
    exists k :: k in users && users[k].email == email
  }

  /** POST /signup. Answers the created user document. */
  method Signup(db: Database, name: Option<string>, email: Option<string>, password: Option<string>,
                deviceId: Option<string>)
    returns (r: Result<User, SignupError>)
    requires db.Valid()
    modifies db
    ensures db.Valid()
    ensures db.movies == old(db.movies) && db.payments == old(db.payments)
    ensures db.accesses == old(db.accesses) && db.admins == old(db.admins)
    ensures r.Err? ==> db.users == old(db.users)
    ensures SignupCheck(name, email, password, db.adminEmail).Some? ==>
      r == Err(SignupCheck(name, email, password, db.adminEmail).value)
    ensures (SignupCheck(name, email, password, db.adminEmail).None? && EmailRegistered(old(db.users), email.value)) ==>
      r == Err(EmailTaken)
    ensures (&& SignupCheck(name, email, password, db.adminEmail).None?
             && !EmailRegistered(old(db.users), email.value)
             && AllocatedId(UserPrefix, UserSeed, old(db.users).Keys) !in old(db.users)) ==>
      r.Ok?
    ensures r == Err(SignupFailed) <==>
      && SignupCheck(name, email, password, db.adminEmail).None?
      && !EmailRegistered(old(db.users), email.value)
      && AllocatedId(UserPrefix, UserSeed, old(db.users).Keys) in old(db.users)
    ensures r.Ok? ==>
      && SignupCheck(name, email, password, db.adminEmail).None?
      && !EmailRegistered(old(db.users), email.value)
      && var id := AllocatedId(UserPrefix, UserSeed, old(db.users).Keys);
      && id !in old(db.users)
      && r.value == User(id, name.value, email.value, password.value,
                         if Truthy(deviceId) then [deviceId.value] else [], true, None)
      && db.users == old(db.users)[id := r.value]
  {
    var check := SignupCheck(name, email, password, db.adminEmail);
    if check.Some? {
      return Err(check.value);
    }
    if EmailRegistered(db.users, email.value) {
      return Err(EmailTaken);
    }
    var id := GenerateUserId(db);
    if id in db.users {
      return Err(SignupFailed);
    }
    var user := User(id, name.value, email.value, password.value,
                     if Truthy(deviceId) then [deviceId.value] else [], true, None);
    db.users := db.users[id := user];
    r := Ok(user);
  }

  // ------------------------------------------------------------------ login

  /** Adds the device id when one is given and not yet listed. */
  function AddDeviceId(ids: seq<string>, deviceId: Option<string>): (r: seq<string>)
    ensures ids <= r && |r| <= |ids| + 1
    ensures forall x :: x in r <==> x in ids || (Truthy(deviceId) && x == deviceId.value)
  {
    if Truthy(deviceId) && deviceId.value !in ids then ids + [deviceId.value] else ids
  }

  /** Recording a device never lists one twice. */
  lemma AddDeviceIdKeepsDistinct(u: User, deviceId: Option<string>)
    requires u.DevicesDistinct()
    ensures u.(deviceIds := AddDeviceId(u.deviceIds, deviceId)).DevicesDistinct()
  {
    var r := AddDeviceId(u.deviceIds, deviceId);
    if r != u.deviceIds {
      forall i, j | 0 <= i < j < |r|
        ensures r[i] != r[j]
      {
        if j == |u.deviceIds| {
          assert r[i] == u.deviceIds[i];
        }
      }
    }
  }

  /** Recording the same device twice is recording it once. */
  lemma AddDeviceIdIdempotent(ids: seq<string>, deviceId: Option<string>)
    ensures AddDeviceId(AddDeviceId(ids, deviceId), deviceId) == AddDeviceId(ids, deviceId)
  {
  }

  /** The user document after a successful login: the device recorded, lastLogin set. */
  function LoggedIn(u: User, deviceId: Option<string>, now: int): (v: User)
    ensures v.userId == u.userId && v.email == u.email && v.password == u.password
    ensures v.name == u.name && v.isActive == u.isActive
    ensures v.deviceIds == AddDeviceId(u.deviceIds, deviceId) && v.lastLogin == Some(now)
  {
    u.(deviceIds := AddDeviceId(u.deviceIds, deviceId), lastLogin := Some(now))
  }

  datatype LoginError = MissingCredentials | InvalidCredentials | AccountDisabled
  {
    function HttpStatus(): int
    {
      match this
      case MissingCredentials => 400
      case InvalidCredentials => 401
      case AccountDisabled => 403
    }
  }

  /** Who a login or a refresh issues tokens for. */
  datatype Session = AdminSession(adminId: string, role: Role) | UserSession(userId: string)

  /** The configured admin has a document under `email` whose hash matches the password. */
  predicate AdminAccepts(admins: map<string, Admin>, passwordMatches: (string, string) -> bool,
                         email: string, password: string)
  {
    exists k :: k in admins && admins[k].email == email && passwordMatches(password, admins[k].passwordHash)
  }

  /**
   * POST /login. The configured admin email is checked against the admin
   * collection only; any other email against the users, where a disabled
   * account is refused before its password is compared. `now` is the time of
   * the login.
   */
  method Login(db: Database, email: Option<string>, password: Option<string>, deviceId: Option<string>, now: int)
    returns (r: Result<Session, LoginError>)
    requires db.Valid()
    modifies db
    ensures db.Valid()
    ensures db.movies == old(db.movies) && db.payments == old(db.payments)
    ensures db.accesses == old(db.accesses) && db.admins == old(db.admins)
    ensures (!Truthy(email) || !Truthy(password)) ==> r == Err(MissingCredentials) && db.users == old(db.users)
    ensures (Truthy(email) && Truthy(password) && email.value == db.adminEmail) ==>
      && db.users == old(db.users)
      && (r.Ok? <==> AdminAccepts(db.admins, db.passwordMatches, email.value, password.value))
      && (r.Err? ==> r == Err(InvalidCredentials))
      && (r.Ok? ==>
            && r.value.AdminSession? && r.value.adminId in db.admins
            && db.admins[r.value.adminId].email == email.value
            && r.value.role == db.admins[r.value.adminId].role)
    ensures (Truthy(email) && Truthy(password) && email.value != db.adminEmail && !EmailRegistered(old(db.users), email.value)) ==>
      r == Err(InvalidCredentials) && db.users == old(db.users)
    ensures (Truthy(email) && Truthy(password) && email.value != db.adminEmail) ==>
      forall k :: k in old(db.users) && old(db.users)[k].email == email.value ==>
        && (!old(db.users)[k].isActive ==> r == Err(AccountDisabled) && db.users == old(db.users))
        && ((old(db.users)[k].isActive && !db.passwordMatches(password.value, old(db.users)[k].password)) ==>
              r == Err(InvalidCredentials) && db.users == old(db.users))
        && ((old(db.users)[k].isActive && db.passwordMatches(password.value, old(db.users)[k].password)) ==>
              r == Ok(UserSession(k)) && db.users == old(db.users)[k := LoggedIn(old(db.users)[k], deviceId, now)])
  {
    if !Truthy(email) || !Truthy(password) {
      return Err(MissingCredentials);
    }
    if email.value == db.adminEmail {
      if !AdminAccepts(db.admins, db.passwordMatches, email.value, password.value) {
        if exists k :: k in db.admins && db.admins[k].email == email.value {
          var k :| k in db.admins && db.admins[k].email == email.value;
          assert !db.passwordMatches(password.value, db.admins[k].passwordHash);
        }
        return Err(InvalidCredentials);
      }
      var k :| k in db.admins && db.admins[k].email == email.value
               && db.passwordMatches(password.value, db.admins[k].passwordHash);
      return Ok(AdminSession(k, db.admins[k].role));
    }
    if !EmailRegistered(db.users, email.value) {
      return Err(InvalidCredentials);
    }
    var k :| k in db.users && db.users[k].email == email.value;
    var user := db.users[k];
    if !user.isActive {
      return Err(AccountDisabled);
    }
    if !db.passwordMatches(password.value, user.password) {
      return Err(InvalidCredentials);
    }
    AddDeviceIdKeepsDistinct(user, deviceId);
    db.users := db.users[k := LoggedIn(user, deviceId, now)];
    r := Ok(UserSession(k));
  }

  // ---------------------------------------------------------------- refresh

  /** The claims a verified refresh token carries. */
  datatype Claims = Claims(userId: string, isAdmin: bool)

  datatype RefreshError = MissingRefreshToken | InvalidRefreshToken
  {
    function HttpStatus(): int
    {
      match this
      case MissingRefreshToken => 400
      case InvalidRefreshToken => 401
    }
  }

  /** The token's subject still exists, and for a user is still active. */
  predicate SubjectLive(admins: map<string, Admin>, users: map<string, User>, c: Claims)
  {
    if c.isAdmin then c.userId in admins
    else c.userId in users && users[c.userId].isActive
  }

  /**
   * POST /refresh-token. `decoded` is the outcome of verifying the token's
   * signature and expiry (None when that fails). Answers the claims the new
   * pair of tokens carries.
   */
  method RefreshToken(db: Database, refreshToken: Option<string>, decoded: Option<Claims>)
    returns (r: Result<Claims, RefreshError>)
    ensures !Truthy(refreshToken) ==> r == Err(MissingRefreshToken)
    ensures Truthy(refreshToken) ==>
      && (r.Ok? <==> decoded.Some? && SubjectLive(db.admins, db.users, decoded.value))
      && (r.Ok? ==> r.value == decoded.value)
      && (r.Err? ==> r == Err(InvalidRefreshToken))
  {
    if !Truthy(refreshToken) {
      return Err(MissingRefreshToken);
    }
    if decoded.None? || !SubjectLive(db.admins, db.users, decoded.value) {
      return Err(InvalidRefreshToken);
    }
    r := Ok(decoded.value);
  }
}
