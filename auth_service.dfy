/** The document service's account store (services/document-service/.../service/AuthService.java):
    a users table and a credentials table keyed by the trimmed username. Password hashing is
    BCryptPasswordEncoder's, taken here as a pair of functions: `encode` (its random salt is not
    modelled) and `matches`. */
module AuthService {
  import opened Wrappers
  import opened ServiceExceptions
  import JavaString
  import AuthLockout

  const CredentialsRequiredMessage := "Username and password are required"
  const UsernameTakenMessage := "Username already exists"
  const InvalidCredentialsMessage := "Invalid credentials"
  const EmailDomain := "@relaydocs.local"

  /** passwordEncoder.encode(raw). */
  type Encoder = string -> string
  /** passwordEncoder.matches(raw, hash). */
  type Matcher = (string, string) -> bool

  /** BCrypt hashes no more than the first 72 bytes of a password's UTF-8 encoding. */
  const BcryptMaxBytes := 72

  /** Among passwords within BCrypt's 72 bytes, a hash matches exactly the password it was made
      from. Longer passwords are not constrained. */
  ghost predicate Sound(encode: Encoder, matches: Matcher) {
    forall raw, stored ::
      JavaString.Utf8Length(raw) <= BcryptMaxBytes && JavaString.Utf8Length(stored) <= BcryptMaxBytes ==>
      (matches(raw, encode(stored)) <==> raw == stored)
  }

  datatype Accounts = Accounts(users: map<string, string>, credentials: map<string, string>)

  /** signup: both fields are trimmed; an empty one is a bad request, an existing credential for
      the name is a bad request; otherwise the user row is created if missing, the hash of the
      trimmed password is stored and the trimmed name returned. */
  function SignedUp(a: Accounts, username: string, password: string, encode: Encoder): (res: (Result<string, ApiError>, Accounts))
    ensures var name := JavaString.Trim(username);
      && (name == [] || JavaString.Trim(password) == [] ==> res == (Failure(BadRequest(CredentialsRequiredMessage)), a))
      && (name != [] && JavaString.Trim(password) != [] && name in a.credentials ==> res == (Failure(BadRequest(UsernameTakenMessage)), a))
      && (res.0.Success? <==> name != [] && JavaString.Trim(password) != [] && name !in a.credentials)
      && (res.0.Success? ==>
            && res.0.value == name
            && res.1.credentials == a.credentials[name := encode(JavaString.Trim(password))]
            && name in res.1.users
            && (forall u :: u in a.users ==> u in res.1.users && res.1.users[u] == a.users[u])
            && (name !in a.users ==> res.1.users[name] == name + EmailDomain)
            && (forall u :: u in res.1.users ==> u in a.users || u == name))
  {
    var name := JavaString.Trim(username);
    var secret := JavaString.Trim(password);
    if name == [] || secret == [] then (Failure(BadRequest(CredentialsRequiredMessage)), a)
    else if name in a.credentials then (Failure(BadRequest(UsernameTakenMessage)), a)
    else
      var users := if name in a.users then a.users else a.users[name := name + EmailDomain];
      (Success(name), Accounts(users, a.credentials[name := encode(secret)]))
  }

  /** login: the username is trimmed, the password is not; an unknown name and a wrong password
      are refused alike. */
  function LoggedIn(a: Accounts, username: string, password: string, matches: Matcher): (r: Result<string, ApiError>)
    ensures r.Success? <==> JavaString.Trim(username) in a.credentials && matches(password, a.credentials[JavaString.Trim(username)])
    ensures r.Success? ==> r.value == JavaString.Trim(username)
    ensures r.Failure? ==> r.error == Unauthorized(InvalidCredentialsMessage)
  {
    var name := JavaString.Trim(username);
    if name !in a.credentials then Failure(Unauthorized(InvalidCredentialsMessage))
    else if !matches(password, a.credentials[name]) then Failure(Unauthorized(InvalidCredentialsMessage))
    else Success(name)
  }

  /** After a signup with a trimmed password within BCrypt's 72 bytes, logging in under any
      padding of the name succeeds with the trimmed password, and with no other password of at
      most 72 bytes: a password signed up with surrounding blanks no longer matches as typed. */
  lemma SignupThenLogin(a: Accounts, username: string, password: string, encode: Encoder, matches: Matcher,
                        loginName: string, loginPassword: string)
    requires Sound(encode, matches)
    requires SignedUp(a, username, password, encode).0.Success?
    requires JavaString.Utf8Length(JavaString.Trim(password)) <= BcryptMaxBytes
    requires JavaString.Trim(loginName) == JavaString.Trim(username)
    ensures loginPassword == JavaString.Trim(password) ==>
      LoggedIn(SignedUp(a, username, password, encode).1, loginName, loginPassword, matches).Success?
    ensures JavaString.Utf8Length(loginPassword) <= BcryptMaxBytes ==>
      (LoggedIn(SignedUp(a, username, password, encode).1, loginName, loginPassword, matches).Success?
       <==> loginPassword == JavaString.Trim(password))
  {
    var after := SignedUp(a, username, password, encode).1;
    assert after.credentials[JavaString.Trim(username)] == encode(JavaString.Trim(password));
  }

  /** The password as typed at signup, within BCrypt's 72 bytes, is refused at login when it
      carries surrounding blanks. */
  lemma PaddedPasswordRefused(a: Accounts, username: string, password: string, encode: Encoder, matches: Matcher)
    requires Sound(encode, matches)
    requires SignedUp(a, username, password, encode).0.Success?
    requires JavaString.Utf8Length(password) <= BcryptMaxBytes
    requires JavaString.Trim(password) != password
    ensures LoggedIn(SignedUp(a, username, password, encode).1, username, password, matches)
            == Failure(Unauthorized(InvalidCredentialsMessage))
  {
    JavaString.TrimShortensUtf8(password);
    SignupThenLogin(a, username, password, encode, matches, username, password);
  }

  /** Once a name is registered, every later signup under any padding of it is refused and
      changes nothing; logins of other names are unaffected by the signup. */
  lemma SignupOnce(a: Accounts, username: string, password: string, encode: Encoder, matches: Matcher,
                   again: string, otherPassword: string, other: string, attempt: string)
    requires SignedUp(a, username, password, encode).0.Success?
    requires JavaString.Trim(again) == JavaString.Trim(username) && JavaString.Trim(otherPassword) != []
    requires JavaString.Trim(other) != JavaString.Trim(username)
    ensures var after := SignedUp(a, username, password, encode).1;
      && SignedUp(after, again, otherPassword, encode) == (Failure(BadRequest(UsernameTakenMessage)), after)
      && LoggedIn(after, other, attempt, matches) == LoggedIn(a, other, attempt, matches)
  {
    var name := JavaString.Trim(username);
    var after := SignedUp(a, username, password, encode).1;
    assert after.credentials == a.credentials[name := encode(JavaString.Trim(password))];
    assert name in after.credentials;
    var otherName := JavaString.Trim(other);
    assert otherName in after.credentials <==> otherName in a.credentials;
    assert otherName in a.credentials ==> after.credentials[otherName] == a.credentials[otherName];
  }

  /** An unknown user and a wrong password cannot be told apart from the reply. */
  lemma UnknownUserLikeWrongPassword(a: Accounts, unknown: string, known: string, wrong: string, matches: Matcher)
    requires JavaString.Trim(unknown) !in a.credentials
    requires JavaString.Trim(known) in a.credentials && !matches(wrong, a.credentials[JavaString.Trim(known)])
    ensures LoggedIn(a, unknown, wrong, matches) == LoggedIn(a, known, wrong, matches)
  {
  }

  /** The gateway's lockout key keeps the username as sent while the account store trims it: two
      spellings that reach the same account count their failures apart. */
  lemma LockoutKeyIgnoresTrim(ip: string)
    ensures JavaString.Trim(" bob") == JavaString.Trim("bob")
    ensures AuthLockout.CreateKey(" bob", ip) != AuthLockout.CreateKey("bob", ip)
  {
    assert JavaString.TrimStart(" bob") == "bob";
    assert JavaString.TrimEnd("bob") == "bob";
    assert |AuthLockout.CreateKey(" bob", ip)| != |AuthLockout.CreateKey("bob", ip)|;
  }

  class AccountStore {
    var users: map<string, string>
    var credentials: map<string, string>

    function Snapshot(): Accounts
      reads this
    {
      Accounts(users, credentials)
    }

    constructor()
      ensures Snapshot() == Accounts(map[], map[])
    {
      users := map[];
      credentials := map[];
    }

    method Signup(username: string, password: string, encode: Encoder) returns (r: Result<string, ApiError>)
      modifies this
      ensures (r, Snapshot()) == SignedUp(old(Snapshot()), username, password, encode)
    {
      var name := JavaString.Trim(username);
      var secret := JavaString.Trim(password);
      if name == [] || secret == [] {
        return Failure(BadRequest(CredentialsRequiredMessage));
      }
      if name in credentials {
        return Failure(BadRequest(UsernameTakenMessage));
      }
      if name !in users {
        users := users[name := name + EmailDomain];
      }
      credentials := credentials[name := encode(secret)];
      r := Success(name);
    }

    method Login(username: string, password: string, matches: Matcher) returns (r: Result<string, ApiError>)
      ensures r == LoggedIn(Snapshot(), username, password, matches)
    {
      var name := JavaString.Trim(username);
      if name !in credentials {
        return Failure(Unauthorized(InvalidCredentialsMessage));
      }
      if !matches(password, credentials[name]) {
        return Failure(Unauthorized(InvalidCredentialsMessage));
      }
      r := Success(name);
    }
  }
}
