/** The web client's session handling (apps/web/src/auth/session.ts): the session kept in the
    browser's localStorage under one key, how a stored value is read back, and how a user id is
    guessed from a token. JSON.parse and JSON.stringify are parameters. */
module WebSession {
  import opened Wrappers
  import JsString
  import RequireAuth
  import RuntimeConfig

  datatype AuthSession = AuthSession(token: string, userId: string)

  const SessionStorageKey := "relaydocs.auth.session"
  const DevTokenPrefix := "dev-token-"
  const JwtUser := "jwt-user"
  const NotAuthenticatedMessage := "Not authenticated"

  /** A property of the parsed value, as far as the checks distinguish: a string or anything else
      (absent, null, a number, an object...). */
  datatype JsValue = JsText(text: string) | NotText

  /** JSON.parse followed by reading `token` and `userId`: None when parsing throws or when the
      value has no properties to read (null), the two properties otherwise. */
  type SessionReader = string -> Option<(JsValue, JsValue)>
  /** JSON.stringify of a session. */
  type SessionWriter = AuthSession -> string

  /** JSON.stringify writes a document that JSON.parse reads back to the same two strings. */
  ghost predicate Faithful(read: SessionReader, write: SessionWriter) {
    forall s :: read(write(s)) == Some((JsText(s.token), JsText(s.userId)))
  }

  /** A property holding a string that is not blank. */
  predicate Present(v: JsValue) {
    v.JsText? && JsString.Trim(v.text) != []
  }

  /** parseStoredSession: a session only when both properties are strings that are not blank;
      they are kept as stored, untrimmed. */
  function ParseStoredSession(value: string, read: SessionReader): (r: Option<AuthSession>)
    ensures r.Some? <==> read(value).Some? && Present(read(value).value.0) && Present(read(value).value.1)
    ensures r.Some? ==> r.value == AuthSession(read(value).value.0.text, read(value).value.1.text)
  {
    match read(value)
    case None => None
    case Some((token, userId)) =>
      if !Present(token) then None
      else if !Present(userId) then None
      else Some(AuthSession(token.text, userId.text))
  }

  /** inferUserIdFromToken: the trimmed rest of a dev token when it is not empty, else the
      placeholder user. */
  function InferUserIdFromToken(token: string): (userId: string)
    ensures userId != []
    ensures JsString.StartsWith(token, DevTokenPrefix) && JsString.Trim(token[|DevTokenPrefix|..]) != [] ==>
      userId == JsString.Trim(token[|DevTokenPrefix|..])
    ensures !(JsString.StartsWith(token, DevTokenPrefix) && JsString.Trim(token[|DevTokenPrefix|..]) != []) ==>
      userId == JwtUser
  {
    if JsString.StartsWith(token, DevTokenPrefix) && JsString.Trim(token[|DevTokenPrefix|..]) != [] then
      JsString.Trim(token[|DevTokenPrefix|..])
    else JwtUser
  }

  /** A dev token names its user, trimmed; a dev token with a blank rest, and every other token,
      names the placeholder user. */
  lemma DevTokenNamesUser(userId: string)
    ensures JsString.IsBlank(userId) ==> InferUserIdFromToken(DevTokenPrefix + userId) == JwtUser
    ensures !JsString.IsBlank(userId) ==> InferUserIdFromToken(DevTokenPrefix + userId) == JsString.Trim(userId)
  {
    assert (DevTokenPrefix + userId)[|DevTokenPrefix|..] == userId;
    assert (DevTokenPrefix + userId)[..|DevTokenPrefix|] == DevTokenPrefix;
  }

  /** For a dev token whose user id has no surrounding whitespace, the client shows the user the
      gateway authenticates the same token as. */
  lemma ClientAndGatewayAgreeOnDevUser(userId: string, env: RuntimeConfig.GatewayEnvironment, verify: RequireAuth.Verifier)
    requires RequireAuth.DevTokensAccepted(env)
    requires userId != [] && !JsString.IsWhitespace(userId[0]) && !JsString.IsWhitespace(userId[|userId| - 1])
    ensures RequireAuth.Authenticate(Some(RequireAuth.BearerPrefix + DevTokenPrefix + userId), env, verify)
            == RequireAuth.Authenticated(InferUserIdFromToken(DevTokenPrefix + userId))
  {
    RequireAuth.DevTokenIdentity(userId, env, verify);
    JsString.TrimOfUnpadded(userId);
    DevTokenNamesUser(userId);
  }

  /** window.localStorage. */
  class BrowserStorage {
    var items: map<string, string>

    constructor()
      ensures items == map[]
    {
      items := map[];
    }

    function GetItem(key: string): (r: Option<string>)
      reads this
      ensures r.Some? <==> key in items
      ensures r.Some? ==> r.value == items[key]
    {
      if key in items then Some(items[key]) else None
    }

    method SetItem(key: string, value: string)
      modifies this
      ensures items == old(items)[key := value]
    {
      items := items[key := value];
    }

    method RemoveItem(key: string)
      modifies this
      ensures items == old(items) - {key}
    {
      items := items - {key};
    }
  }

  /** readAuthSession over the stored items: an absent or empty value is no session. */
  function StoredSession(items: map<string, string>, read: SessionReader): (r: Option<AuthSession>)
    ensures SessionStorageKey !in items || items[SessionStorageKey] == [] ==> r == None
    ensures SessionStorageKey in items && items[SessionStorageKey] != [] ==> r == ParseStoredSession(items[SessionStorageKey], read)
  {
    if SessionStorageKey in items && items[SessionStorageKey] != [] then ParseStoredSession(items[SessionStorageKey], read)
    else None
  }

  method ReadAuthSession(storage: BrowserStorage, read: SessionReader) returns (r: Option<AuthSession>)
    ensures r == StoredSession(storage.items, read)
  {
    var value := storage.GetItem(SessionStorageKey);
    if value.Some? && value.value != [] {
      return ParseStoredSession(value.value, read);
    }
    return None;
  }

  method SaveAuthSession(storage: BrowserStorage, session: AuthSession, write: SessionWriter)
    modifies storage
    ensures storage.items == old(storage.items)[SessionStorageKey := write(session)]
  {
    storage.SetItem(SessionStorageKey, write(session));
  }

  method ClearAuthSession(storage: BrowserStorage)
    modifies storage
    ensures storage.items == old(storage.items) - {SessionStorageKey}
  {
    storage.RemoveItem(SessionStorageKey);
  }

  /** getAuthToken. */
  function AuthToken(items: map<string, string>, read: SessionReader): (r: Result<string, string>)
    ensures r.Success? <==> StoredSession(items, read).Some?
    ensures r.Success? ==> r.value == StoredSession(items, read).value.token && JsString.Trim(r.value) != []
    ensures r.Failure? ==> r.error == NotAuthenticatedMessage
  {
    match StoredSession(items, read)
    case Some(session) => Success(session.token)
    case None => Failure(NotAuthenticatedMessage)
  }

  /** A saved session reads back as itself when neither field is blank, and as no session
      otherwise: a session saved with a blank user id is lost on the next read. */
  lemma SaveThenRead(items: map<string, string>, session: AuthSession, read: SessionReader, write: SessionWriter)
    requires Faithful(read, write)
    requires write(session) != []
    ensures StoredSession(items[SessionStorageKey := write(session)], read)
            == if JsString.Trim(session.token) != [] && JsString.Trim(session.userId) != [] then Some(session) else None
  {
    assert read(write(session)) == Some((JsText(session.token), JsText(session.userId)));
  }

  /** After clearing, no session is read and no token is available. */
  lemma ClearThenRead(items: map<string, string>, read: SessionReader)
    ensures StoredSession(items - {SessionStorageKey}, read) == None
    ensures AuthToken(items - {SessionStorageKey}, read) == Failure(NotAuthenticatedMessage)
  {
  }
}
