/** The request bodies the gateway validates before calling the document service
    (apps/gateway/src/schemas/auth.ts and apps/gateway/src/schemas/documents.ts). A JSON body is
    either not an object or an object whose members are strings or some other JSON value;
    string lengths are counted in UTF-16 code units, as JavaScript's `.length` counts them. */
module RequestSchemas {
  import opened Wrappers
  import JsString

  datatype JsonMember = Text(text: string) | NonText
  datatype JsonBody = NonObject | Object(members: map<string, JsonMember>)

  /** One validation issue: a member that is missing or out of bounds, or a message about the
      body as a whole. */
  datatype Issue = MemberIssue(member: string) | BodyIssue(message: string)

  const ExpectedObjectMessage := "Expected object"
  const AtLeastOneFieldMessage := "At least one field must be provided"

  predicate Bounded(s: string, min: nat, max: nat) {
    min <= JsString.Utf16Length(s) <= max
  }

  /** The issues of a required string member whose text must satisfy `valid`. */
  function RequiredIssues(members: map<string, JsonMember>, name: string, valid: string -> bool): (issues: seq<Issue>)
    ensures issues == [] <==> name in members && members[name].Text? && valid(members[name].text)
    ensures issues == [] || issues == [MemberIssue(name)]
  {
    if name in members && members[name].Text? && valid(members[name].text) then []
    else [MemberIssue(name)]
  }

  /** The issues of an optional string member: absence is fine. */
  function OptionalIssues(members: map<string, JsonMember>, name: string, valid: string -> bool): (issues: seq<Issue>)
    ensures issues == [] <==> name !in members || (members[name].Text? && valid(members[name].text))
    ensures issues == [] || issues == [MemberIssue(name)]
  {
    if name !in members || (members[name].Text? && valid(members[name].text)) then []
    else [MemberIssue(name)]
  }

  // ---------------------------------------------------------------- schemas/auth.ts

  datatype Credentials = Credentials(username: string, password: string)

  const MinUsername := 3
  const MaxUsername := 100
  const MinPassword := 8
  const MaxPassword := 128

  /** signupBodySchema and loginBodySchema, which are the same: a username of 3 to 100 and a
      password of 8 to 128 code units, taken as sent (nothing is trimmed). */
  function ParseCredentials(body: JsonBody): (r: Result<Credentials, seq<Issue>>)
    ensures r.Success? <==>
      (body.Object? && "username" in body.members && "password" in body.members
       && body.members["username"].Text? && body.members["password"].Text?
       && Bounded(body.members["username"].text, MinUsername, MaxUsername)
       && Bounded(body.members["password"].text, MinPassword, MaxPassword))
    ensures r.Success? ==>
      r.value == Credentials(body.members["username"].text, body.members["password"].text)
    ensures r.Failure? ==> r.error != [] && (body.Object? ==> forall i :: 0 <= i < |r.error| ==> r.error[i].MemberIssue?)
  {
    match body
    case NonObject => Failure([BodyIssue(ExpectedObjectMessage)])
    case Object(members) =>
      var issues := RequiredIssues(members, "username", s => Bounded(s, MinUsername, MaxUsername))
        + RequiredIssues(members, "password", s => Bounded(s, MinPassword, MaxPassword));
      if issues == [] then Success(Credentials(members["username"].text, members["password"].text))
      else Failure(issues)
  }

  /** The credentials body a client sends is accepted back unchanged exactly when both strings
      are within bounds. */
  lemma CredentialsRoundTrip(c: Credentials)
    ensures var body := Object(map["username" := Text(c.username), "password" := Text(c.password)]);
      (ParseCredentials(body) == Success(c))
      <==> Bounded(c.username, MinUsername, MaxUsername) && Bounded(c.password, MinPassword, MaxPassword)
  {
  }

  // ---------------------------------------------------------------- schemas/documents.ts

  const MaxTitle := 255
  const MaxContent := 100000

  datatype CreateDocumentBody = CreateDocumentBody(title: string, content: string)
  datatype UpdateDocumentBody = UpdateDocumentBody(title: Option<string>, content: Option<string>)
  datatype ShareRole = Viewer | Editor
  datatype ShareDocumentBody = ShareDocumentBody(userId: string, role: ShareRole)

  /** createDocumentBodySchema: a title of 1 to 255 and content of 1 to 100000 code units. */
  function ParseCreateDocument(body: JsonBody): (r: Result<CreateDocumentBody, seq<Issue>>)
    ensures r.Success? <==>
      (body.Object? && "title" in body.members && "content" in body.members
       && body.members["title"].Text? && body.members["content"].Text?
       && Bounded(body.members["title"].text, 1, MaxTitle)
       && Bounded(body.members["content"].text, 1, MaxContent))
    ensures r.Success? ==> r.value == CreateDocumentBody(body.members["title"].text, body.members["content"].text)
    ensures r.Failure? ==> r.error != []
  {
    match body
    case NonObject => Failure([BodyIssue(ExpectedObjectMessage)])
    case Object(members) =>
      var issues := RequiredIssues(members, "title", s => Bounded(s, 1, MaxTitle)) + RequiredIssues(members, "content", s => Bounded(s, 1, MaxContent));
      if issues == [] then Success(CreateDocumentBody(members["title"].text, members["content"].text))
      else Failure(issues)
  }

  /** updateDocumentBodySchema: each member, when present, is bounded as on creation; the refinement
      that at least one is present is checked only once the members themselves pass. */
  function ParseUpdateDocument(body: JsonBody): (r: Result<UpdateDocumentBody, seq<Issue>>)
    ensures r.Success? <==>
      (body.Object? && ("title" in body.members || "content" in body.members)
       && ("title" in body.members ==> body.members["title"].Text? && Bounded(body.members["title"].text, 1, MaxTitle))
       && ("content" in body.members ==> body.members["content"].Text? && Bounded(body.members["content"].text, 1, MaxContent)))
    ensures r.Success? ==> body.Object? && (r.value.title.Some? || r.value.content.Some?)
    ensures r.Success? ==>
      && (r.value.title.Some? <==> "title" in body.members)
      && (r.value.title.Some? ==> body.members["title"] == Text(r.value.title.value) && Bounded(r.value.title.value, 1, MaxTitle))
      && (r.value.content.Some? <==> "content" in body.members)
      && (r.value.content.Some? ==> body.members["content"] == Text(r.value.content.value) && Bounded(r.value.content.value, 1, MaxContent))
    ensures r == Failure([BodyIssue(AtLeastOneFieldMessage)]) <==>
      body.Object? && "title" !in body.members && "content" !in body.members
    ensures r.Failure? ==> r.error != []
  {
    match body
    case NonObject => Failure([BodyIssue(ExpectedObjectMessage)])
    case Object(members) =>
      var issues := OptionalIssues(members, "title", s => Bounded(s, 1, MaxTitle)) + OptionalIssues(members, "content", s => Bounded(s, 1, MaxContent));
      if issues != [] then
        assert issues[0].MemberIssue?;
        Failure(issues)
      else if "title" !in members && "content" !in members then Failure([BodyIssue(AtLeastOneFieldMessage)])
      else
        var title := if "title" in members then Some(members["title"].text) else None;
        var content := if "content" in members then Some(members["content"].text) else None;
        Success(UpdateDocumentBody(title, content))
  }

  /** The lower-case role names the share schema accepts. */
  function RoleName(role: ShareRole): (name: string)
    ensures ParseRoleName(name) == Some(role)
  {
    match role
    case Viewer => "viewer"
    case Editor => "editor"
  }

  /** z.enum(["viewer", "editor"]): exactly these two strings, case-sensitively. */
  function ParseRoleName(name: string): (r: Option<ShareRole>)
    ensures r.Some? <==> name == "viewer" || name == "editor"
  {
    if name == "viewer" then Some(Viewer) else if name == "editor" then Some(Editor) else None
  }

  /** shareDocumentBodySchema: a non-empty user id and one of the two role names. */
  function ParseShareDocument(body: JsonBody): (r: Result<ShareDocumentBody, seq<Issue>>)
    ensures r.Success? <==>
      (body.Object? && "userId" in body.members && "role" in body.members
       && body.members["userId"].Text? && body.members["userId"].text != []
       && body.members["role"].Text? && ParseRoleName(body.members["role"].text).Some?)
    ensures r.Success? ==>
      body.members["userId"] == Text(r.value.userId) && body.members["role"] == Text(RoleName(r.value.role))
    ensures r.Failure? ==> r.error != []
  {
    match body
    case NonObject => Failure([BodyIssue(ExpectedObjectMessage)])
    case Object(members) =>
      var issues := RequiredIssues(members, "userId", s => s != [])
        + RequiredIssues(members, "role", s => ParseRoleName(s).Some?);
      if issues == [] then Success(ShareDocumentBody(members["userId"].text, ParseRoleName(members["role"].text).value))
      else Failure(issues)
  }

  /** Role names are case-sensitive: "Editor" is refused. */
  lemma RoleNamesCaseSensitive()
    ensures ParseRoleName("Editor") == None && ParseRoleName("VIEWER") == None
  {
  }
}
