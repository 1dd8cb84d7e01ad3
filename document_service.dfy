/** The document service's access rules and mutations
    (services/document-service/.../service/DocumentService.java) together with the visibility
    query of DocumentRepository.java. The documents table is a sequence kept in primary-key order;
    permissions map a (document id, user id) pair to its role, so a pair has at most one role;
    users map a user id to an e-mail address; published domain events are appended to a log. */
module DocumentService {
  import opened Wrappers
  import opened ServiceExceptions
  import PermissionRole
  import Ordering
  import JsString
  import RequestSchemas

  type Role = PermissionRole.Role

  datatype Document = Document(id: int, ownerId: string, title: string, content: string)

  /** What the service returns for a document: `sharedWith` lists (user id, lower-case role) in
      ascending user-id order, as the LinkedHashMap built by toResponse iterates. */
  datatype DocumentResponse = DocumentResponse(id: int, ownerUserId: string, title: string, content: string,
                                               sharedWith: seq<(string, string)>)

  /** A value of an event payload, which the publisher writes as JSON: the document id is a
      Long and becomes a JSON number, the other values are strings. */
  datatype PayloadValue = Text(text: string) | Number(number: int)

  datatype DomainEvent = DomainEvent(eventType: string, aggregateId: string, payload: map<string, PayloadValue>)

  type Permissions = map<(int, string), Role>

  datatype Tables = Tables(documents: seq<Document>, permissions: Permissions, users: map<string, string>)

  const DocumentNotFoundMessage := "Document not found"
  const ForbiddenMessage := "Forbidden"
  const NoFieldMessage := "At least one field must be provided"
  const OwnerSelfShareMessage := "Owner already has full access"
  const EmailDomain := "@relaydocs.local"

  predicate IdsAscending(documents: seq<Document>) {
    forall i, j :: 0 <= i < j < |documents| ==> documents[i].id < documents[j].id
  }

  /** String.valueOf(long), which writes a Long the way JavaScript's String writes an integer. */
  function IdString(id: int): string {
    JsString.IntString(id)
  }

  // ---------------------------------------------------------------- lookups and access rules

  /** documentRepository.findById. */
  function FindDocument(documents: seq<Document>, id: int): (r: Option<Document>)
    ensures r.Some? ==> r.value in documents && r.value.id == id
    ensures r.None? ==> forall d :: d in documents ==> d.id != id
  {
    if documents == [] then None
    else if documents[0].id == id then Some(documents[0])
    else FindDocument(documents[1..], id)
  }

  /** getDocumentOrThrow. */
  function DocumentOrNotFound(documents: seq<Document>, id: int): (r: Result<Document, ApiError>)
    ensures r.Success? <==> FindDocument(documents, id).Some?
    ensures r.Success? ==> r.value == FindDocument(documents, id).value
    ensures r.Failure? ==> r.error == NotFound(DocumentNotFoundMessage)
  {
    match FindDocument(documents, id)
    case Some(d) => Success(d)
    case None => Failure(NotFound(DocumentNotFoundMessage))
  }

  /** canRead: the owner, or anyone holding a permission on the document, whatever its role. */
  predicate CanRead(d: Document, permissions: Permissions, actor: string) {
    d.ownerId == actor || (d.id, actor) in permissions
  }

  /** canEdit: the owner, or an editor of the document. */
  predicate CanEdit(d: Document, permissions: Permissions, actor: string) {
    d.ownerId == actor || ((d.id, actor) in permissions && permissions[(d.id, actor)] == PermissionRole.Editor)
  }

  lemma EditImpliesRead(d: Document, permissions: Permissions, actor: string)
    ensures CanEdit(d, permissions, actor) ==> CanRead(d, permissions, actor)
  {
  }

  /** The users holding a permission on document `id`. */
  function SharedUsers(permissions: Permissions, id: int): (users: set<string>)
    ensures forall u :: u in users <==> (id, u) in permissions
  {
    set k | k in permissions && k.0 == id :: k.1
  }

  /** Each listed user paired with the lower-case name of their role on document `id`. */
  function RolesOf(users: seq<string>, permissions: Permissions, id: int): (r: seq<(string, string)>)
    requires forall u :: u in users ==> (id, u) in permissions
    ensures |r| == |users|
    ensures forall i :: 0 <= i < |r| ==> r[i].0 == users[i] && r[i].1 == PermissionRole.LowerName(permissions[(id, users[i])])
  {
    seq(|users|, i requires 0 <= i < |users| => (users[i], PermissionRole.LowerName(permissions[(id, users[i])])))
  }

  /** The `sharedWith` listing of toResponse: every user holding a permission on document `id`,
      exactly once, in ascending user-id order, with the lower-case name of their role. */
  function SharedWith(permissions: Permissions, id: int): (r: seq<(string, string)>)
  {
    var users := Ordering.SortedStrings(SharedUsers(permissions, id));
    RolesOf(users, permissions, id)
  }

  lemma SharedWithListing(permissions: Permissions, id: int)
    ensures var r := SharedWith(permissions, id);
      && (forall i, j :: 0 <= i < j < |r| ==> Ordering.StringLess(r[i].0, r[j].0))
      && (forall u :: (id, u) in permissions <==> exists i :: 0 <= i < |r| && r[i].0 == u)
      && (forall i :: 0 <= i < |r| ==>
            (id, r[i].0) in permissions && r[i].1 == PermissionRole.LowerName(permissions[(id, r[i].0)]))
  {
    var users := Ordering.SortedStrings(SharedUsers(permissions, id));
    var r := SharedWith(permissions, id);
    assert forall u :: (id, u) in permissions ==> u in users;
    assert forall i :: 0 <= i < |r| ==> r[i].0 in users;
  }

  /** toResponse: the document's own fields and its sharing listing. */
  function ToResponse(d: Document, permissions: Permissions): (r: DocumentResponse)
    ensures r.id == d.id && r.ownerUserId == d.ownerId && r.title == d.title && r.content == d.content
    ensures r.sharedWith == SharedWith(permissions, d.id)
  {
    DocumentResponse(d.id, d.ownerId, d.title, d.content, SharedWith(permissions, d.id))
  }

  /** getDocument: not found, then forbidden unless the actor may read. */
  function Fetched(t: Tables, id: int, actor: string): (r: Result<DocumentResponse, ApiError>)
    ensures r.Success? <==> FindDocument(t.documents, id).Some? && CanRead(FindDocument(t.documents, id).value, t.permissions, actor)
    ensures r.Success? ==> r.value == ToResponse(FindDocument(t.documents, id).value, t.permissions)
    ensures FindDocument(t.documents, id).None? ==> r == Failure(NotFound(DocumentNotFoundMessage))
    ensures FindDocument(t.documents, id).Some? && !CanRead(FindDocument(t.documents, id).value, t.permissions, actor) ==>
      r == Failure(Forbidden(ForbiddenMessage))
  {
    match DocumentOrNotFound(t.documents, id)
    case Failure(e) => Failure(e)
    case Success(d) => if CanRead(d, t.permissions, actor) then Success(ToResponse(d, t.permissions)) else Failure(Forbidden(ForbiddenMessage))
  }

  /** getOrCreateUser: an unknown user id is stored with the address <id>@relaydocs.local; a known
      one is left as it is. */
  function WithUser(users: map<string, string>, userId: string): (r: map<string, string>)
    ensures userId in r
    ensures userId in users ==> r == users
    ensures userId !in users ==> r == users[userId := userId + EmailDomain]
  {
    if userId in users then users else users[userId := userId + EmailDomain]
  }

  // ---------------------------------------------------------------- the visibility query

  /** The rows `DocumentEntity d left join d.permissions p` yields for one document: one per
      permission on it, or a single row without a user when it has none. */
  function DocumentRows(d: Document, permissions: Permissions): (rows: seq<(Document, Option<string>)>)
    ensures rows != []
    ensures forall row :: row in rows ==> row.0 == d && (row.1.Some? ==> (d.id, row.1.value) in permissions)
    ensures forall u :: (d.id, u) in permissions ==> (d, Some(u)) in rows
  {
    var users := Ordering.SortedStrings(SharedUsers(permissions, d.id));
    if users == [] then [(d, None)]
    else
      var rows := seq(|users|, i requires 0 <= i < |users| => (d, Some(users[i])));
      forall u | (d.id, u) in permissions
        ensures (d, Some(u)) in rows
      {
        var i :| 0 <= i < |users| && users[i] == u;
        assert rows[i] == (d, Some(u));
      }
      rows
  }

  /** The whole join, document by document in table order. */
  function JoinRows(documents: seq<Document>, permissions: Permissions): (rows: seq<(Document, Option<string>)>)
  {
    if documents == [] then []
    else DocumentRows(documents[0], permissions) + JoinRows(documents[1..], permissions)
  }

  lemma {:induction false} JoinRowsContents(documents: seq<Document>, permissions: Permissions)
    ensures forall row :: row in JoinRows(documents, permissions) ==>
      row.0 in documents && (row.1.Some? ==> (row.0.id, row.1.value) in permissions)
    ensures forall d :: d in documents ==> exists row :: row in JoinRows(documents, permissions) && row.0 == d
    ensures forall d, u :: d in documents && (d.id, u) in permissions ==> (d, Some(u)) in JoinRows(documents, permissions)
  {
    if documents != [] {
      JoinRowsContents(documents[1..], permissions);
      var own := DocumentRows(documents[0], permissions);
      assert own[0] in JoinRows(documents, permissions);
      assert forall x :: x in documents ==> x == documents[0] || x in documents[1..];
    }
  }

  /** Rows whose documents never decrease in id. */
  predicate RowsOrdered(rows: seq<(Document, Option<string>)>) {
    forall i, j :: 0 <= i < j < |rows| ==> rows[i].0.id <= rows[j].0.id
  }

  lemma {:induction false} JoinRowsOrdered(documents: seq<Document>, permissions: Permissions)
    requires IdsAscending(documents)
    ensures RowsOrdered(JoinRows(documents, permissions))
  {
    if documents != [] {
      var own := DocumentRows(documents[0], permissions);
      var rest := JoinRows(documents[1..], permissions);
      var all: seq<(Document, Option<string>)> := own + rest;
      JoinRowsOrdered(documents[1..], permissions);
      JoinRowsContents(documents[1..], permissions);
      forall i, j | 0 <= i < j < |all|
        ensures all[i].0.id <= all[j].0.id
      {
        if j >= |own| && i < |own| {
          assert own[i] in own && rest[j - |own|] in rest;
        } else if i < |own| {
          assert own[i] in own && own[j] in own;
        }
      }
    }
  }

  /** `where d.owner.id = :userId or p.user.id = :userId`. */
  predicate RowMatches(row: (Document, Option<string>), userId: string) {
    row.0.ownerId == userId || row.1 == Some(userId)
  }

  function MatchingRows(rows: seq<(Document, Option<string>)>, userId: string): (r: seq<(Document, Option<string>)>)
    ensures forall row :: row in r <==> row in rows && RowMatches(row, userId)
  {
    if rows == [] then []
    else (if RowMatches(rows[0], userId) then [rows[0]] else []) + MatchingRows(rows[1..], userId)
  }

  lemma {:induction false} MatchingRowsOrdered(rows: seq<(Document, Option<string>)>, userId: string)
    requires RowsOrdered(rows)
    ensures RowsOrdered(MatchingRows(rows, userId))
  {
    if rows != [] {
      var rest := MatchingRows(rows[1..], userId);
      MatchingRowsOrdered(rows[1..], userId);
      forall k | 0 <= k < |rest|
        ensures rows[0].0.id <= rest[k].0.id
      {
        assert rest[k] in rows[1..];
      }
    }
  }

  /** `select distinct d`: the documents of the rows, first occurrence kept. */
  function DistinctDocuments(rows: seq<(Document, Option<string>)>): (r: seq<Document>)
    ensures forall d :: d in r <==> exists row :: row in rows && row.0 == d
  {
    if rows == [] then []
    else
      var rest := DistinctDocuments(rows[..|rows| - 1]);
      var last := rows[|rows| - 1];
      assert rows == rows[..|rows| - 1] + [last];
      if last.0 in rest then rest else rest + [last.0]
  }

  /** Rows in which one id always names one document, as when they come from a table keyed by id. */
  predicate RowsKeyed(rows: seq<(Document, Option<string>)>) {
    forall a, b :: a in rows && b in rows && a.0.id == b.0.id ==> a.0 == b.0
  }

  lemma {:induction false} DistinctDocumentsAscending(rows: seq<(Document, Option<string>)>)
    requires RowsOrdered(rows) && RowsKeyed(rows)
    ensures IdsAscending(DistinctDocuments(rows))
  {
    if rows != [] {
      var prefix := rows[..|rows| - 1];
      var last := rows[|rows| - 1];
      var rest := DistinctDocuments(prefix);
      DistinctDocumentsAscending(prefix);
      if last.0 !in rest {
        forall x | x in rest
          ensures x.id < last.0.id
        {
          var row :| row in prefix && row.0 == x;
          var i :| 0 <= i < |prefix| && prefix[i] == row;
          assert rows[i] == row;
        }
        AppendAscending(rest, last.0);
      }
    }
  }

  /** A document above every id of an ascending listing can follow it. */
  lemma AppendAscending(documents: seq<Document>, d: Document)
    requires IdsAscending(documents)
    requires forall x :: x in documents ==> x.id < d.id
    ensures IdsAscending(documents + [d])
  {
    var r := documents + [d];
    forall i, j | 0 <= i < j < |r|
      ensures r[i].id < r[j].id
    {
      if j == |documents| {
        assert r[i] in documents;
      }
    }
  }

  /** findVisibleDocuments: the join, filtered, made distinct. The `order by d.id asc` is met by
      the distinct rows already (VisibleDocumentsAscending), so no further sort is applied. */
  function FindVisibleDocuments(documents: seq<Document>, permissions: Permissions, userId: string): (r: seq<Document>)
  {
    DistinctDocuments(MatchingRows(JoinRows(documents, permissions), userId))
  }

  /** The reference listing: the table's documents the user may read, in table order. */
  function ReadableDocuments(documents: seq<Document>, permissions: Permissions, userId: string): (r: seq<Document>)
    ensures forall d :: d in r <==> d in documents && CanRead(d, permissions, userId)
  {
    if documents == [] then []
    else
      assert forall x :: x in documents <==> x == documents[0] || x in documents[1..];
      (if CanRead(documents[0], permissions, userId) then [documents[0]] else []) + ReadableDocuments(documents[1..], permissions, userId)
  }

  lemma {:induction false} ReadableDocumentsAscending(documents: seq<Document>, permissions: Permissions, userId: string)
    requires IdsAscending(documents)
    ensures IdsAscending(ReadableDocuments(documents, permissions, userId))
  {
    if documents != [] {
      var rest := ReadableDocuments(documents[1..], permissions, userId);
      ReadableDocumentsAscending(documents[1..], permissions, userId);
      forall k | 0 <= k < |rest|
        ensures documents[0].id < rest[k].id
      {
        assert rest[k] in documents[1..];
      }
    }
  }

  /** A user sees exactly the documents they own or hold a permission on, whatever its role. */
  lemma VisibleIffReadable(documents: seq<Document>, permissions: Permissions, userId: string, d: Document)
    ensures d in FindVisibleDocuments(documents, permissions, userId) <==> d in documents && CanRead(d, permissions, userId)
  {
    var rows := JoinRows(documents, permissions);
    JoinRowsContents(documents, permissions);
    if d in documents && CanRead(d, permissions, userId) {
      if d.ownerId == userId {
        var row :| row in rows && row.0 == d;
        assert row in MatchingRows(rows, userId);
      } else {
        assert (d, Some(userId)) in MatchingRows(rows, userId);
      }
    }
  }

  /** The visible documents come out in ascending id order, each once. */
  lemma VisibleDocumentsAscending(documents: seq<Document>, permissions: Permissions, userId: string)
    requires IdsAscending(documents)
    ensures IdsAscending(FindVisibleDocuments(documents, permissions, userId))
  {
    var rows := JoinRows(documents, permissions);
    var matching := MatchingRows(rows, userId);
    JoinRowsContents(documents, permissions);
    JoinRowsOrdered(documents, permissions);
    MatchingRowsOrdered(rows, userId);
    forall a, b | a in matching && b in matching && a.0.id == b.0.id
      ensures a.0 == b.0
    {
      var i :| 0 <= i < |documents| && documents[i] == a.0;
      var j :| 0 <= j < |documents| && documents[j] == b.0;
      assert !(i < j) && !(j < i);
    }
    DistinctDocumentsAscending(matching);
  }

  /** Two id-ascending listings with the same documents are the same listing. */
  lemma {:induction false} AscendingDocumentsUnique(r1: seq<Document>, r2: seq<Document>)
    requires IdsAscending(r1) && IdsAscending(r2)
    requires forall d :: d in r1 <==> d in r2
    ensures r1 == r2
    decreases |r1|
  {
    assert r1 != [] ==> r1[0] in r2;
    assert r2 != [] ==> r2[0] in r1;
    if r1 != [] && r2 != [] {
      var i :| 0 <= i < |r2| && r2[i] == r1[0];
      var j :| 0 <= j < |r1| && r1[j] == r2[0];
      assert r1[0].id <= r1[j].id && r2[0].id <= r2[i].id;
      assert i == 0;
      TailMembers(r1, r2);
      TailMembers(r2, r1);
      AscendingDocumentsUnique(r1[1..], r2[1..]);
      assert r1 == [r1[0]] + r1[1..] && r2 == [r2[0]] + r2[1..];
    }
  }

  /** Two ascending listings of the same documents that start alike list the same rest. */
  lemma TailMembers(r1: seq<Document>, r2: seq<Document>)
    requires IdsAscending(r1) && IdsAscending(r2)
    requires forall d :: d in r1 <==> d in r2
    requires r1 != [] && r2 != [] && r1[0] == r2[0]
    ensures forall d :: d in r1[1..] ==> d in r2[1..]
  {
    forall d | d in r1[1..]
      ensures d in r2[1..]
    {
      var k :| 1 <= k < |r1| && r1[k] == d;
      assert d != r1[0];
      assert d in r1;
      var m :| 0 <= m < |r2| && r2[m] == d;
      assert r2[1..][m - 1] == d;
    }
  }

  /** listVisibleDocuments: the query's result is the table filtered by canRead, in key order. */
  lemma VisibleDocumentsAreReadableInOrder(documents: seq<Document>, permissions: Permissions, userId: string)
    requires IdsAscending(documents)
    ensures FindVisibleDocuments(documents, permissions, userId) == ReadableDocuments(documents, permissions, userId)
  {
    forall d ensures d in FindVisibleDocuments(documents, permissions, userId) <==> d in ReadableDocuments(documents, permissions, userId) {
      VisibleIffReadable(documents, permissions, userId, d);
    }
    VisibleDocumentsAscending(documents, permissions, userId);
    ReadableDocumentsAscending(documents, permissions, userId);
    AscendingDocumentsUnique(FindVisibleDocuments(documents, permissions, userId), ReadableDocuments(documents, permissions, userId));
  }

  /** listVisibleDocuments: the visible documents, each rendered by toResponse. */
  function VisibleListing(t: Tables, actor: string): (r: seq<DocumentResponse>)
    ensures |r| == |FindVisibleDocuments(t.documents, t.permissions, actor)|
    ensures forall i :: 0 <= i < |r| ==> r[i] == ToResponse(FindVisibleDocuments(t.documents, t.permissions, actor)[i], t.permissions)
  {
    var visible := FindVisibleDocuments(t.documents, t.permissions, actor);
    seq(|visible|, i requires 0 <= i < |visible| => ToResponse(visible[i], t.permissions))
  }

  // ---------------------------------------------------------------- mutations

  /** What a mutation returns and leaves behind: the reply, the new tables and the events it
      published, in publication order. */
  datatype Change = Change(result: Result<DocumentResponse, ApiError>, tables: Tables, events: seq<DomainEvent>)

  /** The same tables, an error, and nothing published. */
  function Refusal(t: Tables, error: ApiError): Change {
    Change(Failure(error), t, [])
  }

  /** A document with the provided fields overwritten and the absent ones kept. */
  function Edited(d: Document, title: Option<string>, content: Option<string>): Document {
    d.(title := title.GetOr(d.title), content := content.GetOr(d.content))
  }

  /** The table with the row whose id is `d.id` replaced by `d`. */
  function Replaced(documents: seq<Document>, d: Document): (r: seq<Document>)
    ensures |r| == |documents|
    ensures forall i :: 0 <= i < |r| ==> r[i].id == documents[i].id && (r[i] == documents[i] || r[i] == d)
  {
    seq(|documents|, i requires 0 <= i < |documents| => if documents[i].id == d.id then d else documents[i])
  }

  /** After the replacement a lookup of `d.id` finds `d`, and every other lookup is unchanged. */
  lemma {:induction false} FindReplaced(documents: seq<Document>, d: Document, id: int)
    ensures FindDocument(Replaced(documents, d), id) ==
      if id != d.id then FindDocument(documents, id)
      else if FindDocument(documents, id).Some? then Some(d) else None
  {
    if documents != [] {
      assert Replaced(documents, d)[1..] == Replaced(documents[1..], d);
      FindReplaced(documents[1..], d, id);
    }
  }

  function UpdatedEvent(id: int, actor: string): DomainEvent {
    DomainEvent("document.updated", IdString(id), map["documentId" := Number(id), "actorUserId" := Text(actor)])
  }

  /** updateDocument: no field is a bad request before any lookup; then not found; then
      forbidden unless the actor may edit; otherwise the provided fields are written, the
      document is returned and one "document.updated" event is published. */
  function Updated(t: Tables, id: int, actor: string, title: Option<string>, content: Option<string>): (c: Change)
    ensures title.None? && content.None? ==> c == Refusal(t, BadRequest(NoFieldMessage))
    ensures (title.Some? || content.Some?) && FindDocument(t.documents, id).None? ==> c == Refusal(t, NotFound(DocumentNotFoundMessage))
    ensures (title.Some? || content.Some?) && FindDocument(t.documents, id).Some? && !CanEdit(FindDocument(t.documents, id).value, t.permissions, actor) ==>
      c == Refusal(t, Forbidden(ForbiddenMessage))
    ensures c.result.Success? <==>
      (title.Some? || content.Some?) && FindDocument(t.documents, id).Some? && CanEdit(FindDocument(t.documents, id).value, t.permissions, actor)
    ensures c.result.Success? ==>
      var e := Edited(FindDocument(t.documents, id).value, title, content);
      && c.tables.permissions == t.permissions && c.tables.users == t.users
      && (forall x :: FindDocument(c.tables.documents, x) == if x == id then Some(e) else FindDocument(t.documents, x))
      && c.result.value == ToResponse(e, t.permissions)
      && c.events == [UpdatedEvent(id, actor)]
  {
    match EditableOrError(t, id, actor, title, content)
    case Failure(error) => Refusal(t, error)
    case Success(d) =>
      var e := Edited(d, title, content);
      forall x ensures FindDocument(Replaced(t.documents, e), x) == if x == id then Some(e) else FindDocument(t.documents, x) {
        FindReplaced(t.documents, e, x);
      }
      Change(Success(ToResponse(e, t.permissions)), t.(documents := Replaced(t.documents, e)), [UpdatedEvent(id, actor)])
  }

  /** The checks updateDocument makes before writing, in its order: the document to edit, or
      the first error. */
  function EditableOrError(t: Tables, id: int, actor: string, title: Option<string>, content: Option<string>)
    : Result<Document, ApiError>
  {
    if title.None? && content.None? then Failure(BadRequest(NoFieldMessage))
    else match DocumentOrNotFound(t.documents, id)
      case Failure(e) => Failure(e)
      case Success(d) => if !CanEdit(d, t.permissions, actor) then Failure(Forbidden(ForbiddenMessage)) else Success(d)
  }

  function SharingEvent(eventType: string, id: int, actor: string, target: string, role: Role): DomainEvent {
    DomainEvent(eventType, IdString(id),
      map["documentId" := Number(id), "actorUserId" := Text(actor), "targetUserId" := Text(target),
          "role" := Text(PermissionRole.LowerName(role))])
  }

  /** shareDocument: not found, then forbidden unless the actor owns the document, then a bad
      request when the owner names themself; otherwise the target user is created if unknown, the
      (document, target) permission is inserted or its role overwritten, the document is returned
      with its permissions, and "document.shared" then "permission.changed" are published. */
  function Shared(t: Tables, id: int, actor: string, target: string, role: Role): (c: Change)
    ensures FindDocument(t.documents, id).None? ==> c == Refusal(t, NotFound(DocumentNotFoundMessage))
    ensures FindDocument(t.documents, id).Some? && FindDocument(t.documents, id).value.ownerId != actor ==>
      c == Refusal(t, Forbidden(ForbiddenMessage))
    ensures FindDocument(t.documents, id).Some? && FindDocument(t.documents, id).value.ownerId == actor && target == actor ==>
      c == Refusal(t, BadRequest(OwnerSelfShareMessage))
    ensures c.result.Success? <==>
      FindDocument(t.documents, id).Some? && FindDocument(t.documents, id).value.ownerId == actor && target != actor
    ensures c.result.Success? ==>
      && c.tables.documents == t.documents
      && c.tables.users == WithUser(t.users, target)
      && c.tables.permissions == t.permissions[(id, target) := role]
      && c.result.value == ToResponse(FindDocument(t.documents, id).value, c.tables.permissions)
      && c.events == [SharingEvent("document.shared", id, actor, target, role), SharingEvent("permission.changed", id, actor, target, role)]
  {
    match ShareableOrError(t, id, actor, target)
    case Failure(error) => Refusal(t, error)
    case Success(d) =>
      var permissions := t.permissions[(id, target) := role];
      Change(Success(ToResponse(d, permissions)), Tables(t.documents, permissions, WithUser(t.users, target)),
             [SharingEvent("document.shared", id, actor, target, role), SharingEvent("permission.changed", id, actor, target, role)])
  }

  /** The checks shareDocument makes before writing, in its order: the document to share, or
      the first error. */
  function ShareableOrError(t: Tables, id: int, actor: string, target: string): Result<Document, ApiError> {
    match DocumentOrNotFound(t.documents, id)
    case Failure(e) => Failure(e)
    case Success(d) =>
      if d.ownerId != actor then Failure(Forbidden(ForbiddenMessage))
      else if actor == target then Failure(BadRequest(OwnerSelfShareMessage))
      else Success(d)
  }

  function CreatedEvent(id: int, actor: string): DomainEvent {
    DomainEvent("document.created", IdString(id), map["documentId" := Number(id), "ownerUserId" := Text(actor), "actorUserId" := Text(actor)])
  }

  /** createDocument: the actor's user row is created if unknown and a document owned by them is
      stored under the next identity value, which no row carries yet. */
  function Created(t: Tables, nextId: int, actor: string, title: string, content: string): (c: Change)
    requires forall k :: k in t.permissions ==> k.0 != nextId
    ensures c.result == Success(DocumentResponse(nextId, actor, title, content, []))
    ensures c.tables == Tables(t.documents + [Document(nextId, actor, title, content)], t.permissions, WithUser(t.users, actor))
    ensures c.events == [CreatedEvent(nextId, actor)]
  {
    var d := Document(nextId, actor, title, content);
    assert SharedUsers(t.permissions, nextId) == {};
    assert |Ordering.SortedStrings(SharedUsers(t.permissions, nextId))| == 0;
    assert SharedWith(t.permissions, nextId) == [];
    Change(Success(ToResponse(d, t.permissions)), Tables(t.documents + [d], t.permissions, WithUser(t.users, actor)), [CreatedEvent(nextId, actor)])
  }

  // ---------------------------------------------------------------- properties of the mutations

  /** A viewer's update is refused, whatever it carries, and changes nothing. */
  lemma ViewerUpdateForbidden(t: Tables, id: int, actor: string, title: Option<string>, content: Option<string>)
    requires title.Some? || content.Some?
    requires FindDocument(t.documents, id).Some? && FindDocument(t.documents, id).value.ownerId != actor
    requires (id, actor) in t.permissions && t.permissions[(id, actor)] == PermissionRole.Viewer
    ensures Updated(t, id, actor, title, content) == Refusal(t, Forbidden(ForbiddenMessage))
  {
    assert FindDocument(t.documents, id).value.id == id;
  }

  /** Two accepted updates in a row: the later provided fields win, a field neither update
      provides keeps its stored value, and each update publishes its own event. */
  lemma {:induction false} UpdatesLastWriteWins(t: Tables, id: int, actor: string,
                                                title1: Option<string>, content1: Option<string>,
                                                title2: Option<string>, content2: Option<string>)
    requires title1.Some? || content1.Some?
    requires title2.Some? || content2.Some?
    requires Updated(t, id, actor, title1, content1).result.Success?
    ensures
      var c1 := Updated(t, id, actor, title1, content1);
      var c2 := Updated(c1.tables, id, actor, title2, content2);
      var d := FindDocument(t.documents, id).value;
      && c2.result.Success?
      && FindDocument(c2.tables.documents, id).value.title == (if title2.Some? then title2.value else title1.GetOr(d.title))
      && FindDocument(c2.tables.documents, id).value.content == (if content2.Some? then content2.value else content1.GetOr(d.content))
      && c1.events + c2.events == [UpdatedEvent(id, actor), UpdatedEvent(id, actor)]
  {
    var c1 := Updated(t, id, actor, title1, content1);
    var d := FindDocument(t.documents, id).value;
    var e := Edited(d, title1, content1);
    assert FindDocument(c1.tables.documents, id) == Some(e);
    assert e.ownerId == d.ownerId && e.id == d.id;
    assert CanEdit(e, c1.tables.permissions, actor);
  }

  /** After a share the target can read the document, can edit it exactly when the role is
      editor, and the reply lists them once with the lower-case role name. */
  lemma ShareGrantsRole(t: Tables, id: int, actor: string, target: string, role: Role)
    requires Shared(t, id, actor, target, role).result.Success?
    ensures
      var c := Shared(t, id, actor, target, role);
      var d := FindDocument(t.documents, id).value;
      && CanRead(d, c.tables.permissions, target)
      && (CanEdit(d, c.tables.permissions, target) <==> role == PermissionRole.Editor)
      && (exists i :: 0 <= i < |c.result.value.sharedWith| && c.result.value.sharedWith[i] == (target, PermissionRole.LowerName(role)))
      && (forall i :: 0 <= i < |c.result.value.sharedWith| && c.result.value.sharedWith[i].0 == target ==>
            c.result.value.sharedWith[i].1 == PermissionRole.LowerName(role))
  {
    var c := Shared(t, id, actor, target, role);
    var d := FindDocument(t.documents, id).value;
    assert d.id == id;
    var listing := c.result.value.sharedWith;
    assert listing == SharedWith(c.tables.permissions, id);
    SharedWithListing(c.tables.permissions, id);
    var i :| 0 <= i < |listing| && listing[i].0 == target;
    assert listing[i] == (target, PermissionRole.LowerName(role));
  }

  /** A share changes no one's access but the target's, on no document but the shared one. */
  lemma ShareLeavesOthersAlone(t: Tables, id: int, actor: string, target: string, role: Role, d: Document, u: string)
    requires Shared(t, id, actor, target, role).result.Success?
    requires u != target || d.id != id
    ensures CanRead(d, Shared(t, id, actor, target, role).tables.permissions, u) == CanRead(d, t.permissions, u)
    ensures CanEdit(d, Shared(t, id, actor, target, role).tables.permissions, u) == CanEdit(d, t.permissions, u)
  {
    assert (d.id, u) != (id, target);
  }

  /** Sharing again with another role overwrites the role rather than adding a second
      permission for the same (document, user) pair. */
  lemma ReshareOverwritesRole(t: Tables, id: int, actor: string, target: string, first: Role, second: Role)
    requires Shared(t, id, actor, target, first).result.Success?
    ensures Shared(Shared(t, id, actor, target, first).tables, id, actor, target, second).result.Success?
    ensures Shared(Shared(t, id, actor, target, first).tables, id, actor, target, second).tables.permissions
            == t.permissions[(id, target) := second]
  {
    var t1 := Shared(t, id, actor, target, first).tables;
    assert ShareableOrError(t1, id, actor, target) == ShareableOrError(t, id, actor, target);
    Overwritten(t.permissions, (id, target), first, second);
  }

  /** Writing a key twice leaves the second value. */
  lemma Overwritten<K, V>(m: map<K, V>, k: K, a: V, b: V)
    ensures m[k := a][k := b] == m[k := b]
  {
  }

  /** An allowed share, written out. */
  lemma SharedWhenAllowed(t: Tables, id: int, actor: string, target: string, role: Role, d: Document)
    requires FindDocument(t.documents, id) == Some(d) && d.ownerId == actor && target != actor
    ensures var permissions := t.permissions[(id, target) := role];
      Shared(t, id, actor, target, role)
        == Change(Success(ToResponse(d, permissions)), Tables(t.documents, permissions, WithUser(t.users, target)),
                  [SharingEvent("document.shared", id, actor, target, role), SharingEvent("permission.changed", id, actor, target, role)])
  {
  }

  /** The shared document appears in the target's listing. */
  lemma ShareMakesVisible(t: Tables, id: int, actor: string, target: string, role: Role)
    requires Shared(t, id, actor, target, role).result.Success?
    ensures
      var c := Shared(t, id, actor, target, role);
      FindDocument(t.documents, id).value in FindVisibleDocuments(c.tables.documents, c.tables.permissions, target)
  {
    var c := Shared(t, id, actor, target, role);
    var d := FindDocument(t.documents, id).value;
    VisibleIffReadable(c.tables.documents, c.tables.permissions, target, d);
  }

  /** A fresh document is visible to its owner and to no one else. */
  lemma CreatedVisibleToOwnerOnly(t: Tables, nextId: int, actor: string, title: string, content: string, u: string)
    requires forall k :: k in t.permissions ==> k.0 != nextId
    ensures
      var c := Created(t, nextId, actor, title, content);
      Document(nextId, actor, title, content) in FindVisibleDocuments(c.tables.documents, c.tables.permissions, u) <==> u == actor
  {
    var c := Created(t, nextId, actor, title, content);
    VisibleIffReadable(c.tables.documents, c.tables.permissions, u, Document(nextId, actor, title, content));
    assert (nextId, u) !in t.permissions;
  }

  /** The gateway's role names, sent as they are, are the names the service's role parser accepts. */
  function ServiceRole(role: RequestSchemas.ShareRole): Role {
    match role
    case Viewer => PermissionRole.Viewer
    case Editor => PermissionRole.Editor
  }

  lemma GatewayRoleAccepted(role: RequestSchemas.ShareRole)
    ensures PermissionRole.FromValue(Some(RequestSchemas.RoleName(role))) == Success(ServiceRole(role))
  {
    PermissionRole.LowerNameRoundTrip(ServiceRole(role));
  }

  // ---------------------------------------------------------------- the service over its tables

  /** A lookup in a table with one more row at the end finds what it found before, or the new row. */
  lemma {:induction false} FindAppended(documents: seq<Document>, d: Document, id: int)
    ensures FindDocument(documents + [d], id) ==
      if FindDocument(documents, id).Some? then FindDocument(documents, id)
      else if id == d.id then Some(d) else None
  {
    if documents != [] {
      assert (documents + [d])[1..] == documents[1..] + [d];
      FindAppended(documents[1..], d, id);
    }
  }

  /** The tables' invariant: ids are unique, ascending and below the identity counter; every
      owner and every permission holder has a user row; every permission names an existing
      document and never its owner. */
  predicate TablesValid(t: Tables, nextId: int) {
    && 1 <= nextId
    && IdsAscending(t.documents)
    && (forall i :: 0 <= i < |t.documents| ==> 1 <= t.documents[i].id < nextId && t.documents[i].ownerId in t.users)
    && (forall k :: k in t.permissions ==>
          k.1 in t.users && FindDocument(t.documents, k.0).Some? && FindDocument(t.documents, k.0).value.ownerId != k.1)
  }

  /** No row of valid tables carries the identity counter's value yet. */
  lemma CounterIsFresh(t: Tables, nextId: int)
    requires TablesValid(t, nextId)
    ensures forall k :: k in t.permissions ==> k.0 != nextId
    ensures forall d :: d in t.documents ==> d.id < nextId
  {
    forall k | k in t.permissions
      ensures k.0 != nextId
    {
      var i :| 0 <= i < |t.documents| && t.documents[i] == FindDocument(t.documents, k.0).value;
    }
  }

  lemma CreatedKeepsValid(t: Tables, nextId: int, actor: string, title: string, content: string)
    requires TablesValid(t, nextId)
    ensures forall k :: k in t.permissions ==> k.0 != nextId
    ensures TablesValid(Created(t, nextId, actor, title, content).tables, nextId + 1)
  {
    CounterIsFresh(t, nextId);
    var c := Created(t, nextId, actor, title, content);
    var d := Document(nextId, actor, title, content);
    forall k | k in t.permissions
      ensures FindDocument(c.tables.documents, k.0) == FindDocument(t.documents, k.0)
    {
      FindAppended(t.documents, d, k.0);
    }
    assert forall i :: 0 <= i < |t.documents| ==> t.documents[i] in t.documents;
  }

  /** An allowed edit, written out. */
  lemma UpdatedWhenAllowed(t: Tables, id: int, actor: string, title: Option<string>, content: Option<string>, d: Document)
    requires title.Some? || content.Some?
    requires FindDocument(t.documents, id) == Some(d) && CanEdit(d, t.permissions, actor)
    ensures var e := Edited(d, title, content);
      Updated(t, id, actor, title, content)
        == Change(Success(ToResponse(e, t.permissions)), t.(documents := Replaced(t.documents, e)), [UpdatedEvent(id, actor)])
  {
  }

  lemma UpdatedKeepsValid(t: Tables, nextId: int, id: int, actor: string, title: Option<string>, content: Option<string>)
    requires TablesValid(t, nextId)
    ensures TablesValid(Updated(t, id, actor, title, content).tables, nextId)
  {
    if Updated(t, id, actor, title, content).result.Success? {
      var d := FindDocument(t.documents, id).value;
      UpdatedWhenAllowed(t, id, actor, title, content, d);
      ReplacedKeepsValid(t, nextId, d, Edited(d, title, content));
    }
  }

  /** Overwriting a row with a row of the same id and owner keeps the tables valid. */
  lemma ReplacedKeepsValid(t: Tables, nextId: int, d: Document, e: Document)
    requires TablesValid(t, nextId)
    requires d in t.documents && e.id == d.id && e.ownerId == d.ownerId
    ensures TablesValid(t.(documents := Replaced(t.documents, e)), nextId)
  {
    var n := Replaced(t.documents, e);
    forall j | 0 <= j < |n|
      ensures 1 <= n[j].id < nextId && n[j].ownerId in t.users
    {
      if n[j] == e {
        assert d.ownerId in t.users;
      }
    }
    forall k | k in t.permissions
      ensures FindDocument(n, k.0).Some? && FindDocument(n, k.0).value.ownerId != k.1
    {
      FindReplaced(t.documents, e, k.0);
    }
  }

  lemma SharedKeepsValid(t: Tables, nextId: int, id: int, actor: string, target: string, role: Role)
    requires TablesValid(t, nextId)
    ensures TablesValid(Shared(t, id, actor, target, role).tables, nextId)
  {
  }

  class DocumentStore {
    var documents: seq<Document>
    var permissions: Permissions
    var users: map<string, string>
    /** The identity column's next value. */
    var nextId: int
    /** Every domain event published so far. */
    ghost var events: seq<DomainEvent>

    ghost predicate Valid()
      reads this
    {
      TablesValid(Snapshot(), nextId)
    }

    function Snapshot(): Tables
      reads this
    {
      Tables(documents, permissions, users)
    }

    constructor()
      ensures Valid()
      ensures Snapshot() == Tables([], map[], map[]) && nextId == 1 && events == []
    {
      documents := [];
      permissions := map[];
      users := map[];
      nextId := 1;
      events := [];
    }

    /** getOrCreateUser. */
    method GetOrCreateUser(userId: string)
      modifies this
      ensures users == WithUser(old(users), userId)
      ensures documents == old(documents) && permissions == old(permissions) && nextId == old(nextId) && events == old(events)
    {
      if userId !in users {
        users := users[userId := userId + EmailDomain];
      }
    }

    method CreateDocument(actor: string, title: string, content: string) returns (r: DocumentResponse)
      requires Valid()
      modifies this
      ensures Valid()
      ensures
        var c := Created(old(Snapshot()), old(nextId), actor, title, content);
        Success(r) == c.result && Snapshot() == c.tables && events == old(events) + c.events
      ensures nextId == old(nextId) + 1
    {
      ghost var before := Snapshot();
      CreatedKeepsValid(before, nextId, actor, title, content);
      GetOrCreateUser(actor);
      var d := Document(nextId, actor, title, content);
      documents := documents + [d];
      nextId := nextId + 1;
      events := events + [CreatedEvent(d.id, actor)];
      r := ToResponse(d, permissions);
      assert Snapshot() == Created(before, d.id, actor, title, content).tables;
    }

    method GetDocument(id: int, actor: string) returns (r: Result<DocumentResponse, ApiError>)
      ensures r == Fetched(Snapshot(), id, actor)
    {
      var found := DocumentOrNotFound(documents, id);
      if found.Failure? {
        return Failure(found.error);
      }
      var d := found.value;
      if !CanRead(d, permissions, actor) {
        return Failure(Forbidden(ForbiddenMessage));
      }
      r := Success(ToResponse(d, permissions));
    }

    method ListVisibleDocuments(actor: string) returns (r: seq<DocumentResponse>)
      ensures r == VisibleListing(Snapshot(), actor)
    {
      var visible := FindVisibleDocuments(documents, permissions, actor);
      r := [];
      var i := 0;
      while i < |visible|
        invariant 0 <= i <= |visible|
        invariant r == VisibleListing(Snapshot(), actor)[..i]
      {
        r := r + [ToResponse(visible[i], permissions)];
        i := i + 1;
      }
    }

    method UpdateDocument(id: int, actor: string, title: Option<string>, content: Option<string>)
      returns (r: Result<DocumentResponse, ApiError>)
      requires Valid()
      modifies this
      ensures Valid()
      ensures
        var c := Updated(old(Snapshot()), id, actor, title, content);
        r == c.result && Snapshot() == c.tables && events == old(events) + c.events
      ensures nextId == old(nextId)
    {
      ghost var before := Snapshot();
      UpdatedKeepsValid(before, nextId, id, actor, title, content);
      var checked := EditableOrError(Snapshot(), id, actor, title, content);
      if checked.Failure? {
        return Failure(checked.error);
      }
      var original := checked.value;
      var d := original;
      if title.Some? {
        d := d.(title := title.value);
      }
      if content.Some? {
        d := d.(content := content.value);
      }
      assert d == Edited(original, title, content);
      UpdatedWhenAllowed(before, id, actor, title, content, original);
      r := Overwrite(d, [UpdatedEvent(id, actor)]);
    }

    /** The writes of an allowed edit: the row with the edited document's id, then the event. */
    method Overwrite(d: Document, published: seq<DomainEvent>) returns (r: Result<DocumentResponse, ApiError>)
      modifies this
      ensures Snapshot() == old(Snapshot()).(documents := Replaced(old(documents), d))
      ensures r == Success(ToResponse(d, permissions))
      ensures events == old(events) + published && nextId == old(nextId)
    {
      documents := Replaced(documents, d);
      events := events + published;
      r := Success(ToResponse(d, permissions));
    }

    /** The writes of an allowed share: the target's user row, the permission, then the events. */
    method Grant(d: Document, target: string, role: Role, published: seq<DomainEvent>)
      returns (r: Result<DocumentResponse, ApiError>)
      modifies this
      ensures Snapshot() == Tables(old(documents), old(permissions)[(d.id, target) := role], WithUser(old(users), target))
      ensures r == Success(ToResponse(d, permissions))
      ensures events == old(events) + published && nextId == old(nextId)
    {
      GetOrCreateUser(target);
      permissions := permissions[(d.id, target) := role];
      r := Success(ToResponse(d, permissions));
      events := events + published;
    }

    method ShareDocument(id: int, actor: string, target: string, role: Role)
      returns (r: Result<DocumentResponse, ApiError>)
      requires Valid()
      modifies this
      ensures Valid()
      ensures
        var c := Shared(old(Snapshot()), id, actor, target, role);
        r == c.result && Snapshot() == c.tables && events == old(events) + c.events
      ensures nextId == old(nextId)
    {
      ghost var before := Snapshot();
      SharedKeepsValid(before, nextId, id, actor, target, role);
      var checked := ShareableOrError(Snapshot(), id, actor, target);
      if checked.Failure? {
        return Failure(checked.error);
      }
      var d := checked.value;
      SharedWhenAllowed(before, id, actor, target, role, d);
      r := Grant(d, target, role, [SharingEvent("document.shared", id, actor, target, role),
                                   SharingEvent("permission.changed", id, actor, target, role)]);
    }
  }
}
