/**
 * The snippet handlers as functions of the store's state: the request is its
 * method and parsed payload, the response its status and content, and each
 * handler gives the next state of the store together with the response.
 */
module StoreSpec {
  import opened Wrappers
  import opened Fields
  import opened Serializer

  datatype HttpMethod = GET | POST | PUT | DELETE | OPTIONS | OtherMethod(name: string)

  datatype Request = Request(verb: HttpMethod, payload: Payload)

  datatype Content =
    | NoContent
    | Record(fields: Representation)
    | Records(items: seq<Representation>)
    | ValidationErrors(errors: Errors)
    | Metadata                    // the framework's answer to OPTIONS
    | MethodNotAllowed(verb: HttpMethod)

  /** `NoResponse` is what a plain handler gives for a method it has no branch
      for: it returns nothing, which the web framework turns into a server error. */
  datatype Response = Response(status: int, content: Content) | NoResponse

  const StatusOk := 200
  const StatusCreated := 201
  const StatusNoContent := 204
  const StatusBadRequest := 400
  const StatusNotFound := 404
  const StatusMethodNotAllowed := 405

  /** The snippet table: rows by id, the ids in creation order, and the id the
      next created row receives. */
  datatype Db = Db(table: map<int, Snippet>, order: seq<int>, nextId: int)

  const EmptyDb := Db(map[], [], 1)

  predicate Increasing(s: seq<int>) {
    forall i, j :: 0 <= i < j < |s| ==> s[i] < s[j]
  }

  /** The defaults of the two choice fields are among their choices. */
  predicate ChoicesIncludeDefaults(languages: set<string>, styles: set<string>) {
    DefaultLanguage in languages && DefaultStyle in styles
  }

  /** The store's invariant: every row is stored under its own id, which is
      positive and below the next id; every row is well formed; and the creation
      order lists every id of the table once, in increasing order. */
  ghost predicate DbValid(db: Db, languages: set<string>, styles: set<string>) {
    && db.nextId >= 1
    && (forall id :: id in db.table ==> db.table[id].id == id && 1 <= id < db.nextId)
    && (forall id :: id in db.table ==> WellFormed(db.table[id], languages, styles))
    && Increasing(db.order)
    && (forall i :: 0 <= i < |db.order| ==> db.order[i] in db.table)
    && (forall id :: id in db.table ==> id in db.order)
  }

  /** The rows of `ids` that are in the table, in the order of `ids`. */
  function Rows(table: map<int, Snippet>, ids: seq<int>): seq<Snippet> {
    if ids == [] then []
    else (if ids[0] in table then [table[ids[0]]] else []) + Rows(table, ids[1..])
  }

  /** The representation of each row, in order. */
  function ProjectAll(rows: seq<Snippet>): seq<Representation> {
    seq(|rows|, i requires 0 <= i < |rows| => Project(rows[i]))
  }

  /** `s` without `x`. */
  function Without(s: seq<int>, x: int): seq<int> {
    if s == [] then []
    else (if s[0] == x then [] else [s[0]]) + Without(s[1..], x)
  }

  /** The listing: every row, projected, in creation order. */
  function Listing(db: Db): seq<Representation> {
    ProjectAll(Rows(db.table, db.order))
  }

  // The operations each handler is built from.

  /** The store with `row` saved under the next id, last in creation order. */
  function Append(db: Db, row: Snippet): Db {
    Db(db.table[db.nextId := row], db.order + [db.nextId], db.nextId + 1)
  }

  /** Create: validate the payload in full; on success the store gains the new
      row under the next id and the answer is 201 with its representation, on
      failure the answer is 400 with the errors and the store is unchanged. */
  function Create(db: Db, payload: Payload, owner: Option<User>,
                  languages: set<string>, styles: set<string>): (r: (Db, Response))
    ensures r.1.Response? && r.1.status == if Validate(payload, languages, styles, false).Success?
                                           then StatusCreated else StatusBadRequest
    ensures r.1.status == StatusBadRequest <==> r.0 == db
    ensures r.1.status == StatusCreated ==> r.0.table.Keys == db.table.Keys + {db.nextId}
                                            && db.nextId in r.0.table
                                            && r.0.table[db.nextId].owner == owner
                                            && r.0.nextId == db.nextId + 1
  {
    match Validate(payload, languages, styles, false)
    case Success(d) =>
      var row := NewRecord(db.nextId, d, owner);
      (Append(db, row), Response(StatusCreated, Record(Project(row))))
    case Failure(e) => (db, Response(StatusBadRequest, ValidationErrors(e)))
  }

  /** Replace (PUT): validate the payload in full against the existing row; on
      success that row is updated and the answer is 200 with its new
      representation, on failure 400 with the errors and nothing changes. */
  function Replace(db: Db, id: int, payload: Payload,
                   languages: set<string>, styles: set<string>): (r: (Db, Response))
    requires id in db.table
    ensures r.1.Response? && r.1.status == if Validate(payload, languages, styles, false).Success?
                                           then StatusOk else StatusBadRequest
    ensures r.0.table.Keys == db.table.Keys && r.0.order == db.order && r.0.nextId == db.nextId
    ensures r.0.table[id].id == db.table[id].id && r.0.table[id].owner == db.table[id].owner
  {
    match Validate(payload, languages, styles, false)
    case Success(d) =>
      var row := ApplyUpdate(db.table[id], d);
      (db.(table := db.table[id := row]), Response(StatusOk, Record(Project(row))))
    case Failure(e) => (db, Response(StatusBadRequest, ValidationErrors(e)))
  }

  /** Delete: the row leaves the table and the creation order; the answer is 204. */
  function Delete(db: Db, id: int): (r: (Db, Response))
    ensures r.1 == Response(StatusNoContent, NoContent)
    ensures r.0.table.Keys == db.table.Keys - {id} && r.0.nextId == db.nextId
    ensures forall other :: other in r.0.table ==> r.0.table[other] == db.table[other]
  {
    (db.(table := db.table - {id}, order := Without(db.order, id)), Response(StatusNoContent, NoContent))
  }

  // The handlers.

  /** The plain list handler: GET lists, POST creates a row with no owner, any
      other method gets no response. */
  function ListVanilla(db: Db, req: Request, languages: set<string>, styles: set<string>): (r: (Db, Response))
    ensures req.verb != POST ==> r.0 == db
    ensures r.1.NoResponse? <==> req.verb !in {GET, POST}
    ensures r.1.Response? ==> r.1.status in {StatusOk, StatusCreated, StatusBadRequest}
  {
    match req.verb
    case GET => (db, Response(StatusOk, Records(Listing(db))))
    case POST => Create(db, req.payload, None, languages, styles)
    case _ => (db, NoResponse)
  }

  /** The API-view list handler: as the plain one for GET and POST; OPTIONS is
      answered by the framework and every other method with 405. */
  function ListApi(db: Db, req: Request, languages: set<string>, styles: set<string>): (r: (Db, Response))
    ensures r.1.Response?
    ensures req.verb in {GET, POST} ==> r == ListVanilla(db, req, languages, styles)
    ensures req.verb !in {GET, POST} ==> r.0 == db
    ensures req.verb !in {GET, POST, OPTIONS} ==> r.1.status == StatusMethodNotAllowed
  {
    match req.verb
    case GET => ListVanilla(db, req, languages, styles)
    case POST => ListVanilla(db, req, languages, styles)
    case OPTIONS => (db, Response(StatusOk, Metadata))
    case _ => (db, Response(StatusMethodNotAllowed, MethodNotAllowed(req.verb)))
  }

  /** The plain detail handler: an unknown id is 404 whatever the method; GET
      retrieves, PUT replaces, DELETE deletes, any other method gets no response. */
  function DetailVanilla(db: Db, id: int, req: Request, languages: set<string>, styles: set<string>): (r: (Db, Response))
    ensures id !in db.table ==> r == (db, Response(StatusNotFound, NoContent))
    ensures req.verb !in {PUT, DELETE} ==> r.0 == db
    ensures r.0.table.Keys <= db.table.Keys
    ensures r.1.NoResponse? <==> id in db.table && req.verb !in {GET, PUT, DELETE}
  {
    if id !in db.table then (db, Response(StatusNotFound, NoContent))
    else match req.verb
      case GET => (db, Response(StatusOk, Record(Project(db.table[id]))))
      case PUT => Replace(db, id, req.payload, languages, styles)
      case DELETE => Delete(db, id)
      case _ => (db, NoResponse)
  }

  /** The API-view detail handler: the method is checked before the lookup, so
      OPTIONS and unsupported methods are answered without looking at the id. */
  function DetailApi(db: Db, id: int, req: Request, languages: set<string>, styles: set<string>): (r: (Db, Response))
    ensures r.1.Response?
    ensures req.verb in {GET, PUT, DELETE} ==> r == DetailVanilla(db, id, req, languages, styles)
    ensures req.verb !in {GET, PUT, DELETE} ==>
              r.0 == db && r.1.status == if req.verb == OPTIONS then StatusOk else StatusMethodNotAllowed
  {
    match req.verb
    case GET => DetailVanilla(db, id, req, languages, styles)
    case PUT => DetailVanilla(db, id, req, languages, styles)
    case DELETE => DetailVanilla(db, id, req, languages, styles)
    case OPTIONS => (db, Response(StatusOk, Metadata))
    case _ => (db, Response(StatusMethodNotAllowed, MethodNotAllowed(req.verb)))
  }

  /** Create on the authenticated paths: the new row's owner is the requesting user. */
  function CreateOwned(db: Db, payload: Payload, user: User,
                       languages: set<string>, styles: set<string>): (r: (Db, Response))
    ensures r.1.Response? && r.1.status == StatusCreated ==>
              db.nextId in r.0.table && r.0.table[db.nextId].owner == Some(user)
  {
    Create(db, payload, Some(user), languages, styles)
  }

  // The function views as written.

  const StatusServerError := 500

  /**
   * Create as the two function views perform it: their serializer is built
   * without the request in its context, so once the row is saved, rendering its
   * hyperlinked representation fails and the answer is a server error.
   */
  function CreateAsWritten(db: Db, payload: Payload, owner: Option<User>,
                           languages: set<string>, styles: set<string>): (r: (Db, Response))
    ensures r.0 == Create(db, payload, owner, languages, styles).0
    ensures r.1.Response? && r.1.status == if Validate(payload, languages, styles, false).Success?
                                           then StatusServerError else StatusBadRequest
  {
    match Validate(payload, languages, styles, false)
    case Success(d) => (Append(db, NewRecord(db.nextId, d, owner)), Response(StatusServerError, NoContent))
    case Failure(e) => (db, Response(StatusBadRequest, ValidationErrors(e)))
  }

  /** Replace as the two function views perform it: the row is saved, then
      rendering fails for the same reason and the answer is a server error. */
  function ReplaceAsWritten(db: Db, id: int, payload: Payload,
                            languages: set<string>, styles: set<string>): (r: (Db, Response))
    requires id in db.table
    ensures r.0 == Replace(db, id, payload, languages, styles).0
    ensures r.1.Response? && r.1.status == if Validate(payload, languages, styles, false).Success?
                                           then StatusServerError else StatusBadRequest
  {
    match Validate(payload, languages, styles, false)
    case Success(d) => (db.(table := db.table[id := ApplyUpdate(db.table[id], d)]), Response(StatusServerError, NoContent))
    case Failure(e) => (db, Response(StatusBadRequest, ValidationErrors(e)))
  }
}
