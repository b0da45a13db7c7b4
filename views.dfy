/**
 * The snippet handlers over a store object that holds the snippet table and
 * changes it in place: each handler branches on the request method, and a
 * successful save inserts or overwrites a row, a delete removes one.
 */
module Views {
  import opened Wrappers
  import opened Fields
  import opened Serializer
  import opened StoreSpec
  import opened StoreProperties

  class SnippetStore {
    var table: map<int, Snippet>
    var order: seq<int>
    var nextId: int
    /** The language and style choices the schema's choice fields accept. */
    const languages: set<string>
    const styles: set<string>

    function State(): Db
      reads this
    {
      Db(table, order, nextId)
    }

    ghost predicate Valid()
      reads this
    {
      DbValid(State(), languages, styles) && ChoicesIncludeDefaults(languages, styles)
    }

    constructor (languages: set<string>, styles: set<string>)
      requires ChoicesIncludeDefaults(languages, styles)
      ensures Valid() && State() == EmptyDb
      ensures this.languages == languages && this.styles == styles
    {
      table, order, nextId := map[], [], 1;
      this.languages, this.styles := languages, styles;
    }

    /** Inserts a row built from validated data under the next id and returns it. */
    method Insert(d: Data, owner: Option<User>) returns (row: Snippet)
      requires Valid()
      modifies this
      ensures row == NewRecord(old(nextId), d, owner)
      ensures State() == Db(old(table)[old(nextId) := row], old(order) + [old(nextId)], old(nextId) + 1)
    {
      row := NewRecord(nextId, d, owner);
      table := table[nextId := row];
      order := order + [nextId];
      nextId := nextId + 1;
    }

    /** Writes an instance back to its row. */
    method Save(instance: SnippetInstance)
      modifies this
      ensures State() == old(State()).(table := old(table)[instance.id := instance.Row()])
    {
      table := table[instance.id := instance.Row()];
    }

    /** Removes a row. */
    method Remove(id: int)
      modifies this
      ensures State() == old(State()).(table := old(table) - {id}, order := Without(old(order), id))
    {
      table := table - {id};
      order := Without(order, id);
    }

    /** Validates a payload in full and, when it is valid, creates the row it
        describes with the given owner. */
    method CreateFrom(payload: Payload, owner: Option<User>) returns (resp: Response)
      requires Valid()
      modifies this
      ensures (State(), resp) == Create(old(State()), payload, owner, languages, styles)
    {
      ghost var before := State();
      var result := Validate(payload, languages, styles, false);
      if result.Success? {
        var row := Insert(result.value, owner);
        assert State() == Append(before, row);
        resp := Response(StatusCreated, Record(Project(row)));
        assert (State(), resp) == Create(before, payload, owner, languages, styles);
      } else {
        resp := Response(StatusBadRequest, ValidationErrors(result.error));
      }
    }

    /** Validates a payload in full against the row `id` and, when it is valid,
        updates that row field by field through an instance and saves it. */
    method ReplaceFrom(id: int, payload: Payload) returns (resp: Response)
      requires Valid() && id in table
      modifies this
      ensures (State(), resp) == Replace(old(State()), id, payload, languages, styles)
    {
      var result := Validate(payload, languages, styles, false);
      if result.Success? {
        var instance := new SnippetInstance.Load(table[id]);
        instance.Update(result.value);
        Save(instance);
        resp := Response(StatusOk, Record(Project(instance.Row())));
      } else {
        resp := Response(StatusBadRequest, ValidationErrors(result.error));
      }
    }

    /** The plain list handler. */
    method SnippetListVanilla(req: Request) returns (resp: Response)
      requires Valid()
      modifies this
      ensures Valid()
      ensures (State(), resp) == ListVanilla(old(State()), req, languages, styles)
    {
      ListHandlersKeepInvariant(State(), req, languages, styles);
      match req.verb {
        case GET =>
          resp := Response(StatusOk, Records(ProjectAll(Rows(table, order))));
        case POST =>
          resp := CreateFrom(req.payload, None);
        case _ =>
          resp := NoResponse;
      }
    }

    /** The API-view list handler. */
    method SnippetListApi(req: Request) returns (resp: Response)
      requires Valid()
      modifies this
      ensures Valid()
      ensures (State(), resp) == ListApi(old(State()), req, languages, styles)
    {
      ListHandlersKeepInvariant(State(), req, languages, styles);
      match req.verb {
        case GET =>
          resp := Response(StatusOk, Records(ProjectAll(Rows(table, order))));
        case POST =>
          resp := CreateFrom(req.payload, None);
        case OPTIONS =>
          resp := Response(StatusOk, Metadata);
        case _ =>
          resp := Response(StatusMethodNotAllowed, MethodNotAllowed(req.verb));
      }
    }

    /** The create step of the authenticated list views: the row's owner is the
        requesting user. */
    method PerformCreate(payload: Payload, user: User) returns (resp: Response)
      requires Valid()
      modifies this
      ensures Valid()
      ensures (State(), resp) == CreateOwned(old(State()), payload, user, languages, styles)
    {
      CreateOwnedKeepsInvariant(State(), payload, user, languages, styles);
      resp := CreateFrom(payload, Some(user));
    }

    /** The plain detail handler. */
    method SnippetDetailVanilla(id: int, req: Request) returns (resp: Response)
      requires Valid()
      modifies this
      ensures Valid()
      ensures (State(), resp) == DetailVanilla(old(State()), id, req, languages, styles)
    {
      DetailHandlersKeepInvariant(State(), id, req, languages, styles);
      if id !in table {
        return Response(StatusNotFound, NoContent);
      }
      match req.verb {
        case GET =>
          resp := Response(StatusOk, Record(Project(table[id])));
        case PUT =>
          resp := ReplaceFrom(id, req.payload);
        case DELETE =>
          Remove(id);
          resp := Response(StatusNoContent, NoContent);
        case _ =>
          resp := NoResponse;
      }
    }

    /** The API-view detail handler. */
    method SnippetDetailApi(id: int, req: Request) returns (resp: Response)
      requires Valid()
      modifies this
      ensures Valid()
      ensures (State(), resp) == DetailApi(old(State()), id, req, languages, styles)
    {
      DetailHandlersKeepInvariant(State(), id, req, languages, styles);
      if req.verb == OPTIONS {
        resp := Response(StatusOk, Metadata);
      } else if req.verb !in {GET, PUT, DELETE} {
        resp := Response(StatusMethodNotAllowed, MethodNotAllowed(req.verb));
      } else if id !in table {
        resp := Response(StatusNotFound, NoContent);
      } else if req.verb == GET {
        resp := Response(StatusOk, Record(Project(table[id])));
      } else if req.verb == PUT {
        resp := ReplaceFrom(id, req.payload);
      } else {
        Remove(id);
        resp := Response(StatusNoContent, NoContent);
      }
    }
  }
}
