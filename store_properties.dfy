/**
 * Properties of the snippet handlers: status codes, what each operation
 * changes and what it leaves alone, the listing, owner assignment, and the
 * store invariant every handler keeps.
 */
module StoreProperties {
  import opened Wrappers
  import opened Text
  import opened Fields
  import opened Serializer
  import opened SerializerProperties
  import opened StoreSpec

  // The creation order.

  /** Removing `x` keeps exactly the other elements, and keeps them increasing. */
  lemma {:induction false} WithoutSpec(s: seq<int>, x: int)
    ensures forall y :: y in Without(s, x) <==> y in s && y != x
    ensures Increasing(s) ==> Increasing(Without(s, x))
  {
    if s != [] {
      var tail := Without(s[1..], x);
      WithoutSpec(s[1..], x);
      assert forall y :: y in s <==> y == s[0] || y in s[1..];
      if Increasing(s) && s[0] != x {
        forall k | 0 <= k < |tail| ensures s[0] < tail[k] {
          assert tail[k] in s[1..];
          var j :| 0 <= j < |s[1..]| && s[1..][j] == tail[k];
          assert s[j + 1] == tail[k];
        }
        assert Without(s, x) == [s[0]] + tail;
      }
    }
  }

  /** The elements of an increasing sequence are as many as its length. */
  lemma {:induction false} IncreasingCard(s: seq<int>)
    requires Increasing(s)
    ensures |set x | x in s| == |s|
  {
    if s != [] {
      IncreasingCard(s[1..]);
      var rest := set x | x in s[1..];
      assert s[0] !in rest;
      assert (set x | x in s) == {s[0]} + rest;
    }
  }

  /** When every id is in the table, `Rows` is the table read at each id. */
  lemma {:induction false} RowsAt(table: map<int, Snippet>, ids: seq<int>)
    requires forall i :: 0 <= i < |ids| ==> ids[i] in table
    ensures |Rows(table, ids)| == |ids|
    ensures forall i :: 0 <= i < |ids| ==> Rows(table, ids)[i] == table[ids[i]]
  {
    if ids != [] {
      RowsAt(table, ids[1..]);
    }
  }

  // list

  /** The creation order has one entry per stored row. */
  lemma OrderLengthIsTableSize(db: Db, languages: set<string>, styles: set<string>)
    requires DbValid(db, languages, styles)
    ensures |db.order| == |db.table|
  {
    IncreasingCard(db.order);
    var ids := set x | x in db.order;
    forall x ensures x in ids <==> x in db.table.Keys {
      if x in db.order {
        var i :| 0 <= i < |db.order| && db.order[i] == x;
      }
    }
    assert ids == db.table.Keys;
    assert |db.table.Keys| == |db.table|;
  }

  /** The listing holds exactly the stored rows: one entry per row, each the
      projection of a row of the table, every row present, in increasing id
      (that is, creation) order. */
  lemma ListingIsTheStore(db: Db, languages: set<string>, styles: set<string>)
    requires DbValid(db, languages, styles)
    ensures var rows := Rows(db.table, db.order);
            && |Listing(db)| == |rows| == |db.table|
            && (forall i :: 0 <= i < |rows| ==> rows[i] in db.table.Values && Listing(db)[i] == Project(rows[i]))
            && (forall id :: id in db.table ==> db.table[id] in rows)
            && (forall i, j :: 0 <= i < j < |rows| ==> rows[i].id < rows[j].id)
  {
    var rows := Rows(db.table, db.order);
    RowsAt(db.table, db.order);
    OrderLengthIsTableSize(db, languages, styles);
    assert Listing(db) == ProjectAll(rows);
    forall i | 0 <= i < |rows| ensures Listing(db)[i] == Project(rows[i]) {
      assert ProjectAll(rows)[i] == Project(rows[i]);
    }
    forall i | 0 <= i < |rows| ensures rows[i] in db.table.Values {
      assert rows[i] == db.table[db.order[i]];
    }
    forall id | id in db.table ensures db.table[id] in rows {
      var i :| 0 <= i < |db.order| && db.order[i] == id;
      assert rows[i] == db.table[id];
    }
    forall i, j | 0 <= i < j < |rows| ensures rows[i].id < rows[j].id {
      assert rows[i].id == db.order[i] && rows[j].id == db.order[j];
    }
  }

  /** A GET on either list handler changes nothing and answers 200 with the listing. */
  lemma ListGet(db: Db, req: Request, languages: set<string>, styles: set<string>)
    requires req.verb == GET
    ensures ListVanilla(db, req, languages, styles) == (db, Response(StatusOk, Records(Listing(db))))
    ensures ListApi(db, req, languages, styles) == (db, Response(StatusOk, Records(Listing(db))))
  {
  }

  // create

  /** A create whose payload fails validation answers 400 with the errors and
      leaves the store as it was. */
  lemma InvalidCreateChangesNothing(db: Db, p: Payload, owner: Option<User>, languages: set<string>, styles: set<string>)
    requires Validate(p, languages, styles, false).Failure?
    ensures Create(db, p, owner, languages, styles)
            == (db, Response(StatusBadRequest, ValidationErrors(Validate(p, languages, styles, false).error)))
  {
  }

  /** A create whose payload validates answers 201 with the new row; the store
      gains exactly that row, under an id it did not hold, and every existing
      row is untouched. */
  lemma ValidCreateAddsOneRow(db: Db, p: Payload, owner: Option<User>, languages: set<string>, styles: set<string>)
    requires DbValid(db, languages, styles) && ChoicesIncludeDefaults(languages, styles)
    requires Validate(p, languages, styles, false).Success?
    ensures var after := Create(db, p, owner, languages, styles).0;
            var row := NewRecord(db.nextId, Validate(p, languages, styles, false).value, owner);
            && Create(db, p, owner, languages, styles).1 == Response(StatusCreated, Record(Project(row)))
            && db.nextId !in db.table
            && after.table.Keys == db.table.Keys + {db.nextId}
            && |after.table| == |db.table| + 1
            && after.table[db.nextId] == row
            && (forall id :: id in db.table ==> after.table[id] == db.table[id])
            && DbValid(after, languages, styles)
  {
    var row := NewRecord(db.nextId, Validate(p, languages, styles, false).value, owner);
    CreatedRecordWellFormed(p, languages, styles, db.nextId, owner);
    AppendKeepsValid(db, row, languages, styles);
  }

  /** Saving a well-formed row under the next id keeps the store valid and
      adds exactly that one row. */
  lemma AppendKeepsValid(db: Db, row: Snippet, languages: set<string>, styles: set<string>)
    requires DbValid(db, languages, styles)
    requires row.id == db.nextId && WellFormed(row, languages, styles)
    ensures db.nextId !in db.table
    ensures Append(db, row).table.Keys == db.table.Keys + {db.nextId}
    ensures |Append(db, row).table| == |db.table| + 1
    ensures DbValid(Append(db, row), languages, styles)
  {
    var after := Append(db, row);
    forall i | 0 <= i < |after.order| ensures after.order[i] in after.table {
      if i < |db.order| { assert after.order[i] == db.order[i]; }
    }
    forall i, j | 0 <= i < j < |after.order| ensures after.order[i] < after.order[j] {
      if j < |db.order| {
        assert after.order[i] == db.order[i] && after.order[j] == db.order[j];
      } else {
        assert after.order[i] == db.order[i];
      }
    }
  }

  /** The new row's owner is the requesting user on the authenticated create
      path, and there is none on the plain one; the response shows it as the
      username, or not at all. */
  lemma CreateOwner(db: Db, p: Payload, user: User, languages: set<string>, styles: set<string>)
    requires Validate(p, languages, styles, false).Success?
    ensures CreateOwned(db, p, user, languages, styles).0.table[db.nextId].owner == Some(user)
    ensures CreateOwned(db, p, user, languages, styles).1.content.fields["owner"] == Str(user.username)
    ensures ListVanilla(db, Request(POST, p), languages, styles).0.table[db.nextId].owner == None
    ensures "owner" !in ListVanilla(db, Request(POST, p), languages, styles).1.content.fields
  {
  }

  // retrieve, update, delete

  /** An id that is not stored answers 404 and changes nothing: on the plain
      detail handler for every method, on the API-view one for GET, PUT and
      DELETE. */
  lemma UnknownIdNotFound(db: Db, id: int, req: Request, languages: set<string>, styles: set<string>)
    requires id !in db.table
    ensures DetailVanilla(db, id, req, languages, styles) == (db, Response(StatusNotFound, NoContent))
    ensures req.verb in {GET, PUT, DELETE} ==>
            DetailApi(db, id, req, languages, styles) == (db, Response(StatusNotFound, NoContent))
  {
  }

  /** A GET of a stored id answers 200 with that row's representation and
      changes nothing, on both detail handlers. */
  lemma KnownIdGet(db: Db, id: int, req: Request, languages: set<string>, styles: set<string>)
    requires id in db.table && req.verb == GET
    ensures DetailVanilla(db, id, req, languages, styles) == (db, Response(StatusOk, Record(Project(db.table[id]))))
    ensures DetailApi(db, id, req, languages, styles) == (db, Response(StatusOk, Record(Project(db.table[id]))))
  {
  }

  /** A PUT whose payload validates answers 200 with the updated row, which
      replaces that id's row only; the id set, the creation order and every other
      row are unchanged. */
  lemma ValidReplaceUpdatesOnlyTarget(db: Db, id: int, p: Payload, languages: set<string>, styles: set<string>)
    requires DbValid(db, languages, styles) && ChoicesIncludeDefaults(languages, styles)
    requires id in db.table
    requires Validate(p, languages, styles, false).Success?
    ensures var r := DetailVanilla(db, id, Request(PUT, p), languages, styles);
            var row := ApplyUpdate(db.table[id], Validate(p, languages, styles, false).value);
            && r.1 == Response(StatusOk, Record(Project(row)))
            && r.0.table.Keys == db.table.Keys && r.0.order == db.order
            && r.0.table[id] == row && row.id == id && row.owner == db.table[id].owner
            && (forall other :: other in db.table && other != id ==> r.0.table[other] == db.table[other])
            && DbValid(r.0, languages, styles)
  {
    var row := ApplyUpdate(db.table[id], Validate(p, languages, styles, false).value);
    UpdatePreservesWellFormed(db.table[id], p, languages, styles, false);
    assert DetailVanilla(db, id, Request(PUT, p), languages, styles)
        == (db.(table := db.table[id := row]), Response(StatusOk, Record(Project(row))));
    OverwriteKeepsValid(db, id, row, languages, styles);
  }

  /** Overwriting a stored row with a well-formed row of the same id keeps the
      store valid. */
  lemma OverwriteKeepsValid(db: Db, id: int, row: Snippet, languages: set<string>, styles: set<string>)
    requires DbValid(db, languages, styles)
    requires id in db.table && row.id == id && WellFormed(row, languages, styles)
    ensures DbValid(db.(table := db.table[id := row]), languages, styles)
  {
    var after := db.(table := db.table[id := row]);
    assert after.table.Keys == db.table.Keys;
  }

  /** A PUT whose payload fails validation answers 400 with the errors and
      leaves the store, the targeted row included, as it was. */
  lemma InvalidReplaceChangesNothing(db: Db, id: int, p: Payload, languages: set<string>, styles: set<string>)
    requires id in db.table
    requires Validate(p, languages, styles, false).Failure?
    ensures DetailVanilla(db, id, Request(PUT, p), languages, styles)
            == (db, Response(StatusBadRequest, ValidationErrors(Validate(p, languages, styles, false).error)))
  {
  }

  /** Putting back a stored row's own representation changes nothing and
      answers with that same representation. */
  lemma PutBackRepresentation(db: Db, id: int, languages: set<string>, styles: set<string>)
    requires DbValid(db, languages, styles)
    requires id in db.table
    ensures DetailVanilla(db, id, Request(PUT, Object(Project(db.table[id]))), languages, styles)
            == (db, Response(StatusOk, Record(Project(db.table[id]))))
  {
    RoundTrip(db.table[id], languages, styles);
    assert db.table[db.table[id].id := db.table[id]] == db.table;
  }

  /** A DELETE answers 204 and removes the id alone; a later retrieve of that id
      answers 404. */
  lemma DeleteThenNotFound(db: Db, id: int, p: Payload, q: Payload, languages: set<string>, styles: set<string>)
    requires DbValid(db, languages, styles)
    requires id in db.table
    ensures var r := DetailVanilla(db, id, Request(DELETE, p), languages, styles);
            && r.1 == Response(StatusNoContent, NoContent)
            && r.0.table.Keys == db.table.Keys - {id}
            && (forall other :: other in r.0.table ==> r.0.table[other] == db.table[other])
            && DbValid(r.0, languages, styles)
            && DetailVanilla(r.0, id, Request(GET, q), languages, styles) == (r.0, Response(StatusNotFound, NoContent))
  {
    WithoutSpec(db.order, id);
    var after := Without(db.order, id);
    forall i | 0 <= i < |after| ensures after[i] in db.table && after[i] != id {
      assert after[i] in after;
      var k :| 0 <= k < |db.order| && db.order[k] == after[i];
    }
  }

  // the invariant

  /** Both list handlers keep the store invariant. */
  lemma ListHandlersKeepInvariant(db: Db, req: Request, languages: set<string>, styles: set<string>)
    requires DbValid(db, languages, styles) && ChoicesIncludeDefaults(languages, styles)
    ensures DbValid(ListVanilla(db, req, languages, styles).0, languages, styles)
    ensures DbValid(ListApi(db, req, languages, styles).0, languages, styles)
  {
    if Validate(req.payload, languages, styles, false).Success? {
      ValidCreateAddsOneRow(db, req.payload, None, languages, styles);
    }
  }

  /** The authenticated create keeps the store invariant. */
  lemma CreateOwnedKeepsInvariant(db: Db, p: Payload, user: User, languages: set<string>, styles: set<string>)
    requires DbValid(db, languages, styles) && ChoicesIncludeDefaults(languages, styles)
    ensures DbValid(CreateOwned(db, p, user, languages, styles).0, languages, styles)
  {
    if Validate(p, languages, styles, false).Success? {
      ValidCreateAddsOneRow(db, p, Some(user), languages, styles);
    }
  }

  /** The example scenario: a create with only code into an empty store gives
      row 1 with the empty title, no line numbers, the default language and
      style and no owner; a delete of it answers 204 and a retrieve afterwards 404. */
  lemma ExampleScenario(languages: set<string>, styles: set<string>)
    requires ChoicesIncludeDefaults(languages, styles)
    ensures var code := "print('hi')";
            var created := ListVanilla(EmptyDb, Request(POST, Object(map["code" := Str(code)])), languages, styles);
            var row := Snippet(1, "", code, false, DefaultLanguage, DefaultStyle, None);
            var deleted := DetailVanilla(created.0, 1, Request(DELETE, NonObject), languages, styles);
            && created.0.table == map[1 := row]
            && created.1 == Response(StatusCreated, Record(Project(row)))
            && deleted.1 == Response(StatusNoContent, NoContent)
            && DetailVanilla(deleted.0, 1, Request(GET, NonObject), languages, styles).1 == Response(StatusNotFound, NoContent)
  {
    var row := Snippet(1, "", "print('hi')", false, DefaultLanguage, DefaultStyle, None);
    ExampleCreate(languages, styles);
    var created := Append(EmptyDb, row);
    assert created.table == map[1 := row] && created.order == [1];
    assert Without(created.order, 1) == [];
  }

  /** The create step of the example scenario. */
  lemma ExampleCreate(languages: set<string>, styles: set<string>)
    requires ChoicesIncludeDefaults(languages, styles)
    ensures var code := "print('hi')";
            var row := Snippet(1, "", code, false, DefaultLanguage, DefaultStyle, None);
            ListVanilla(EmptyDb, Request(POST, Object(map["code" := Str(code)])), languages, styles)
              == (Append(EmptyDb, row), Response(StatusCreated, Record(Project(row))))
  {
    var code := "print('hi')";
    var m := map["code" := Str(code)];
    StripStripped(code);
    assert TitleField(m, false) == Skip && LinenosField(m) == Skip;
    assert CodeField(m, false) == Valid(code);
    assert LanguageField(m, languages, false) == Valid(DefaultLanguage);
    assert StyleField(m, styles, false) == Valid(DefaultStyle);
    var d := Data(None, Some(code), None, Some(DefaultLanguage), Some(DefaultStyle));
    assert Validate(Object(m), languages, styles, false) == Success(d);
    assert NewRecord(1, d, None) == Snippet(1, "", code, false, DefaultLanguage, DefaultStyle, None);
  }

  /** Both detail handlers keep the store invariant. */
  lemma DetailHandlersKeepInvariant(db: Db, id: int, req: Request, languages: set<string>, styles: set<string>)
    requires DbValid(db, languages, styles) && ChoicesIncludeDefaults(languages, styles)
    ensures DbValid(DetailVanilla(db, id, req, languages, styles).0, languages, styles)
    ensures DbValid(DetailApi(db, id, req, languages, styles).0, languages, styles)
  {
    if id in db.table {
      if req.verb == PUT && Validate(req.payload, languages, styles, false).Success? {
        ValidReplaceUpdatesOnlyTarget(db, id, req.payload, languages, styles);
      } else if req.verb == DELETE {
        DeleteThenNotFound(db, id, req.payload, req.payload, languages, styles);
      }
    }
  }

  // The function views as written.

  /** As written, a valid create or replace through the function views saves
      the row exactly as intended, yet answers with a server error where 201 or
      200 is intended. */
  lemma AsWrittenSavesThenFails(db: Db, id: int, p: Payload, owner: Option<User>,
                                languages: set<string>, styles: set<string>)
    requires Validate(p, languages, styles, false).Success?
    ensures CreateAsWritten(db, p, owner, languages, styles).0 == Create(db, p, owner, languages, styles).0
    ensures CreateAsWritten(db, p, owner, languages, styles).1.status == StatusServerError
    ensures Create(db, p, owner, languages, styles).1.status == StatusCreated
    ensures id in db.table ==>
              && ReplaceAsWritten(db, id, p, languages, styles).0 == Replace(db, id, p, languages, styles).0
              && ReplaceAsWritten(db, id, p, languages, styles).1.status == StatusServerError
              && Replace(db, id, p, languages, styles).1.status == StatusOk
  {
  }

  /** The example create, as written: row 1 is stored, and the answer is a
      server error instead of 201. */
  lemma ExampleCreateAsWritten(languages: set<string>, styles: set<string>)
    requires ChoicesIncludeDefaults(languages, styles)
    ensures var p := Object(map["code" := Str("print('hi')")]);
            var r := CreateAsWritten(EmptyDb, p, None, languages, styles);
            && r.0.table == map[1 := Snippet(1, "", "print('hi')", false, DefaultLanguage, DefaultStyle, None)]
            && r.1.status == StatusServerError
            && ListVanilla(EmptyDb, Request(POST, p), languages, styles).1.status == StatusCreated
  {
    ExampleCreate(languages, styles);
  }
}
