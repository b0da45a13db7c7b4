# Snippet API core, modelled in Dafny

This project models the core of a Django REST Framework tutorial service that
stores code snippets:

- **the snippet schema** (`SimpleSnippetSerializer`): how an inbound field map is
  validated field by field, how a new record is built from the validated data,
  and how an update overwrites only the supplied fields;
- **the read-only `owner` field** of the model serializers, shown as the owner's
  username;
- **the explicit request handlers** `snippet_list_vanilla`, `snippet_list`,
  `snippet_detail_vanilla` and `snippet_detail`, together with the owner
  assignment done by `perform_create` on the authenticated paths.

The framework behaviour the schema relies on (Django REST Framework 3.13) is
written out in Dafny:

- `CharField` trims surrounding whitespace, using Python's `str.isspace` set. It
  runs the blank test before the null test and collects the length and
  null-character errors together.
- `BooleanField` reads inputs through its tables of true and false values.
- `ChoiceField` compares the text of the input with the choices. When the field
  is absent and the validation is not partial, it returns the default without
  checking it.
- A body that is not a JSON object is rejected before any field is read, and so
  is a JSON `null` body.

Layout:

| file | module | contents |
|---|---|---|
| `wrappers.dfy` | `Wrappers` | `Option`, `Result` |
| `text.dfy` | `Text` | whitespace trimming, `str(int)` |
| `fields.dfy` | `Fields` | JSON values, field errors, the three field kinds |
| `serializer.dfy` | `Serializer` | the snippet schema, `create`, `update` (as a class whose fields are assigned one by one), the representation |
| `serializer_properties.dfy` | `SerializerProperties` | one lemma per field rule, create, update, round trip |
| `store_spec.dfy` | `StoreSpec` | the snippet table and each handler as a function from (store, request) to (store, response) |
| `store_properties.dfy` | `StoreProperties` | status codes, what each handler changes, listing, owner, store invariant |
| `views.dfy` | `Views` | a `SnippetStore` class whose handler methods change the table in place and are proved equal to the functions of `StoreSpec` |

The store is a map from id to snippet plus the creation order and the next id.
Each handler method of `Views.SnippetStore` keeps the store invariant. Its new
state and response are those the matching `StoreSpec` function gives. The
properties of those functions are proved in `StoreProperties`.

## Model

| member | source | states |
|---|---|---|
| Text.Strip | snippets/serializers.py:11-12 | the trimmed text has no leading or trailing whitespace and is no longer than the input |
| Text.StripSlice | snippets/serializers.py:11-12 | trimming removes only whitespace, from both ends, and keeps the middle as it was |
| Text.StripEmpty | snippets/serializers.py:12 | the trimmed text is empty exactly when the input is all whitespace |
| Text.StripKeeps | snippets/serializers.py:11-12 | trimming keeps exactly the non-whitespace characters present, the null character among them |
| Text.StripStripped | snippets/serializers.py:10-15 | a string without surrounding whitespace is left unchanged by trimming |
| Text.NatToDecimalValue | snippets/serializers.py:11-15 | the decimal digits of a natural number, read back as a decimal number, give that number |
| Text.IntToDecimal | snippets/serializers.py:11-15 | the text of an integer is non-empty and has no surrounding whitespace; it starts with a minus sign exactly for a negative number, every later character is a digit, and the first character is 0 only for zero |
| Text.IntToDecimalValue | snippets/serializers.py:11-15 | the text of a non-negative number is all digits and reads back as that number; after the minus sign, the text of a negative number reads back as its magnitude |
| Fields.TextOf | snippets/serializers.py:11-15 | a string is its own text; only an array or object has no text |
| Fields.CharField | snippets/serializers.py:11-12 | the field is skipped exactly when absent and not required (or partial); an accepted value is trimmed, holds no null character, respects the length limit, and is empty only when blank is allowed; a rejection carries errors |
| Fields.CharFieldEarlyErrors | snippets/serializers.py:11-12 | missing required input gets the required error; blank input becomes "" when blank is allowed and gets the blank error otherwise; null gets the null error; a boolean, array or object gets the invalid error |
| Fields.CharFieldText | snippets/serializers.py:11-12 | a non-blank string or number is accepted exactly when its trimmed text is within the length limit and the input holds no null character, and is then the trimmed text; otherwise the errors are the length error (when too long) followed by the null-character error (when present) |
| Fields.BooleanField | snippets/serializers.py:13 | an absent field is skipped; a supplied one is rejected exactly when it is neither a true nor a false input, and is read as true exactly for true inputs |
| Fields.ChoiceField | snippets/serializers.py:14-15 | an absent field gives the default unless the validation is partial; a supplied value is accepted exactly when its text is one of the choices, and is then that text |
| Serializer.TitleField | snippets/serializers.py:11 | an absent title is skipped; an accepted title is trimmed, at most 100 characters, without a null character |
| Serializer.CodeField | snippets/serializers.py:12 | absent code is skipped when partial and gets the required error otherwise; accepted code is trimmed, not empty, without a null character |
| Serializer.LinenosField | snippets/serializers.py:13 | `linenos` is skipped exactly when absent; accepted, it is true exactly for a true input |
| Serializer.LanguageField | snippets/serializers.py:14 | an absent language is "python" unless partial; a supplied accepted language is one of the languages |
| Serializer.StyleField | snippets/serializers.py:15 | an absent style is "friendly" unless partial; a supplied accepted style is one of the styles |
| Serializer.Combine | snippets/serializers.py:10-15 | the data is produced exactly when no field is rejected and holds each field's supplied value; otherwise every rejected field, and no other, is reported with its own errors |
| Serializer.Validate | snippets/serializers.py:9-15 | a JSON `null` body or a non-object is rejected as a whole; validated data satisfies every field rule; a failure reports at least one field, each with at least one error |
| Serializer.NewRecord | snippets/serializers.py:17-21 | the created record holds each supplied field as given, the record defaults for the others, the given id and owner |
| Serializer.ApplyUpdate | snippets/serializers.py:27-31 | an update overwrites exactly the supplied fields and keeps the rest, `id` and `owner` included |
| Serializer.Project | snippets/serializers.py:36-45 | the representation has `id`, the five writable fields and, when there is an owner, `owner` as the owner's username; each key holds the record's own value |
| Serializer.SnippetInstance.Load | snippets/views.py:137-138 | the loaded instance holds exactly the stored row |
| Serializer.SnippetInstance.Update | snippets/serializers.py:23-33 | after the assignments, the instance is the old row with each supplied field overwritten |
| SerializerProperties.ValidateByField | snippets/serializers.py:10-15 | validating an object rejects a field exactly when that field's own rule rejects it, with that field's errors; valid data holds each field's own value |
| SerializerProperties.TitleRule | snippets/serializers.py:11 | a string title is rejected exactly when its trimmed text is over 100 characters or it holds a null character; an over-long one gets the length error; a blank one becomes the empty title |
| SerializerProperties.TitleFieldRule | snippets/serializers.py:11 | the same rule for the title field alone |
| SerializerProperties.TitleAbsent | snippets/serializers.py:11 | an absent title is never an error and is left out of the data |
| SerializerProperties.CodeRequired | snippets/serializers.py:12 | on a create or full update, missing `code` fails with exactly the required-field error under `code` |
| SerializerProperties.CodeRule | snippets/serializers.py:12 | a string `code` is rejected exactly when it is blank or holds a null character (then with exactly the null-character error when not blank); accepted, it is stored trimmed |
| SerializerProperties.CodeFieldRule | snippets/serializers.py:12 | null code gets the null error, a boolean, array or object the invalid error; a number is accepted as its decimal text; a non-blank string is rejected exactly when it holds a null character |
| SerializerProperties.BlankCodeRejected | snippets/serializers.py:12 | code that is empty or all whitespace fails with exactly the blank error under `code` |
| SerializerProperties.LinenosRule | snippets/serializers.py:13 | `linenos` is rejected exactly when supplied and neither a true nor a false input; accepted, it is true exactly for true inputs, absent when not supplied |
| SerializerProperties.LanguageRule | snippets/serializers.py:14 | a string language is rejected exactly when outside the languages, with the invalid-choice error naming it; accepted, it is kept as given |
| SerializerProperties.LanguageDefault | snippets/serializers.py:14 | an absent language is not an error and becomes "python" unless the validation is partial |
| SerializerProperties.StyleRule | snippets/serializers.py:15 | a string style is rejected exactly when outside the styles, with the invalid-choice error naming it; accepted, it is kept as given |
| SerializerProperties.StyleDefault | snippets/serializers.py:15 | an absent style is not an error and becomes "friendly" unless the validation is partial |
| SerializerProperties.OnlyWritableKeysRead | snippets/serializers.py:10-15 | adding or changing any key other than the five writable fields (`id` and `owner` included) does not change the validation result |
| SerializerProperties.CreateFromPayload | snippets/serializers.py:17-21 | the record created from a valid payload holds the trimmed title or "", the trimmed code, `linenos` as read or false, the language and style as given or their defaults, and the caller's owner |
| SerializerProperties.TrimmedCharFieldValue | snippets/serializers.py:11-12 | an accepted character field is the trimmed text of its input |
| SerializerProperties.CreatedRecordWellFormed | snippets/serializers.py:17-21 | a record created from validated data satisfies every field rule |
| SerializerProperties.UpdateIdempotent | snippets/serializers.py:27-31 | updating twice with the same data equals updating once |
| SerializerProperties.UpdatePreservesWellFormed | snippets/serializers.py:23-33 | updating a well-formed record with validated data gives a well-formed record |
| SerializerProperties.FullUpdateResetsOmittedChoices | snippets/serializers.py:14-15 | a full update without `language` or `style` resets it to its default, and keeps an omitted title or `linenos` |
| SerializerProperties.PartialTitleUpdate | snippets/serializers.py:27-31 | a partial update with only a new title validates to that title alone and changes only the title |
| SerializerProperties.RoundTrip | snippets/serializers.py:10-45 | the representation of a well-formed record validates to the data of all its writable fields, and that data rebuilds the record by update or by create |
| StoreSpec.Create | snippets/views.py:61-67 | the answer is 201 when the payload validates and 400 otherwise; the store is unchanged exactly on 400; on 201 it gains the next id, holding a row with the given owner |
| StoreSpec.Replace | snippets/views.py:146-152 | the answer is 200 when the payload validates and 400 otherwise; the ids, the order and the next id stay, and the row keeps its id and owner |
| StoreSpec.Delete | snippets/views.py:154-156 | the answer is 204; the id leaves the table and every other row is kept |
| StoreSpec.ListVanilla | snippets/views.py:49-67 | only POST can change the store; there is no answer exactly for methods other than GET and POST; an answer is 200, 201 or 400 |
| StoreSpec.ListApi | snippets/views.py:70-87 | every method is answered; GET and POST as by the plain handler; any other method leaves the store, and any other than OPTIONS gets 405 |
| StoreSpec.DetailVanilla | snippets/views.py:132-156 | an unknown id gets 404 and changes nothing; only PUT and DELETE change the store, which never gains an id; there is no answer exactly for a stored id and a method other than GET, PUT and DELETE |
| StoreSpec.DetailApi | snippets/views.py:159-182 | every method is answered; GET, PUT and DELETE as by the plain handler; any other method leaves the store and gets 200 for OPTIONS, 405 otherwise |
| StoreSpec.CreateOwned | snippets/views.py:128-129 | when the create succeeds, the new row's owner is the requesting user |
| StoreSpec.CreateAsWritten | snippets/views.py:61-67 | as written: the store changes as in a create, but a valid payload is answered with a server error instead of 201 |
| StoreSpec.ReplaceAsWritten | snippets/views.py:146-152 | as written: the store changes as in a replace, but a valid payload is answered with a server error instead of 200 |
| StoreProperties.WithoutSpec | snippets/views.py:155 | removing an id from the creation order keeps exactly the other ids, still increasing |
| StoreProperties.IncreasingCard | snippets/views.py:55 | an increasing order has as many distinct ids as entries |
| StoreProperties.RowsAt | snippets/views.py:55 | when every id is stored, the rows are the table read at each id |
| StoreProperties.OrderLengthIsTableSize | snippets/views.py:55 | the creation order has one entry per stored row |
| StoreProperties.ListingIsTheStore | snippets/views.py:54-59 | the listing holds exactly the stored rows, each projected once, every row present, in creation order |
| StoreProperties.ListGet | snippets/views.py:75-80 | a GET on either list handler answers 200 with the listing and changes nothing |
| StoreProperties.InvalidCreateChangesNothing | snippets/views.py:83-87 | a create whose payload fails validation answers 400 with the errors and leaves the store unchanged |
| StoreProperties.ValidCreateAddsOneRow | snippets/views.py:61-66 | a valid create answers 201 with the new row, which the store gains under an unused id; the table grows by exactly one row and every existing row is untouched |
| StoreProperties.AppendKeepsValid | snippets/serializers.py:21 | saving a well-formed row under the next id adds exactly that row and keeps the store invariant |
| StoreProperties.CreateOwner | snippets/views.py:128-129 | on the authenticated create path the new row's owner is the requesting user, shown as the username; on the plain path there is no owner |
| StoreProperties.UnknownIdNotFound | snippets/views.py:164-167 | an unknown id answers 404 and changes nothing (the API-view handler does so for GET, PUT and DELETE) |
| StoreProperties.KnownIdGet | snippets/views.py:142-144 | a GET of a stored id answers 200 with that row's representation and changes nothing, on both detail handlers |
| StoreProperties.OverwriteKeepsValid | snippets/serializers.py:32 | overwriting a stored row with a well-formed row of the same id keeps the store invariant |
| StoreProperties.ValidReplaceUpdatesOnlyTarget | snippets/views.py:146-151 | a valid PUT answers 200 with the updated row, which replaces only that id's row; the ids, the order and all other rows are unchanged |
| StoreProperties.InvalidReplaceChangesNothing | snippets/views.py:146-152 | an invalid PUT answers 400 with the errors and leaves the store, the target row included, unchanged |
| StoreProperties.PutBackRepresentation | snippets/views.py:173-177 | putting back a row's own representation changes nothing and answers with the same representation |
| StoreProperties.DeleteThenNotFound | snippets/views.py:154-156 | a DELETE answers 204 and removes that id alone, keeps the invariant, and a later retrieve of the id answers 404 |
| StoreProperties.ListHandlersKeepInvariant | snippets/views.py:49-87 | both list handlers keep the store invariant |
| StoreProperties.CreateOwnedKeepsInvariant | snippets/views.py:256-257 | the authenticated create keeps the store invariant |
| StoreProperties.DetailHandlersKeepInvariant | snippets/views.py:132-182 | both detail handlers keep the store invariant |
| StoreProperties.ExampleCreate | snippets/views.py:61-66 | creating with only `code` in an empty store gives row 1 with the defaults and answers 201 |
| StoreProperties.ExampleScenario | snippets/views.py:133-156 | after that create, a DELETE of row 1 answers 204 and a later retrieve answers 404 |
| StoreProperties.AsWrittenSavesThenFails | snippets/views.py:63-66 | as written, a valid create or replace stores exactly what the intended one stores, but answers with a server error where 201 or 200 is intended |
| StoreProperties.ExampleCreateAsWritten | snippets/views.py:63-66 | as written, the example create stores row 1 and answers with a server error, where the intended handler answers 201 |
| Views.SnippetStore.constructor | snippets/views.py:55 | a new store is empty and valid |
| Views.SnippetStore.Insert | snippets/serializers.py:21 | the row is built from the data under the next id; it is added to the table and appended to the creation order |
| Views.SnippetStore.Save | snippets/serializers.py:32 | the instance's row replaces the stored row under its id; nothing else changes |
| Views.SnippetStore.Remove | snippets/views.py:155 | the row leaves the table and the creation order; nothing else changes |
| Views.SnippetStore.CreateFrom | snippets/views.py:83-87 | the new state and the response are those of the create specification |
| Views.SnippetStore.ReplaceFrom | snippets/views.py:173-178 | the new state and the response are those of the replace specification |
| Views.SnippetStore.SnippetListVanilla | snippets/views.py:49-67 | state and response are those of the plain list handler specification, and the invariant is kept |
| Views.SnippetStore.SnippetListApi | snippets/views.py:70-87 | state and response are those of the API-view list handler specification, and the invariant is kept |
| Views.SnippetStore.PerformCreate | snippets/views.py:128-129 | state and response are those of a create owned by the requesting user, and the invariant is kept |
| Views.SnippetStore.SnippetDetailVanilla | snippets/views.py:132-156 | state and response are those of the plain detail handler specification, and the invariant is kept |
| Views.SnippetStore.SnippetDetailApi | snippets/views.py:159-182 | state and response are those of the API-view detail handler specification, and the invariant is kept |

## Left out

- The schema of the handlers' serializers: the handlers use hyperlinked model
  serializers whose writable fields come from `snippets/models.py`, which is not
  part of this model. Their fields are modelled by the declared schema of
  `SimpleSnippetSerializer`, with the title default "" and the `linenos` default
  false of the stored record. As a consequence, a full PUT that omits `language`
  or `style` resets it to its default.
- The language and style choice sets are defined in `snippets/models.py`. They
  are parameters of the model, assumed to contain the defaults.
- Serializer.Project: the hyperlink fields `url` and `highlight` are not
  modelled, because they depend on URL reversing. A record without an owner has
  no `owner` key.
- `api_root`, the class-based, mixin, generic and viewset views, the highlight
  views and the user serializers and views are not part of this model. They
  repeat the explicit handlers inside the framework, or depend on routing and
  Pygments.
- Permission checks are not modelled. `PerformCreate` takes an authenticated
  user as given.
- JSON parsing is not modelled. The payload arrives already parsed as an
  object, a JSON `null` or another JSON value. An empty request body is not
  modelled: the API views see it as an empty object, and the plain views fail
  to parse it. Floats, arrays and objects inside a field are not distinguished
  beyond "structured".
- Fields.ChoiceField: an array or object supplied as a choice is rejected as an
  invalid choice instead of reproducing Python's text of it.
- Error messages are modelled as error kinds, not as their text.
- Fields.CharField: the framework's check that rejects lone surrogate
  characters is not modelled, because a Dafny `char` cannot hold one; such
  input lies outside the model.
- Views.SnippetStore.SnippetDetailVanilla: for a method the plain handlers do
  not handle, Django raises a server error because the view returns nothing.
  The model answers `NoResponse`.
- ORM persistence: ids come from a counter and are never reused, and the
  listing is in creation order. Database errors and concurrency are not
  modelled.

## Findings

| source | as written | input that shows it | evidently intended | confidence | as-written member | corrected member |
|---|---|---|---|---|---|---|
| snippets/views.py:63-66 | the POST branch (and likewise views.py:83-86, and the PUT branches at views.py:148-151 and 174-177) builds the hyperlinked serializer without the request in its context, unlike the GET branches (views.py:56-58, 142). Rendering the `url` and `highlight` identity fields needs the request. So after the row is saved, producing the answer fails and the client gets a server error | a POST of `{"code": "print('hi')"}` to an empty store: row 1 is stored, and the answer is a server error | 201 with the new row's representation (200 with the updated row for PUT) | not executed; read from the code and the framework's documented behaviour | StoreSpec.CreateAsWritten, StoreSpec.ReplaceAsWritten, StoreProperties.AsWrittenSavesThenFails, StoreProperties.ExampleCreateAsWritten | StoreSpec.Create, StoreSpec.Replace, StoreProperties.ValidCreateAddsOneRow, StoreProperties.ValidReplaceUpdatesOnlyTarget |
