/**
 * The snippet codec: the declared schema of the simple snippet serializer,
 * validation of an inbound payload against it, building a new record from the
 * validated data, overwriting an existing record with it, and the outbound
 * representation of a record with its owner shown by username.
 */
module Serializer {
  import opened Wrappers
  import opened Text
  import opened Fields

  const TitleMaxLength: nat := 100
  const DefaultLanguage := "python"
  const DefaultStyle := "friendly"
  /** Values the record store gives a new row for a field missing from the validated data. */
  const DefaultTitle := ""
  const DefaultCode := ""
  const DefaultLinenos := false

  /** The keys of the error map: one per writable field, plus the key for errors
      that concern the payload as a whole (`non_field_errors`). */
  datatype FieldName = Title | Code | Linenos | Language | Style | NonField

  type Errors = map<FieldName, seq<Error>>

  /** A parsed request body: a JSON object, JSON null, or any other JSON value. */
  datatype Payload = Object(fields: map<string, Value>) | NullBody | NonObject

  /** The outbound representation: field name to JSON value. */
  type Representation = map<string, Value>

  datatype User = User(id: int, username: string)

  /** A stored snippet. `owner` is None on the paths that create a snippet
      without an authenticated user. */
  datatype Snippet = Snippet(
    id: int,
    title: string,
    code: string,
    linenos: bool,
    language: string,
    style: string,
    owner: Option<User>)

  /** The validated data: a field is None when it is left out of it. */
  datatype Data = Data(
    title: Option<string>,
    code: Option<string>,
    linenos: Option<bool>,
    language: Option<string>,
    style: Option<string>)

  /** The payload keys the serializer reads; `id` is declared read-only, so it is not among them. */
  const WritableKeys: set<string> := {"title", "code", "linenos", "language", "style"}

  function Lookup(m: map<string, Value>, key: string): Option<Value> {
    if key in m then Some(m[key]) else None
  }

  // The declared fields.

  /** `title`: optional, blank allowed, at most 100 characters. */
  function TitleField(m: map<string, Value>, partial: bool): (r: Outcome<string>)
    ensures "title" !in m ==> r == Skip
    ensures r.Valid? ==> ValidTitle(r.value)
  {
    CharField(Lookup(m, "title"), false, true, Some(TitleMaxLength), partial)
  }

  /** `code`: required, not blank. */
  function CodeField(m: map<string, Value>, partial: bool): (r: Outcome<string>)
    ensures "code" !in m ==> r == if partial then Skip else Rejected([Required])
    ensures r.Valid? ==> ValidCode(r.value)
  {
    CharField(Lookup(m, "code"), true, false, None, partial)
  }

  /** `linenos`: optional boolean. */
  function LinenosField(m: map<string, Value>): (r: Outcome<bool>)
    ensures r.Skip? <==> "linenos" !in m
    ensures r.Valid? ==> (r.value <==> IsTrueInput(m["linenos"]))
  {
    BooleanField(Lookup(m, "linenos"))
  }

  /** `language`: one of the languages, "python" when absent. */
  function LanguageField(m: map<string, Value>, languages: set<string>, partial: bool): (r: Outcome<string>)
    ensures "language" !in m ==> r == if partial then Skip else Valid(DefaultLanguage)
    ensures "language" in m && r.Valid? ==> r.value in languages
  {
    ChoiceField(Lookup(m, "language"), languages, DefaultLanguage, partial)
  }

  /** `style`: one of the styles, "friendly" when absent. */
  function StyleField(m: map<string, Value>, styles: set<string>, partial: bool): (r: Outcome<string>)
    ensures "style" !in m ==> r == if partial then Skip else Valid(DefaultStyle)
    ensures "style" in m && r.Valid? ==> r.value in styles
  {
    ChoiceField(Lookup(m, "style"), styles, DefaultStyle, partial)
  }

  /** The names of the rejected fields. */
  function Rejections(title: Outcome<string>, code: Outcome<string>, linenos: Outcome<bool>,
                      language: Outcome<string>, style: Outcome<string>): set<FieldName>
  {
    (if title.Rejected? then {Title} else {}) + (if code.Rejected? then {Code} else {})
    + (if linenos.Rejected? then {Linenos} else {}) + (if language.Rejected? then {Language} else {})
    + (if style.Rejected? then {Style} else {})
  }

  /** The errors reported under one field name. */
  function FieldErrors(f: FieldName, title: Outcome<string>, code: Outcome<string>, linenos: Outcome<bool>,
                       language: Outcome<string>, style: Outcome<string>): seq<Error>
  {
    match f
    case Title => if title.Rejected? then title.errors else []
    case Code => if code.Rejected? then code.errors else []
    case Linenos => if linenos.Rejected? then linenos.errors else []
    case Language => if language.Rejected? then language.errors else []
    case Style => if style.Rejected? then style.errors else []
    case NonField => []
  }

  /** The error map of a payload: the errors of each rejected field under its name. */
  function AllErrors(title: Outcome<string>, code: Outcome<string>, linenos: Outcome<bool>,
                     language: Outcome<string>, style: Outcome<string>): Errors
  {
    map f | f in Rejections(title, code, linenos, language, style) ::
      FieldErrors(f, title, code, linenos, language, style)
  }

  /**
   * The result for an object from the outcomes of its fields: the data of the
   * supplied values when no field is rejected, otherwise every rejected field
   * under its own name with its own errors.
   */
  function Combine(title: Outcome<string>, code: Outcome<string>, linenos: Outcome<bool>,
                   language: Outcome<string>, style: Outcome<string>): (r: Result<Data, Errors>)
    ensures r.Success? <==> !title.Rejected? && !code.Rejected? && !linenos.Rejected?
                            && !language.Rejected? && !style.Rejected?
    ensures r.Success? ==> r.value == Data(title.Supplied(), code.Supplied(), linenos.Supplied(),
                                          language.Supplied(), style.Supplied())
    ensures r.Failure? ==> NonField !in r.error
    ensures r.Failure? ==> && (Title in r.error <==> title.Rejected?)
                           && (Code in r.error <==> code.Rejected?)
                           && (Linenos in r.error <==> linenos.Rejected?)
                           && (Language in r.error <==> language.Rejected?)
                           && (Style in r.error <==> style.Rejected?)
    ensures r.Failure? ==> && (title.Rejected? ==> r.error[Title] == title.errors)
                           && (code.Rejected? ==> r.error[Code] == code.errors)
                           && (linenos.Rejected? ==> r.error[Linenos] == linenos.errors)
                           && (language.Rejected? ==> r.error[Language] == language.errors)
                           && (style.Rejected? ==> r.error[Style] == style.errors)
  {
    var errors := AllErrors(title, code, linenos, language, style);
    var names := Rejections(title, code, linenos, language, style);
    assert title.Rejected? <==> Title in names;
    assert code.Rejected? <==> Code in names;
    assert linenos.Rejected? <==> Linenos in names;
    assert language.Rejected? <==> Language in names;
    assert style.Rejected? <==> Style in names;
    assert NonField !in names;
    if errors.Keys == {} then
      Success(Data(title.Supplied(), code.Supplied(), linenos.Supplied(),
                   language.Supplied(), style.Supplied()))
    else
      Failure(errors)
  }

  /** A title a record may hold: stripped, at most 100 characters, no null character. */
  predicate ValidTitle(t: string) {
    |t| <= TitleMaxLength && '\0' !in t && Stripped(t)
  }

  /** Code a record may hold: stripped, not blank, no null character. */
  predicate ValidCode(c: string) {
    c != [] && '\0' !in c && Stripped(c)
  }

  /** A record every writable field of which the schema would accept as it is. */
  predicate WellFormed(s: Snippet, languages: set<string>, styles: set<string>) {
    ValidTitle(s.title) && ValidCode(s.code) && s.language in languages && s.style in styles
  }

  /** What successful validation guarantees about the validated data. */
  predicate ValidData(d: Data, languages: set<string>, styles: set<string>, partial: bool) {
    && (d.title.Some? ==> ValidTitle(d.title.value))
    && (d.code.Some? ==> ValidCode(d.code.value))
    && (d.language.Some? ==> d.language.value in languages || d.language.value == DefaultLanguage)
    && (d.style.Some? ==> d.style.value in styles || d.style.value == DefaultStyle)
    && (!partial ==> d.code.Some? && d.language.Some? && d.style.Some?)
  }

  /**
   * Validates a payload against the schema. Every declared field is checked and
   * every failing field contributes its errors; data is produced only when no
   * field fails. Keys outside the writable fields, `id` and `owner` among them,
   * are not read.
   */
  function Validate(payload: Payload, languages: set<string>, styles: set<string>,
                    partial: bool): (r: Result<Data, Errors>)
    ensures payload.NullBody? ==> r == Failure(map[NonField := [NoData]])
    ensures payload.NonObject? ==> r == Failure(map[NonField := [NotADictionary]])
    ensures r.Success? ==> ValidData(r.value, languages, styles, partial)
    ensures r.Failure? ==> r.error != map[] && forall f :: f in r.error ==> r.error[f] != []
  {
    match payload
    case NullBody =>
      var errors := map[NonField := [NoData]];
      assert NonField in errors;
      Failure(errors)
    case NonObject =>
      var errors := map[NonField := [NotADictionary]];
      assert NonField in errors;
      Failure(errors)
    case Object(m) =>
      var title := TitleField(m, partial);
      var code := CodeField(m, partial);
      var linenos := LinenosField(m);
      var language := LanguageField(m, languages, partial);
      var style := StyleField(m, styles, partial);
      Combine(title, code, linenos, language, style)
  }

  /** The record the store creates from validated data: each supplied field as
      given, the store's defaults for the rest, and the owner the caller passes. */
  function NewRecord(id: int, d: Data, owner: Option<User>): (r: Snippet)
    ensures r.id == id && r.owner == owner
    ensures r.title == (if d.title.Some? then d.title.value else DefaultTitle)
    ensures r.linenos == (if d.linenos.Some? then d.linenos.value else DefaultLinenos)
    ensures r.code == (if d.code.Some? then d.code.value else DefaultCode)
    ensures r.language == (if d.language.Some? then d.language.value else DefaultLanguage)
    ensures r.style == (if d.style.Some? then d.style.value else DefaultStyle)
  {
    Snippet(id, d.title.GetOr(DefaultTitle), d.code.GetOr(DefaultCode), d.linenos.GetOr(DefaultLinenos),
            d.language.GetOr(DefaultLanguage), d.style.GetOr(DefaultStyle), owner)
  }

  /** The record after an update: each field present in the data overwrites the
      stored one, every other field keeps its value; `id` and `owner` are never
      taken from the data. */
  function ApplyUpdate(s: Snippet, d: Data): (r: Snippet)
    ensures r.id == s.id && r.owner == s.owner
    ensures r.title == (if d.title.Some? then d.title.value else s.title)
    ensures r.code == (if d.code.Some? then d.code.value else s.code)
    ensures r.linenos == (if d.linenos.Some? then d.linenos.value else s.linenos)
    ensures r.language == (if d.language.Some? then d.language.value else s.language)
    ensures r.style == (if d.style.Some? then d.style.value else s.style)
  {
    s.(title := d.title.GetOr(s.title), code := d.code.GetOr(s.code),
       linenos := d.linenos.GetOr(s.linenos), language := d.language.GetOr(s.language),
       style := d.style.GetOr(s.style))
  }

  /** The data that would restore every writable field of `s`. */
  function DataOf(s: Snippet): Data {
    Data(Some(s.title), Some(s.code), Some(s.linenos), Some(s.language), Some(s.style))
  }

  /**
   * The outbound representation of a record: its stored fields, and `owner` as
   * the owner's username. A record without an owner has no `owner` key, since
   * the read-only field cannot follow `owner.username` through a missing owner.
   */
  function Project(s: Snippet): (r: Representation)
    ensures r.Keys == {"id"} + WritableKeys + (if s.owner.Some? then {"owner"} else {})
    ensures s.owner.Some? ==> r["owner"] == Str(s.owner.value.username)
    ensures r["id"] == Num(s.id)
    ensures r["title"] == Str(s.title) && r["code"] == Str(s.code) && r["linenos"] == Bool(s.linenos)
    ensures r["language"] == Str(s.language) && r["style"] == Str(s.style)
  {
    var fields := map["id" := Num(s.id), "title" := Str(s.title), "code" := Str(s.code),
                       "linenos" := Bool(s.linenos), "language" := Str(s.language),
                       "style" := Str(s.style)];
    if s.owner.Some? then fields["owner" := Str(s.owner.value.username)] else fields
  }

  /**
   * A snippet instance as the serializer's `update` sees it: an object whose
   * fields are assigned one by one from the validated data.
   */
  class SnippetInstance {
    const id: int
    var title: string
    var code: string
    var linenos: bool
    var language: string
    var style: string
    var owner: Option<User>

    function Row(): Snippet
      reads this
    {
      Snippet(id, title, code, linenos, language, style, owner)
    }

    /** Loads a stored row into a fresh instance. */
    constructor Load(row: Snippet)
      ensures Row() == row
    {
      id := row.id;
      title := row.title;
      code := row.code;
      linenos := row.linenos;
      language := row.language;
      style := row.style;
      owner := row.owner;
    }

    /** Overwrites, one field at a time, each field the validated data holds. */
    method Update(d: Data)
      modifies this
      ensures Row() == ApplyUpdate(old(Row()), d)
    {
      title := d.title.GetOr(title);
      code := d.code.GetOr(code);
      linenos := d.linenos.GetOr(linenos);
      language := d.language.GetOr(language);
      style := d.style.GetOr(style);
    }
  }
}
