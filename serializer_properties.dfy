/**
 * Properties of the snippet codec: the rule of each declared field, what
 * validation ignores, what create and update produce, and the round trip from
 * a stored record through its representation back to the same record.
 */
module SerializerProperties {
  import opened Wrappers
  import opened Text
  import opened Fields
  import opened Serializer

  /** The field a validation result rejects, if it is a failure. */
  predicate RejectsField(r: Result<Data, Errors>, f: FieldName) {
    r.Failure? && f in r.error
  }

  /** Validation of an object, field by field: a field is reported exactly when
      its own outcome is a rejection, with that outcome's errors, and the data,
      when there is some, holds what each field supplied. */
  lemma ValidateByField(m: map<string, Value>, languages: set<string>, styles: set<string>, partial: bool)
    ensures var r := Validate(Object(m), languages, styles, partial);
            && (RejectsField(r, Title) <==> TitleField(m, partial).Rejected?)
            && (RejectsField(r, Code) <==> CodeField(m, partial).Rejected?)
            && (RejectsField(r, Linenos) <==> LinenosField(m).Rejected?)
            && (RejectsField(r, Language) <==> LanguageField(m, languages, partial).Rejected?)
            && (RejectsField(r, Style) <==> StyleField(m, styles, partial).Rejected?)
            && (RejectsField(r, Title) ==> r.error[Title] == TitleField(m, partial).errors)
            && (RejectsField(r, Code) ==> r.error[Code] == CodeField(m, partial).errors)
            && (RejectsField(r, Linenos) ==> r.error[Linenos] == LinenosField(m).errors)
            && (RejectsField(r, Language) ==> r.error[Language] == LanguageField(m, languages, partial).errors)
            && (RejectsField(r, Style) ==> r.error[Style] == StyleField(m, styles, partial).errors)
            && (r.Success? ==> r.value == Data(TitleField(m, partial).Supplied(), CodeField(m, partial).Supplied(),
                                              LinenosField(m).Supplied(), LanguageField(m, languages, partial).Supplied(),
                                              StyleField(m, styles, partial).Supplied()))
  {
    var title, code, linenos := TitleField(m, partial), CodeField(m, partial), LinenosField(m);
    var language, style := LanguageField(m, languages, partial), StyleField(m, styles, partial);
    assert Validate(Object(m), languages, styles, partial) == Combine(title, code, linenos, language, style);
  }

  // title: optional, blank allowed, at most 100 characters once trimmed.

  /** A supplied string title is rejected exactly when its trimmed text is longer
      than 100 characters or it holds a null character; a long one is reported
      with the length error, and a blank one is accepted as the empty title. */
  lemma TitleRule(m: map<string, Value>, s: string, languages: set<string>, styles: set<string>, partial: bool)
    requires "title" in m && m["title"] == Str(s)
    ensures var r := Validate(Object(m), languages, styles, partial);
            RejectsField(r, Title) <==> |Strip(s)| > TitleMaxLength || '\0' in s
    ensures var r := Validate(Object(m), languages, styles, partial);
            |Strip(s)| > TitleMaxLength ==> MaxLength(TitleMaxLength) in r.error[Title]
    ensures var r := Validate(Object(m), languages, styles, partial);
            AllSpace(s) && r.Success? ==> r.value.title == Some("")
  {
    ValidateByField(m, languages, styles, partial);
    TitleFieldRule(m, s, partial);
  }

  lemma TitleFieldRule(m: map<string, Value>, s: string, partial: bool)
    requires "title" in m && m["title"] == Str(s)
    ensures TitleField(m, partial).Rejected? <==> |Strip(s)| > TitleMaxLength || '\0' in s
    ensures |Strip(s)| > TitleMaxLength ==> MaxLength(TitleMaxLength) in TitleField(m, partial).errors
    ensures AllSpace(s) ==> TitleField(m, partial) == Valid("")
  {
    var t := Strip(s);
    var o := TitleField(m, partial);
    assert o == CharField(Some(Str(s)), false, true, Some(TitleMaxLength), partial);
    if AllSpace(s) {
      StripEmpty(s);
      assert '\0' !in s;
      assert IsBlankInput(Str(s));
    } else {
      StripEmpty(s);
      StripKeeps(s, '\0');
      assert !IsBlankInput(Str(s));
      assert TextOf(Str(s)).value == s;
    }
  }

  /** An absent title is never an error and stays out of the validated data. */
  lemma TitleAbsent(m: map<string, Value>, languages: set<string>, styles: set<string>, partial: bool)
    requires "title" !in m
    ensures var r := Validate(Object(m), languages, styles, partial);
            !RejectsField(r, Title) && (r.Success? ==> r.value.title.None?)
  {
  }

  // code: required, not blank.

  /** On a create or full update, a payload without `code` fails with exactly
      the required-field error under `code`. */
  lemma CodeRequired(m: map<string, Value>, languages: set<string>, styles: set<string>)
    requires "code" !in m
    ensures var r := Validate(Object(m), languages, styles, false);
            r.Failure? && Code in r.error && r.error[Code] == [Required]
  {
  }

  /** Code made only of whitespace, the empty string included, fails with
      exactly the blank error under `code`. */
  lemma BlankCodeRejected(m: map<string, Value>, s: string, languages: set<string>, styles: set<string>, partial: bool)
    requires "code" in m && m["code"] == Str(s) && AllSpace(s)
    ensures var r := Validate(Object(m), languages, styles, partial);
            r.Failure? && Code in r.error && r.error[Code] == [Blank]
  {
    StripEmpty(s);
  }

  /** A string `code` is rejected exactly when it is blank or holds a null
      character: blank code with the blank error alone, otherwise code with a
      null character with the null-character error alone. Accepted, it is
      stored trimmed. */
  lemma CodeRule(m: map<string, Value>, s: string, languages: set<string>, styles: set<string>, partial: bool)
    requires "code" in m && m["code"] == Str(s)
    ensures var r := Validate(Object(m), languages, styles, partial);
            RejectsField(r, Code) <==> AllSpace(s) || '\0' in s
    ensures var r := Validate(Object(m), languages, styles, partial);
            !AllSpace(s) && '\0' in s ==> r.error[Code] == [NullCharacters]
    ensures var r := Validate(Object(m), languages, styles, partial);
            r.Success? ==> r.value.code == Some(Strip(s))
  {
    ValidateByField(m, languages, styles, partial);
    CodeFieldRule(m, Str(s), partial);
    StripEmpty(s);
  }

  /** The code field on each kind of input: null is rejected with the null
      error, a boolean, array or object with the invalid error, and a number is
      accepted as its decimal text. A non-blank string is accepted exactly when it
      holds no null character. */
  lemma CodeFieldRule(m: map<string, Value>, v: Value, partial: bool)
    requires "code" in m && m["code"] == v
    ensures v.Null? ==> CodeField(m, partial) == Rejected([NullValue])
    ensures v.Bool? || v.Structured? ==> CodeField(m, partial) == Rejected([Invalid])
    ensures v.Num? ==> CodeField(m, partial) == Valid(IntToDecimal(v.n))
    ensures v.Str? && !IsBlankInput(v) ==>
              (CodeField(m, partial).Rejected? <==> '\0' in v.s)
              && ('\0' in v.s ==> CodeField(m, partial) == Rejected([NullCharacters]))
              && (CodeField(m, partial).Valid? ==> CodeField(m, partial).value == Strip(v.s))
  {
    CharFieldEarlyErrors(Some(v), true, false, None, partial);
    if v.Num? {
      StripStripped(IntToDecimal(v.n));
      assert !IsBlankInput(v);
      CharFieldText(v, true, false, None, partial);
    } else if v.Str? && !IsBlankInput(v) {
      CharFieldText(v, true, false, None, partial);
    }
  }

  // linenos: optional boolean.

  /** A supplied `linenos` is rejected exactly when it is neither a true nor a
      false input; accepted, it is read as true exactly for the true inputs.
      An absent one is left out of the data. */
  lemma LinenosRule(m: map<string, Value>, languages: set<string>, styles: set<string>, partial: bool)
    ensures var r := Validate(Object(m), languages, styles, partial);
            RejectsField(r, Linenos) <==> "linenos" in m && !IsTrueInput(m["linenos"]) && !IsFalseInput(m["linenos"])
    ensures var r := Validate(Object(m), languages, styles, partial);
            r.Success? ==> r.value.linenos == (if "linenos" in m then Some(IsTrueInput(m["linenos"])) else None)
  {
  }

  // language and style: one of a fixed set, with a default.

  /** A supplied string language is rejected exactly when it is not one of the
      languages, with the invalid-choice error naming the input; accepted, it is
      taken as given. */
  lemma LanguageRule(m: map<string, Value>, x: string, languages: set<string>, styles: set<string>, partial: bool)
    requires "language" in m && m["language"] == Str(x)
    ensures var r := Validate(Object(m), languages, styles, partial);
            RejectsField(r, Language) <==> x !in languages
    ensures var r := Validate(Object(m), languages, styles, partial);
            x !in languages ==> r.error[Language] == [InvalidChoice(Str(x))]
    ensures var r := Validate(Object(m), languages, styles, partial);
            r.Success? ==> r.value.language == Some(x)
  {
  }

  /** An absent language is never an error; it becomes "python" unless the
      validation is partial, when it is left out of the data. */
  lemma LanguageDefault(m: map<string, Value>, languages: set<string>, styles: set<string>, partial: bool)
    requires "language" !in m
    ensures var r := Validate(Object(m), languages, styles, partial);
            !RejectsField(r, Language)
            && (r.Success? ==> r.value.language == if partial then None else Some(DefaultLanguage))
  {
  }

  /** The style rule, the same as the language rule against the styles. */
  lemma StyleRule(m: map<string, Value>, x: string, languages: set<string>, styles: set<string>, partial: bool)
    requires "style" in m && m["style"] == Str(x)
    ensures var r := Validate(Object(m), languages, styles, partial);
            RejectsField(r, Style) <==> x !in styles
    ensures var r := Validate(Object(m), languages, styles, partial);
            x !in styles ==> r.error[Style] == [InvalidChoice(Str(x))]
    ensures var r := Validate(Object(m), languages, styles, partial);
            r.Success? ==> r.value.style == Some(x)
  {
  }

  /** An absent style is never an error; it becomes "friendly" unless the
      validation is partial. */
  lemma StyleDefault(m: map<string, Value>, languages: set<string>, styles: set<string>, partial: bool)
    requires "style" !in m
    ensures var r := Validate(Object(m), languages, styles, partial);
            !RejectsField(r, Style)
            && (r.Success? ==> r.value.style == if partial then None else Some(DefaultStyle))
  {
  }

  // What validation does not read.

  /** A key other than the five writable fields does not affect validation:
      `id` (read-only), `owner` (read-only, taken from the username) and unknown
      keys alike. */
  lemma OnlyWritableKeysRead(m: map<string, Value>, k: string, v: Value,
                             languages: set<string>, styles: set<string>, partial: bool)
    requires k !in WritableKeys
    ensures Validate(Object(m[k := v]), languages, styles, partial) == Validate(Object(m), languages, styles, partial)
  {
    var m' := m[k := v];
    forall key | key in WritableKeys ensures Lookup(m', key) == Lookup(m, key) {
    }
    assert Lookup(m', "title") == Lookup(m, "title");
    assert Lookup(m', "code") == Lookup(m, "code");
    assert Lookup(m', "linenos") == Lookup(m, "linenos");
    assert Lookup(m', "language") == Lookup(m, "language");
    assert Lookup(m', "style") == Lookup(m, "style");
  }

  // create

  /** The record created from a valid payload holds the trimmed title (or the
      empty title), the trimmed code, `linenos` as read (or false), the language
      and style as given (or their defaults), and the owner the caller supplies. */
  lemma CreateFromPayload(m: map<string, Value>, languages: set<string>, styles: set<string>,
                          d: Data, id: int, owner: Option<User>)
    requires Validate(Object(m), languages, styles, false) == Success(d)
    ensures NewRecord(id, d, owner).id == id && NewRecord(id, d, owner).owner == owner
    ensures "title" in m ==> TextOf(m["title"]).Some?
                             && NewRecord(id, d, owner).title == Strip(TextOf(m["title"]).value)
    ensures "title" !in m ==> NewRecord(id, d, owner).title == DefaultTitle
    ensures "code" in m && TextOf(m["code"]).Some?
            && NewRecord(id, d, owner).code == Strip(TextOf(m["code"]).value)
    ensures NewRecord(id, d, owner).linenos == ("linenos" in m && IsTrueInput(m["linenos"]))
    ensures "language" in m ==> TextOf(m["language"]).Some?
                                && NewRecord(id, d, owner).language == TextOf(m["language"]).value
    ensures "language" !in m ==> NewRecord(id, d, owner).language == DefaultLanguage
    ensures "style" in m ==> TextOf(m["style"]).Some?
                             && NewRecord(id, d, owner).style == TextOf(m["style"]).value
    ensures "style" !in m ==> NewRecord(id, d, owner).style == DefaultStyle
  {
    ValidateByField(m, languages, styles, false);
    assert "code" in m;
    if "title" in m {
      TrimmedCharFieldValue(m["title"], false, true, Some(TitleMaxLength), false);
    }
    TrimmedCharFieldValue(m["code"], true, false, None, false);
  }

  /** A character field takes an accepted input as its trimmed text, a blank
      one included. */
  lemma TrimmedCharFieldValue(v: Value, required: bool, allowBlank: bool, maxLength: Option<nat>, partial: bool)
    ensures var o := CharField(Some(v), required, allowBlank, maxLength, partial);
            o.Valid? ==> TextOf(v).Some? && o.value == Strip(TextOf(v).value)
  {
    if v == Str([]) {
      assert TrimStart([]) == [];
    }
  }

  /** With the defaults among the choices, a record created from validated data
      is well formed. */
  lemma CreatedRecordWellFormed(p: Payload, languages: set<string>, styles: set<string>,
                                id: int, owner: Option<User>)
    requires DefaultLanguage in languages && DefaultStyle in styles
    requires Validate(p, languages, styles, false).Success?
    ensures WellFormed(NewRecord(id, Validate(p, languages, styles, false).value, owner), languages, styles)
  {
    var d := Validate(p, languages, styles, false).value;
    assert DefaultTitle == [];
  }

  // update

  /** Updating twice with the same data is the same as updating once. */
  lemma UpdateIdempotent(s: Snippet, d: Data)
    ensures ApplyUpdate(ApplyUpdate(s, d), d) == ApplyUpdate(s, d)
  {
  }

  /** With the defaults among the choices, updating a well-formed record with
      validated data gives a well-formed record. */
  lemma UpdatePreservesWellFormed(s: Snippet, p: Payload, languages: set<string>, styles: set<string>, partial: bool)
    requires DefaultLanguage in languages && DefaultStyle in styles
    requires WellFormed(s, languages, styles)
    requires Validate(p, languages, styles, partial).Success?
    ensures WellFormed(ApplyUpdate(s, Validate(p, languages, styles, partial).value), languages, styles)
  {
  }

  /** A full (non-partial) update that omits `language` or `style` resets it to
      its default, because the default applies whenever the validation is not
      partial. */
  lemma FullUpdateResetsOmittedChoices(s: Snippet, m: map<string, Value>, languages: set<string>, styles: set<string>)
    requires Validate(Object(m), languages, styles, false).Success?
    ensures var r := ApplyUpdate(s, Validate(Object(m), languages, styles, false).value);
            && ("language" !in m ==> r.language == DefaultLanguage)
            && ("style" !in m ==> r.style == DefaultStyle)
            && ("title" !in m ==> r.title == s.title)
            && ("linenos" !in m ==> r.linenos == s.linenos)
  {
  }

  /** A partial update with only a new title changes the title alone. */
  lemma PartialTitleUpdate(s: Snippet, languages: set<string>, styles: set<string>)
    ensures Validate(Object(map["title" := Str("new")]), languages, styles, true)
            == Success(Data(Some("new"), None, None, None, None))
    ensures ApplyUpdate(s, Data(Some("new"), None, None, None, None)) == s.(title := "new")
  {
    var m := map["title" := Str("new")];
    assert TrimStart("new") == "new";
    assert TrimEnd("new") == "new";
    assert TitleField(m, true) == Valid("new");
    assert CodeField(m, true) == Skip && LinenosField(m) == Skip;
    assert LanguageField(m, languages, true) == Skip && StyleField(m, styles, true) == Skip;
    assert Rejections(Valid("new"), Skip, Skip, Skip, Skip) == {};
  }

  // round trip

  /** A well-formed record survives its representation: validating the
      representation as a full update gives the data of every writable field,
      and that data rebuilds the record, whether applied as an update or used to
      create it again under the same id and owner. */
  lemma RoundTrip(s: Snippet, languages: set<string>, styles: set<string>)
    requires WellFormed(s, languages, styles)
    ensures Validate(Object(Project(s)), languages, styles, false) == Success(DataOf(s))
    ensures ApplyUpdate(s, DataOf(s)) == s
    ensures NewRecord(s.id, DataOf(s), s.owner) == s
  {
    var m := Project(s);
    StripStripped(s.title);
    StripStripped(s.code);
    assert m["title"] == Str(s.title) && m["code"] == Str(s.code) && m["linenos"] == Bool(s.linenos);
    assert m["language"] == Str(s.language) && m["style"] == Str(s.style);
    assert TitleField(m, false) == Valid(s.title);
    assert CodeField(m, false) == Valid(s.code);
    assert LinenosField(m) == Valid(s.linenos);
    assert LanguageField(m, languages, false) == Valid(s.language);
    assert StyleField(m, styles, false) == Valid(s.style);
    ValidateByField(m, languages, styles, false);
  }
}
