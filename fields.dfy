/**
 * The three kinds of serializer field the snippet schema is built from
 * (a character field, a boolean field and a choice field), each as a function
 * from the value found in the request payload to the field's outcome: left out
 * of the validated data, a validated value, or a list of errors.
 */
module Fields {
  import opened Wrappers
  import opened Text

  /** A JSON value as the request parser hands it to a field. Arrays and objects
      are only told apart from the scalars; no field of the schema accepts one. */
  datatype Value = Str(s: string) | Bool(b: bool) | Num(n: int) | Null | Structured

  /** Python's `str(v)` where the fields apply it; an array or object has no
      text the fields could accept. */
  function TextOf(v: Value): (r: Option<string>)
    ensures r.None? <==> v.Structured?
    ensures v.Str? ==> r == Some(v.s)
  {
    match v
    case Str(s) => Some(s)
    case Bool(b) => Some(if b then "True" else "False")
    case Num(n) => Some(IntToDecimal(n))
    case Null => Some("None")
    case Structured => None
  }

  /** The kinds of field error, named after the framework's error codes. */
  datatype Error =
    | Required          // "This field is required."
    | Blank             // "This field may not be blank."
    | NullValue         // "This field may not be null."
    | Invalid           // "Not a valid string." / "Must be a valid boolean."
    | MaxLength(limit: nat)  // "Ensure this field has no more than {limit} characters."
    | NullCharacters    // "Null characters are not allowed."
    | InvalidChoice(input: Value)  // "\"{input}\" is not a valid choice."
    | NotADictionary    // "Invalid data. Expected a dictionary, but got {datatype}."
    | NoData            // "No data provided"

  /** What one field contributes to validation. `Skip` leaves the field out of
      the validated data; `Rejected` always carries at least one error. */
  datatype Outcome<+T> = Skip | Valid(value: T) | Rejected(errors: seq<Error>) {
    function Supplied(): Option<T> {
      if Valid? then Some(value) else None
    }
  }

  /** The character field's blank test: the empty string, or input whose text is
      only whitespace. */
  predicate IsBlankInput(v: Value) {
    v == Str("") || (TextOf(v).Some? && Strip(TextOf(v).value) == "")
  }

  /** A character field with whitespace trimming on (the framework's default).
      The blank test comes first, then the null test, then the conversion to
      text, then the length and null-character validators, whose errors are
      collected together. */
  function CharField(input: Option<Value>, required: bool, allowBlank: bool,
                     maxLength: Option<nat>, partial: bool): (r: Outcome<string>)
    ensures r.Skip? <==> input.None? && (partial || !required)
    ensures r.Valid? ==> Stripped(r.value) && '\0' !in r.value
    ensures r.Valid? && maxLength.Some? ==> |r.value| <= maxLength.value
    ensures r.Valid? && r.value == "" ==> allowBlank
    ensures r.Rejected? ==> r.errors != []
  {
    match input
    case None => if partial || !required then Skip else Rejected([Required])
    case Some(v) =>
      if IsBlankInput(v) then
        if allowBlank then Valid("") else Rejected([Blank])
      else if v.Null? then Rejected([NullValue])
      else if v.Bool? || v.Structured? then Rejected([Invalid])
      else
        var text := Strip(TextOf(v).value);
        var tooLong := maxLength.Some? && |text| > maxLength.value;
        var hasNull := '\0' in text;
        if !tooLong && !hasNull then Valid(text)
        else Rejected((if tooLong then [MaxLength(maxLength.value)] else [])
                      + (if hasNull then [NullCharacters] else []))
  }

  /** Inputs the boolean field reads as true. */
  predicate IsTrueInput(v: Value) {
    match v
    case Str(s) => s in {"t", "T", "y", "Y", "yes", "Yes", "YES", "true", "True", "TRUE", "on", "On", "ON", "1"}
    case Num(n) => n == 1
    case Bool(b) => b
    case _ => false
  }

  /** Inputs the boolean field reads as false. */
  predicate IsFalseInput(v: Value) {
    match v
    case Str(s) => s in {"f", "F", "n", "N", "no", "No", "NO", "false", "False", "FALSE", "off", "Off", "OFF", "0"}
    case Num(n) => n == 0
    case Bool(b) => !b
    case _ => false
  }

  /** A boolean field that is not required and has no default. */
  function BooleanField(input: Option<Value>): (r: Outcome<bool>)
    ensures r.Skip? <==> input.None?
    ensures r.Valid? ==> (r.value <==> IsTrueInput(input.value))
    ensures r.Valid? ==> (!r.value <==> IsFalseInput(input.value))
    ensures r.Rejected? <==> input.Some? && !IsTrueInput(input.value) && !IsFalseInput(input.value)
    ensures r.Rejected? ==> r.errors != []
  {
    match input
    case None => Skip
    case Some(v) =>
      if v.Null? then Rejected([NullValue])
      else if IsTrueInput(v) then Valid(true)
      else if IsFalseInput(v) then Valid(false)
      else Rejected([Invalid])
  }

  /** A choice field with a default. The default is used whenever the field is
      absent and the validation is not partial; it is not checked against the
      choices. A supplied value is accepted when its text is one of the choices. */
  function ChoiceField(input: Option<Value>, choices: set<string>, default: string,
                       partial: bool): (r: Outcome<string>)
    ensures r.Skip? <==> input.None? && partial
    ensures r.Valid? && input.None? ==> r.value == default
    ensures r.Valid? && input.Some? ==> r.value in choices && TextOf(input.value) == Some(r.value)
    ensures r.Rejected? <==> input.Some? && (input.value.Null? || TextOf(input.value).None?
                                             || TextOf(input.value).value !in choices)
    ensures r.Rejected? ==> r.errors != []
  {
    match input
    case None => if partial then Skip else Valid(default)
    case Some(v) =>
      if v.Null? then Rejected([NullValue])
      else match TextOf(v)
        case Some(text) => if text in choices then Valid(text) else Rejected([InvalidChoice(v)])
        case None => Rejected([InvalidChoice(v)])
  }

  /** Which error the character field reports for input that never reaches the
      text checks: missing, blank, null, or not a string or number. */
  lemma CharFieldEarlyErrors(input: Option<Value>, required: bool, allowBlank: bool,
                             maxLength: Option<nat>, partial: bool)
    ensures var r := CharField(input, required, allowBlank, maxLength, partial);
            && (input.None? && !partial && required ==> r == Rejected([Required]))
            && (input.Some? && IsBlankInput(input.value) ==> r == if allowBlank then Valid("") else Rejected([Blank]))
            && (input == Some(Null) ==> r == Rejected([NullValue]))
            && (input.Some? && (input.value.Bool? || input.value.Structured?) ==> r == Rejected([Invalid]))
  {
    StripStripped("None");
    StripStripped("True");
    StripStripped("False");
  }

  /** A string or number that is not blank is accepted exactly when its trimmed
      text respects the length limit and the input holds no null character, and
      is then that trimmed text; otherwise the errors are the length error when
      the text is too long, followed by the null-character error when the input
      holds a null character. */
  lemma CharFieldText(v: Value, required: bool, allowBlank: bool, maxLength: Option<nat>, partial: bool)
    requires (v.Str? || v.Num?) && !IsBlankInput(v)
    ensures var r := CharField(Some(v), required, allowBlank, maxLength, partial);
            var text := Strip(TextOf(v).value);
            var tooLong := maxLength.Some? && |text| > maxLength.value;
            && (r.Valid? <==> !tooLong && '\0' !in TextOf(v).value)
            && (r.Valid? ==> r.value == text)
            && (r.Rejected? && !tooLong ==> r.errors == [NullCharacters])
            && (r.Rejected? && tooLong ==>
                  r.errors == [MaxLength(maxLength.value)] + if '\0' in TextOf(v).value then [NullCharacters] else [])
  {
    StripKeeps(TextOf(v).value, '\0');
  }
}
