/**
 * The parameter text field: its validity flag, the error flag refreshed on every edit, the
 * submit that only goes through when the value is valid, and the two stock validators
 * (floating-point and integer, each with optional inclusive bounds).
 */
module ParameterField {
  import opened Wrappers
  import Text

  /** A text validator, as the field receives it. */
  type Validator = string -> bool

  // -------------------------------------------------------------- validators

  /** A value lies within the optional inclusive bounds. */
  predicate FloatInBounds(x: real, min: Option<real>, max: Option<real>) {
    (min.None? || min.value <= x) && (max.None? || x <= max.value)
  }

  predicate IntInBounds(n: int, min: Option<int>, max: Option<int>) {
    (min.None? || min.value <= n) && (max.None? || n <= max.value)
  }

  /**
   * `Validator.floatValidator(min:max:)` applied to `s`: unparseable text fails, then a value
   * below the minimum, then a value above the maximum. `parse` stands for Swift's
   * `Float(String)`.
   */
  function FloatAccepts(min: Option<real>, max: Option<real>, parse: string -> Option<real>, s: string): (ok: bool)
    ensures ok <==> parse(s).Some? && FloatInBounds(parse(s).value, min, max)
  {
    match parse(s)
    case None => false
    case Some(f) =>
      if min.Some? && f < min.value then false
      else if max.Some? && f > max.value then false
      else true
  }

  /** `Validator.intValidator(min:max:)` applied to `s`, over Swift's `Int(String)`. */
  function IntAccepts(min: Option<int>, max: Option<int>, s: string): (ok: bool)
    ensures ok <==> Text.ParseInt(s).Some? && IntInBounds(Text.ParseInt(s).value, min, max)
  {
    match Text.ParseInt(s)
    case None => false
    case Some(n) =>
      if min.Some? && n < min.value then false
      else if max.Some? && n > max.value then false
      else true
  }

  function FloatValidator(min: Option<real>, max: Option<real>, parse: string -> Option<real>): Validator {
    s => FloatAccepts(min, max, parse, s)
  }

  function IntValidator(min: Option<int>, max: Option<int>): Validator {
    s => IntAccepts(min, max, s)
  }

  /** Without bounds, a validator accepts exactly the text its parser reads. */
  lemma UnboundedAcceptsParseable(parse: string -> Option<real>, s: string)
    ensures FloatValidator(None, None, parse)(s) <==> parse(s).Some?
    ensures IntValidator(None, None)(s) <==> Text.ParseInt(s).Some?
  {
  }

  /** `(min', max')` admits every value `(min, max)` admits. */
  predicate WiderFloat(min': Option<real>, max': Option<real>, min: Option<real>, max: Option<real>) {
    (min'.None? || (min.Some? && min'.value <= min.value)) && (max'.None? || (max.Some? && max.value <= max'.value))
  }

  predicate WiderInt(min': Option<int>, max': Option<int>, min: Option<int>, max: Option<int>) {
    (min'.None? || (min.Some? && min'.value <= min.value)) && (max'.None? || (max.Some? && max.value <= max'.value))
  }

  /** Widening the bounds never rejects text that was accepted. */
  lemma WideningKeepsAccepted(min': Option<real>, max': Option<real>, min: Option<real>, max: Option<real>,
                              parse: string -> Option<real>, s: string)
    requires WiderFloat(min', max', min, max)
    ensures FloatValidator(min, max, parse)(s) ==> FloatValidator(min', max', parse)(s)
  {
  }

  lemma IntWideningKeepsAccepted(min': Option<int>, max': Option<int>, min: Option<int>, max: Option<int>, s: string)
    requires WiderInt(min', max', min, max)
    ensures IntValidator(min, max)(s) ==> IntValidator(min', max')(s)
  {
  }

  /** The printed form of an integer is accepted exactly when it is a 64-bit value within the bounds. */
  lemma IntAcceptsShown(min: Option<int>, max: Option<int>, n: int)
    ensures IntValidator(min, max)(Text.ShowInt(n)) <==> Text.Int64Min <= n <= Text.Int64Max && IntInBounds(n, min, max)
  {
    ParseShown(n);
  }

  /** Parsing a printed integer gives it back, or nothing when it does not fit 64 bits. */
  lemma ParseShown(n: int)
    ensures Text.ParseInt(Text.ShowInt(n)) == if Text.Int64Min <= n <= Text.Int64Max then Some(n) else None
  {
    var s := Text.ShowInt(n);
    if n < 0 {
      assert s[0] == '-' && s[1..] == Text.ShowNat(-n);
      Text.ShowNatValue(-n);
    } else {
      Text.ShowNatValue(n);
      assert s[0] != '-' && s[0] != '+';
    }
  }

  // ------------------------------------------------------------------ field

  /** The field's text, its optional validator, and its error and focus flags. */
  datatype Field = Field(value: string, validator: Option<Validator>, hasError: bool, isFocused: bool)

  /** `isValid`: no validator or an empty value is valid; otherwise the validator decides. */
  function IsValid(f: Field): (ok: bool)
    ensures f.validator.None? ==> ok
    ensures f.value == [] ==> ok
    ensures f.validator.Some? && f.value != [] ==> (ok <==> f.validator.value(f.value))
  {
    match f.validator
    case None => true
    case Some(v) => if f.value == [] then true else v(f.value)
  }

  /** An edit replaces the text and refreshes the error flag; `onChange` receives the new text. */
  function OnValueChange(f: Field, newValue: string): (r: (Field, string))
    ensures r.0.value == newValue && r.1 == newValue
    ensures r.0.hasError <==> !IsValid(f.(value := newValue))
    ensures r.0.validator == f.validator && r.0.isFocused == f.isFocused
  {
    var f1 := f.(value := newValue);
    (f1.(hasError := !IsValid(f1)), newValue)
  }

  /** `handleSubmit()`: an invalid value is kept with focus; a valid one goes to `onSubmit` and focus drops. */
  function HandleSubmit(f: Field): (r: (Field, Option<string>))
    ensures r.1.Some? <==> IsValid(f)
    ensures r.1.Some? ==> r.1.value == f.value && !r.0.isFocused && r.0 == f.(isFocused := false)
    ensures r.1.None? ==> r.0 == f
  {
    if !IsValid(f) then (f, None) else (f.(isFocused := false), Some(f.value))
  }

  /** After any edit, a submit goes through exactly when the field shows no error. */
  lemma SubmitMatchesErrorFlag(f: Field, newValue: string)
    ensures var edited := OnValueChange(f, newValue).0;
      HandleSubmit(edited).1.Some? <==> !edited.hasError
  {
    var edited := OnValueChange(f, newValue).0;
    assert IsValid(edited) == IsValid(f.(value := newValue));
  }

  /** A field with a bounded float validator submits only text that parses to a value in the bounds. */
  lemma SubmittedFloatInBounds(f: Field, min: Option<real>, max: Option<real>, parse: string -> Option<real>)
    requires f.validator == Some(FloatValidator(min, max, parse))
    requires HandleSubmit(f).1.Some? && f.value != []
    ensures parse(f.value).Some? && FloatInBounds(parse(f.value).value, min, max)
  {
    assert FloatValidator(min, max, parse)(f.value);
  }
}
