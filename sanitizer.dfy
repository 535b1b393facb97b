/**
 * PropertySanitizer: turning a raw string received from a client into the
 * value of a property of a given type. The PHP filters (`filter_var`), the
 * Slavic-character normalisation and PropertyCreator are not part of this
 * model: the filters are parameters, and a PropertyCreator call is returned
 * as the call to make with its argument.
 */
module Sanitizer {
  import opened Wrappers
  import opened Strings
  import opened Metadata

  /** The PropertyCreator entry points sanitize ends in. */
  datatype Creator =
    | Create(propertyType: PropertyType)
    | CreateInt | CreateFloat | CreateEnum | CreateBool | CreateDate | CreateTime | CreateDateTime

  /** A sanitized value: a string returned as it is, or the PropertyCreator call that builds it. */
  datatype Sanitized =
    | AsText(s: string)
    | Created(creator: Creator, arg: Value)

  /**
   * `filter_var` with FILTER_VALIDATE_INT, FILTER_VALIDATE_FLOAT and
   * FILTER_VALIDATE_EMAIL (None is `false`), and
   * `StringUtility::replaceSlavicCharsToNormalEquivalents`.
   */
  datatype Filters = Filters(
    validateInt: string -> Option<int>,
    validateFloat: string -> Option<Value>,
    validateEmail: string -> Option<string>,
    normalise: string -> string)

  /** FILTER_VALIDATE_INT with the options min_range 0 and max_range 1. */
  function BoolFilter(f: Filters, s: string): (r: Option<int>)
    ensures r.Some? <==> f.validateInt(s).Some? && 0 <= f.validateInt(s).value <= 1
    ensures r.Some? ==> r.value == f.validateInt(s).value
  {
    match f.validateInt(s)
    case Some(n) => if 0 <= n <= 1 then Some(n) else None
    case None => None
  }

  /** `str_replace(",", ".", $s)`. */
  function CommasToDots(s: string): (r: string)
    ensures |r| == |s|
    ensures forall i :: 0 <= i < |r| ==> r[i] != ','
    ensures forall i :: 0 <= i < |r| ==> (r[i] == '.' <==> s[i] == ',' || s[i] == '.')
    ensures forall i :: 0 <= i < |r| && s[i] != ',' ==> r[i] == s[i]
  {
    seq(|s|, i requires 0 <= i < |s| => if s[i] == ',' then '.' else s[i])
  }

  /** A string without commas is left alone, so the replacement is idempotent. */
  lemma CommasToDotsIdempotent(s: string)
    ensures CommasToDots(CommasToDots(s)) == CommasToDots(s)
    ensures (forall i :: 0 <= i < |s| ==> s[i] != ',') ==> CommasToDots(s) == s
  {
  }

  /** `substr($s, 0, 10)`: the first ten characters, or all of a shorter string. */
  function FirstTen(s: string): (r: string)
    ensures r <= s
    ensures |r| == if |s| < 10 then |s| else 10
  {
    if |s| < 10 then s else s[..10]
  }

  predicate IsHexDigit(c: char)
  {
    '0' <= c <= '9' || 'A' <= c <= 'F' || 'a' <= c <= 'f'
  }

  /** One of the characters the switch of sanitizeColor lets through. */
  predicate IsUpperHexDigit(c: char)
  {
    '0' <= c <= '9' || 'A' <= c <= 'F'
  }

  /**
   * sanitizeColor: the length check, the upper-casing and the scan of the
   * six characters. A colour is exactly six hex digits in either case, and
   * comes back upper-case.
   */
  function SanitizeColor(s: string): (r: Result<string>)
    ensures r.Ok? <==> |s| == 6 && forall i :: 0 <= i < |s| ==> IsHexDigit(s[i])
    ensures r.Ok? ==> r.value == Upper(s) && forall i :: 0 <= i < |r.value| ==> IsUpperHexDigit(r.value[i])
  {
    if |s| != 6 then Err("Value '" + s + "' is not a valid color.")
    else
      var u := Upper(s);
      if forall i | 0 <= i < 6 :: IsUpperHexDigit(u[i]) then Ok(u)
      else
        assert exists i :: 0 <= i < 6 && !IsUpperHexDigit(UpperChar(s[i]));
        Err("Value '" + s + "' is not a valid color.")
  }

  /** A sanitized colour sanitizes to itself. */
  lemma SanitizeColorIdempotent(s: string)
    requires SanitizeColor(s).Ok?
    ensures SanitizeColor(SanitizeColor(s).value) == SanitizeColor(s)
  {
    var u := SanitizeColor(s).value;
    assert forall i :: 0 <= i < |u| ==> IsHexDigit(u[i]);
    assert Upper(u) == u;
  }

  /** sanitizeEmail: the empty string is returned as it is; anything else must pass the email filter after normalisation. */
  function SanitizeEmail(f: Filters, s: string): (r: Result<string>)
    ensures |s| == 0 ==> r == Ok(s)
    ensures |s| != 0 ==> (r.Ok? <==> f.validateEmail(f.normalise(s)).Some?)
    ensures |s| != 0 && r.Ok? ==> r.value == f.validateEmail(f.normalise(s)).value
  {
    if |s| == 0 then Ok(s)
    else
      match f.validateEmail(f.normalise(s))
      case None => Err("Email filter failed for '" + s + "'.")
      case Some(x) => Ok(x)
  }

  /** A filtered integer handed to the creator, or the filter's error. */
  function IntCall(n: Option<int>, creator: Creator, failure: string): Result<Sanitized>
  {
    match n
    case Some(k) => Ok(Created(creator, Num(k)))
    case None => Err(failure)
  }

  /**
   * sanitize: a value that is not a string goes to PropertyCreator
   * unchanged; a string is dispatched on the property type, and a type
   * outside the enumeration is an error.
   */
  function Sanitize(f: Filters, v: Value, t: PropertyType): (r: Result<Sanitized>)
    ensures !v.Str? ==> r == Ok(Created(Create(t), v))
    ensures v.Str? && t == TEXT ==> r == Ok(AsText(v.s))
    ensures v.Str? && t.Unsupported? ==> r.Err?
    ensures v.Str? && (t == INT || t == ENUM) ==> (r.Ok? <==> f.validateInt(v.s).Some?)
    ensures v.Str? && (t == INT || t == ENUM) && r.Ok? ==>
              r.value == Created(if t == INT then CreateInt else CreateEnum, Num(f.validateInt(v.s).value))
    ensures v.Str? && t == FLOAT ==> (r.Ok? <==> f.validateFloat(CommasToDots(v.s)).Some?)
    ensures v.Str? && t == FLOAT && r.Ok? ==> r.value == Created(CreateFloat, f.validateFloat(CommasToDots(v.s)).value)
    ensures v.Str? && t == BOOL ==> (r.Ok? <==> f.validateInt(v.s).Some? && 0 <= f.validateInt(v.s).value <= 1)
    ensures v.Str? && t == BOOL && r.Ok? ==> r.value == Created(CreateBool, Num(f.validateInt(v.s).value)) &&
                                             r.value.arg in {Num(0), Num(1)}
    ensures v.Str? && t == DATE ==> r == Ok(Created(CreateDate, Str(FirstTen(v.s))))
    ensures v.Str? && t == TIME ==> r == Ok(Created(CreateTime, v))
    ensures v.Str? && t == DATETIME ==> r == Ok(Created(CreateDateTime, v))
    ensures v.Str? && t == EMAIL ==> (r.Ok? <==> SanitizeEmail(f, v.s).Ok?)
    ensures v.Str? && t == EMAIL && r.Ok? ==> r.value == AsText(SanitizeEmail(f, v.s).value)
    ensures v.Str? && t == EMAIL && v.s == "" ==> r == Ok(AsText(""))
    ensures v.Str? && t == COLOR ==> (r.Ok? <==> SanitizeColor(v.s).Ok?)
    ensures v.Str? && t == COLOR && r.Ok? ==> r.value == AsText(SanitizeColor(v.s).value)
  {
    if !v.Str? then Ok(Created(Create(t), v))
    else
      var s := v.s;
      match t
      case TEXT => Ok(AsText(s))
      case INT => IntCall(f.validateInt(s), CreateInt, "Int filter failed for '" + s + "'.")
      case FLOAT =>
        (match f.validateFloat(CommasToDots(s))
         case Some(x) => Ok(Created(CreateFloat, x))
         case None => Err("Float filter failed for '" + s + "'."))
      case ENUM => IntCall(f.validateInt(s), CreateEnum, "Int filter failed for '" + s + "'.")
      case BOOL => IntCall(BoolFilter(f, s), CreateBool, "Bool filter failed for '" + s + "'.")
      case DATE => Ok(Created(CreateDate, Str(FirstTen(s))))
      case TIME => Ok(Created(CreateTime, Str(s)))
      case DATETIME => Ok(Created(CreateDateTime, Str(s)))
      case EMAIL =>
        (match SanitizeEmail(f, s)
         case Ok(x) => Ok(AsText(x))
         case Err(m) => Err(m))
      case COLOR =>
        (match SanitizeColor(s)
         case Ok(x) => Ok(AsText(x))
         case Err(m) => Err(m))
      case Unsupported(code) => Err("The provided PropertyTypeEnum '" + IntToString(code) + "' is not supported.")
  }

  /** A sanitized colour string sanitizes to itself as a COLOR property. */
  lemma SanitizeColorPropertyIdempotent(f: Filters, s: string)
    requires Sanitize(f, Str(s), COLOR).Ok?
    ensures Sanitize(f, Str(s), COLOR).value.AsText?
    ensures Sanitize(f, Str(Sanitize(f, Str(s), COLOR).value.s), COLOR) == Sanitize(f, Str(s), COLOR)
  {
    SanitizeColorIdempotent(s);
  }

  /** The comma replacement only ever widens what FLOAT accepts: "1,5" is read as "1.5". */
  lemma FloatReadsCommaAsDot(f: Filters, a: string, b: string)
    requires |a| == |b|
    requires forall i :: 0 <= i < |a| ==> (a[i] == b[i] || (a[i] == ',' && b[i] == '.'))
    ensures Sanitize(f, Str(a), FLOAT).Ok? <==> Sanitize(f, Str(b), FLOAT).Ok?
    ensures Sanitize(f, Str(a), FLOAT).Ok? ==> Sanitize(f, Str(a), FLOAT) == Sanitize(f, Str(b), FLOAT)
  {
    assert CommasToDots(a) == CommasToDots(b);
  }
}
