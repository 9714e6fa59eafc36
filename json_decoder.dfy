/** Typed field extraction from a string-keyed JSON object
    (GitHubSearch/JSONDecoder.swift). Every getter is a chain of guards over
    the immutable object that returns a value or a tagged decode error. */
module JSONDecoder {
  import opened Wrappers
  import DateFormat

  /** A JSON number with a fractional part, kept as an uninterpreted decimal:
      the model does no floating-point reasoning. */
  datatype Decimal = Decimal(mantissa: int, exponent: int)

  /** The values NSJSONSerialization produces. */
  datatype JSON =
    | JNull
    | JBool(b: bool)
    | JInt(i: int)
    | JNum(n: Decimal)
    | JStr(s: string)
    | JArr(elems: seq<JSON>)
    | JObj(fields: map<string, JSON>)

  /** `[String : AnyObject]` */
  type JSONObject = map<string, JSON>

  /** The Swift types the decoders ask for with `as? T`. */
  datatype SwiftType = IntType | BoolType | DoubleType | StringType | ObjectType | ObjectArrayType

  /** The run-time class of a decoded JSON value (`value.dynamicType`). */
  datatype DynamicType = NullClass | BooleanClass | IntegerClass | DecimalClass | StringClass | ArrayClass | DictionaryClass

  function DynamicTypeOf(v: JSON): DynamicType {
    match v
    case JNull => NullClass
    case JBool(_) => BooleanClass
    case JInt(_) => IntegerClass
    case JNum(_) => DecimalClass
    case JStr(_) => StringClass
    case JArr(_) => ArrayClass
    case JObj(_) => DictionaryClass
  }

  /** `v as? t` succeeds: a strict check of the value's tag; an array is an
      `[JSONObject]` when every element is an object. */
  predicate HasType(v: JSON, t: SwiftType) {
    match t
    case IntType => v.JInt?
    case BoolType => v.JBool?
    case DoubleType => v.JNum?
    case StringType => v.JStr?
    case ObjectType => v.JObj?
    case ObjectArrayType => v.JArr? && forall e :: e in v.elems ==> e.JObj?
  }

  /** NSNull is an instance of none of the requested types. */
  lemma NullHasNoType(t: SwiftType)
    ensures !HasType(JNull, t)
  {
  }

  datatype DecodeError =
    | MissingRequiredKey(key: string)
    | UnexpectedTye(key: string, expected: SwiftType, actual: DynamicType)
    | CannotParseURL(key: string, value: string)
    | CannotParseDate(key: string, value: string)

  function SwiftTypeName(t: SwiftType): string {
    match t
    case IntType => "Int"
    case BoolType => "Bool"
    case DoubleType => "Double"
    case StringType => "String"
    case ObjectType => "Dictionary<String, AnyObject>"
    case ObjectArrayType => "Array<Dictionary<String, AnyObject>>"
  }

  function DynamicTypeName(d: DynamicType): string {
    match d
    case NullClass => "NSNull"
    case BooleanClass => "NSNumber"
    case IntegerClass => "NSNumber"
    case DecimalClass => "NSNumber"
    case StringClass => "NSString"
    case ArrayClass => "NSArray"
    case DictionaryClass => "NSDictionary"
  }

  const DescriptionPrefix: string := "JSON Decode Error: "

  /** s occurs in r as a contiguous piece. */
  ghost predicate Embeds(r: string, s: string) {
    exists i :: 0 <= i <= |r| - |s| && Piece(r, i, |s|) == s
  }

  function Piece(r: string, i: int, n: nat): string
    requires 0 <= i <= |r| - n
  {
    r[i..i + n]
  }

  /** `debugDescription`: a fixed message per case that names the key, and
      for the two parse errors the raw string as well. */
  function DebugDescription(e: DecodeError): (r: string)
    ensures |r| > |DescriptionPrefix| && r[..|DescriptionPrefix|] == DescriptionPrefix
  {
    match e
    case MissingRequiredKey(key) =>
      DescriptionPrefix + "Required key '" + key + "' missing"
    case UnexpectedTye(key, expected, actual) =>
      DescriptionPrefix + "Unexpected type '" + DynamicTypeName(actual) + "' was supplied for '" + key + "': "
      + SwiftTypeName(expected)
    case CannotParseURL(key, value) =>
      DescriptionPrefix + "Cannot parse URL '" + value + "' for key '" + key + "'"
    case CannotParseDate(key, value) =>
      DescriptionPrefix + "Cannot parse date '" + value + "' for key '" + key + "'"
  }

  lemma PieceAtEnd(x: string, k: string)
    ensures Piece(x + k, |x|, |k|) == k
  {
  }

  lemma PieceOfLonger(x: string, y: string, i: int, n: nat)
    requires 0 <= i <= |x| - n
    ensures Piece(x + y, i, n) == Piece(x, i, n)
  {
  }

  /** Every message names the key it is about. */
  lemma DescriptionNamesKey(e: DecodeError)
    ensures Embeds(DebugDescription(e), e.key)
  {
    var r := DebugDescription(e);
    match e
    case MissingRequiredKey(key) =>
      var x := DescriptionPrefix + "Required key '";
      PieceAtEnd(x, key);
      PieceOfLonger(x + key, "' missing", |x|, |key|);
    case UnexpectedTye(key, expected, actual) =>
      var x := DescriptionPrefix + "Unexpected type '" + DynamicTypeName(actual) + "' was supplied for '";
      PieceAtEnd(x, key);
      PieceOfLonger(x + key, "': ", |x|, |key|);
      PieceOfLonger(x + key + "': ", SwiftTypeName(expected), |x|, |key|);
    case CannotParseURL(key, value) =>
      var x := DescriptionPrefix + "Cannot parse URL '" + value + "' for key '";
      PieceAtEnd(x, key);
      PieceOfLonger(x + key, "'", |x|, |key|);
    case CannotParseDate(key, value) =>
      var x := DescriptionPrefix + "Cannot parse date '" + value + "' for key '";
      PieceAtEnd(x, key);
      PieceOfLonger(x + key, "'", |x|, |key|);
  }

  /** The two parse errors also quote the string that failed to parse. */
  lemma DescriptionQuotesValue(e: DecodeError)
    requires e.CannotParseURL? || e.CannotParseDate?
    ensures Embeds(DebugDescription(e), e.value)
  {
    var r := DebugDescription(e);
    if e.CannotParseURL? {
      assert Piece(r, 37, |e.value|) == e.value;
    } else {
      assert Piece(r, 38, |e.value|) == e.value;
    }
  }

  /** The characters that tell the four messages apart: the first letter
      after the prefix, and for the two parse errors the first letter of
      the kind of value. */
  lemma DescriptionMarks(e: DecodeError)
    ensures |DebugDescription(e)| > 32
    ensures e.MissingRequiredKey? ==> DebugDescription(e)[19] == 'R'
    ensures e.UnexpectedTye? ==> DebugDescription(e)[19] == 'U'
    ensures e.CannotParseURL? ==> DebugDescription(e)[19] == 'C' && DebugDescription(e)[32] == 'U'
    ensures e.CannotParseDate? ==> DebugDescription(e)[19] == 'C' && DebugDescription(e)[32] == 'd'
  {
  }

  /** The four messages are told apart by their text: equal descriptions
      come from errors of the same case. */
  lemma DescriptionDeterminesCase(e1: DecodeError, e2: DecodeError)
    requires DebugDescription(e1) == DebugDescription(e2)
    ensures e1.MissingRequiredKey? == e2.MissingRequiredKey?
    ensures e1.UnexpectedTye? == e2.UnexpectedTye?
    ensures e1.CannotParseURL? == e2.CannotParseURL?
    ensures e1.CannotParseDate? == e2.CannotParseDate?
  {
    DescriptionMarks(e1);
    DescriptionMarks(e2);
  }

  /** The missing-key message names its key unambiguously. */
  lemma MissingKeyDescriptionInjective(k1: string, k2: string)
    requires DebugDescription(MissingRequiredKey(k1)) == DebugDescription(MissingRequiredKey(k2))
    ensures k1 == k2
  {
    var r := DebugDescription(MissingRequiredKey(k1));
    assert |k1| == |k2|;
    assert k1 == r[33..33 + |k1|];
  }

  /** `getValue<T>(key)`: the stored value when the key is present and holds
      a T; MissingRequiredKey when absent (an explicit null is present);
      otherwise UnexpectedTye naming the key, T and the value's class. */
  function GetValue(json: JSONObject, key: string, t: SwiftType): (r: Result<JSON, DecodeError>)
    ensures r == Failure(MissingRequiredKey(key)) <==> key !in json
    ensures r.Success? <==> key in json && HasType(json[key], t)
    ensures r.Success? ==> r.value == json[key] && HasType(r.value, t)
    ensures r.Failure? && key in json ==> r.error == UnexpectedTye(key, t, DynamicTypeOf(json[key]))
    ensures key in json && json[key] == JNull ==> r == Failure(UnexpectedTye(key, t, NullClass))
  {
    if key !in json then
      Failure(MissingRequiredKey(key))
    else
      var value := json[key];
      if !HasType(value, t) then
        Failure(UnexpectedTye(key, t, DynamicTypeOf(value)))
      else
        Success(value)
  }

  /** `getOptionalValue<T>(key)`: none when the key is absent or null;
      otherwise as getValue. */
  function GetOptionalValue(json: JSONObject, key: string, t: SwiftType): (r: Result<Option<JSON>, DecodeError>)
    ensures r == Success(None) <==> key !in json || json[key] == JNull
    ensures r.Success? && r.value.Some? ==> key in json && r.value.value == json[key] && HasType(r.value.value, t)
    ensures r.Failure? ==> key in json && json[key] != JNull
                           && r.error == UnexpectedTye(key, t, DynamicTypeOf(json[key]))
  {
    if key !in json then
      Success(None)
    else
      var value := json[key];
      if value.JNull? then
        Success(None)
      else if !HasType(value, t) then
        Failure(UnexpectedTye(key, t, DynamicTypeOf(value)))
      else
        Success(Some(value))
  }

  /** On a present, non-null field the optional getter is the required one
      with its value wrapped: same value, same error. */
  lemma OptionalAgreesWithRequired(json: JSONObject, key: string, t: SwiftType)
    requires key in json && json[key] != JNull
    ensures GetValue(json, key, t).Success? ==> GetOptionalValue(json, key, t) == Success(Some(GetValue(json, key, t).value))
    ensures GetValue(json, key, t).Failure? ==> GetOptionalValue(json, key, t) == Failure(GetValue(json, key, t).error)
  {
  }

  /** getValue at the concrete types the records ask for: the stored
      payload when the tag matches, getValue's error otherwise. */
  function GetInt(json: JSONObject, key: string): (r: Result<int, DecodeError>)
    ensures r.Success? ==> GetValue(json, key, IntType) == Success(JInt(r.value))
    ensures r.Failure? ==> GetValue(json, key, IntType) == Failure(r.error)
  {
    var v :- GetValue(json, key, IntType);
    Success(v.i)
  }

  function GetBool(json: JSONObject, key: string): (r: Result<bool, DecodeError>)
    ensures r.Success? ==> GetValue(json, key, BoolType) == Success(JBool(r.value))
    ensures r.Failure? ==> GetValue(json, key, BoolType) == Failure(r.error)
  {
    var v :- GetValue(json, key, BoolType);
    Success(v.b)
  }

  function GetDouble(json: JSONObject, key: string): (r: Result<Decimal, DecodeError>)
    ensures r.Success? ==> GetValue(json, key, DoubleType) == Success(JNum(r.value))
    ensures r.Failure? ==> GetValue(json, key, DoubleType) == Failure(r.error)
  {
    var v :- GetValue(json, key, DoubleType);
    Success(v.n)
  }

  function GetString(json: JSONObject, key: string): (r: Result<string, DecodeError>)
    ensures r.Success? ==> GetValue(json, key, StringType) == Success(JStr(r.value))
    ensures r.Failure? ==> GetValue(json, key, StringType) == Failure(r.error)
  {
    var v :- GetValue(json, key, StringType);
    Success(v.s)
  }

  function GetObject(json: JSONObject, key: string): (r: Result<JSONObject, DecodeError>)
    ensures r.Success? ==> GetValue(json, key, ObjectType) == Success(JObj(r.value))
    ensures r.Failure? ==> GetValue(json, key, ObjectType) == Failure(r.error)
  {
    var v :- GetValue(json, key, ObjectType);
    Success(v.fields)
  }

  function GetOptionalString(json: JSONObject, key: string): (r: Result<Option<string>, DecodeError>)
    ensures r == Success(None) ==> GetOptionalValue(json, key, StringType) == Success(None)
    ensures r.Success? && r.value.Some? ==> GetOptionalValue(json, key, StringType) == Success(Some(JStr(r.value.value)))
    ensures r.Failure? ==> GetOptionalValue(json, key, StringType) == Failure(r.error)
  {
    var v :- GetOptionalValue(json, key, StringType);
    match v
    case None => Success(None)
    case Some(s) => Success(Some(s.s))
  }

  /** What `NSURL(string:)` returns for a string it accepts. */
  datatype URL = URL(absoluteString: string)

  /** `getURL(key)`: a required string that `isURL` (the URL parser's
      acceptance) must accept. getValue's errors pass through unchanged; the
      only added failure is CannotParseURL with the key and the raw string. */
  function GetURL(json: JSONObject, key: string, isURL: string -> bool): (r: Result<URL, DecodeError>)
    ensures GetValue(json, key, StringType).Failure? ==> r == Failure(GetValue(json, key, StringType).error)
    ensures r.Success? <==> key in json && json[key].JStr? && isURL(json[key].s)
    ensures r.Success? ==> r.value == URL(json[key].s)
    ensures r.Failure? && r.error.CannotParseURL? ==>
              key in json && json[key] == JStr(r.error.value) && r.error.key == key && !isURL(r.error.value)
    ensures key in json && json[key].JStr? && !isURL(json[key].s) ==> r == Failure(CannotParseURL(key, json[key].s))
  {
    var value :- GetValue(json, key, StringType);
    if isURL(value.s) then Success(URL(value.s)) else Failure(CannotParseURL(key, value.s))
  }

  /** `getOptionalURL(key)`: none exactly when getOptionalValue gives none,
      so an absent or null field never raises a parse error. */
  function GetOptionalURL(json: JSONObject, key: string, isURL: string -> bool): (r: Result<Option<URL>, DecodeError>)
    ensures r == Success(None) <==> GetOptionalValue(json, key, StringType) == Success(None)
    ensures GetOptionalValue(json, key, StringType).Failure? ==> r == Failure(GetOptionalValue(json, key, StringType).error)
    ensures r.Success? && r.value.Some? ==> key in json && json[key] == JStr(r.value.value.absoluteString) && isURL(r.value.value.absoluteString)
    ensures r.Failure? && r.error.CannotParseURL? ==>
              key in json && json[key] == JStr(r.error.value) && r.error.key == key && !isURL(r.error.value)
    ensures key in json && json[key].JStr? ==>
              r == if isURL(json[key].s) then Success(Some(URL(json[key].s))) else Failure(CannotParseURL(key, json[key].s))
  {
    var value :- GetOptionalValue(json, key, StringType);
    match value
    case None => Success(None)
    case Some(v) => if isURL(v.s) then Success(Some(URL(v.s))) else Failure(CannotParseURL(key, v.s))
  }

  /** `getDate(key)`: a required string in the formatter's pattern. getValue's
      errors pass through unchanged; the only added failure is CannotParseDate
      with the key and the raw string. */
  function GetDate(json: JSONObject, key: string): (r: Result<DateFormat.Date, DecodeError>)
    ensures GetValue(json, key, StringType).Failure? ==> r == Failure(GetValue(json, key, StringType).error)
    ensures r.Success? <==> key in json && json[key].JStr? && DateFormat.ParseDate(json[key].s).Some?
    ensures r.Success? ==> json[key].JStr? && DateFormat.ParseDate(json[key].s) == Some(r.value)
    ensures r.Failure? && r.error.CannotParseDate? ==>
              key in json && json[key] == JStr(r.error.value) && r.error.key == key
              && DateFormat.ParseDate(r.error.value).None?
    ensures key in json && json[key].JStr? && DateFormat.ParseDate(json[key].s).None? ==>
              r == Failure(CannotParseDate(key, json[key].s))
  {
    var value :- GetValue(json, key, StringType);
    match DateFormat.ParseDate(value.s)
    case None => Failure(CannotParseDate(key, value.s))
    case Some(date) => Success(date)
  }

  /** `getOptionalDate(key)`: none exactly when getOptionalValue gives none,
      so an absent or null field never raises a parse error. */
  function GetOptionalDate(json: JSONObject, key: string): (r: Result<Option<DateFormat.Date>, DecodeError>)
    ensures r == Success(None) <==> GetOptionalValue(json, key, StringType) == Success(None)
    ensures GetOptionalValue(json, key, StringType).Failure? ==> r == Failure(GetOptionalValue(json, key, StringType).error)
    ensures r.Success? && r.value.Some? ==>
              key in json && json[key].JStr? && DateFormat.ParseDate(json[key].s) == r.value
    ensures r.Failure? && r.error.CannotParseDate? ==>
              key in json && json[key] == JStr(r.error.value) && r.error.key == key
              && DateFormat.ParseDate(r.error.value).None?
    ensures key in json && json[key].JStr? ==>
              r == match DateFormat.ParseDate(json[key].s)
                   case None => Failure(CannotParseDate(key, json[key].s))
                   case Some(date) => Success(Some(date))
  {
    var value :- GetOptionalValue(json, key, StringType);
    match value
    case None => Success(None)
    case Some(v) =>
      match DateFormat.ParseDate(v.s)
      case None => Failure(CannotParseDate(key, v.s))
      case Some(date) => Success(Some(date))
  }

  /** A date field that decodes is exactly the formatter's text for the
      decoded date. */
  lemma DateFieldRoundTrip(json: JSONObject, key: string)
    requires GetDate(json, key).Success?
    ensures DateFormat.ValidDate(GetDate(json, key).value)
    ensures DateFormat.FormatDate(GetDate(json, key).value) == json[key].s
  {
    DateFormat.FormatParse(json[key].s);
  }

  /** The text the formatter writes for a valid date decodes back to it. */
  lemma FormattedDateDecodes(json: JSONObject, key: string, d: DateFormat.Date)
    requires DateFormat.ValidDate(d)
    requires key in json && json[key] == JStr(DateFormat.FormatDate(d))
    ensures GetDate(json, key) == Success(d)
  {
    DateFormat.ParseFormat(d);
  }
}
