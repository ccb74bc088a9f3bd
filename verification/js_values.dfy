/**
 * The JSON-shaped JavaScript values a request body is made of, and the
 * implicit conversions the source applies to them: truthiness (`!x`),
 * `String(x)` (template interpolation and `Array.prototype.join`),
 * `Number(x)` (inside `isNaN(Number(x))` and `Number(x) < 1`) and property
 * access by destructuring.
 */
module JsValues {
  import opened Options
  import opened Decimals
  import Strings

  /**
   * A value `JSON.parse` can produce, plus `Undefined` for a missing property.
   * Numbers are exact decimals. `JSON.parse` reads an out-of-range literal
   * such as `1e400` as `Infinity`; IEEE-754 doubles, and so that case, are
   * outside the model.
   */
  datatype JsValue =
    | Undefined
    | Null
    | Bool(b: bool)
    | Num(d: Decimal)
    | Str(s: string)
    | Arr(elems: seq<JsValue>)
    | Obj(fields: map<string, JsValue>)

  /** The result of `Number(x)`: NaN or a finite number. */
  datatype JsNumber = NaN | Finite(value: Decimal)

  /** An ECMAScript completion: the operation returned `value`, or it threw. */
  datatype Completion<+T> = Normal(value: T) | Throw

  /** ECMAScript ToBoolean: `false`, `0`, `""`, `null` and `undefined` are falsy. */
  predicate Truthy(v: JsValue)
    ensures !Truthy(v) ==>
      !ToStringThrows(v) && (ToNumber(v).NaN? || IsZero(ToNumber(v).value))
  {
    match v
    case Undefined => false
    case Null => false
    case Bool(b) => b
    case Num(d) => !IsZero(d)
    case Str(s) => s != ""
    case Arr(_) => true
    case Obj(_) => true
  }

  /**
   * `String(v)` throws a TypeError. A parsed object with its own `toString`
   * field has no callable `toString` (a JSON value is never a function), and
   * its inherited `valueOf` returns the object itself, so ToPrimitive finds
   * no primitive; `Number(v)` fails the same way. An array converts through
   * `join`, which throws on such an element at any depth.
   */
  predicate ToStringThrows(v: JsValue)
  {
    match v
    case Obj(fields) => "toString" in fields
    case Arr(elems) => exists i | 0 <= i < |elems| :: ToStringThrows(elems[i])
    case _ => false
  }

  /** ECMAScript ToString, as used by `${x}` in a template literal, where it returns. */
  function ToJsString(v: JsValue): (r: string)
    requires !ToStringThrows(v)
    ensures v.Num? ==> |r| > 0 && forall i :: 0 <= i < |r| ==> IsNumeralChar(r[i])
    decreases v, 1
  {
    match v
    case Undefined => "undefined"
    case Null => "null"
    case Bool(b) => if b then "true" else "false"
    case Num(d) => NumeralCharsOfPrint(d); Print(d)
    case Str(s) => s
    case Arr(elems) => JoinValues(elems, ",")
    case Obj(_) => "[object Object]"
  }

  /** How `Array.prototype.join` renders one element: `null` and `undefined` as the empty string. */
  function ElemString(e: JsValue): string
    requires !ToStringThrows(e)
    decreases e, 2
  {
    if e.Null? || e.Undefined? then "" else ToJsString(e)
  }

  /** `elems.join(sep)`, where it returns. */
  function JoinValues(elems: seq<JsValue>, sep: string): string
    requires !ToStringThrows(Arr(elems))
    decreases elems, 0
  {
    Strings.Join(seq(|elems|, i requires 0 <= i < |elems| => ElemString(elems[i])), sep)
  }

  /**
   * ECMAScript StringToNumber restricted to decimal literals: white space is
   * trimmed, an empty remainder is `0`, a signed decimal literal is its value,
   * anything else is NaN.
   */
  function StringToNumber(s: string): JsNumber
  {
    var t := Strings.Trim(s);
    if t == "" then Finite(Decimal(0, 0))
    else match ParseLiteral(t)
      case Some(d) => Finite(d)
      case None => NaN
  }

  /**
   * ECMAScript ToNumber. An array or object is first turned into its string
   * (ToPrimitive calls `toString`, which for an array is `join(',')`).
   */
  function ToNumber(v: JsValue): (r: JsNumber)
    requires !ToStringThrows(v)
    ensures v.Undefined? || v.Obj? ==> r.NaN?
    ensures v.Null? || v.Bool? || v.Num? ==> r.Finite?
  {
    match v
    case Undefined => NaN
    case Null => Finite(Decimal(0, 0))
    case Bool(b) => Finite(Decimal(if b then 1 else 0, 0))
    case Num(d) => Finite(d)
    case Str(s) => StringToNumber(s)
    case Arr(_) => StringToNumber(ToJsString(v))
    case Obj(_) => StringToNumberRejects("[object Object]"); StringToNumber(ToJsString(v))
  }

  /** `isNaN(Number(v))`. */
  predicate IsNaN(v: JsValue)
    requires !ToStringThrows(v)
  {
    ToNumber(v).NaN?
  }

  /** `const { ... } = v` throws a TypeError exactly for `null` and `undefined`. */
  predicate Destructurable(v: JsValue)
  {
    !v.Null? && !v.Undefined?
  }

  /** `v[name]` for one of the request's own field names: missing means `undefined`. */
  function Field(v: JsValue, name: string): JsValue
  {
    if v.Obj? && name in v.fields then v.fields[name] else Undefined
  }

  // ---- properties of the conversions ----

  /** A one-element array joins to that element's string, whatever the separator. */
  lemma JoinSingle(v: JsValue, sep: string)
    requires !ToStringThrows(v)
    ensures !ToStringThrows(Arr([v]))
    ensures JoinValues([v], sep) == ElemString(v)
  {
    assert seq(1, i requires 0 <= i < 1 => ElemString([v][i])) == [ElemString(v)];
  }


  predicate IsNumeralChar(c: char)
  {
    IsDigit(c) || c == '-' || c == '.'
  }

  lemma NumeralCharsOfPrint(d: Decimal)
    ensures |Print(d)| > 0
    ensures forall i :: 0 <= i < |Print(d)| ==> IsNumeralChar(Print(d)[i])
  {
    var n := Normalize(d);
    var u := PrintUnsigned(Magnitude(n), n.scale);
    assert forall i :: 0 <= i < |u| ==> IsNumeralChar(u[i]);
  }

  /** `Number(String(x))` is `x` for every finite number `x`. */
  lemma NumberOfString(d: Decimal)
    ensures StringToNumber(ToJsString(Num(d))) == Finite(Normalize(d))
  {
    var s := Print(d);
    assert ToJsString(Num(d)) == s;
    NumeralCharsOfPrint(d);
    assert !Strings.IsJsWhitespace(s[0]) && !Strings.IsJsWhitespace(s[|s| - 1]);
    Strings.TrimOfTrimmed(s);
    PrintParse(d);
    assert StringToNumber(s) == Finite(Normalize(d));
  }

  /** An empty array coerces to `0` and a one-number array to that number. */
  lemma ArrayToNumber(d: Decimal)
    ensures ToNumber(Arr([])) == Finite(Decimal(0, 0))
    ensures ToNumber(Arr([Num(d)])) == Finite(Normalize(d))
  {
    assert ToJsString(Arr([])) == "";
    JoinSingle(Num(d), ",");
    assert ToJsString(Arr([Num(d)])) == ToJsString(Num(d));
    NumberOfString(d);
  }

  /** A literal whose first character is neither a digit nor `.` is not a number. */
  lemma ParseUnsignedRejectsNonDigit(t: string)
    requires |t| > 0 && !IsDigit(t[0]) && t[0] != '.'
    ensures ParseUnsigned(t) == None
  {
    var i := IndexOf(t, '.');
    assert i > 0;
    assert t[..i][0] == t[0];
  }

  /** A trimmed string that starts with neither a digit, a sign nor `.` is NaN. */
  lemma StringToNumberRejects(t: string)
    requires |t| > 0 && !Strings.IsJsWhitespace(t[0]) && !Strings.IsJsWhitespace(t[|t| - 1])
    requires !IsDigit(t[0]) && t[0] != '.' && t[0] != '+' && t[0] != '-'
    ensures StringToNumber(t) == NaN
  {
    Strings.TrimOfTrimmed(t);
    ParseUnsignedRejectsNonDigit(t);
  }
}
