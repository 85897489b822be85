/**
 * The loosely typed values the intent layer works on: what `JSON.parse` produces, what
 * the store holds in a document, and JavaScript's coercions on them (truthiness,
 * `Number(...)`, `String(...)`, object spread, `flat(Infinity)`).
 */
module Js {
  import opened Text
  import opened Wrappers

  /**
   * A JavaScript value. Numbers are split by kind: `Num` is a finite number with an
   * integral value, `Frac` a finite number with a fractional part, kept as the text
   * JavaScript prints for it (floating point stays opaque), `NaN` and `Infinity`.
   */
  datatype Value =
    | Undefined
    | Null
    | Bool(b: bool)
    | Num(n: int)
    | Frac(text: string)
    | NaN
    | Infinity(negative: bool)
    | Str(s: string)
    | Arr(elems: seq<Value>)
    | Obj(fields: map<string, Value>)

  /** A plain object: its own enumerable properties. */
  type Object = map<string, Value>

  /** What a handler can throw: a property read on `null`/`undefined`, or a failed store call. */
  datatype Failure = TypeError | StoreFailure(fault: Fault)

  datatype Fault = Unavailable | DuplicateKey | ValidationFailed | CastFailed

  /** `v == null` */
  predicate IsNullish(v: Value) {
    v.Undefined? || v.Null?
  }

  /** `typeof v === "number"` */
  predicate IsNumber(v: Value) {
    v.Num? || v.Frac? || v.NaN? || v.Infinity?
  }

  /** `Number.isFinite(v)` */
  predicate IsFinite(v: Value) {
    v.Num? || v.Frac?
  }

  /** `Boolean(v)` */
  predicate Truthy(v: Value) {
    match v
    case Undefined => false
    case Null => false
    case Bool(b) => b
    case Num(n) => n != 0
    case Frac(_) => true
    case NaN => false
    case Infinity(_) => true
    case Str(s) => s != []
    case Arr(_) => true
    case Obj(_) => true
  }

  /** `o[key]` on a plain object. */
  function Get(o: Object, key: string): Value {
    if key in o then o[key] else Undefined
  }

  /**
   * `v.key` on a value that is not `null` or `undefined` (and `v?.key` on any value), for
   * the named keys the intent layer reads, none of which a string, array or number has.
   */
  function Field(v: Value, key: string): Value {
    if v.Obj? then Get(v.fields, key) else Undefined
  }

  /** `v.key`, which throws a TypeError when `v` is `null` or `undefined`. */
  function Prop(v: Value, key: string): (r: Result<Value, Failure>)
    ensures r.Err? <==> IsNullish(v)
    ensures r.Ok? ==> r.value == Field(v, key)
  {
    if IsNullish(v) then Err(TypeError) else Ok(Field(v, key))
  }

  // ----- Number(...) -----

  /**
   * `Number(s)` for a string: white space around the text is ignored, the empty text is 0,
   * an optionally signed run of decimal digits is that integer, and `Infinity` is infinite.
   */
  function StringToNumber(s: string): (r: Value)
    ensures IsNumber(r)
    ensures IsBlank(s) ==> r == Num(0)
  {
    var t := Trim(s);
    if t == [] then Num(0)
    else if IsDigits(t) then Num(DigitsValue(t))
    else if |t| > 1 && t[0] == '-' && IsDigits(t[1..]) then Num(-(DigitsValue(t[1..]) as int))
    else if |t| > 1 && t[0] == '+' && IsDigits(t[1..]) then Num(DigitsValue(t[1..]))
    else if t == "Infinity" || t == "+Infinity" then Infinity(false)
    else if t == "-Infinity" then Infinity(true)
    else NaN
  }

  /**
   * Converting `v` to a primitive throws a `TypeError`. `String(v)`, `Number(v)`, a template
   * literal and a property key `o[v]` all convert this way. A JSON object with its own
   * `toString` key throws, because no JSON value is callable: `toString` is skipped, and the
   * inherited `valueOf` gives back the object itself. An array throws when `join` renders
   * such an element.
   */
  predicate ConversionThrows(v: Value)
    decreases v
  {
    match v
    case Obj(fields) => "toString" in fields
    case Arr(elems) => exists i :: 0 <= i < |elems| && !IsNullish(elems[i]) && ConversionThrows(elems[i])
    case _ => false
  }

  /**
   * `Number(v)`: always a number, and a number is left as it is. Where the conversion
   * throws (`ConversionThrows`), the value here is `NaN`, and callers that reach the throw
   * test for it first.
   */
  function ToNumber(v: Value): (r: Value)
    ensures IsNumber(r)
    ensures IsNumber(v) ==> r == v
    decreases v
  {
    match v
    case Undefined => NaN
    case Null => Num(0)
    case Bool(b) => Num(if b then 1 else 0)
    case Str(s) => StringToNumber(s)
    case Arr(elems) =>
      // an array converts through its text: [] is "", [x] is String(x), longer ones contain ","
      if |elems| == 0 then Num(0)
      else if |elems| > 1 then NaN
      else if IsNullish(elems[0]) then Num(0)
      else if elems[0].Bool? || elems[0].Obj? then NaN
      else ToNumber(elems[0])
    case Obj(_) => NaN
    case _ => v
  }

  lemma ToNumberIdempotent(v: Value)
    ensures ToNumber(ToNumber(v)) == ToNumber(v)
  {
  }

  /** A value whose conversion throws has no number: `NaN` stands in for the throw. */
  lemma {:induction false} ConversionThrowsIsNaN(v: Value)
    requires ConversionThrows(v)
    ensures ToNumber(v).NaN?
    decreases v
  {
    match v
    case Obj(_) =>
    case Arr(elems) =>
      var i :| 0 <= i < |elems| && !IsNullish(elems[i]) && ConversionThrows(elems[i]);
      if |elems| == 1 {
        assert i == 0;
        if !elems[0].Obj? {
          ConversionThrowsIsNaN(elems[0]);
        }
      }
  }

  // ----- String(...) -----

  /**
   * `String(v)`, which template literals also use, for a `v` whose conversion does not
   * throw (`ConversionThrows`); an object renders as `[object Object]`.
   */
  function ToStr(v: Value): string
    decreases v
  {
    match v
    case Undefined => "undefined"
    case Null => "null"
    case Bool(b) => if b then "true" else "false"
    case Num(n) => IntToString(n)
    case Frac(text) => text
    case NaN => "NaN"
    case Infinity(negative) => if negative then "-Infinity" else "Infinity"
    case Str(s) => s
    case Arr(elems) =>
      Join(seq(|elems|, i requires 0 <= i < |elems| => if IsNullish(elems[i]) then "" else ToStr(elems[i])), ",")
    case Obj(_) => "[object Object]"
  }

  /** `Number(String(n))` is `n` for an integral number. */
  lemma {:induction false} NumberOfRenderedInteger(n: int)
    ensures StringToNumber(IntToString(n)) == Num(n)
  {
    var t := IntToString(n);
    var digits := NatToString(if n < 0 then -n else n);
    NatToStringRoundTrip(if n < 0 then -n else n);
    assert Trim(t) == t by {
      assert !IsSpace(t[0]) && !IsSpace(t[|t| - 1]);
      TrimOfTrimmed(t);
    }
    if n < 0 {
      assert t[1..] == digits;
      assert !IsDigit(t[0]);
    }
  }

  // ----- spread and flat -----

  /** The properties `{...v}` copies: an object's own, or an array's or string's by index. */
  function Spread(v: Value): Object {
    match v
    case Obj(fields) => fields
    case Arr(elems) => IndexKeyed(elems)
    case Str(s) => IndexKeyed(seq(|s|, i requires 0 <= i < |s| => Str([s[i]])))
    case _ => map[]
  }

  /** An array-like as an object keyed "0", "1", ... */
  function IndexKeyed(vs: seq<Value>): (o: Object)
    ensures forall i :: 0 <= i < |vs| ==> NatToString(i) in o
  {
    if vs == [] then map[]
    else IndexKeyed(vs[..|vs| - 1])[NatToString(|vs| - 1) := vs[|vs| - 1]]
  }

  /** `v.flat(Infinity)` for an array `v`, from index `i` on: no element of the result is an array. */
  function FlatFrom(v: Value, i: nat): (r: seq<Value>)
    requires v.Arr? && i <= |v.elems|
    ensures forall k :: 0 <= k < |r| ==> !r[k].Arr?
    decreases v, |v.elems| - i
  {
    if i == |v.elems| then []
    else (if v.elems[i].Arr? then FlatFrom(v.elems[i], 0) else [v.elems[i]]) + FlatFrom(v, i + 1)
  }

  /** Flattening keeps every non-array element, in order. */
  lemma {:induction false} FlatOfFlatList(v: Value, i: nat)
    requires v.Arr? && i <= |v.elems|
    requires forall k :: i <= k < |v.elems| ==> !v.elems[k].Arr?
    ensures FlatFrom(v, i) == v.elems[i..]
    decreases |v.elems| - i
  {
    if i < |v.elems| {
      FlatOfFlatList(v, i + 1);
      assert v.elems[i..] == [v.elems[i]] + v.elems[i + 1..];
    }
  }
}
