/**
 * JavaScript values and the coercions the storefront's code leans on:
 * truthiness (`||`, `!`), nullish coalescing (`??`), property reads,
 * strict equality, `String(v)`, `Number(v)` and the arithmetic operators.
 * Numbers are integers here; `NaN` is kept because `Number("abc")` and
 * arithmetic on it reach the state of several pages.
 */
module Js {
  import opened Options
  import opened Text

  datatype Value =
    | Undefined
    | Null
    | Bool(b: bool)
    | Num(n: int)
    | NaN
    | Str(s: string)
    | Arr(elems: seq<Value>)
    | Obj(fields: map<string, Value>)

  /**
   * A storage key as the pages read it: `getItem` gave `null` or `""` (every
   * call site treats the two alike), the text is not JSON (`JSON.parse`
   * throws), or it parses to a value.
   */
  datatype Slot = Missing | Corrupt | Stored(value: Value)

  /** `localStorage.getItem(key)` on a store that maps keys to what they hold. */
  function SlotOf(store: map<string, Slot>, key: string): Slot {
    if key in store then store[key] else Missing
  }

  predicate IsNullish(v: Value) {
    v.Undefined? || v.Null?
  }

  predicate IsNumber(v: Value) {
    v.Num? || v.NaN?
  }

  /** The truth value JavaScript gives `v` in a condition. */
  predicate Truthy(v: Value) {
    match v
    case Undefined => false
    case Null => false
    case NaN => false
    case Bool(b) => b
    case Num(n) => n != 0
    case Str(s) => s != ""
    case _ => true
  }

  /** `a || b` */
  function Or(a: Value, b: Value): (r: Value)
    ensures Truthy(a) ==> r == a
    ensures !Truthy(a) ==> r == b
  {
    if Truthy(a) then a else b
  }

  /** `a ?? b` */
  function Coalesce(a: Value, b: Value): (r: Value)
    ensures !IsNullish(a) ==> r == a
    ensures IsNullish(a) ==> r == b
  {
    if IsNullish(a) then b else a
  }

  /** `v.key` for a value that is not null or undefined (reading a property of those throws). */
  function Get(v: Value, key: string): Value {
    if v.Obj? && key in v.fields then v.fields[key] else Undefined
  }

  /**
   * `a === b`. Parsed objects and arrays are distinct references, so two of
   * them are never strictly equal; `NaN` is not equal to itself.
   */
  predicate StrictEq(a: Value, b: Value) {
    a == b && !a.NaN? && !a.Arr? && !a.Obj?
  }

  /** An object or an array: a value compared by identity. */
  predicate IsReference(v: Value) {
    v.Obj? || v.Arr?
  }

  /**
   * SameValueZero, the key equality of `Map` and `Set`: `===`, except that
   * NaN equals itself. Objects and arrays are compared by identity, and
   * separately parsed ones are never identical, so they equal nothing.
   */
  predicate SameValueZero(a: Value, b: Value) {
    a == b && !IsReference(a)
  }

  /** `String(v)`; an array is the comma-joined text of its elements, null and undefined as "". */
  function ToStr(v: Value): string
    decreases v
  {
    match v
    case Undefined => "undefined"
    case Null => "null"
    case Bool(b) => if b then "true" else "false"
    case Num(n) => IntToString(n)
    case NaN => "NaN"
    case Str(s) => s
    case Arr(xs) =>
      JoinComma(seq(|xs|, i requires 0 <= i < |xs| => if IsNullish(xs[i]) then "" else ToStr(xs[i])))
    case Obj(_) => "[object Object]"
  }

  function JoinComma(ss: seq<string>): string {
    if |ss| == 0 then "" else if |ss| == 1 then ss[0] else ss[0] + "," + JoinComma(ss[1..])
  }

  /** `Number(s)` for a string: surrounding white space is ignored and the empty string is 0. */
  function StrToNumber(s: string): (r: Value)
    ensures IsNumber(r)
  {
    var t := Trim(s);
    if t == "" then Num(0)
    else match ParseInt(t)
      case Some(n) => Num(n)
      case None => NaN
  }

  /** `Number(v)`. */
  function ToNumber(v: Value): (r: Value)
    ensures IsNumber(r)
    ensures IsNumber(v) ==> r == v
  {
    match v
    case Undefined => NaN
    case Null => Num(0)
    case Bool(b) => Num(if b then 1 else 0)
    case Num(n) => v
    case NaN => NaN
    case Str(s) => StrToNumber(s)
    case Arr(_) => StrToNumber(ToStr(v))
    case Obj(_) => NaN
  }

  /** `Number(v) || d`: the number `v` converts to, or `d` when that is 0 or NaN. */
  function NumberOr(v: Value, d: int): (r: int)
    ensures ToNumber(v).Num? && ToNumber(v).n != 0 ==> r == ToNumber(v).n
    ensures !(ToNumber(v).Num? && ToNumber(v).n != 0) ==> r == d
  {
    var x := ToNumber(v);
    if x.Num? && x.n != 0 then x.n else d
  }

  /** The primitive an operator sees: objects and arrays become their `String` text. */
  function ToPrimitive(v: Value): Value {
    if v.Arr? || v.Obj? then Str(ToStr(v)) else v
  }

  /** `a + b`: concatenation once either side is text, numeric addition otherwise. */
  function Plus(a: Value, b: Value): (r: Value)
    ensures a.Num? && b.Num? ==> r == Num(a.n + b.n)
  {
    var pa, pb := ToPrimitive(a), ToPrimitive(b);
    if pa.Str? || pb.Str? then Str(ToStr(pa) + ToStr(pb))
    else
      var x, y := ToNumber(pa), ToNumber(pb);
      if x.Num? && y.Num? then Num(x.n + y.n) else NaN
  }

  /** `a + b` between two numbers adds them, NaN staying NaN. */
  lemma PlusNumbers(a: Value, b: Value)
    requires IsNumber(a) && IsNumber(b)
    ensures Plus(a, b) == if a.Num? && b.Num? then Num(a.n + b.n) else NaN
  {
  }

  /** `a - b` */
  function Minus(a: Value, b: Value): (r: Value)
    ensures IsNumber(r)
  {
    var x, y := ToNumber(a), ToNumber(b);
    if x.Num? && y.Num? then Num(x.n - y.n) else NaN
  }

  /** `a * b` */
  function Times(a: Value, b: Value): (r: Value)
    ensures IsNumber(r)
  {
    var x, y := ToNumber(a), ToNumber(b);
    if x.Num? && y.Num? then Num(x.n * y.n) else NaN
  }

  /** `Math.max(0, v)` for a number `v`: NaN stays NaN. */
  function MaxZero(v: Value): (r: Value)
    requires IsNumber(v)
    ensures IsNumber(r)
    ensures r.Num? ==> r.n >= 0
  {
    if v.Num? && v.n < 0 then Num(0) else v
  }

  /** `a < b` between two numbers: false when either is NaN. */
  predicate Less(a: Value, b: Value)
    requires IsNumber(a) && IsNumber(b)
  {
    a.Num? && b.Num? && a.n < b.n
  }

  /** The own properties `{...v}` copies: those of an object, none of a number, boolean, null or undefined. */
  function Spread(v: Value): map<string, Value> {
    if v.Obj? then v.fields else map[]
  }

}
