/**
 * The untyped, JSON-shaped values that the site's components receive from the
 * content backend, with the few JavaScript operations the components apply to
 * them: truthiness, `typeof`, the `in` operator, property reads, optional
 * chaining and the value-returning `||`.
 */
module JsValue {

  datatype Option<+T> = None | Some(value: T)

  /** A JavaScript value as it can reach a component: `NaN` is kept apart
      because it is the one falsy number that is not zero. */
  datatype Value =
    | Undefined
    | Null
    | Bool(b: bool)
    | Num(x: real)
    | NaN
    | Str(s: string)
    | Arr(elems: seq<Value>)
    | Obj(fields: map<string, Value>)

  /** JavaScript truthiness: `undefined`, `null`, `false`, `0`, `NaN` and the
      empty string are falsy; every array and object, even an empty one, is truthy. */
  predicate Truthy(v: Value) {
    match v
    case Undefined => false
    case Null => false
    case Bool(b) => b
    case Num(x) => x != 0.0
    case NaN => false
    case Str(s) => s != ""
    case Arr(_) => true
    case Obj(_) => true
  }

  /** The result of `typeof v`; note that `typeof null` and `typeof []` are both "object". */
  function TypeOf(v: Value): string {
    match v
    case Undefined => "undefined"
    case Null => "object"
    case Bool(_) => "boolean"
    case Num(_) => "number"
    case NaN => "number"
    case Str(_) => "string"
    case Arr(_) => "object"
    case Obj(_) => "object"
  }

  predicate IsDigit(c: char) {
    '0' <= c <= '9'
  }

  function DigitValue(c: char): nat
    requires IsDigit(c)
  {
    c as int - '0' as int
  }

  function DigitsValue(k: string): nat
    requires forall i | 0 <= i < |k| :: IsDigit(k[i])
  {
    if |k| == 0 then 0 else DigitsValue(k[..|k| - 1]) * 10 + DigitValue(k[|k| - 1])
  }

  function DigitChar(d: nat): char
    requires d < 10
  {
    ('0' as int + d) as char
  }

  /** The decimal spelling of `n` without leading zeros: the key under which
      an array or string exposes its element at position `n`. */
  function CanonicalIndex(n: nat): string {
    if n < 10 then [DigitChar(n)] else CanonicalIndex(n / 10) + [DigitChar(n % 10)]
  }

  /** The spelling of `n` is a non-empty run of digits, with no leading zero
      unless it is "0", and it reads back as `n`. */
  lemma {:induction false} CanonicalIndexReadsBack(n: nat)
    ensures var k := CanonicalIndex(n);
            && |k| > 0
            && (forall i | 0 <= i < |k| :: IsDigit(k[i]))
            && (k[0] != '0' || |k| == 1)
            && DigitsValue(k) == n
  {
    var k := CanonicalIndex(n);
    if n >= 10 {
      var prefix := CanonicalIndex(n / 10);
      CanonicalIndexReadsBack(n / 10);
      assert k[..|k| - 1] == prefix;
      assert k[0] == prefix[0];
    }
  }

  /** A canonical run of digits whose first digit is not zero reads as a positive number. */
  lemma {:induction false} LeadingDigitPositive(k: string)
    requires |k| > 0 && (forall i | 0 <= i < |k| :: IsDigit(k[i])) && k[0] != '0'
    ensures DigitsValue(k) > 0
  {
    if |k| > 1 {
      LeadingDigitPositive(k[..|k| - 1]);
    }
  }

  /** Reading a canonical run of digits and spelling the number again gives
      back the same key. */
  lemma {:induction false} DigitsSpellBack(k: string)
    requires |k| > 0 && (forall i | 0 <= i < |k| :: IsDigit(k[i])) && (k[0] != '0' || |k| == 1)
    ensures CanonicalIndex(DigitsValue(k)) == k
  {
    if |k| > 1 {
      var prefix := k[..|k| - 1];
      DigitsSpellBack(prefix);
      LeadingDigitPositive(prefix);
      var n := DigitsValue(k);
      assert n / 10 == DigitsValue(prefix) && n % 10 == DigitValue(k[|k| - 1]);
      assert k == prefix + [k[|k| - 1]];
    }
  }

  /** The position a property key names when it is a canonical array index
      ("0", "7", "42", but not "007" or "asset"). */
  function ArrayIndex(k: string): (r: Option<nat>)
    ensures r.Some? ==> CanonicalIndex(r.value) == k
  {
    if |k| > 0 && (forall i | 0 <= i < |k| :: IsDigit(k[i])) && (k[0] != '0' || |k| == 1)
    then DigitsSpellBack(k); Some(DigitsValue(k))
    else None
  }

  /** Every position has a key: together with the contract of `ArrayIndex`,
      `ArrayIndex(k) == Some(n)` holds exactly when `k` is the decimal
      spelling of `n`. */
  lemma ArrayIndexOfCanonical(n: nat)
    ensures ArrayIndex(CanonicalIndex(n)) == Some(n)
  {
    CanonicalIndexReadsBack(n);
  }

  /** Whether `k` names one of the first `n` elements of an array or string. */
  predicate IsIndexBelow(k: string, n: nat) {
    ArrayIndex(k).Some? && ArrayIndex(k).value < n
  }

  /** JavaScript's `k in v`, defined only on objects and arrays (on any other
      value the operator throws). An array's own keys are "length" and its
      canonical indices. */
  predicate HasProperty(v: Value, k: string)
    requires v.Obj? || v.Arr?
  {
    if v.Obj? then k in v.fields else k == "length" || IsIndexBelow(k, |v.elems|)
  }

  /** JavaScript's `v.k` (or `v[k]`), defined on every value but `undefined`
      and `null` (on those the read throws). A missing property reads as
      `undefined`; strings and arrays expose "length" and their indices. */
  function Get(v: Value, k: string): Value
    requires !v.Undefined? && !v.Null?
  {
    match v
    case Obj(m) => if k in m then m[k] else Undefined
    case Arr(a) =>
      if k == "length" then Num(|a| as real)
      else if IsIndexBelow(k, |a|) then a[ArrayIndex(k).value]
      else Undefined
    case Str(s) =>
      if k == "length" then Num(|s| as real)
      else if IsIndexBelow(k, |s|) then Str([s[ArrayIndex(k).value]])
      else Undefined
    case _ => Undefined
  }

  /** Optional chaining `v?.k`: `undefined` when `v` is `undefined` or `null`. */
  function OptGet(v: Value, k: string): Value {
    if v.Undefined? || v.Null? then Undefined else Get(v, k)
  }

  /** JavaScript's `a || b`, which yields one of its operands rather than a boolean. */
  function Or(a: Value, b: Value): (r: Value)
    ensures Truthy(r) <==> Truthy(a) || Truthy(b)
    ensures Truthy(a) ==> r == a
    ensures !Truthy(a) ==> r == b
  {
    if Truthy(a) then a else b
  }
}
