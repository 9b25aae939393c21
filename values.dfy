/** JavaScript numbers and the loosely typed field values that the server and
    the client coerce with `Number(...)`. */
module JsValues {
  import Text

  /** A JavaScript number: a finite value or NaN. Arithmetic is exact. */
  datatype Num = Real(r: real) | NaN

  /** A field value as a record holds it: absent (`undefined`), a number, or
      text. A text carries the number `Number()` parses from it; blank text
      always parses to 0, as in JavaScript. */
  datatype Value = Undefined | Number(n: Num) | Text(s: string, parsed: Num)

  /** `Number(v)` */
  function ToNumber(v: Value): Num {
    match v
    case Undefined => NaN
    case Number(n) => n
    case Text(s, parsed) => if Text.IsBlank(s) then Real(0.0) else parsed
  }

  /** JavaScript truthiness: `undefined`, 0, NaN and the empty string are falsy. */
  predicate Truthy(v: Value) {
    match v
    case Undefined => false
    case Number(n) => n.Real? && n.r != 0.0
    case Text(s, _) => s != []
  }

  /** `n || 0` on a number: NaN (and 0) become 0. */
  function OrZero(n: Num): real {
    if n.Real? then n.r else 0.0
  }

  /** `Number(v) || 0`, the coercion of every derived-value formula. */
  function Coerce(v: Value): (r: real)
    ensures ToNumber(v).Real? ==> r == ToNumber(v).r
    ensures ToNumber(v).NaN? ==> r == 0.0
  {
    OrZero(ToNumber(v))
  }

  /** `Number(v || 0)`, the coercion the client applies when it builds or saves
      a record: the fallback applies to falsy values only. */
  function NumberOrZero(v: Value): Num {
    ToNumber(if Truthy(v) then v else Number(Real(0.0)))
  }

  /** The two coercions agree whenever `Number(v)` is a number, and
      `Number(v || 0)` is NaN exactly for non-blank text that does not parse,
      where `Number(v) || 0` gives 0. */
  lemma CoercionsCompared(v: Value)
    ensures ToNumber(v).Real? ==> NumberOrZero(v) == Real(Coerce(v))
    ensures NumberOrZero(v) == NaN <==> (v.Text? && !Text.IsBlank(v.s) && v.parsed == NaN)
    ensures NumberOrZero(v) == NaN ==> Coerce(v) == 0.0
  {
    if v.Text? && v.s == [] {
      assert Text.IsBlank(v.s);
    }
  }

  function Add(a: Num, b: Num): (r: Num)
    ensures r.NaN? <==> a.NaN? || b.NaN?
  {
    if a.Real? && b.Real? then Real(a.r + b.r) else NaN
  }

  function Mul(a: Num, b: Num): (r: Num)
    ensures r.NaN? <==> a.NaN? || b.NaN?
  {
    if a.Real? && b.Real? then Real(a.r * b.r) else NaN
  }
}
