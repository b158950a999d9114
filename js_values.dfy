/** JavaScript values as the memory game reads them back from the browser's
    key/value storage. Storage keeps strings, and the game looks at a stored
    string only through `Number(s)`, `JSON.parse(s)` and its truthiness, so a
    stored string is modelled by exactly those three observations. */
module JsValues {

  datatype Option<+T> = None | Some(value: T)

  /** A JavaScript number: a finite value (kept exact, without floating-point
      rounding), NaN, or one of the two infinities. */
  datatype JsNumber = Finite(value: real) | NaN | Infinite

  /** The part of a `JSON.parse` result that the game inspects: numbers and
      arrays; strings, booleans, objects and `null` are all `JOther`. */
  datatype Json = JNumber(x: real) | JArray(elems: seq<Json>) | JOther

  /** A stored string: what `Number(s)` gives, what `JSON.parse(s)` gives
      (`None` when it throws) and whether the string is non-empty. */
  datatype Text = Text(number: JsNumber, json: Option<Json>, nonEmpty: bool)

  /** `Number.isInteger` on a finite number. */
  predicate IsIntegral(x: real) {
    x.Floor as real == x
  }

  /** `Number(localStorage.getItem(k))`: a missing key reads as `null`, and
      `Number(null)` is 0, a finite number. */
  function NumberOf(t: Option<Text>): JsNumber {
    if t.Some? then t.value.number else Finite(0.0)
  }

  /** The expression `n || 0` on a number: 0 and NaN are falsy. */
  function OrZero(n: JsNumber): JsNumber {
    if n == NaN || n == Finite(0.0) then Finite(0.0) else n
  }

  /** `Number(localStorage.getItem(k)) || 0`, the decoding of the stored
      level counters at start-up. */
  function StoredCounter(t: Option<Text>): (n: JsNumber)
    ensures n != NaN
    ensures t.None? ==> n == Finite(0.0)
  {
    OrZero(NumberOf(t))
  }

  /** A stored counter that decodes to an integer: the game only ever writes
      integers there. */
  predicate DecodesToInteger(t: Option<Text>) {
    StoredCounter(t).Finite? && IsIntegral(StoredCounter(t).value)
  }

  /** `String(x)` for a finite number `x`: what `setItem` stores for a number. */
  function NumberText(x: real): Text {
    Text(Finite(x), Some(JNumber(x)), true)
  }

  /** An integer array as JSON numbers. */
  function Encode(s: seq<int>): seq<Json> {
    seq(|s|, k requires 0 <= k < |s| => JNumber(s[k] as real))
  }

  /** `JSON.stringify` of an integer array: bracketed, so never a numeral, and
      `Number` of it is NaN. */
  function ArrayText(s: seq<int>): Text {
    Text(NaN, Some(JArray(Encode(s))), true)
  }

  /** Reading back a counter that the game itself stored gives the integer
      that was written, including 0. */
  lemma CounterRoundTrip(n: int)
    ensures StoredCounter(Some(NumberText(n as real))) == Finite(n as real)
    ensures IsIntegral(StoredCounter(Some(NumberText(n as real))).value)
  {
  }
}
