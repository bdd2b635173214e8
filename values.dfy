/** Small value types shared by every module of the model: optional values,
    results with an error, JavaScript numbers that may be non-finite, and the
    three outcomes of a database lookup. */
module Values {

  datatype Option<T> = None | Some(value: T)

  datatype Result<T, E> = Success(value: T) | Failure(error: E)

  /** A JavaScript number as far as this model needs it: a finite value, or one
      of NaN, +Infinity and -Infinity, which the model does not tell apart. */
  datatype JsNumber = Finite(value: real) | NonFinite

  /** `a / b` in JavaScript: non-finite exactly when the divisor is zero. */
  function Quotient(a: real, b: real): (q: JsNumber)
    ensures q.Finite? <==> b != 0.0
    ensures q.Finite? ==> q.value * b == a
  {
    if b == 0.0 then NonFinite else Finite(a / b)
  }

  /** `x * k` in JavaScript for a finite factor `k`: non-finite stays non-finite. */
  function Scale(x: JsNumber, k: real): (r: JsNumber)
    ensures r.Finite? <==> x.Finite?
    ensures r.Finite? ==> r.value == x.value * k
  {
    match x
    case Finite(v) => Finite(v * k)
    case NonFinite => NonFinite
  }

  /** The outcome of `Model.findById(id)`: a document, `null`, or a thrown error. */
  datatype Lookup<T> = Found(value: T) | Missing | Threw

  /** JavaScript truthiness of an optional string: present and not empty. */
  predicate Supplied(s: Option<string>)
  {
    s.Some? && s.value != ""
  }

  /** JavaScript truthiness of an optional number: present and not zero
      (NaN, also falsy in JavaScript, is not among the modelled values). */
  predicate TruthyNumber(x: Option<real>)
  {
    x.Some? && x.value != 0.0
  }

  /** `s.startsWith(prefix)`. */
  predicate StartsWith(s: string, prefix: string)
  {
    prefix <= s
  }
}
