/** Optional values. `None` plays the part of JavaScript's `NaN`: the value
    that every parser in this model returns when its input is not a number. */
module Options {

  datatype Option<+T> = None | Some(value: T)

  /** Scaling a parse result: `NaN * factor` stays `NaN`. */
  function Scale(x: Option<real>, factor: real): (r: Option<real>)
    ensures r.Some? <==> x.Some?
    ensures r.Some? ==> r.value == x.value * factor
  {
    match x
    case None => None
    case Some(v) => Some(v * factor)
  }
}
