/**
 * PHP values as the routing code meets them: configuration entries (`Value`,
 * possibly nested) and URL parameters (`Params`: null, a scalar already in
 * its string form, or an array of such scalars), with `empty()` written out.
 */
module PhpValue {
  import opened PhpString
  import opened PhpArray

  /** A configuration value: `null`, a scalar in its string form, or a nested array. */
  datatype Value = Null | Scalar(s: string) | Array(a: Arr<Value>)

  /** `empty($v)`: null, "", "0" and the empty array. */
  predicate EmptyValue(v: Value) {
    match v
    case Null => true
    case Scalar(s) => !Truthy(s)
    case Array(a) => a == []
  }

  /** Route parameters: `null`, a scalar, or an array whose values are scalars in their string form. */
  datatype Params = NoParams | ScalarParams(s: string) | ArrayParams(a: Arr<string>)

  /** `empty($params)`. */
  predicate EmptyParams(p: Params) {
    match p
    case NoParams => true
    case ScalarParams(s) => !Truthy(s)
    case ArrayParams(a) => a == []
  }

  /** The values of a configuration array that are scalars, in order (other entries skipped). */
  function ScalarValues(a: Arr<Value>): (r: seq<string>)
    ensures |r| <= |a|
  {
    if |a| == 0 then []
    else (if a[0].1.Scalar? then [a[0].1.s] else []) + ScalarValues(a[1..])
  }
}
