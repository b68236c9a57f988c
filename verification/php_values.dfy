/**
 * The few PHP value shapes the product-tables code handles, and PHP's
 * truthiness test (`if ( $x )`, `! empty( $x )`).
 */
module PhpValues {

  datatype Option<+T> = None | Some(value: T) {
    function GetOr(default: T): T {
      match this
      case Some(v) => v
      case None => default
    }
  }

  /**
   * A metadata or column value. Numbers that the source formats with `%f`
   * are kept as opaque strings; arrays only ever hold object ids in the
   * mapped keys, and are plain lists (keys 0, 1, 2, ...).
   */
  datatype Value = Null | Str(s: string) | Int(n: int) | List(ids: seq<int>)

  /** PHP truthiness: `null`, `""`, `"0"`, `0` and the empty array are false. */
  predicate Truthy(v: Value)
  {
    match v
    case Null => false
    case Str(s) => s != "" && s != "0"
    case Int(n) => n != 0
    case List(ids) => ids != []
  }

  /** `isset( $m[ $k ] ) ? $m[ $k ] : $default` */
  function Lookup<K, V>(m: map<K, V>, k: K, default: V): (v: V)
    ensures k in m ==> v == m[k]
    ensures k !in m ==> v == default
  {
    if k in m then m[k] else default
  }
}
