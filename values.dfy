/** JavaScript values as the plugin kernel sees them, and the two failure wrappers. */
module Values {

  /** A JavaScript value. Objects and functions are compared by identity, so they
      are represented by an identity number; numbers are integers (no NaN). */
  datatype Value = Undefined | Null | Bool(b: bool) | Num(n: int) | Str(s: string) | Ref(id: nat)

  /** JavaScript truthiness: what `if (v)` and `!v` test. */
  predicate Truthy(v: Value) {
    match v
    case Undefined => false
    case Null => false
    case Bool(b) => b
    case Num(n) => n != 0
    case Str(s) => s != ""
    case Ref(_) => true
  }

  datatype Option<+T> = None | Some(value: T)

  datatype Result<+T, +E> = Ok(value: T) | Err(error: E)
}
