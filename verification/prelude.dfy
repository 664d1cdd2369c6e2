/** Result types shared by the modules of this project. */
module Prelude {

  /** An optional value; stands for the source's `value, ok` results and nil pointers. */
  datatype Option<+T> = None | Some(value: T)

  /** The outcome of an operation that can return an error. */
  datatype Result<+T, +E> = Ok(value: T) | Err(error: E)

  function Min(a: int, b: int): int { if a < b then a else b }

  function Max(a: int, b: int): int { if a < b then b else a }

  /** Any element of a set, as a map or set iteration delivers it. */
  method AnyOf<T>(s: set<T>) returns (x: T)
    requires s != {}
    ensures x in s
  {
    x :| x in s;
  }

  lemma Overwrite<K, V>(m: map<K, V>, k: K, v: V, w: V)
    ensures m[k := v][k := w] == m[k := w]
  {
  }
}
