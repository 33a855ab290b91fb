/** The shared option type. */
module Basics {
  datatype Option<+T> = None | Some(value: T)

  /** The first of two answers that is one. */
  function OrElse<T>(a: Option<T>, b: Option<T>): Option<T> {
    if a.Some? then a else b
  }

  function Find<T>(m: map<string, T>, key: string): Option<T> {
    if key in m then Some(m[key]) else None
  }

  function At<T>(m: map<string, T>, key: string, none: T): T {
    if key in m then m[key] else none
  }
}
