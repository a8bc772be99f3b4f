/** A value that C# code may leave null, and the `??` operator that replaces null by a fallback. */
module Nullable {

  datatype Option<+T> = None | Some(value: T)

  /** `o ?? fallback`: the value when there is one, the fallback otherwise. */
  function Coalesce<T>(o: Option<T>, fallback: T): T
  {
    match o
    case Some(v) => v
    case None => fallback
  }
}
