/** Option and Result, the two failure-carrying shapes the Rust source uses
    (`Option<T>` and `anyhow::Result<T>`). */
module Wrappers {

  datatype Option<+T> = None | Some(value: T)

  datatype Result<+R, +E> = Ok(value: R) | Err(error: E)

  /** The zero-or-one-element sequence of an Option: what `if let Some(x) = .. { v.push(x) }` adds. */
  function OptionToSeq<T>(o: Option<T>): (s: seq<T>)
    ensures |s| <= 1
    ensures o.None? ==> s == []
    ensures o.Some? ==> s == [o.value]
  {
    match o
    case None => []
    case Some(x) => [x]
  }
}
