/** Datatypes shared by every module. */
module Basics {

  datatype Option<+T> = None | Some(value: T)

  datatype Result<+T, +E> = Ok(value: T) | Err(error: E)

  /** The later setting wins; an unset one falls back to the earlier. */
  function Or<T>(over: Option<T>, base: Option<T>): Option<T> {
    if over.Some? then over else base
  }

  predicate EndsWith(s: string, suffix: string) {
    |suffix| <= |s| && s[|s| - |suffix|..] == suffix
  }

  lemma HeadAndTail<T>(s: seq<T>)
    requires s != []
    ensures s == [s[0]] + s[1..] && s[0] in s
    ensures forall x :: x in s <==> x == s[0] || x in s[1..]
  {
  }
}
