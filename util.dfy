/** Small helpers shared by the host and firmware models. */
module Util {

  datatype Option<T> = None | Some(value: T)

  /** The outcome of a computation that can raise or fail. */
  datatype Result<T, E> = Ok(value: T) | Err(error: E)

  function Min(a: int, b: int): int
  {
    if a < b then a else b
  }

  /** The position of the first x in s, or |s| when there is none. */
  function IndexOf<T(==)>(s: seq<T>, x: T): (i: nat)
    ensures i <= |s| && x !in s[..i]
    ensures i < |s| ==> s[i] == x
    decreases |s|
  {
    if s == [] || s[0] == x then 0 else 1 + IndexOf(s[1..], x)
  }

  /** After an x-free prefix, the first x is the one right after it. */
  lemma {:induction false} IndexOfAfter<T>(a: seq<T>, x: T, rest: seq<T>)
    requires x !in a
    ensures IndexOf(a + [x] + rest, x) == |a|
    decreases |a|
  {
    var s := a + [x] + rest;
    if a != [] {
      assert s[1..] == a[1..] + [x] + rest;
      assert x !in a[1..];
      IndexOfAfter(a[1..], x, rest);
    }
  }
}
