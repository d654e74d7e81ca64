/** Results that may be absent or an error, and lists for structural recursion. */
module Wrappers {
  datatype Option<+T> = None | Some(value: T)

  datatype Result<+T, +E> = Ok(value: T) | Err(error: E)

  datatype List<+T> = Nil | Cons(head: T, tail: List<T>)

  function Append<T>(a: List<T>, b: List<T>): List<T> {
    match a
    case Nil => b
    case Cons(x, rest) => Cons(x, Append(rest, b))
  }

  lemma AppendNil<T>(a: List<T>)
    ensures Append(a, Nil) == a
  {
  }

  lemma AppendAssoc<T>(a: List<T>, b: List<T>, c: List<T>)
    ensures Append(Append(a, b), c) == Append(a, Append(b, c))
  {
  }

  predicate Contains<T(==)>(xs: List<T>, x: T) {
    xs.Cons? && (xs.head == x || Contains(xs.tail, x))
  }

  lemma {:induction false} ContainsAppend<T>(a: List<T>, b: List<T>, x: T)
    ensures Contains(Append(a, b), x) <==> Contains(a, x) || Contains(b, x)
  {
    if a.Cons? {
      ContainsAppend(a.tail, b, x);
    }
  }

  function Max(a: nat, b: nat): nat { if a < b then b else a }

  function Length<T>(a: List<T>): nat {
    match a
    case Nil => 0
    case Cons(_, rest) => 1 + Length(rest)
  }
}
