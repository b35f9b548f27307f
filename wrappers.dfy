/** The optional values of the model: a TypeScript optional field (`x?: T`) is an `Option<T>`. */
module Wrappers {

  datatype Option<+T> = None | Some(value: T)

  /** `x` in front of the sequence, when there is one; decoders use it to build their results. */
  function PrependSome<T>(x: T, rest: Option<seq<T>>): Option<seq<T>>
  {
    match rest
    case None => None
    case Some(t) => Some([x] + t)
  }

  lemma ConcatAssoc<T>(x: seq<T>, y: seq<T>, z: seq<T>)
    ensures (x + y) + z == x + (y + z)
  {
  }

  /** A head in front of four more pieces can be split off. */
  lemma ConcatAssoc5<T>(h: seq<T>, a: seq<T>, b: seq<T>, c: seq<T>, d: seq<T>)
    ensures h + a + b + c + d == h + (a + b + c + d)
  {
    ConcatAssoc(h, a, b);
    ConcatAssoc(h, a + b, c);
    ConcatAssoc(h, a + b + c, d);
  }
}
