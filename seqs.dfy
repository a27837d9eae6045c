/** Generic sequence helpers shared by both downloaders: an optional value
    (pandas' missing cell), a result with an error message (a raised
    exception), order-preserving selection, concatenation of frames and
    reversal of row order. */
module Seqs {

  /** A cell that may be missing (NaN in a data frame). */
  datatype Option<+T> = None | Some(value: T)

  /** The outcome of an operation that may raise. */
  datatype Result<+T> = Ok(value: T) | Err(message: string)

  /** `a` is obtained from `b` by deleting elements; the rest keep their order. */
  predicate SubseqOf<T(==)>(a: seq<T>, b: seq<T>)
    decreases |b|
  {
    a == [] || (b != [] && ((a[0] == b[0] && SubseqOf(a[1..], b[1..])) || SubseqOf(a, b[1..])))
  }

  lemma {:induction false} SubseqOfRefl<T>(s: seq<T>)
    ensures SubseqOf(s, s)
    decreases |s|
  {
    if s != [] { SubseqOfRefl(s[1..]); }
  }

  /** Concatenation of a list of frames, in list order (`pd.concat`). */
  function Flatten<T>(frames: seq<seq<T>>): seq<T>
  {
    if frames == [] then [] else frames[0] + Flatten(frames[1..])
  }

  /** Concatenating two lists of frames is concatenating their contents. */
  lemma {:induction false} FlattenAppend<T>(a: seq<seq<T>>, b: seq<seq<T>>)
    ensures Flatten(a + b) == Flatten(a) + Flatten(b)
  {
    if a == [] {
      assert a + b == b;
    } else {
      assert (a + b)[0] == a[0];
      assert (a + b)[1..] == a[1..] + b;
      FlattenAppend(a[1..], b);
    }
  }

  /** The rows in reverse order (a descending sort on a 0..n-1 row index). */
  function Reverse<T>(s: seq<T>): (r: seq<T>)
    ensures |r| == |s|
    ensures forall i :: 0 <= i < |s| ==> r[i] == s[|s| - 1 - i]
    ensures multiset(r) == multiset(s)
  {
    if s == [] then []
    else
      assert s == [s[0]] + s[1..];
      Reverse(s[1..]) + [s[0]]
  }
}
