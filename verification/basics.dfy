/** Small shared vocabulary: optional values, results carrying the error a
    Python script would raise, integer helpers and Python's prefix slice. */
module Basics {

  datatype Option<+T> = None | Some(value: T)

  /** The failure modes of the planning scripts. `ZeroDivision` and
      `IndexError` are the Python exceptions the scripts let escape;
      `NoSourceFiles` is their early `return False` / `return` when discovery
      found nothing. */
  datatype Fault = NoSourceFiles | ZeroDivision | IndexError

  datatype Result<+T> = Success(value: T) | Failure(fault: Fault)

  type Path = string

  function Min(a: int, b: int): int { if a <= b then a else b }

  function Max(a: int, b: int): int { if a >= b then a else b }

  function Abs(x: int): nat { if x >= 0 then x else -x }

  /** Python's `xs[:k]`: a non-negative `k` keeps at most `k` elements, a
      negative `k` drops the last `-k` elements. */
  function PyPrefix<T>(xs: seq<T>, k: int): (r: seq<T>)
    ensures r <= xs
    ensures k >= 0 ==> |r| == Min(k, |xs|)
    ensures k < 0 ==> |r| == Max(0, |xs| + k)
  {
    if k >= 0 then xs[..Min(k, |xs|)] else xs[..Max(0, |xs| + k)]
  }

  /** Regrouping a concatenation of four sequences. */
  lemma Regroup<T>(a: seq<T>, b: seq<T>, c: seq<T>, d: seq<T>)
    ensures a + (b + (c + d)) == a + b + c + d
    ensures a + (b + c + d) == a + b + c + d
  {
  }
}
