/** Python list slicing `xs[start:]` and pandas' `DataFrame.tail(n)`, the windows the application shows. */
module Slicing {

  function Min(a: int, b: int): (m: int) {
    if a <= b then a else b
  }

  /** Python's normalisation of a slice start: a negative start counts from the end,
      and the result is clamped to `[0, len]`. */
  function NormStart(len: nat, start: int): (k: nat)
    ensures k <= len
  {
    if start < 0 then (if len + start < 0 then 0 else len + start)
    else if start > len then len
    else start
  }

  /** `xs[start:]`: the suffix that begins `start` elements in, or `-start` elements from the end. */
  function SliceFrom<T>(xs: seq<T>, start: int): (r: seq<T>)
    ensures start >= 0 ==> |r| == if start >= |xs| then 0 else |xs| - start
    ensures start < 0 ==> |r| == Min(-start, |xs|)
    ensures r == xs[|xs| - |r|..]
  {
    xs[NormStart(|xs|, start)..]
  }

  /** `xs[-k:]` for `k >= 0`: the last `k` elements, all of them when fewer, and also all of
      them when `k == 0`, because `-0` is the start index `0`. */
  lemma LastSlice<T>(xs: seq<T>, k: nat)
    ensures var r := SliceFrom(xs, -(k as int));
      r == xs[|xs| - |r|..] &&
      |r| == if k == 0 then |xs| else Min(k, |xs|)
  {
  }

  /** pandas `tail(n)`: the last `n` rows, all of them when fewer, none when `n == 0`. */
  function Tail<T>(xs: seq<T>, n: nat): (r: seq<T>)
    ensures |r| == Min(n, |xs|)
    ensures r == xs[|xs| - |r|..]
  {
    if n == 0 then [] else SliceFrom(xs, -(n as int))
  }
}
