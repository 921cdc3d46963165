/** Shared vocabulary: optional values, results, and fixed-width unsigned arithmetic. */
module Basics {

  datatype Option<+T> = None | Some(value: T)

  datatype Result<+T, +E> = Ok(value: T) | Err(error: E) {
    predicate IsFailure() { Err? }
    function PropagateFailure<U>(): Result<U, E>
      requires Err?
    {
      Err(error)
    }
    function Extract(): T
      requires Ok?
    {
      value
    }
  }

  const U64_LIMIT: nat := 0x1_0000_0000_0000_0000

  function Min(a: int, b: int): int { if a <= b then a else b }

  function Max(a: int, b: int): int { if a <= b then b else a }

  /** `u64::saturating_add`. */
  function SaturatingAdd64(a: nat, b: nat): nat { Min(a + b, U64_LIMIT - 1) }

  /** `AtomicU64::fetch_add`, which wraps. */
  function WrappingAdd64(a: nat, b: nat): nat { (a + b) % U64_LIMIT }

  /** `AtomicU64::fetch_sub`, which wraps. */
  function WrappingSub64(a: nat, b: nat): nat { (a - b) % U64_LIMIT }

  /** Wrapping keeps a running total modulo 2^64. */
  lemma Wraps(total: int, n: nat)
    ensures WrappingAdd64(total % U64_LIMIT, n) == (total + n) % U64_LIMIT
    ensures WrappingSub64(total % U64_LIMIT, n) == (total - n) % U64_LIMIT
  {
  }

  /** The ordinals below `k`, in order. */
  function UpTo(k: nat): (s: seq<nat>)
    ensures |s| == k
  {
    seq(k, i => i)
  }

  /** All values, or the first error. */
  function Collect<T, E>(rs: seq<Result<T, E>>): Result<seq<T>, E> {
    if rs == [] then Ok([])
    else
      match Collect(rs[..|rs| - 1])
      case Err(e) => Err(e)
      case Ok(front) =>
        match rs[|rs| - 1]
        case Err(e) => Err(e)
        case Ok(last) => Ok(front + [last])
  }

  lemma {:induction false} CollectOk<T, E>(rs: seq<Result<T, E>>, xs: seq<T>)
    requires |rs| == |xs| && forall i :: 0 <= i < |rs| ==> rs[i] == Ok(xs[i])
    ensures Collect(rs) == Ok(xs)
  {
    if rs != [] {
      var n := |rs| - 1;
      CollectOk(rs[..n], xs[..n]);
      assert xs == xs[..n] + [xs[n]];
    }
  }

  /** Collecting succeeds exactly when every element does. */
  lemma {:induction false} CollectIff<T, E>(rs: seq<Result<T, E>>)
    ensures Collect(rs).Ok? <==> forall i :: 0 <= i < |rs| ==> rs[i].Ok?
    ensures Collect(rs).Ok? ==> |Collect(rs).value| == |rs|
                                && forall i :: 0 <= i < |rs| ==> rs[i] == Ok(Collect(rs).value[i])
  {
    if rs != [] {
      CollectIff(rs[..|rs| - 1]);
    }
  }

  /** A failing prefix is the failure of the whole. */
  lemma {:induction false} CollectPrefix<T, E>(rs: seq<Result<T, E>>, k: nat)
    requires k <= |rs|
    ensures Collect(rs[..k]).Err? ==> Collect(rs) == Err(Collect(rs[..k]).error)
    decreases |rs|
  {
    if k < |rs| {
      assert rs[..|rs| - 1][..k] == rs[..k];
      CollectPrefix(rs[..|rs| - 1], k);
    } else {
      assert rs[..k] == rs;
    }
  }
}
