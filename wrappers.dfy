/** Failure-carrying values shared by every module: the Go code's `(T, error)` and `error` returns. */
module Wrappers {

  datatype Option<T> = None | Some(value: T)

  /** A Go `(T, error)` pair: either a value or an error message. */
  datatype Result<T> = Ok(value: T) | Err(error: string)

  /** A Go `error` return on its own: `nil` or a message. */
  datatype Outcome = Pass | Fail(error: string)

  /** The values `f` gives for `0 .. k - 1`, in order, skipping `None`. */
  function Kept<T>(f: nat -> Option<T>, k: nat): seq<T> {
    if k == 0 then []
    else Kept(f, k - 1) + if f(k - 1).Some? then [f(k - 1).value] else []
  }

  lemma {:induction false} KeptSpec<T>(f: nat -> Option<T>, k: nat, x: T)
    ensures |Kept(f, k)| <= k
    ensures x in Kept(f, k) <==> exists i: nat :: i < k && f(i) == Some(x)
  {
    if k > 0 {
      KeptSpec(f, k - 1, x);
      if x in Kept(f, k) && x !in Kept(f, k - 1) {
        assert f(k - 1) == Some(x);
      }
    }
  }

  /** Two index functions that agree below `k` keep the same values. */
  lemma {:induction false} KeptAgree<T>(f: nat -> Option<T>, g: nat -> Option<T>, k: nat)
    requires forall i: nat :: i < k ==> f(i) == g(i)
    ensures Kept(f, k) == Kept(g, k)
  {
    if k > 0 {
      KeptAgree(f, g, k - 1);
    }
  }
}
