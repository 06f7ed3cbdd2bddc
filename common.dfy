/**
 * Small value types shared by every part of the model.
 */
module Common {

  /** A value that may be absent (Python's `None`). */
  datatype Option<+T> = None | Some(value: T) {
    function GetOr(default: T): T {
      match this
      case Some(v) => v
      case None => default
    }
  }

  /** The outcome of a call that either returns a value or raises an exception. */
  datatype Outcome<+T> = Value(value: T) | Raised

  /** A call that either succeeds with a value or fails with a typed error. */
  datatype Result<+T, +E> = Ok(value: T) | Err(error: E)

  /** `n` copies of `x`. */
  function Repeat<T>(x: T, n: nat): (r: seq<T>)
    ensures |r| == n && forall i :: 0 <= i < n ==> r[i] == x
  {
    if n == 0 then [] else Repeat(x, n - 1) + [x]
  }

  /** Extending a prefix by one element. */
  lemma TakeSnoc<T>(s: seq<T>, i: nat, j: nat)
    requires j == i + 1 <= |s|
    ensures s[..j] == s[..i] + [s[i]]
  {
  }

  /** A property holds of every element exactly when it holds of every element but the last, and of the last. */
  lemma AllSnoc<T>(P: T -> bool, s: seq<T>, init: seq<T>)
    requires |s| > 0 && init == s[..|s| - 1]
    ensures (forall i :: 0 <= i < |s| ==> P(s[i])) <==> (forall i :: 0 <= i < |init| ==> P(init[i])) && P(s[|s| - 1])
  {
    assert forall i :: 0 <= i < |init| ==> init[i] == s[i];
  }

  /** Moving a step from the front of what remains to the end of what is done keeps the whole. */
  lemma ShiftStep<T>(done: seq<T>, step: seq<T>, rest: seq<T>, remaining: seq<T>, whole: seq<T>)
    requires remaining == step + rest && done + remaining == whole
    ensures (done + step) + rest == whole
  {
  }
}
