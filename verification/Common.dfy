/** Vocabulary shared by every component. */
module Common {

  datatype Option<+T> = None | Some(value: T)

  /** The library's error codes. `Success` is the only one that converts to false. */
  datatype Error = Success | FailedOperation | Aborted | Encoding | Decoding | InvalidFrame

  /** The numbers below `n`, in order. */
  function Below(n: nat): (r: seq<nat>)
    ensures |r| == n
  {
    seq(n, i => i)
  }

  lemma BelowSnoc(n: nat)
    ensures Below(n + 1) == Below(n) + [n]
  {
  }

  lemma ConcatAssociates<T>(a: seq<T>, b: seq<T>, c: seq<T>)
    ensures (a + b) + c == a + (b + c)
  {
  }

  ghost predicate Increasing(s: seq<nat>) {
    forall i, j :: 0 <= i < j < |s| ==> s[i] < s[j]
  }
}
