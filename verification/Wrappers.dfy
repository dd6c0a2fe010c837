/** What the other modules share: results that can fail, and moving offsets between texts. */
module Wrappers {

  datatype Option<+T> = None | Some(value: T)

  datatype Result<+T, +E> = Ok(value: T) | Err(error: E)

  /** An offset found in a suffix, moved back to the text the suffix was cut from. */
  function Shift(k: nat, r: Option<nat>): Option<nat> {
    match r
    case None => None
    case Some(n) => Some(k + n)
  }

  lemma ShiftTwice(j: nat, k: nat, r: Option<nat>)
    ensures Shift(j, Shift(k, r)) == Shift(j + k, r)
  {
  }

  /** A slice of a slice. */
  lemma Subslice<T>(s: seq<T>, i: nat, end: nat, a: nat, b: nat)
    requires i <= end <= |s| && a <= b <= end - i
    ensures s[i..end][a..b] == s[i + a..i + b]
  {
    var x, y := s[i..end][a..b], s[i + a..i + b];
    forall k | 0 <= k < b - a ensures x[k] == y[k] {
      assert x[k] == s[i..end][a + k] == s[i + a + k];
    }
  }

  /** What stands behind a part that stands at an offset. */
  lemma Behind<T>(t: seq<T>, i: nat, part: seq<T>, rest: seq<T>)
    requires i <= |t| && t[i..] == part + rest
    ensures i + |part| <= |t| && t[i + |part|..] == rest
  {
    Subslice(t, i, |t|, |part|, |t| - i);
    assert (part + rest)[|part|..] == rest;
  }

  /** A part that stands at an offset. */
  lemma At<T>(t: seq<T>, i: nat, part: seq<T>, rest: seq<T>)
    requires i <= |t| && t[i..] == part + rest
    ensures i + |part| <= |t| && t[i..i + |part|] == part
  {
    forall k | 0 <= k < |part| ensures t[i..i + |part|][k] == part[k] {
      assert t[i..][k] == (part + rest)[k];
    }
  }

  lemma Associative<T>(a: seq<T>, b: seq<T>, c: seq<T>)
    ensures a + b + c == a + (b + c)
  {
  }
}
