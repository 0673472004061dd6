/** Bytes, failure types, powers of two and fixed-width integers. */
module Bytes {
  type byte = x: int | 0 <= x < 256

  datatype Option<+T> = None | Some(value: T)

  datatype Result<+T, +E> = Ok(value: T) | Err(error: E)

  function Pow2(n: nat): (r: nat)
    ensures 1 <= r
  {
    if n == 0 then 1 else 2 * Pow2(n - 1)
  }

  /** `n` bytes of `v`, least significant first; higher bits are cut off. */
  function LeBytes(v: nat, n: nat): (s: seq<byte>)
    ensures |s| == n
    decreases n
  {
    if n == 0 then [] else [v % 256] + LeBytes(v / 256, n - 1)
  }

  function FromLe(s: seq<byte>): (v: nat)
  {
    if s == [] then 0 else s[0] + 256 * FromLe(s[1..])
  }

  function Pow256(n: nat): (r: nat)
    ensures 1 <= r
  {
    if n == 0 then 1 else 256 * Pow256(n - 1)
  }

  lemma {:induction false} LeRoundTrip(v: nat, n: nat)
    requires v < Pow256(n)
    ensures FromLe(LeBytes(v, n)) == v
    decreases n
  {
    if n > 0 {
      LeRoundTrip(v / 256, n - 1);
      assert LeBytes(v, n)[1..] == LeBytes(v / 256, n - 1);
    }
  }

  lemma {:induction false} LeInjective(s: seq<byte>)
    ensures FromLe(s) < Pow256(|s|)
    ensures LeBytes(FromLe(s), |s|) == s
  {
    if s != [] {
      LeInjective(s[1..]);
    }
  }

  function Reverse(s: seq<byte>): (r: seq<byte>)
    ensures |r| == |s|
    ensures forall i :: 0 <= i < |s| ==> r[i] == s[|s| - 1 - i]
  {
    seq(|s|, i requires 0 <= i < |s| => s[|s| - 1 - i])
  }

  lemma ReverseTwice(s: seq<byte>)
    ensures Reverse(Reverse(s)) == s
  {
  }

  // ----- Where a byte string lies in a buffer -----

  /** `x` lies in `buffer` at position `i`. */
  ghost predicate At(buffer: seq<byte>, i: nat, x: seq<byte>) {
    i + |x| <= |buffer| && forall k {:trigger x[k]} :: 0 <= k < |x| ==> buffer[i + k] == x[k]
  }

  lemma AtParts(buffer: seq<byte>, i: nat, a: seq<byte>, b: seq<byte>)
    ensures At(buffer, i, a + b) <==> At(buffer, i, a) && At(buffer, i + |a|, b)
  {
    if At(buffer, i, a + b) {
      forall k | 0 <= k < |a|
        ensures buffer[i + k] == a[k]
      {
        assert (a + b)[k] == a[k];
      }
      forall k | 0 <= k < |b|
        ensures buffer[i + |a| + k] == b[k]
      {
        assert (a + b)[|a| + k] == b[k];
      }
    }
  }

  lemma AtSlice(buffer: seq<byte>, i: nat, x: seq<byte>)
    requires At(buffer, i, x)
    ensures buffer[i..i + |x|] == x
  {
  }

  lemma AtSelf(x: seq<byte>)
    ensures At(x, 0, x)
  {
  }
}
