/** Bytes, their exclusive or, and texts as bytes. */
module Bytes {
  type byte = b: int | 0 <= b < 256

  function Flatten<T>(parts: seq<seq<T>>): seq<T> {
    if parts == [] then [] else parts[0] + Flatten(parts[1..])
  }

  lemma {:induction false} FlattenConcat<T>(a: seq<seq<T>>, b: seq<seq<T>>)
    ensures Flatten(a + b) == Flatten(a) + Flatten(b)
  {
    if a == [] {
      assert a + b == b;
    } else {
      assert (a + b)[1..] == a[1..] + b;
      FlattenConcat(a[1..], b);
    }
  }

  // ------------------------------------------------------------------ texts

  function TextOf(bytes: seq<byte>): string {
    seq(|bytes|, i requires 0 <= i < |bytes| => bytes[i] as char)
  }

  function BytesOf(text: string): seq<byte>
    requires forall i | 0 <= i < |text| :: text[i] as int < 256
  {
    seq(|text|, i requires 0 <= i < |text| => text[i] as int)
  }

  // ----------------------------------------------------------- bitwise operators

  /** `a ^ b`, bit by bit. */
  function Xor(a: nat, b: nat): nat {
    if a == 0 && b == 0 then 0 else (a + b) % 2 + 2 * Xor(a / 2, b / 2)
  }

  /** `a & b`, bit by bit. */
  function And(a: nat, b: nat): nat {
    if a == 0 || b == 0 then 0 else (a % 2) * (b % 2) + 2 * And(a / 2, b / 2)
  }

  lemma {:induction false} XorBound(a: nat, b: nat, k: nat)
    requires a < Pow2(k) && b < Pow2(k)
    ensures Xor(a, b) < Pow2(k)
  {
    if k > 0 && !(a == 0 && b == 0) {
      XorBound(a / 2, b / 2, k - 1);
    }
  }

  function Pow2(k: nat): (r: nat)
    ensures r > 0
  {
    if k == 0 then 1 else 2 * Pow2(k - 1)
  }

  function XorByte(a: byte, b: byte): byte {
    XorBound(a, b, 8);
    assert Pow2(8) == 256 by {
      assert Pow2(4) == 16;
    }
    Xor(a, b)
  }

  lemma XorStep(a: nat, b: nat)
    ensures Xor(a, b) == (a + b) % 2 + 2 * Xor(a / 2, b / 2)
  {
    if a == 0 && b == 0 {
      assert a / 2 == 0 && Xor(0, 0) == 0;
    }
  }

  lemma Halves(r: nat, t: nat, r': nat, t': nat)
    requires r < 2 && r' < 2 && r + 2 * t == r' + 2 * t'
    ensures r == r' && t == t'
  {
  }

  lemma SameParity(a: nat, b: nat, c: nat)
    requires (a + b) % 2 == (a + c) % 2
    ensures b % 2 == c % 2
  {
  }

  /** Exclusive or is injective in its second argument. */
  lemma {:induction false} XorInjectiveRight(a: nat, b: nat, c: nat)
    requires Xor(a, b) == Xor(a, c)
    ensures b == c
    decreases a + b + c
  {
    if !(a == 0 && b == 0 && c == 0) {
      hide Xor;
      XorStep(a, b);
      XorStep(a, c);
      Halves((a + b) % 2, Xor(a / 2, b / 2), (a + c) % 2, Xor(a / 2, c / 2));
      XorInjectiveRight(a / 2, b / 2, c / 2);
      SameParity(a, b, c);
    }
  }

  lemma {:induction false} XorCommutes(a: nat, b: nat)
    ensures Xor(a, b) == Xor(b, a)
  {
    if !(a == 0 && b == 0) {
      XorCommutes(a / 2, b / 2);
    }
  }

  lemma AtLeastOnce(x: nat, m: nat)
    requires x > 0
    ensures x * m >= m
  {
  }

  lemma RemainderUnique(a: nat, m: nat, q: nat, r: nat)
    requires m > 0 && r < m && a == q * m + r
    ensures a % m == r
  {
    var q', r' := a / m, a % m;
    assert a == q' * m + r';
    if q > q' {
      assert q * m == q' * m + (q - q') * m;
      AtLeastOnce(q - q', m);
    } else if q < q' {
      assert q' * m == q * m + (q' - q) * m;
      AtLeastOnce(q' - q, m);
    }
  }

  /** `a % (2 * m)` from the last bit of `a` and the remainder of the rest. */
  lemma RemainderStep(a: nat, m: nat)
    requires m > 0
    ensures a % (2 * m) == a % 2 + 2 * (a / 2 % m)
  {
    var q, r := a / 2 / m, a / 2 % m;
    assert a / 2 == q * m + r;
    assert a == 2 * (a / 2) + a % 2;
    assert 2 * (q * m) == q * (2 * m);
    RemainderUnique(a, 2 * m, q, 2 * r + a % 2);
  }

  lemma AndNothing(a: nat)
    ensures And(a, 0) == 0
  {
  }

  /** Masking with `2^k - 1` is the remainder modulo `2^k`. */
  lemma {:induction false} MaskIsRemainder(a: nat, k: nat)
    ensures And(a, Pow2(k) - 1) == a % Pow2(k)
    decreases k
  {
    hide And;
    if k == 0 {
      AndNothing(a);
    } else {
      var m := Pow2(k - 1);
      MaskIsRemainder(a / 2, k - 1);
      RemainderStep(a, m);
      MaskStep(a, m);
    }
  }

  lemma MaskStep(a: nat, m: nat)
    requires m > 0
    ensures And(a, 2 * m - 1) == a % 2 + 2 * And(a / 2, m - 1)
  {
    assert (2 * m - 1) / 2 == m - 1 && (2 * m - 1) % 2 == 1;
    if a == 0 {
      assert And(0, m - 1) == 0;
    }
  }

  // ---------------------------------------------------------------- bit by bit

  predicate Bit(a: nat, k: nat) {
    a / Pow2(k) % 2 == 1
  }

  lemma BitShift(a: nat, k: nat)
    ensures Bit(a, k + 1) <==> Bit(a / 2, k)
    ensures Bit(a, 0) <==> a % 2 == 1
  {
    assert Pow2(k + 1) == 2 * Pow2(k) && Pow2(0) == 1;
    DivideTwice(a, Pow2(k));
  }

  lemma DivideTwice(a: nat, m: nat)
    requires m > 0
    ensures a / (2 * m) == a / 2 / m
  {
    var q, r := a / 2 / m, a / 2 % m;
    assert a / 2 == q * m + r && a == 2 * (a / 2) + a % 2;
    assert 2 * (q * m) == q * (2 * m);
    QuotientUnique(a, 2 * m, q, 2 * r + a % 2);
  }

  lemma QuotientUnique(a: nat, m: nat, q: nat, r: nat)
    requires m > 0 && r < m && a == q * m + r
    ensures a / m == q
  {
    RemainderUnique(a, m, q, r);
    var q' := a / m;
    assert a == q' * m + a % m;
    assert (q' - q) * m == 0;
    if q' > q {
      AtLeastOnce(q' - q, m);
    } else if q > q' {
      AtLeastOnce(q - q', m);
    }
  }

  /** Exclusive or sets exactly the bits in which the two operands differ. */
  lemma {:induction false} XorBits(a: nat, b: nat, k: nat)
    ensures Bit(Xor(a, b), k) <==> Bit(a, k) != Bit(b, k)
    decreases k
  {
    hide Bit, Xor;
    XorHalves(a, b);
    if k == 0 {
      BitShift(a, 0);
      BitShift(b, 0);
      BitShift(Xor(a, b), 0);
    } else {
      XorBits(a / 2, b / 2, k - 1);
      BitShift(a, k - 1);
      BitShift(b, k - 1);
      BitShift(Xor(a, b), k - 1);
    }
  }

  lemma XorHalves(a: nat, b: nat)
    ensures Xor(a, b) / 2 == Xor(a / 2, b / 2)
    ensures Xor(a, b) % 2 == 1 <==> (a % 2 == 1) != (b % 2 == 1)
  {
    hide Xor;
    XorStep(a, b);
    SumParity(a, b);
    LowBit((a + b) % 2, Xor(a / 2, b / 2));
  }

  lemma SumParity(a: nat, b: nat)
    ensures (a + b) % 2 == if a % 2 == b % 2 then 0 else 1
  {
  }

  lemma LowBit(p: nat, t: nat)
    requires p < 2
    ensures (p + 2 * t) / 2 == t && (p + 2 * t) % 2 == p
  {
  }
}
