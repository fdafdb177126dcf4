/**
 The 12-byte AEAD nonce. The Shadowsocks AEAD scheme counts nonces as a little-endian
 integer; the program's increment stops after the first byte, because the sum it tests
 for zero has been widened to `int` and is never zero.
 */
module Nonces {
  import opened ByteStrings

  const NONCE_SIZE := 12

  type Nonce = n: Bytes | |n| == NONCE_SIZE witness [0, 0, 0, 0, 0, 0, 0, 0, 0, 0, 0, 0]

  function ZeroNonce(): (n: Nonce)
    ensures forall i :: 0 <= i < NONCE_SIZE ==> n[i] == 0
  {
    seq(12, _ => 0)
  }

  /** The effect of the program's increment. */
  function CodeNext(n: Nonce): (r: Nonce) {
    n[0 := (n[0] as int + 1) % 256]
  }

  /** In-place increment, with the loop and the widened sum of the source. */
  method IncrementNonce(nonce: array<byte>)
    requires nonce.Length == NONCE_SIZE
    modifies nonce
    ensures nonce[..] == CodeNext(old(nonce[..]))
  {
    var i, carry := 0, true;
    while carry && i < nonce.Length
      invariant if carry then i == 0 && nonce[..] == old(nonce[..]) else nonce[..] == CodeNext(old(nonce[..]))
      decreases nonce.Length - i
    {
      var next := nonce[i] as int + 1;
      nonce[i] := next % 256;
      carry := next == 0;
      i := i + 1;
    }
  }

  // ---- The intended counter ------------------------------------------------

  /** The little-endian value of a byte string. */
  function Value(b: Bytes): nat {
    if b == [] then 0 else b[0] as int + 256 * Value(b[1..])
  }

  function Pow256(k: nat): (p: nat)
    ensures p >= 1
  {
    if k == 0 then 1 else 256 * Pow256(k - 1)
  }

  /** Increment with carry over all bytes. */
  function Carry(b: Bytes): (r: Bytes)
    ensures |r| == |b|
  {
    if b == [] then []
    else if b[0] == 255 then [0] + Carry(b[1..])
    else [b[0] + 1] + b[1..]
  }

  function IntendedNext(n: Nonce): (r: Nonce) {
    Carry(n)
  }

  lemma {:induction false} ValueBound(b: Bytes)
    ensures Value(b) < Pow256(|b|)
  {
    if b != [] {
      ValueBound(b[1..]);
    }
  }

  lemma {:induction false} ValueInjective(a: Bytes, b: Bytes)
    requires |a| == |b| && Value(a) == Value(b)
    ensures a == b
  {
    if a != [] {
      assert a[0] == Value(a) % 256 && b[0] == Value(b) % 256;
      ValueInjective(a[1..], b[1..]);
      assert a == [a[0]] + a[1..] && b == [b[0]] + b[1..];
    }
  }

  /** Carrying increments the little-endian value modulo 256^length. */
  lemma {:induction false} CarryCounts(b: Bytes)
    ensures Value(Carry(b)) == if Value(b) + 1 == Pow256(|b|) then 0 else Value(b) + 1
  {
    if b != [] {
      ValueBound(b[1..]);
      CarryCounts(b[1..]);
      assert Carry(b)[1..] == if b[0] == 255 then Carry(b[1..]) else b[1..];
    }
  }

  /** `k` steps of a nonce rule. */
  function Steps(next: Nonce -> Nonce, n: Nonce, k: nat): Nonce {
    if k == 0 then n else next(Steps(next, n, k - 1))
  }

  /** Counting to `k` with wrap-around at `m`. */
  function Wrap(k: nat, m: nat): nat {
    if k == 0 then 0 else if Wrap(k - 1, m) + 1 == m then 0 else Wrap(k - 1, m) + 1
  }

  lemma {:induction false} WrapIsModulo(k: nat, m: nat)
    requires m > 0
    ensures Wrap(k, m) == k % m
  {
    if k == 0 {
      ModuloUnique(0, 0, 0, m);
    } else {
      WrapIsModulo(k - 1, m);
      ModuloSuccessor(k - 1, m);
    }
  }

  /** Every step of the intended counter adds one, modulo `m`. */
  ghost predicate CountsModulo(m: nat) {
    forall n: Nonce :: Value(IntendedNext(n)) == if Value(n) + 1 == m then 0 else Value(n) + 1
  }

  lemma CountsModulo96Bits()
    ensures CountsModulo(Pow256(12))
  {
    forall n: Nonce
      ensures Value(IntendedNext(n)) == if Value(n) + 1 == Pow256(12) then 0 else Value(n) + 1
    {
      CarryCounts(n);
    }
  }

  lemma {:induction false} IntendedAfter(zero: Nonce, k: nat, m: nat)
    requires Value(zero) == 0 && CountsModulo(m)
    ensures Value(Steps(IntendedNext, zero, k)) == Wrap(k, m)
  {
    if k > 0 {
      IntendedAfter(zero, k - 1, m);
    }
  }

  lemma {:induction false} ZeroValue(b: Bytes)
    requires forall i :: 0 <= i < |b| ==> b[i] == 0
    ensures Value(b) == 0
  {
    if b != [] {
      ZeroValue(b[1..]);
    }
  }

  lemma ModuloSuccessor(k: nat, m: nat)
    requires m > 0
    ensures (k + 1) % m == if k % m + 1 == m then 0 else k % m + 1
  {
    var q, r := k / m, k % m;
    assert k == q * m + r;
    if r + 1 == m {
      assert k + 1 == (q + 1) * m;
      ModuloUnique(k + 1, q + 1, 0, m);
    } else {
      ModuloUnique(k + 1, q, r + 1, m);
    }
  }

  lemma ModuloUnique(x: int, q: int, r: int, m: int)
    requires m > 0 && 0 <= r < m && x == q * m + r
    ensures x % m == r
  {
    var q', r' := x / m, x % m;
    assert x == q' * m + r';
    assert (q - q') * m == r' - r;
    assert q - q' >= 1 ==> (q - q') * m >= m;
    assert q - q' <= -1 ==> (q - q') * m <= -m;
  }

  // ---- What the program computes ----------------------------------------------

  lemma {:induction false} CodeStepsFrom(n: Nonce, k: nat)
    ensures Steps(CodeNext, n, k) == n[0 := (n[0] as int + k) % 256]
  {
    if k > 0 {
      CodeStepsFrom(n, k - 1);
      FirstByteSteps(n, n[0] as int + k - 1);
    }
  }

  lemma FirstByteSteps(n: Nonce, count: nat)
    ensures CodeNext(n[0 := count % 256]) == n[0 := (count + 1) % 256]
  {
    ModuloSuccessor(count, 256);
  }

  /** After `k` increments only the first byte has moved, modulo 256. */
  lemma CodeAfter(k: nat)
    ensures Steps(CodeNext, ZeroNonce(), k) == ZeroNonce()[0 := k % 256]
  {
    CodeStepsFrom(ZeroNonce(), k);
  }

  /** One increment is the intended one exactly when the first byte does not overflow. */
  lemma CodeNextIsIntended(n: Nonce)
    ensures CodeNext(n) == IntendedNext(n) <==> n[0] != 255
  {
    if n[0] == 255 {
      CarryCounts(n[1..]);
      assert Carry(n)[1..] == Carry(n[1..]);
      assert CodeNext(n)[1..] == n[1..];
      ValueBound(n[1..]);
      assert Pow256(11) > 1;
      assert Carry(n[1..]) != n[1..];
    }
  }

  /** The two counters agree after `k` steps exactly when the intended count is below 256. */
  lemma AgreeExactly(k: nat)
    ensures Steps(CodeNext, ZeroNonce(), k) == Steps(IntendedNext, ZeroNonce(), k) <==> k % Pow256(12) < 256
  {
    var zero: Nonce := ZeroNonce();
    ZeroValue(zero);
    CodeAfter(k);
    CountsModulo96Bits();
    IntendedAfter(zero, k, Pow256(12));
    WrapIsModulo(k, Pow256(12));
    SameFirstByte(Steps(CodeNext, zero, k), Steps(IntendedNext, zero, k), k, Pow256(11));
  }

  lemma SameFirstByte(code: Nonce, intended: Nonce, k: nat, m: nat)
    requires m > 0 && code[0] == k % 256 && forall i :: 1 <= i < |code| ==> code[i] == 0
    requires Value(intended) == k % (256 * m)
    ensures code == intended <==> k % (256 * m) < 256
  {
    ZeroValue(code[1..]);
    assert Value(code) == k % 256;
    ModuloOfMultiple(k, m);
    if Value(code) == Value(intended) {
      ValueInjective(code, intended);
    }
  }

  lemma ModuloOfMultiple(k: nat, m: nat)
    requires m > 0
    ensures (k % (256 * m)) % 256 == k % 256
  {
    var q, r := k / (256 * m), k % (256 * m);
    assert k == q * (256 * m) + r;
    assert q * (256 * m) == 256 * (q * m);
    ModuloUnique(k, q * m + r / 256, r % 256, 256);
  }

  /** The program's nonce sequence has period exactly 256. */
  lemma NonceRepeats(j: nat, k: nat)
    ensures Steps(CodeNext, ZeroNonce(), j) == Steps(CodeNext, ZeroNonce(), k) <==> j % 256 == k % 256
  {
    CodeAfter(j);
    CodeAfter(k);
    assert ZeroNonce()[0 := j % 256][0] == j % 256;
    assert ZeroNonce()[0 := k % 256][0] == k % 256;
  }

  /**
   Chunk `i` of a TCP stream takes the nonces after 2i and 2i+1 steps. A peer with the
   intended counter holds the same pair exactly for the first 128 chunks of its cycle.
   */
  lemma ChunkInStep(i: nat)
    requires 2 * i + 1 < Pow256(12)
    ensures (Steps(CodeNext, ZeroNonce(), 2 * i) == Steps(IntendedNext, ZeroNonce(), 2 * i)
             && Steps(CodeNext, ZeroNonce(), 2 * i + 1) == Steps(IntendedNext, ZeroNonce(), 2 * i + 1))
            <==> i < 128
  {
    AgreeExactly(2 * i);
    AgreeExactly(2 * i + 1);
    ModuloUnique(2 * i, 0, 2 * i, Pow256(12));
    ModuloUnique(2 * i + 1, 0, 2 * i + 1, Pow256(12));
  }
}
