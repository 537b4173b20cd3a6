/**
 * Little-endian unsigned integers over bytes: the decoding the dashboard
 * applies to every characteristic payload (`int.from_bytes(value, "little")`),
 * with an independent positional-sum definition it is proved equal to.
 */
module LittleEndian {

  /** One octet of a BLE payload. */
  type Byte = x: int | 0 <= x < 256

  /** 256 to the power n: the weight of byte n. */
  function Pow256(n: nat): (r: int)
    ensures r > 0
  {
    if n == 0 then 1 else 256 * Pow256(n - 1)
  }

  /** `int.from_bytes(b, byteorder="little")`: unsigned, least significant byte first. */
  function Decode(b: seq<Byte>): (r: nat)
    ensures r < Pow256(|b|)
  {
    if b == [] then 0 else b[0] + 256 * Decode(b[1..])
  }

  /** The textbook reading of a little-endian number: the sum of b[i] * 256^i for i < n. */
  function WeightedSum(b: seq<Byte>, n: nat): int
    requires n <= |b|
  {
    if n == 0 then 0 else WeightedSum(b, n - 1) + b[n - 1] * Pow256(n - 1)
  }

  lemma {:induction false} WeightedSumShift(b: seq<Byte>, n: nat)
    requires 1 <= n <= |b|
    ensures WeightedSum(b, n) == b[0] + 256 * WeightedSum(b[1..], n - 1)
  {
    if n > 1 {
      WeightedSumShift(b, n - 1);
      var tail := b[1..];
      var last, p := b[n - 1], Pow256(n - 2);
      assert tail[n - 2] == last;
      assert Pow256(n - 1) == 256 * p;
      assert last * (256 * p) == 256 * (last * p);
      assert WeightedSum(b, n) == WeightedSum(b, n - 1) + last * Pow256(n - 1);
      assert WeightedSum(tail, n - 1) == WeightedSum(tail, n - 2) + last * p;
    }
  }

  /** Decoding agrees with the positional sum over every byte of the payload. */
  lemma {:induction false} DecodeIsWeightedSum(b: seq<Byte>)
    ensures Decode(b) == WeightedSum(b, |b|)
  {
    if b != [] {
      DecodeIsWeightedSum(b[1..]);
      WeightedSumShift(b, |b|);
    }
  }

  /** A positive multiple of a positive number is at least that number. */
  lemma {:induction false} MulAtLeast(k: int, d: int)
    requires k >= 1 && d > 0
    ensures k * d >= d
    decreases k
  {
    if k > 1 {
      MulAtLeast(k - 1, d);
      assert k * d == (k - 1) * d + d;
    }
  }

  /** Euclidean division is determined by any quotient/remainder pair in range. */
  lemma DivModUnique(x: int, d: int, q: int, r: int)
    requires d > 0 && 0 <= r < d && x == q * d + r
    ensures x / d == q && x % d == r
  {
    var q0, r0 := x / d, x % d;
    var k := q - q0;
    assert k * d == q * d - q0 * d;
    if k >= 1 { MulAtLeast(k, d); }
    if k <= -1 { MulAtLeast(-k, d); }
  }

  /** A quotient and remainder by a, then by b, recombine into one by a * b. */
  lemma Recombine(x: int, a: int, b: int, q: int, r: int, q2: int, r2: int)
    requires a > 0 && b > 0
    requires x == q * a + r && 0 <= r < a
    requires q == q2 * b + r2 && 0 <= r2 < b
    ensures x == q2 * (a * b) + (r2 * a + r)
    ensures 0 <= r2 * a + r < a * b
  {
    assert (q2 * b + r2) * a == (q2 * b) * a + r2 * a;
    assert (q2 * b) * a == q2 * (a * b);
    MulLeft(r2, b - 1, a);
    assert (b - 1) * a == a * b - a;
  }

  /** Multiplying by a positive number keeps the order. */
  lemma MulLeft(x: int, y: int, a: int)
    requires x <= y && a > 0
    ensures x * a <= y * a
  {
    assert y * a - x * a == (y - x) * a;
  }

  /** Dividing by a then by b is dividing by a * b. */
  lemma DivDiv(x: int, a: int, b: int)
    requires a > 0 && b > 0
    ensures x / (a * b) == (x / a) / b
  {
    var q, r := x / a, x % a;
    var q2, r2 := q / b, q % b;
    Recombine(x, a, b, q, r, q2, r2);
    DivModUnique(x, a * b, q2, r2 * a + r);
  }

  /** The remainder modulo 256 * m splits into the low byte and the remainder of the rest. */
  lemma ModSplit(x: int, m: int)
    requires m > 0
    ensures x % (256 * m) == x % 256 + 256 * ((x / 256) % m)
  {
    var q, r := x / 256, x % 256;
    var q2, r2 := q / m, q % m;
    Recombine(x, 256, m, q, r, q2, r2);
    DivModUnique(x, 256 * m, q2, r + 256 * r2);
  }

}
