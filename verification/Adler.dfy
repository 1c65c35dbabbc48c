/** The Adler-32 checksum (section 2.2 of RFC 1950). */
module Adler {

  newtype u8 = x: int | 0 <= x < 0x100
  newtype u32 = x: int | 0 <= x < 0x1_0000_0000

  const BASE := 65521

  function Sum(data: seq<u8>): nat {
    if data == [] then 0 else data[0] as nat + Sum(data[1..])
  }

  /** Each byte counts as often as there are bytes from it on. */
  function Weighted(data: seq<u8>): nat {
    if data == [] then 0 else |data| * data[0] as nat + Weighted(data[1..])
  }

  /** The two sums of the standard, modulo 65521: one plus all bytes, and the total of the first
      sum's values after each byte. */
  function Low(data: seq<u8>): nat {
    (1 + Sum(data)) % BASE
  }

  function High(data: seq<u8>): nat {
    (|data| + Weighted(data)) % BASE
  }

  lemma {:induction false} SumOfConcatenation(a: seq<u8>, b: seq<u8>)
    ensures Sum(a + b) == Sum(a) + Sum(b)
    ensures Weighted(a + b) == Weighted(a) + |b| * Sum(a) + Weighted(b)
  {
    if a == [] {
      assert a + b == b;
    } else {
      assert (a + b)[1..] == a[1..] + b;
      SumOfConcatenation(a[1..], b);
      var x, rest := a[0] as nat, Sum(a[1..]);
      SpreadOut(x, |a|, |b|);
      SpreadOut(|b|, x, rest);
    }
  }

  lemma SpreadOut(n: nat, x: nat, y: nat)
    ensures n * (x + y) == n * x + n * y && (x + y) * n == x * n + y * n
  {
  }

  lemma SumsOfOneMore(data: seq<u8>, x: u8)
    ensures Sum(data + [x]) == Sum(data) + x as nat
    ensures Weighted(data + [x]) == Weighted(data) + Sum(data) + x as nat
  {
    SumOfConcatenation(data, [x]);
    assert [x][1..] == [];
    assert Sum([x]) == x as nat && Weighted([x]) == x as nat;
  }

  /** One more byte. */
  lemma OneMore(data: seq<u8>, x: u8)
    ensures Low(data + [x]) == (Low(data) + x as nat) % BASE
    ensures High(data + [x]) == (High(data) + Low(data + [x])) % BASE
  {
    SumsOfOneMore(data, x);
    var sum, total := 1 + Sum(data), |data| + Weighted(data);
    ModOfSum(sum, x as nat);
    HighOfOneMore(total, sum + x as nat);
    assert |data + [x]| + Weighted(data + [x]) == total + (sum + x as nat);
  }

  lemma HighOfOneMore(total: nat, sum: nat)
    ensures (total % BASE + sum % BASE) % BASE == (total + sum) % BASE
  {
    ModOfSum(total, sum);
  }

  lemma ModOfSum(x: nat, y: nat)
    ensures (x % BASE + y) % BASE == (x + y) % BASE && (x % BASE + y % BASE) % BASE == (x + y) % BASE
  {
    MultipleVanishes(x % BASE + y, x / BASE);
    MultipleVanishes(x % BASE + y % BASE, x / BASE + y / BASE);
  }

  /** The loop of the program: nothing overflows 32 bits, and the result packs the two sums. */
  method Adler32(buf: seq<u8>) returns (r: u32)
    ensures r as nat == High(buf) * 0x1_0000 + Low(buf)
  {
    var s1: u32, s2: u32 := 1, 0;
    var n := 0;
    while n < |buf|
      invariant n <= |buf| && s1 as nat == Low(buf[..n]) && s2 as nat == High(buf[..n])
    {
      assert buf[..n + 1] == buf[..n] + [buf[n]];
      OneMore(buf[..n], buf[n]);
      s1 := (s1 + buf[n] as u32) % 65521;
      s2 := (s2 + s1) % 65521;
      n := n + 1;
    }
    assert buf[..n] == buf;
    r := s2 * 0x1_0000 + s1;
  }

  function Checksum(data: seq<u8>): nat {
    High(data) * 0x1_0000 + Low(data)
  }

  /** The halves of the checksum are the two sums. */
  lemma Unpacks(data: seq<u8>)
    ensures Checksum(data) / 0x1_0000 == High(data) && Checksum(data) % 0x1_0000 == Low(data)
    ensures Checksum(data) < 0x1_0000_0000
  {
  }

  lemma MultipleVanishes(a: int, k: int)
    ensures (a + k * BASE) % BASE == a % BASE
  {
    var q := a / BASE;
    assert a + k * BASE == (q + k) * BASE + a % BASE;
  }

  /** The checksum of a concatenation from the checksums of its parts and the length of the second. */
  function Combine(first: nat, second: nat, length: nat): nat {
    var low1, low2 := first % 0x1_0000, second % 0x1_0000;
    var high := (first / 0x1_0000 + second / 0x1_0000 + length * (low1 - 1)) % BASE;
    high * 0x1_0000 + (low1 + low2 - 1) % BASE
  }

  lemma ChecksumOfConcatenation(a: seq<u8>, b: seq<u8>)
    ensures Checksum(a + b) == Combine(Checksum(a), Checksum(b), |b|)
  {
    Unpacks(a);
    Unpacks(b);
    LowOfBoth(a, b);
    HighOfBoth(a, b);
  }

  lemma LowOfBoth(a: seq<u8>, b: seq<u8>)
    ensures Low(a + b) == (Low(a) + Low(b) - 1) % BASE
  {
    SumOfConcatenation(a, b);
    LowOfConcatenation(1 + Sum(a), 1 + Sum(b));
  }

  lemma HighOfBoth(a: seq<u8>, b: seq<u8>)
    ensures High(a + b) == (High(a) + High(b) + |b| * (Low(a) - 1)) % BASE
  {
    SumOfConcatenation(a, b);
    var x, y, z := |a| + Weighted(a), |b| + Weighted(b), 1 + Sum(a);
    HighOfConcatenation(x, y, |b|, z);
    assert |a + b| + Weighted(a + b) == x + y + |b| * (z - 1);
  }

  lemma LowOfConcatenation(x: nat, y: nat)
    ensures (x % BASE + y % BASE - 1) % BASE == (x + y - 1) % BASE
  {
    MultipleVanishes(x % BASE + y % BASE - 1, x / BASE + y / BASE);
  }

  lemma HighOfConcatenation(x: nat, y: nat, n: nat, z: nat)
    ensures (x % BASE + y % BASE + n * (z % BASE - 1)) % BASE == (x + y + n * (z - 1)) % BASE
  {
    var k := x / BASE + y / BASE + n * (z / BASE);
    assert n * (z - 1) == n * (z % BASE - 1) + n * (z / BASE) * BASE by {
      assert z - 1 == (z % BASE - 1) + z / BASE * BASE;
      Distribute(n, z % BASE - 1, z / BASE);
    }
    MultipleVanishes(x % BASE + y % BASE + n * (z % BASE - 1), k);
  }

  lemma Distribute(n: int, a: int, q: int)
    ensures n * (a + q * BASE) == n * a + n * q * BASE
  {
  }
}
