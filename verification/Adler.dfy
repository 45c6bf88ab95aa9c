/** The Adler-32 checksum of zlib streams, section 2.2 of RFC 1950. */
module Adler {
  import opened Bytes

  const MODULUS: int := 65521
  const U32_LIMIT: int := 0x1_0000_0000

  function Sum(data: seq<byte>): nat {
    if data == [] then 0 else Sum(data[..|data| - 1]) + data[|data| - 1]
  }

  /** The sum, over all prefixes, of one plus their sum. */
  function SumOfSums(data: seq<byte>): nat {
    if data == [] then 0 else SumOfSums(data[..|data| - 1]) + (1 + Sum(data))
  }

  /** One plus the sum of all bytes in the low half, the sum of those running values in the
      high half, each modulo 65521. */
  function AdlerOf(data: seq<byte>): (adler: int)
    ensures 0 <= adler < U32_LIMIT
  {
    (SumOfSums(data) % MODULUS) * 0x1_0000 + (1 + Sum(data)) % MODULUS
  }

  lemma ReducedSum(a: int, b: int)
    ensures (a % MODULUS + b) % MODULUS == (a + b) % MODULUS
  {
  }

  lemma ReducedSums(a: int, b: int)
    ensures (a % MODULUS + b % MODULUS) % MODULUS == (a + b) % MODULUS
  {
    ReducedSum(a, b % MODULUS);
    ReducedSum(b, a);
  }

  /** One byte: both halves are reduced at once, and no sum leaves 32 bits. */
  method AddByte(low: int, high: int, b: byte, ghost sum: int, ghost sums: int)
    returns (low': int, high': int)
    requires low == sum % MODULUS && high == sums % MODULUS
    ensures low' == (sum + b) % MODULUS && high' == (sums + (sum + b)) % MODULUS
  {
    assert 0 <= low + b < U32_LIMIT;
    ReducedSum(sum, b);
    low' := (low + b) % MODULUS;
    assert 0 <= high + low' < U32_LIMIT;
    ReducedSums(sums, sum + b);
    high' := (high + low') % MODULUS;
  }

  method Adler32(data: seq<byte>) returns (adler: int)
    ensures adler == AdlerOf(data)
  {
    var low, high := 1, 0;
    for i := 0 to |data|
      invariant low == (1 + Sum(data[..i])) % MODULUS
      invariant high == SumOfSums(data[..i]) % MODULUS
    {
      assert data[..i + 1][..i] == data[..i];
      low, high := AddByte(low, high, data[i], 1 + Sum(data[..i]), SumOfSums(data[..i]));
    }
    assert data[..|data|] == data;
    adler := high * 0x1_0000 + low;
  }
}
