/**
 The byte strings from which the fuzzer's signers are made (addrgen.rs, `generate_signers_with_bytes`):
 consecutive seeds, written big-endian and padded with zeros to 32 bytes.
 */
module AddrGen {
  import opened Prelude

  newtype byte = x: int | 0 <= x < 256

  const SEED_BYTES: nat := 8
  const SIGNER_BYTES: nat := 32

  function Pow256(n: nat): (r: nat)
    ensures r > 0
  {
    if n == 0 then 1 else 256 * Pow256(n - 1)
  }

  /** The low `n` bytes of a number, the most significant one first. */
  function BigEndian(x: nat, n: nat): (bytes: seq<byte>)
    ensures |bytes| == n
  {
    if n == 0 then [] else BigEndian(x / 256, n - 1) + [(x % 256) as byte]
  }

  /** The number that a big-endian byte string stands for. */
  function Value(bytes: seq<byte>): nat {
    if bytes == [] then 0 else 256 * Value(bytes[..|bytes| - 1]) + bytes[|bytes| - 1] as nat
  }

  function Zeros(n: nat): (bytes: seq<byte>)
    ensures |bytes| == n
  {
    seq(n, _ => 0)
  }

  /** Reading back what was written gives the number again, as far as the bytes reach. */
  lemma {:induction false} BigEndianRoundTrip(x: nat, n: nat)
    requires x < Pow256(n)
    ensures Value(BigEndian(x, n)) == x
  {
    if n > 0 {
      BigEndianRoundTrip(x / 256, n - 1);
      assert BigEndian(x, n)[..n - 1] == BigEndian(x / 256, n - 1);
    }
  }

  /** The ranges of the machine integers, in bytes. */
  lemma RangesInBytes()
    ensures U32_MAX + 1 == Pow256(4) && U64_MAX + 1 == Pow256(8)
    ensures 2 * (I64_MAX + 1) == Pow256(8)
    ensures 2 * (I128_MAX + 1) == Pow256(16) && I128_MIN == -I128_MAX - 1
  {
    assert Pow256(4) == 0x1_0000_0000;
    assert Pow256(8) == 0x1_0000_0000_0000_0000;
    assert Pow256(12) == 0x1_0000_0000_0000_0000_0000_0000;
    assert Pow256(16) == 0x1_0000_0000_0000_0000_0000_0000_0000_0000;
  }

  /** Leading zeros carry no value. */
  lemma {:induction false} PaddingIsWorthless(n: nat, bytes: seq<byte>)
    ensures Value(Zeros(n) + bytes) == Value(bytes)
    decreases n + |bytes|
  {
    var all := Zeros(n) + bytes;
    if bytes != [] {
      PaddingIsWorthless(n, bytes[..|bytes| - 1]);
      assert all[..|all| - 1] == Zeros(n) + bytes[..|bytes| - 1];
    } else if n > 0 {
      PaddingIsWorthless(n - 1, []);
      assert all[..|all| - 1] == Zeros(n - 1) + [];
    }
  }

  function SignerBytes(seed: nat): (bytes: seq<byte>)
    ensures |bytes| == SIGNER_BYTES
  {
    Zeros(SIGNER_BYTES - SEED_BYTES) + BigEndian(seed, SEED_BYTES)
  }

  /** A signer's bytes determine its seed. */
  lemma SignerBytesRoundTrip(seed: nat)
    requires seed <= U64_MAX
    ensures Value(SignerBytes(seed)) == seed
  {
    assert Pow256(4) == 0x1_0000_0000;
    assert Pow256(8) == 0x1_0000_0000_0000_0000;
    PaddingIsWorthless(SIGNER_BYTES - SEED_BYTES, BigEndian(seed, SEED_BYTES));
    BigEndianRoundTrip(seed, SEED_BYTES);
  }

  /**
   The signer bytes for `count` accounts. The checked addition fails exactly when the last seed is out
   of range; otherwise the `i`-th string is 32 bytes long and stands for `addressSeed + i`, so that no
   two of them are the same.
   */
  method GenerateSignerBytes(addressSeed: nat, count: nat) returns (signers: Option<seq<seq<byte>>>)
    requires addressSeed <= U64_MAX
    ensures signers.None? <==> addressSeed + count > U64_MAX + 1
    ensures signers.Some? ==>
      && |signers.value| == count
      && (forall i :: 0 <= i < count ==> |signers.value[i]| == SIGNER_BYTES && Value(signers.value[i]) == addressSeed + i)
      && (forall i, j :: 0 <= i < j < count ==> signers.value[i] != signers.value[j])
  {
    var generated: seq<seq<byte>> := [];
    for i := 0 to count
      invariant |generated| == i && addressSeed + i <= U64_MAX + 1
      invariant forall j :: 0 <= j < i ==> |generated[j]| == SIGNER_BYTES && Value(generated[j]) == addressSeed + j
    {
      if addressSeed + i > U64_MAX {
        return None;
      }
      var seed := BigEndian(addressSeed + i, SEED_BYTES);
      SignerBytesRoundTrip(addressSeed + i);
      generated := generated + [Zeros(SIGNER_BYTES - SEED_BYTES) + seed];
    }
    return Some(generated);
  }
}
