/** Secrets at rest: UTF-8, XOR with the digest of the master key, padded base64. */
module Crypto {
  import opened Wrappers
  import Base64
  import Utf8

  type byte = Utf8.byte

  /** What SHA-256 returns; the hash itself is a parameter. */
  type Digest = d: seq<byte> | |d| == 32 witness seq(32, _ => 0)

  type HashFunction = seq<byte> -> Digest

  datatype DecryptError = BadBase64 | BadUtf8

  function Pow2(n: nat): nat {
    if n == 0 then 1 else 2 * Pow2(n - 1)
  }

  /** Bitwise exclusive or of the low `n` bits. */
  function XorBits(a: nat, k: nat, n: nat): (r: nat)
    ensures r < Pow2(n)
  {
    if n == 0 then 0 else (a + k) % 2 + 2 * XorBits(a / 2, k / 2, n - 1)
  }

  function Xor(a: byte, k: byte): byte {
    assert Pow2(8) == 256;
    XorBits(a, k, 8)
  }

  /** Every octet is combined with the key octet at its position, the key repeating. */
  function XorWithKey(data: seq<byte>, key: Digest): (r: seq<byte>)
    ensures |r| == |data|
    ensures forall i :: 0 <= i < |data| ==> r[i] == Xor(data[i], key[i % |key|])
  {
    seq(|data|, i requires 0 <= i < |data| => Xor(data[i], key[i % |key|]))
  }

  function EncryptSecret(sha256: HashFunction, masterKey: string, plaintext: string): string {
    Base64.Encode(XorWithKey(Utf8.Encode(plaintext), sha256(Utf8.Encode(masterKey))))
  }

  function DecryptSecret(sha256: HashFunction, masterKey: string, ciphertext: string): Result<string, DecryptError> {
    match Base64.Decode(ciphertext)
    case None => Err(BadBase64)
    case Some(bytes) =>
      match Utf8.Decode(XorWithKey(bytes, sha256(Utf8.Encode(masterKey))))
      case None => Err(BadUtf8)
      case Some(text) => Ok(text)
  }

  /** One bit of the sum with `k` put in front of `high`: taking `k` away again leaves the bit of the summand. */
  lemma LowBit(a: nat, k: nat, high: nat)
    ensures ((a + k) % 2 + 2 * high) / 2 == high
    ensures ((a + k) % 2 + 2 * high + k) % 2 == a % 2
  {
    var bit := (a + k) % 2;
    assert bit + 2 * high + k == a + 2 * (high + k - (a + k) / 2);
  }

  lemma {:induction false} XorBitsTwice(a: nat, k: nat, n: nat)
    requires a < Pow2(n)
    ensures XorBits(XorBits(a, k, n), k, n) == a
  {
    if n > 0 {
      var high := XorBits(a / 2, k / 2, n - 1);
      var x := XorBits(a, k, n);
      LowBit(a, k, high);
      assert x / 2 == high && (x + k) % 2 == a % 2;
      XorBitsTwice(a / 2, k / 2, n - 1);
    }
  }

  lemma XorWithKeyTwice(data: seq<byte>, key: Digest)
    ensures XorWithKey(XorWithKey(data, key), key) == data
  {
    forall i | 0 <= i < |data|
      ensures XorWithKey(XorWithKey(data, key), key)[i] == data[i]
    {
      assert Pow2(8) == 256;
      XorBitsTwice(data[i], key[i % |key|], 8);
    }
  }

  /** What was encrypted is decrypted, for every hash, key and text. */
  lemma DecryptEncrypt(sha256: HashFunction, masterKey: string, plaintext: string)
    ensures DecryptSecret(sha256, masterKey, EncryptSecret(sha256, masterKey, plaintext)) == Ok(plaintext)
  {
    var key, text := sha256(Utf8.Encode(masterKey)), Utf8.Encode(plaintext);
    Base64.DecodeEncode(XorWithKey(text, key));
    XorWithKeyTwice(text, key);
    Utf8.DecodeEncode(plaintext);
  }

  /** A stored value decrypts to a text exactly when it is that text's encryption under the same key. */
  lemma DecryptIffEncrypt(sha256: HashFunction, masterKey: string, ciphertext: string, plaintext: string)
    ensures DecryptSecret(sha256, masterKey, ciphertext) == Ok(plaintext)
       <==> ciphertext == EncryptSecret(sha256, masterKey, plaintext)
  {
    DecryptEncrypt(sha256, masterKey, plaintext);
    if DecryptSecret(sha256, masterKey, ciphertext) == Ok(plaintext) {
      var key := sha256(Utf8.Encode(masterKey));
      var bytes := Base64.Decode(ciphertext).value;
      Utf8.DecodeIffEncode(XorWithKey(bytes, key), plaintext);
      XorWithKeyTwice(bytes, key);
      Base64.DecodeIffEncode(ciphertext, bytes);
    }
  }

  // ---------- what a stored value holds ----------

  /** Bit `j` of a number, the lowest first. */
  function Bit(x: nat, j: nat): nat {
    if j == 0 then x % 2 else Bit(x / 2, j - 1)
  }

  lemma {:induction false} XorBitAt(a: nat, k: nat, n: nat, j: nat)
    requires j < n
    ensures Bit(XorBits(a, k, n), j) == (Bit(a, j) + Bit(k, j)) % 2
  {
    var low, high := (a + k) % 2, XorBits(a / 2, k / 2, n - 1);
    LowAndHigh(low, high);
    if j == 0 {
      LowBits(a, k);
    } else {
      hide XorBits;
      XorBitAt(a / 2, k / 2, n - 1, j - 1);
    }
  }

  lemma LowAndHigh(low: nat, high: nat)
    requires low < 2
    ensures (low + 2 * high) / 2 == high && (low + 2 * high) % 2 == low
  {
  }

  lemma LowBits(a: nat, k: nat)
    ensures (a % 2 + k % 2) % 2 == (a + k) % 2
  {
    assert a == 2 * (a / 2) + a % 2 && k == 2 * (k / 2) + k % 2;
  }

  lemma {:induction false} BitsDetermine(a: nat, b: nat, n: nat)
    requires a < Pow2(n) && b < Pow2(n) && forall j: nat | j < n :: Bit(a, j) == Bit(b, j)
    ensures a == b
  {
    if n > 0 {
      assert Bit(a, 0) == Bit(b, 0);
      forall j: nat | j < n - 1
        ensures Bit(a / 2, j) == Bit(b / 2, j)
      {
        assert Bit(a, j + 1) == Bit(b, j + 1);
      }
      BitsDetermine(a / 2, b / 2, n - 1);
    }
  }

  /**
    * A stored value is base64 of as many octets as the text has, and each bit of each is the
    * exclusive or of the text's bit and of the digest's, the digest repeating every 32 octets.
    */
  lemma EncryptedBits(sha256: HashFunction, masterKey: string, plaintext: string)
    ensures var stored := Base64.Decode(EncryptSecret(sha256, masterKey, plaintext));
      var text, digest := Utf8.Encode(plaintext), sha256(Utf8.Encode(masterKey));
      && stored.Some? && |stored.value| == |text|
      && forall i, j: nat | 0 <= i < |text| && j < 8 ::
           Bit(stored.value[i], j) == (Bit(text[i], j) + Bit(digest[i % 32], j)) % 2
  {
    hide Bit, Xor, Utf8.Encode, Base64.Encode, Base64.Decode;
    var text, digest := Utf8.Encode(plaintext), sha256(Utf8.Encode(masterKey));
    var stored := XorWithKey(text, digest);
    Base64.DecodeEncode(stored);
    forall i, j: nat | 0 <= i < |text| && j < 8
      ensures Bit(stored[i], j) == (Bit(text[i], j) + Bit(digest[i % 32], j)) % 2
    {
      KeyRepeats(text, digest, i);
      XorBit(text[i], digest[i % 32], j);
    }
  }

  lemma KeyRepeats(data: seq<byte>, key: Digest, i: nat)
    requires i < |data|
    ensures XorWithKey(data, key)[i] == Xor(data[i], key[i % 32])
  {
    assert |key| == 32;
  }

  lemma XorBit(a: byte, k: byte, j: nat)
    requires j < 8
    ensures Bit(Xor(a, k), j) == (Bit(a, j) + Bit(k, j)) % 2
  {
    XorBitAt(a, k, 8, j);
  }

  /** The key matters: two digests that differ at an octet the text reaches never store it alike. */
  lemma OtherKeyStoresOtherwise(sha256: HashFunction, keyA: string, keyB: string, plaintext: string, i: nat)
    requires i < |Utf8.Encode(plaintext)|
    requires sha256(Utf8.Encode(keyA))[i % 32] != sha256(Utf8.Encode(keyB))[i % 32]
    ensures EncryptSecret(sha256, keyA, plaintext) != EncryptSecret(sha256, keyB, plaintext)
  {
    hide EncryptSecret, Bit, Utf8.Encode, Base64.Decode;
    EncryptedBits(sha256, keyA, plaintext);
    EncryptedBits(sha256, keyB, plaintext);
    var text, a, b := Utf8.Encode(plaintext), sha256(Utf8.Encode(keyA)), sha256(Utf8.Encode(keyB));
    if EncryptSecret(sha256, keyA, plaintext) == EncryptSecret(sha256, keyB, plaintext) {
      forall j: nat | j < 8
        ensures (Bit(text[i], j) + Bit(a[i % 32], j)) % 2 == (Bit(text[i], j) + Bit(b[i % 32], j)) % 2
      {
        var stored := Base64.Decode(EncryptSecret(sha256, keyA, plaintext)).value;
        assert Bit(stored[i], j) == (Bit(text[i], j) + Bit(a[i % 32], j)) % 2;
      }
      SameSums(text[i], a[i % 32], b[i % 32]);
    }
  }

  lemma SameSums(x: byte, a: byte, b: byte)
    requires forall j: nat | j < 8 :: (Bit(x, j) + Bit(a, j)) % 2 == (Bit(x, j) + Bit(b, j)) % 2
    ensures a == b
  {
    hide Bit;
    forall j: nat | j < 8
      ensures Bit(a, j) == Bit(b, j)
    {
      SameSum(x, a, b, j);
    }
    assert Pow2(8) == 256;
    BitsDetermine(a, b, 8);
  }

  lemma SameSum(x: byte, a: byte, b: byte, j: nat)
    requires j < 8 && (Bit(x, j) + Bit(a, j)) % 2 == (Bit(x, j) + Bit(b, j)) % 2
    ensures Bit(a, j) == Bit(b, j)
  {
    BitIsOneOrZero(a, j);
    BitIsOneOrZero(b, j);
  }

  lemma {:induction false} BitIsOneOrZero(x: nat, j: nat)
    ensures Bit(x, j) < 2
  {
    if j > 0 {
      BitIsOneOrZero(x / 2, j - 1);
    }
  }
}
