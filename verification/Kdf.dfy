/**
 * Key derivation: HKDF with SHA-256 (RFC 5869) and the three derivations built on it.
 * HMAC-SHA256 itself is a parameter: any function whose results are 32 octets long.
 */
module Kdf {
  import opened Data

  const HASH_LEN := 32

  type Hmac = (Bytes, Bytes) -> Bytes

  ghost predicate Sized(hmac: Hmac) {
    forall key, data :: |hmac(key, data)| == HASH_LEN
  }

  // ---------------------------------------------------------------- RFC 5869, sections 2.2 and 2.3

  function Extract(hmac: Hmac, salt: Option<Bytes>, ikm: Bytes): Bytes {
    hmac(if salt.Some? then salt.value else seq(HASH_LEN, _ => 0), ikm)
  }

  /** T(0) is empty and T(i) is HMAC(PRK, T(i-1) | info | i), the counter being one octet. */
  function T(hmac: Hmac, prk: Bytes, info: Bytes, i: nat): Bytes
    requires i <= 255
  {
    if i == 0 then [] else hmac(prk, T(hmac, prk, info, i - 1) + info + [i as byte])
  }

  /** T(1) | T(2) | ... | T(n) */
  function Blocks(hmac: Hmac, prk: Bytes, info: Bytes, n: nat): Bytes
    requires n <= 255
  {
    if n == 0 then [] else Blocks(hmac, prk, info, n - 1) + T(hmac, prk, info, n)
  }

  function BlockCount(length: nat): (n: nat)
    ensures (n - 1) * HASH_LEN < length || n == 0
    ensures length <= n * HASH_LEN
  {
    (length + HASH_LEN - 1) / HASH_LEN
  }

  lemma {:induction false} BlocksLength(hmac: Hmac, prk: Bytes, info: Bytes, n: nat)
    requires Sized(hmac) && n <= 255
    ensures |Blocks(hmac, prk, info, n)| == n * HASH_LEN
  {
    if n == 0 {
    } else {
      BlocksLength(hmac, prk, info, n - 1);
    }
  }

  function Expand(hmac: Hmac, prk: Bytes, info: Bytes, length: nat): Bytes
    requires Sized(hmac) && length <= 255 * HASH_LEN
  {
    BlocksLength(hmac, prk, info, BlockCount(length));
    Blocks(hmac, prk, info, BlockCount(length))[..length]
  }

  function HkdfRfc(hmac: Hmac, salt: Option<Bytes>, ikm: Bytes, info: Bytes, length: nat): (okm: Bytes)
    requires Sized(hmac) && length <= 255 * HASH_LEN
    ensures |okm| == length
  {
    BlocksLength(hmac, Extract(hmac, salt, ikm), info, BlockCount(length));
    Expand(hmac, Extract(hmac, salt, ikm), info, length)
  }

  // ---------------------------------------------------------------- the loop

  /** The counter is stored into a byte array, so it is reduced modulo 256 as JavaScript does. */
  method Hkdf(hmac: Hmac, ikm: Bytes, salt: Option<Bytes>, info: Bytes, length: nat)
    returns (r: Result<Bytes, string>)
    requires Sized(hmac)
    ensures length <= 255 * HASH_LEN ==> r == Ok(HkdfRfc(hmac, salt, ikm, info, length))
    ensures length > 255 * HASH_LEN ==> r.Err?
  {
    var actualSalt := if salt.Some? then salt.value else seq(HASH_LEN, _ => 0);
    var prk := hmac(actualSalt, ikm);
    var n := BlockCount(length);
    if n > 255 {
      return Err("HKDF output too long");
    }
    var t: Bytes := [];
    var okm := new byte[length];
    var offset := 0;
    for i := 1 to n + 1
      invariant t == T(hmac, prk, info, i - 1)
      invariant offset == if (i - 1) * HASH_LEN < length then (i - 1) * HASH_LEN else length
      invariant |Blocks(hmac, prk, info, i - 1)| == (i - 1) * HASH_LEN
      invariant okm[..offset] == Blocks(hmac, prk, info, i - 1)[..offset]
    {
      t := hmac(prk, t + info + [(i % 256) as byte]);
      var copyLength := if HASH_LEN < length - offset then HASH_LEN else length - offset;
      forall k | 0 <= k < copyLength {
        okm[offset + k] := t[k];
      }
      ghost var blocks := Blocks(hmac, prk, info, i);
      assert blocks == Blocks(hmac, prk, info, i - 1) + t;
      assert okm[..offset + copyLength] == blocks[..offset + copyLength];
      offset := offset + copyLength;
    }
    assert offset == length && okm[..] == okm[..offset];
    return Ok(okm[..]);
  }

  lemma {:induction false} BlocksPrefix(hmac: Hmac, prk: Bytes, info: Bytes, m: nat, n: nat)
    requires m <= n <= 255
    ensures Blocks(hmac, prk, info, m) <= Blocks(hmac, prk, info, n)
    decreases n - m
  {
    if m == n {
    } else {
      BlocksPrefix(hmac, prk, info, m, n - 1);
    }
  }

  /** A shorter output is a prefix of a longer one derived from the same inputs. */
  lemma ShorterIsPrefix(hmac: Hmac, salt: Option<Bytes>, ikm: Bytes, info: Bytes, short: nat, long: nat)
    requires Sized(hmac) && short <= long <= 255 * HASH_LEN
    ensures HkdfRfc(hmac, salt, ikm, info, short) == HkdfRfc(hmac, salt, ikm, info, long)[..short]
  {
    var prk := Extract(hmac, salt, ikm);
    BlocksPrefix(hmac, prk, info, BlockCount(short), BlockCount(long));
    BlocksLength(hmac, prk, info, BlockCount(short));
    BlocksLength(hmac, prk, info, BlockCount(long));
  }

  /** Every octet of the output is the octet at that place of the block it falls in. */
  lemma {:induction false} OctetOfBlock(hmac: Hmac, prk: Bytes, info: Bytes, n: nat, k: nat)
    requires Sized(hmac) && n <= 255 && k < n * HASH_LEN
    ensures |Blocks(hmac, prk, info, n)| == n * HASH_LEN
    ensures Blocks(hmac, prk, info, n)[k] == T(hmac, prk, info, k / HASH_LEN + 1)[k % HASH_LEN]
  {
    BlocksLength(hmac, prk, info, n);
    BlocksLength(hmac, prk, info, n - 1);
    if k < (n - 1) * HASH_LEN {
      OctetOfBlock(hmac, prk, info, n - 1, k);
    }
  }

  // ---------------------------------------------------------------- the three derivations

  datatype RootStep = RootStep(rootKey: Bytes, chainKey: Bytes)
  datatype ChainStep = ChainStep(chainKey: Bytes, messageKey: Bytes)
  datatype MessageKeys = MessageKeys(encKey: Bytes, authKey: Bytes, iv: Bytes)

  const ROOT_INFO: Bytes := TextBytes("WhisperDoubleRatchetRootKey")
  const MESSAGE_INFO: Bytes := TextBytes("WhisperMessageKeys")

  function KdfRootKey(hmac: Hmac, rootKey: Bytes, dhOutput: Bytes): RootStep
    requires Sized(hmac)
  {
    var output := HkdfRfc(hmac, Some(rootKey), dhOutput, ROOT_INFO, 64);
    RootStep(output[0..32], output[32..64])
  }

  function KdfChainKey(hmac: Hmac, chainKey: Bytes): ChainStep {
    ChainStep(hmac(chainKey, [2]), hmac(chainKey, [1]))
  }

  function DeriveMessageKeys(hmac: Hmac, messageKey: Bytes): MessageKeys
    requires Sized(hmac)
  {
    var output := HkdfRfc(hmac, Some(seq(32, _ => 0)), messageKey, MESSAGE_INFO, 80);
    MessageKeys(output[0..32], output[32..64], output[64..80])
  }

  /** The root key and the chain key are the first and second HKDF blocks: 32 octets each, nothing shared. */
  lemma RootSplit(hmac: Hmac, rootKey: Bytes, dhOutput: Bytes)
    requires Sized(hmac)
    ensures var s := KdfRootKey(hmac, rootKey, dhOutput); var prk := hmac(rootKey, dhOutput);
      && s.rootKey == T(hmac, prk, ROOT_INFO, 1) && s.chainKey == T(hmac, prk, ROOT_INFO, 2)
      && |s.rootKey| == |s.chainKey| == 32
      && s.rootKey + s.chainKey == HkdfRfc(hmac, Some(rootKey), dhOutput, ROOT_INFO, 64)
  {
    var prk := hmac(rootKey, dhOutput);
    assert Blocks(hmac, prk, ROOT_INFO, 1) == T(hmac, prk, ROOT_INFO, 1);
    assert Blocks(hmac, prk, ROOT_INFO, 2) == T(hmac, prk, ROOT_INFO, 1) + T(hmac, prk, ROOT_INFO, 2);
    assert BlockCount(64) == 2;
  }

  lemma CutInThree(a: Bytes, b: Bytes, c: Bytes)
    requires |a| == |b| == |c| == 32
    ensures var s := (a + b + c)[..80]; s[0..32] == a && s[32..64] == b && s[64..80] == c[..16]
    ensures (a + b + c)[..80] == a + b + c[..16]
  {
  }

  /** Cipher key, authentication key and initialisation vector partition the 80 octets derived. */
  lemma MessageKeySplit(hmac: Hmac, messageKey: Bytes)
    requires Sized(hmac)
    ensures var k := DeriveMessageKeys(hmac, messageKey); var prk := hmac(seq(32, _ => 0), messageKey);
      && k.encKey == T(hmac, prk, MESSAGE_INFO, 1) && k.authKey == T(hmac, prk, MESSAGE_INFO, 2)
      && k.iv == T(hmac, prk, MESSAGE_INFO, 3)[..16]
      && |k.encKey| == |k.authKey| == 32 && |k.iv| == 16
      && k.encKey + k.authKey + k.iv == HkdfRfc(hmac, Some(seq(32, _ => 0)), messageKey, MESSAGE_INFO, 80)
  {
    var prk := hmac(seq(32, _ => 0), messageKey);
    var t1, t2, t3 := T(hmac, prk, MESSAGE_INFO, 1), T(hmac, prk, MESSAGE_INFO, 2), T(hmac, prk, MESSAGE_INFO, 3);
    assert Blocks(hmac, prk, MESSAGE_INFO, 1) == t1;
    assert Blocks(hmac, prk, MESSAGE_INFO, 2) == t1 + t2;
    assert Blocks(hmac, prk, MESSAGE_INFO, 3) == t1 + t2 + t3;
    assert BlockCount(80) == 3;
    CutInThree(t1, t2, t3);
  }

  // ---------------------------------------------------------------- the derivations in terms of HMAC

  /** Without a salt the salt is as many zeros as the hash has octets (section 2.2 of RFC 5869). */
  lemma NoSaltIsZeros(hmac: Hmac, ikm: Bytes, info: Bytes, length: nat)
    requires Sized(hmac) && length <= 255 * HASH_LEN
    ensures HkdfRfc(hmac, None, ikm, info, length) == HkdfRfc(hmac, Some(seq(32, _ => 0)), ikm, info, length)
  {
    assert Extract(hmac, None, ikm) == Extract(hmac, Some(seq(32, _ => 0)), ikm);
  }

  lemma FirstBlocks(hmac: Hmac, prk: Bytes, info: Bytes)
    ensures T(hmac, prk, info, 1) == hmac(prk, info + [1])
    ensures T(hmac, prk, info, 2) == hmac(prk, T(hmac, prk, info, 1) + info + [2])
    ensures T(hmac, prk, info, 3) == hmac(prk, T(hmac, prk, info, 2) + info + [3])
  {
    assert T(hmac, prk, info, 0) == [];
    assert [] + info + [1] == info + [1];
    assert T(hmac, prk, info, 1) == hmac(prk, [] + info + [1]);
  }

  /** A ratchet step: the root key is the salt, and the text names the purpose. */
  lemma RootKeySpelled(hmac: Hmac, rootKey: Bytes, dhOutput: Bytes)
    requires Sized(hmac)
    ensures var s := KdfRootKey(hmac, rootKey, dhOutput); var prk := hmac(rootKey, dhOutput);
      var info := TextBytes("WhisperDoubleRatchetRootKey");
      && s.rootKey == hmac(prk, info + [1])
      && s.chainKey == hmac(prk, s.rootKey + info + [2])
  {
    RootSplit(hmac, rootKey, dhOutput);
    FirstBlocks(hmac, hmac(rootKey, dhOutput), TextBytes("WhisperDoubleRatchetRootKey"));
  }

  /** A step along a chain: two HMACs of one octet each, 2 for the chain and 1 for the message. */
  lemma ChainKeySpelled(hmac: Hmac, chainKey: Bytes, s: ChainStep)
    ensures s == KdfChainKey(hmac, chainKey)
      <==> s.chainKey == hmac(chainKey, [2]) && s.messageKey == hmac(chainKey, [1])
  {
  }

  /** The keys of one message: the salt is 32 zeros, and the last block is cut to 16 octets. */
  lemma MessageKeysSpelled(hmac: Hmac, messageKey: Bytes)
    requires Sized(hmac)
    ensures var k := DeriveMessageKeys(hmac, messageKey); var prk := hmac(seq(32, _ => 0), messageKey);
      var info := TextBytes("WhisperMessageKeys");
      && k.encKey == hmac(prk, info + [1])
      && k.authKey == hmac(prk, k.encKey + info + [2])
      && k.iv == hmac(prk, k.authKey + info + [3])[..16]
  {
    MessageKeySplit(hmac, messageKey);
    FirstBlocks(hmac, hmac(seq(32, _ => 0), messageKey), TextBytes("WhisperMessageKeys"));
  }
}
