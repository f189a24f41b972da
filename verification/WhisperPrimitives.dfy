/** The primitives the sessions use: HKDF and HMAC as in the key derivation, over any curve and cipher. */
module WhisperPrimitives {
  import opened Data
  import opened Kdf
  import opened Ratchet

  datatype Curve = Curve(publicKey: Bytes -> Bytes, sharedKey: (Bytes, Bytes) -> Bytes)

  datatype Cipher = Cipher(seal: (Bytes, Bytes, Bytes) -> Bytes, open: (Bytes, Bytes, Bytes) -> Option<Bytes>)

  function Whisper(hmac: Hmac, curve: Curve, cipher: Cipher): Primitives
    requires Sized(hmac)
  {
    Primitives(
      curve.publicKey,
      curve.sharedKey,
      (rootKey, dhOutput) => KdfRootKey(hmac, rootKey, dhOutput),
      chainKey => KdfChainKey(hmac, chainKey),
      messageKey => DeriveMessageKeys(hmac, messageKey),
      cipher.seal,
      cipher.open,
      hmac)
  }

  /** Every derivation and the authentication code are made of the one HMAC. */
  lemma WhisperUsesHmac(hmac: Hmac, curve: Curve, cipher: Cipher)
    requires Sized(hmac)
    ensures var p := Whisper(hmac, curve, cipher);
      && (forall root, dh ::
            var prk := hmac(root, dh); var info := TextBytes("WhisperDoubleRatchetRootKey");
            var first := hmac(prk, info + [1]);
            p.rootStep(root, dh) == RootStep(first, hmac(prk, first + info + [2])))
      && (forall key :: p.chainStep(key) == ChainStep(hmac(key, [2]), hmac(key, [1])))
      && (forall key, text :: p.mac(key, text) == hmac(key, text))
      && p.publicKey == curve.publicKey && p.sharedKey == curve.sharedKey
      && p.seal == cipher.seal && p.open == cipher.open
  {
    forall root, dh { RootKeySpelled(hmac, root, dh); }
  }

  /** And so are the keys of a message. */
  lemma MessageKeysUseHmac(hmac: Hmac, curve: Curve, cipher: Cipher, key: Bytes)
    requires Sized(hmac)
    ensures var k := Whisper(hmac, curve, cipher).messageKeys(key);
      var prk := hmac(seq(32, _ => 0), key); var info := TextBytes("WhisperMessageKeys");
      && k.encKey == hmac(prk, info + [1]) && k.authKey == hmac(prk, k.encKey + info + [2])
      && k.iv == hmac(prk, k.authKey + info + [3])[..16]
  {
    MessageKeysSpelled(hmac, key);
  }

  /** They are lawful whenever Diffie-Hellman agrees and the cipher can be undone: derived keys are never empty. */
  lemma WhisperIsLawful(hmac: Hmac, curve: Curve, cipher: Cipher)
    requires Sized(hmac) && (forall s :: curve.publicKey(s) != [])
    requires forall a, b :: curve.sharedKey(a, curve.publicKey(b)) == curve.sharedKey(b, curve.publicKey(a))
    requires forall key, iv, text :: cipher.open(key, iv, cipher.seal(key, iv, text)) == Some(text)
    ensures Lawful(Whisper(hmac, curve, cipher))
  {
    var p := Whisper(hmac, curve, cipher);
    forall root, dh ensures p.rootStep(root, dh).rootKey != [] && p.rootStep(root, dh).chainKey != [] {
      RootSplit(hmac, root, dh);
    }
    forall key ensures p.chainStep(key).chainKey != [] && p.chainStep(key).messageKey != [] {
      assert |hmac(key, [1])| == 32 && |hmac(key, [2])| == 32;
    }
  }
}
