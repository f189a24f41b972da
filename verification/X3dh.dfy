/** The initial key agreement: both parties hash the same two Diffie-Hellman outputs. */
module X3dh {
  import opened Data
  import opened Ratchet
  import opened Protocol
  import opened Invariant

  type Hash = Bytes -> Bytes

  const ROOT_LABEL: Bytes := TextBytes("WhisperX3DHRootKey")

  datatype Agreement = Agreement(rootKey: Bytes, ephemeral: KeyPair)

  /** The ephemeral pair is what the random generator returned. */
  function InitiatorKeyAgreement(p: Primitives, sha256: Hash, localIdentity: KeyPair, remoteIdentity: Bytes,
                                 generated: KeyPair): Agreement
  {
    var dh1 := p.sharedKey(localIdentity.secretKey, remoteIdentity);
    var dh2 := p.sharedKey(generated.secretKey, remoteIdentity);
    Agreement(sha256(dh1 + dh2 + ROOT_LABEL), generated)
  }

  function ResponderKeyAgreement(p: Primitives, sha256: Hash, localIdentity: KeyPair, remoteIdentity: Bytes,
                                 remoteEphemeral: Bytes): Bytes
  {
    var dh1 := p.sharedKey(localIdentity.secretKey, remoteIdentity);
    var dh2 := p.sharedKey(localIdentity.secretKey, remoteEphemeral);
    sha256(dh1 + dh2 + ROOT_LABEL)
  }

  /**
   * Both parties arrive at one root key, for all identity and ephemeral keys: the hash of what the two
   * identities share, what the ephemeral key and the responder's identity share, and a label.
   */
  lemma RootKeysAgree(p: Primitives, sha256: Hash, a: KeyPair, b: KeyPair, ephemeral: KeyPair)
    requires Lawful(p) && ValidPair(p, a) && ValidPair(p, b) && ValidPair(p, ephemeral)
    ensures InitiatorKeyAgreement(p, sha256, a, b.publicKey, ephemeral).rootKey
      == ResponderKeyAgreement(p, sha256, b, a.publicKey, ephemeral.publicKey)
    ensures InitiatorKeyAgreement(p, sha256, a, b.publicKey, ephemeral)
      == Agreement(sha256(p.sharedKey(a.secretKey, b.publicKey) + p.sharedKey(ephemeral.secretKey, b.publicKey)
                          + TextBytes("WhisperX3DHRootKey")), ephemeral)
  {
    assert p.sharedKey(a.secretKey, p.publicKey(b.secretKey)) == p.sharedKey(b.secretKey, p.publicKey(a.secretKey));
    assert p.sharedKey(ephemeral.secretKey, p.publicKey(b.secretKey))
        == p.sharedKey(b.secretKey, p.publicKey(ephemeral.secretKey));
  }

  /** The key pair the initiator passes to the constructor is replaced before its first use. */
  lemma PassedPairIsNeverUsed(p: Primitives, rootKey: Bytes, passed: KeyPair, other: KeyPair, remote: Bytes,
                              generated: KeyPair)
    ensures NewSession(p, rootKey, passed, Some(remote), true, generated)
      == NewSession(p, rootKey, other, Some(remote), true, generated)
  {
  }

  /** The two parties as they come out of the agreement and the constructors. */
  function Agreed(p: Primitives, sha256: Hash, a: KeyPair, b: KeyPair, ephemeral: KeyPair, passed: KeyPair,
                  generated: KeyPair): (w: World)
  {
    var rootA := InitiatorKeyAgreement(p, sha256, a, b.publicKey, ephemeral).rootKey;
    var rootB := ResponderKeyAgreement(p, sha256, b, a.publicKey, ephemeral.publicKey);
    var sa := NewSession(p, rootA, passed, Some(b.publicKey), true, generated).value;
    var sb := NewSession(p, rootB, b, Some(a.publicKey), false, generated).value;
    World(Both(Party(sa, 1, {}), Party(sb, 0, {})), Both([], []),
          [Epoch(rootA, [], b), Epoch(sa.rootKey, sa.sendingChain.value.key, generated)], [], [])
  }

  /** Sessions built from the agreement are in step, whichever key pair is passed to the initiator's constructor. */
  lemma SessionsStartInSync(p: Primitives, sha256: Hash, a: KeyPair, b: KeyPair, ephemeral: KeyPair, passed: KeyPair,
                            generated: KeyPair)
    requires Lawful(p) && ValidPair(p, a) && ValidPair(p, b) && ValidPair(p, ephemeral) && ValidPair(p, generated)
    requires generated.publicKey != b.publicKey && forall text :: sha256(text) != []
    ensures var w := Agreed(p, sha256, a, b, ephemeral, passed, generated);
      && Inv(p, w)
      && Start(p, w, w.history[0].rootKey, passed, generated, b, a.publicKey)
      && w == Agreed(p, sha256, a, b, ephemeral, b, generated)
  {
    var w := Agreed(p, sha256, a, b, ephemeral, passed, generated);
    RootKeysAgree(p, sha256, a, b, ephemeral);
    StartInv(p, w, w.history[0].rootKey, passed, generated, b, a.publicKey);
  }
}
