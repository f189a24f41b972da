/**
 * The session objects, which overwrite their fields as they go. Every method is proved to do to
 * the object's value what the functions of the ratchet say.
 */
module Session {
  import opened Data
  import opened Kdf
  import opened Ratchet

  class SymmetricRatchet {
    var chainKey: Bytes
    var messageNumber: nat

    constructor (initialChainKey: Bytes)
      ensures View() == Chain(initialChainKey, 0)
    {
      chainKey := initialChainKey;
      messageNumber := 0;
    }

    constructor FromState(c: Chain)
      ensures View() == c
    {
      chainKey := c.key;
      messageNumber := c.number;
    }

    function View(): Chain
      reads this
    {
      Chain(chainKey, messageNumber)
    }

    method RatchetForward(p: Primitives) returns (messageKey: Bytes, number: nat)
      modifies this
      ensures View() == Forward(p, old(View()))
      ensures messageKey == p.chainStep(old(chainKey)).messageKey && number == old(messageNumber)
    {
      var step := p.chainStep(chainKey);
      chainKey := step.chainKey;
      number := messageNumber;
      messageNumber := messageNumber + 1;
      messageKey := step.messageKey;
    }
  }

  class DHRatchet {
    var rootKey: Bytes
    var localKeyPair: KeyPair
    var remotePublicKey: Option<Bytes>

    constructor (rootKey: Bytes, localKeyPair: KeyPair, remotePublicKey: Option<Bytes>)
      ensures this.rootKey == rootKey && this.localKeyPair == localKeyPair && this.remotePublicKey == remotePublicKey
    {
      this.rootKey := rootKey;
      this.localKeyPair := localKeyPair;
      this.remotePublicKey := remotePublicKey;
    }

    method RatchetReceive(p: Primitives, newRemotePublicKey: Bytes) returns (chainKey: Bytes)
      modifies this
      ensures remotePublicKey == Some(newRemotePublicKey) && localKeyPair == old(localKeyPair)
      ensures RootStep(rootKey, chainKey)
        == p.rootStep(old(rootKey), p.sharedKey(old(localKeyPair).secretKey, newRemotePublicKey))
    {
      remotePublicKey := Some(newRemotePublicKey);
      var dhOutput := p.sharedKey(localKeyPair.secretKey, newRemotePublicKey);
      var step := p.rootStep(rootKey, dhOutput);
      rootKey := step.rootKey;
      chainKey := step.chainKey;
    }

    /** The new key pair is what the random generator returned. */
    method RatchetSend(p: Primitives, generated: KeyPair) returns (r: Result<Bytes, Error>)
      modifies this
      ensures remotePublicKey == old(remotePublicKey)
      ensures remotePublicKey.None?
        ==> r == Err(NoRemoteKey) && rootKey == old(rootKey) && localKeyPair == old(localKeyPair)
      ensures remotePublicKey.Some? ==> r.Ok? && localKeyPair == generated
      ensures remotePublicKey.Some? ==>
        RootStep(rootKey, r.value) == p.rootStep(old(rootKey), p.sharedKey(generated.secretKey, remotePublicKey.value))
    {
      if remotePublicKey.None? {
        return Err(NoRemoteKey);
      }
      localKeyPair := generated;
      var dhOutput := p.sharedKey(localKeyPair.secretKey, remotePublicKey.value);
      var step := p.rootStep(rootKey, dhOutput);
      rootKey := step.rootKey;
      return Ok(step.chainKey);
    }
  }

  class DoubleRatchetSession {
    var dhRatchet: DHRatchet
    var sendingChain: SymmetricRatchet?
    var receivingChain: SymmetricRatchet?
    var currentDHPublicKey: Option<Bytes>
    var skippedMessageKeys: seq<Entry>
    var previousChainLength: nat

    /** The objects this session owns besides itself. */
    ghost function Parts(): set<object>
      reads this
    {
      var all: set<object?> := {dhRatchet, sendingChain, receivingChain};
      all - {null}
    }

    ghost predicate Valid()
      reads this, Parts()
    {
      && Separate()
      && View().Valid()
      && (sendingChain != null ==> currentDHPublicKey.Some?)
    }

    /** The two chains are different objects. */
    ghost predicate Separate()
      reads this
    {
      sendingChain != null ==> sendingChain != receivingChain
    }

    ghost function View(): State
      reads this, Parts()
    {
      State(dhRatchet.rootKey, dhRatchet.localKeyPair, dhRatchet.remotePublicKey,
            if sendingChain == null then None else Some(sendingChain.View()),
            if receivingChain == null then None else Some(receivingChain.View()),
            currentDHPublicKey, previousChainLength, skippedMessageKeys)
    }

    /** A sender ratchets at once, with a key pair of its own; without a remote key that is an error. */
    constructor (p: Primitives, rootKey: Bytes, localKeyPair: KeyPair, remotePublicKey: Option<Bytes>,
                 isSender: bool, generated: KeyPair)
      requires isSender ==> remotePublicKey.Some?
      ensures Valid() && fresh(Parts())
      ensures NewSession(p, rootKey, localKeyPair, remotePublicKey, isSender, generated) == Ok(View())
    {
      dhRatchet := new DHRatchet(rootKey, localKeyPair, remotePublicKey);
      sendingChain, receivingChain, currentDHPublicKey := null, null, None;
      skippedMessageKeys, previousChainLength := [], 0;
      new;
      if isSender {
        var chainKey := dhRatchet.RatchetSend(p, generated);
        sendingChain := new SymmetricRatchet(chainKey.value);
        currentDHPublicKey := Some(dhRatchet.localKeyPair.publicKey);
      }
    }

    constructor FromState(st: State)
      ensures Separate() && fresh(Parts()) && View() == st
    {
      dhRatchet := new DHRatchet(st.rootKey, st.localKeyPair, st.remotePublicKey);
      sendingChain, receivingChain := null, null;
      currentDHPublicKey, previousChainLength, skippedMessageKeys :=
        st.currentDHPublicKey, st.previousChainLength, st.skipped;
      new;
      if st.sendingChain.Some? {
        sendingChain := new SymmetricRatchet.FromState(st.sendingChain.value);
      }
      if st.receivingChain.Some? {
        receivingChain := new SymmetricRatchet.FromState(st.receivingChain.value);
      }
    }

    method GetState() returns (st: State)
      ensures st == View()
    {
      st := State(dhRatchet.rootKey, dhRatchet.localKeyPair, dhRatchet.remotePublicKey,
                  if sendingChain == null then None else Some(sendingChain.View()),
                  if receivingChain == null then None else Some(receivingChain.View()),
                  currentDHPublicKey, previousChainLength, skippedMessageKeys);
    }

    method Encrypt(p: Primitives, plaintext: Bytes, associatedData: Bytes, generated: KeyPair)
      returns (r: Result<Message, Error>)
      requires Valid()
      modifies this, Parts()
      ensures Valid() && fresh(Parts() - old(Parts()))
      ensures (View(), r) == Ratchet.Encrypt(p, old(View()), plaintext, associatedData, generated)
    {
      if sendingChain == null {
        previousChainLength := if receivingChain != null then receivingChain.messageNumber else 0;
        var chainKey := dhRatchet.RatchetSend(p, generated);
        if chainKey.Err? {
          return Err(chainKey.error);
        }
        sendingChain := new SymmetricRatchet(chainKey.value);
        currentDHPublicKey := Some(dhRatchet.localKeyPair.publicKey);
      }
      var messageKey, number := sendingChain.RatchetForward(p);
      var keys := p.messageKeys(messageKey);
      var ciphertext := p.seal(keys.encKey, keys.iv, plaintext);
      var header := Header(currentDHPublicKey.value, number, previousChainLength);
      var mac := p.mac(keys.authKey, MacInput(associatedData, header, ciphertext));
      return Ok(Message(ciphertext, mac, header));
    }

    method SkipMessageKeys(p: Primitives, untilMessageNumber: nat)
      requires Valid()
      modifies this`skippedMessageKeys, if receivingChain == null then {} else {receivingChain}
      ensures Valid() && Parts() == old(Parts())
      ensures View() == Skip(p, old(View()), untilMessageNumber)
    {
      if receivingChain == null {
        return;
      }
      while receivingChain.messageNumber < untilMessageNumber
        invariant receivingChain == old(receivingChain) && receivingChain != null && Valid() && Parts() == old(Parts())
        invariant Skip(p, View(), untilMessageNumber) == Skip(p, old(View()), untilMessageNumber)
      {
        var messageKey, number := receivingChain.RatchetForward(p);
        var key := Label(dhRatchet.remotePublicKey.value, number);
        skippedMessageKeys := SetEntry(skippedMessageKeys, key, messageKey);
      }
    }

    method Decrypt(p: Primitives, ciphertext: Bytes, mac: Bytes, header: Header, associatedData: Bytes)
      returns (r: Result<Bytes, Error>)
      requires Valid()
      modifies this, Parts()
      ensures Valid() && fresh(Parts() - old(Parts()))
      ensures (View(), r) == Ratchet.Decrypt(p, old(View()), Message(ciphertext, mac, header), associatedData)
    {
      var needsRatchet := receivingChain == null || dhRatchet.remotePublicKey != Some(header.dhPublicKey);
      if needsRatchet {
        if receivingChain != null {
          SkipMessageKeys(p, header.previousChainLength);
        }
        var chainKey := dhRatchet.RatchetReceive(p, header.dhPublicKey);
        receivingChain := new SymmetricRatchet(chainKey);
        sendingChain := null;
        currentDHPublicKey := Some(dhRatchet.localKeyPair.publicKey);
        assert View() == Ratchet.RatchetReceive(p, Skip(p, old(View()), header.previousChainLength),
          header.dhPublicKey);
      }
      SkipMessageKeys(p, header.messageNumber);
      assert View() == Positioned(p, old(View()), header);
      var messageKey, _ := receivingChain.RatchetForward(p);
      var keys := p.messageKeys(messageKey);
      var expectedMac := p.mac(keys.authKey, MacInput(associatedData, header, ciphertext));
      if mac != expectedMac {
        return Err(MacFailed);
      }
      match p.open(keys.encKey, keys.iv, ciphertext) {
        case None => return Err(BadPadding);
        case Some(text) => return Ok(text);
      }
    }
  }
}
