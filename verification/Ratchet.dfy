/**
 * The Double Ratchet session as a value and its operations as functions on that value.
 * The cryptographic primitives are a record of functions; nothing is assumed of them here.
 */
module Ratchet {
  import opened Data
  import opened Json
  import opened Kdf

  // ---------------------------------------------------------------- primitives

  datatype KeyPair = KeyPair(publicKey: Bytes, secretKey: Bytes)

  datatype Primitives = Primitives(
    publicKey: Bytes -> Bytes,                       // X25519 public key of a secret key
    sharedKey: (Bytes, Bytes) -> Bytes,              // X25519 of a secret key and a public key
    rootStep: (Bytes, Bytes) -> RootStep,            // kdfRootKey
    chainStep: Bytes -> ChainStep,                   // kdfChainKey
    messageKeys: Bytes -> MessageKeys,               // deriveMessageKeys
    seal: (Bytes, Bytes, Bytes) -> Bytes,            // AES-CBC under key and iv
    open: (Bytes, Bytes, Bytes) -> Option<Bytes>,    // its inverse; None for bad padding
    mac: (Bytes, Bytes) -> Bytes)                    // HMAC-SHA256 under the authentication key

  /** Diffie-Hellman agrees, decryption undoes encryption, and no key is the empty byte string. */
  ghost predicate Lawful(p: Primitives) {
    && (forall a, b :: p.sharedKey(a, p.publicKey(b)) == p.sharedKey(b, p.publicKey(a)))
    && (forall key, iv, text :: p.open(key, iv, p.seal(key, iv, text)) == Some(text))
    && (forall s :: p.publicKey(s) != [])
    && (forall root, dh :: p.rootStep(root, dh).rootKey != [] && p.rootStep(root, dh).chainKey != [])
    && (forall key :: p.chainStep(key).chainKey != [] && p.chainStep(key).messageKey != [])
  }

  ghost predicate ValidPair(p: Primitives, pair: KeyPair) {
    pair.publicKey == p.publicKey(pair.secretKey) && pair.secretKey != []
  }

  // ---------------------------------------------------------------- state

  datatype Chain = Chain(key: Bytes, number: nat)

  datatype Entry = Entry(name: string, messageKey: Bytes)

  /** The skipped-key map keeps the order of insertion, as a JavaScript Map does. */
  datatype State = State(
    rootKey: Bytes,
    localKeyPair: KeyPair,
    remotePublicKey: Option<Bytes>,
    sendingChain: Option<Chain>,
    receivingChain: Option<Chain>,
    currentDHPublicKey: Option<Bytes>,
    previousChainLength: nat,
    skipped: seq<Entry>)
  {
    /** A receiving chain exists only once a remote key was given. */
    predicate Valid() {
      receivingChain.Some? ==> remotePublicKey.Some?
    }
  }

  datatype Header = Header(dhPublicKey: Bytes, messageNumber: nat, previousChainLength: nat)

  datatype Message = Message(ciphertext: Bytes, mac: Bytes, header: Header)

  datatype Error = NoRemoteKey | MacFailed | BadPadding

  // ---------------------------------------------------------------- header text and labels

  function ByteNumbers(bytes: Bytes): (vs: seq<Json>)
    ensures |vs| == |bytes|
  {
    seq(|bytes|, i requires 0 <= i < |bytes| => Num(bytes[i] as int))
  }

  function HeaderJson(h: Header): Json {
    Obj([Field("dhPublicKey", Arr(ByteNumbers(h.dhPublicKey))),
         Field("messageNumber", Num(h.messageNumber)),
         Field("previousChainLength", Num(h.previousChainLength))])
  }

  function MacInput(associatedData: Bytes, h: Header, ciphertext: Bytes): Bytes {
    associatedData + TextBytes(Text(HeaderJson(h))) + ciphertext
  }

  /** Decimal octets joined by commas. */
  function Joined(bytes: Bytes): string {
    if bytes == [] then ""
    else if |bytes| == 1 then Decimal(bytes[0] as int)
    else Decimal(bytes[0] as int) + "," + Joined(bytes[1..])
  }

  function Label(remotePublicKey: Bytes, number: nat): string {
    Joined(remotePublicKey) + "-" + Decimal(number)
  }

  // ---------------------------------------------------------------- the skipped-key map

  predicate HasEntry(entries: seq<Entry>, name: string) {
    exists i | 0 <= i < |entries| :: entries[i].name == name
  }

  /** Map.set: a new name goes last, an old one keeps its place. */
  function SetEntry(entries: seq<Entry>, name: string, messageKey: Bytes): seq<Entry> {
    if entries == [] then [Entry(name, messageKey)]
    else if entries[0].name == name then [Entry(name, messageKey)] + entries[1..]
    else [entries[0]] + SetEntry(entries[1..], name, messageKey)
  }

  // ---------------------------------------------------------------- chains

  /** The chain key after n forward steps. */
  function ChainKeyAt(p: Primitives, start: Bytes, n: nat): Bytes {
    if n == 0 then start else p.chainStep(ChainKeyAt(p, start, n - 1)).chainKey
  }

  /** Message key n of the chain with the given first chain key. */
  function MessageKeyAt(p: Primitives, start: Bytes, n: nat): Bytes {
    p.chainStep(ChainKeyAt(p, start, n)).messageKey
  }

  function Forward(p: Primitives, c: Chain): Chain {
    Chain(p.chainStep(c.key).chainKey, c.number + 1)
  }

  // ---------------------------------------------------------------- operations

  function RatchetSend(p: Primitives, st: State, generated: KeyPair): State
    requires st.remotePublicKey.Some?
  {
    var step := p.rootStep(st.rootKey, p.sharedKey(generated.secretKey, st.remotePublicKey.value));
    st.(rootKey := step.rootKey, localKeyPair := generated,
        sendingChain := Some(Chain(step.chainKey, 0)), currentDHPublicKey := Some(generated.publicKey))
  }

  function NewSession(p: Primitives, rootKey: Bytes, localKeyPair: KeyPair, remotePublicKey: Option<Bytes>,
                      isSender: bool, generated: KeyPair): Result<State, Error>
  {
    var st := State(rootKey, localKeyPair, remotePublicKey, None, None, None, 0, []);
    if !isSender then Ok(st)
    else if remotePublicKey.None? then Err(NoRemoteKey)
    else Ok(RatchetSend(p, st, generated))
  }

  /** What one message of a chain looks like on the wire. */
  function Sealed(p: Primitives, messageKey: Bytes, h: Header, plaintext: Bytes, associatedData: Bytes): Message {
    var keys := p.messageKeys(messageKey);
    var ciphertext := p.seal(keys.encKey, keys.iv, plaintext);
    Message(ciphertext, p.mac(keys.authKey, MacInput(associatedData, h, ciphertext)), h)
  }

  /** encrypt: ratchets only when there is no sending chain. The old chain length recorded is the receiving one. */
  function Encrypt(p: Primitives, st: State, plaintext: Bytes, associatedData: Bytes, generated: KeyPair)
    : (State, Result<Message, Error>)
    requires st.sendingChain.Some? ==> st.currentDHPublicKey.Some?
  {
    var st1 := if st.sendingChain.Some? then st
               else st.(previousChainLength := if st.receivingChain.Some? then st.receivingChain.value.number else 0);
    if st.sendingChain.None? && st.remotePublicKey.None? then
      (st1, Err(NoRemoteKey))
    else
      var st2 := if st.sendingChain.Some? then st1 else RatchetSend(p, st1, generated);
      var c := st2.sendingChain.value;
      var h := Header(st2.currentDHPublicKey.value, c.number, st2.previousChainLength);
      (st2.(sendingChain := Some(Forward(p, c))),
       Ok(Sealed(p, p.chainStep(c.key).messageKey, h, plaintext, associatedData)))
  }

  /** skipMessageKeys: stores the keys passed over, up to but not including a message number. */
  function Skip(p: Primitives, st: State, until: nat): (r: State)
    requires st.Valid()
    ensures r.Valid() && r == st.(receivingChain := r.receivingChain, skipped := r.skipped)
    ensures r.receivingChain.Some? == st.receivingChain.Some?
    decreases if st.receivingChain.Some? then until - st.receivingChain.value.number else 0
  {
    if st.receivingChain.None? || st.receivingChain.value.number >= until then st
    else
      var c := st.receivingChain.value;
      var name := Label(st.remotePublicKey.value, c.number);
      Skip(p, st.(receivingChain := Some(Forward(p, c)),
                  skipped := SetEntry(st.skipped, name, p.chainStep(c.key).messageKey)), until)
  }

  predicate NeedsRatchet(st: State, dhPublicKey: Bytes) {
    st.receivingChain.None? || st.remotePublicKey != Some(dhPublicKey)
  }

  /** The DH ratchet of decrypt; it drops the sending chain. */
  function RatchetReceive(p: Primitives, st: State, dhPublicKey: Bytes): State {
    var step := p.rootStep(st.rootKey, p.sharedKey(st.localKeyPair.secretKey, dhPublicKey));
    st.(rootKey := step.rootKey, remotePublicKey := Some(dhPublicKey),
        receivingChain := Some(Chain(step.chainKey, 0)), sendingChain := None,
        currentDHPublicKey := Some(st.localKeyPair.publicKey))
  }

  /** The state decrypt reads the message key from: ratcheted when the key is new, then fast-forwarded. */
  function Positioned(p: Primitives, st: State, h: Header): (r: State)
    requires st.Valid()
    ensures r.Valid() && r.receivingChain.Some?
  {
    var st1 := if NeedsRatchet(st, h.dhPublicKey)
               then RatchetReceive(p, Skip(p, st, h.previousChainLength), h.dhPublicKey)
               else st;
    Skip(p, st1, h.messageNumber)
  }

  /** Checks and opens a message with one message key. */
  function Opened(p: Primitives, messageKey: Bytes, msg: Message, associatedData: Bytes): Result<Bytes, Error> {
    var keys := p.messageKeys(messageKey);
    if msg.mac != p.mac(keys.authKey, MacInput(associatedData, msg.header, msg.ciphertext)) then Err(MacFailed)
    else match p.open(keys.encKey, keys.iv, msg.ciphertext)
      case None => Err(BadPadding)
      case Some(text) => Ok(text)
  }

  /** decrypt: the state has moved on also when the message is refused. */
  function Decrypt(p: Primitives, st: State, msg: Message, associatedData: Bytes): (State, Result<Bytes, Error>)
    requires st.Valid()
  {
    var st1 := Positioned(p, st, msg.header);
    var c := st1.receivingChain.value;
    (st1.(receivingChain := Some(Forward(p, c))),
     Opened(p, p.chainStep(c.key).messageKey, msg, associatedData))
  }

  // ---------------------------------------------------------------- facts about one operation

  /** A message opens under the key it was sealed with. */
  lemma OpenSealed(p: Primitives, messageKey: Bytes, h: Header, plaintext: Bytes, associatedData: Bytes)
    requires Lawful(p)
    ensures Opened(p, messageKey, Sealed(p, messageKey, h, plaintext, associatedData), associatedData) == Ok(plaintext)
  {
  }

  lemma JoinedHasNoDash(bytes: Bytes)
    ensures '-' !in Joined(bytes)
  {
  }

  lemma JoinedFirst(bytes: Bytes)
    requires bytes != []
    ensures Joined(bytes) == Decimal(bytes[0] as int) + JoinedRest(bytes)
  {
  }

  function JoinedRest(bytes: Bytes): string
    requires bytes != []
  {
    if |bytes| == 1 then "" else "," + Joined(bytes[1..])
  }

  lemma {:induction false} JoinedInjective(a: Bytes, b: Bytes)
    requires Joined(a) == Joined(b)
    ensures a == b
  {
    if a == [] || b == [] {
    } else {
      var x, y := JoinedRest(a), JoinedRest(b);
      JoinedFirst(a);
      JoinedFirst(b);
      DecimalUnique(a[0] as int, x, b[0] as int, y);
      if |a| > 1 {
        Cancel(",", Joined(a[1..]), Joined(b[1..]));
        JoinedInjective(a[1..], b[1..]);
      }
      assert a == [a[0]] + a[1..] && b == [b[0]] + b[1..];
    }
  }

  /** The label of a skipped key names one remote key and one message number. */
  lemma LabelInjective(a: Bytes, m: nat, b: Bytes, n: nat)
    requires Label(a, m) == Label(b, n)
    ensures a == b && m == n
  {
    JoinedHasNoDash(a);
    JoinedHasNoDash(b);
    SplitUnique(Joined(a), '-', Decimal(m), Joined(b), Decimal(n));
    JoinedInjective(a, b);
    DecimalInjective(m, n);
  }

  lemma {:induction false} SetNewEntry(entries: seq<Entry>, name: string, messageKey: Bytes)
    requires !HasEntry(entries, name)
    ensures SetEntry(entries, name, messageKey) == entries + [Entry(name, messageKey)]
  {
    if entries == [] {
    } else {
      assert entries[0].name != name;
      forall i | 0 <= i < |entries[1..]| ensures entries[1..][i].name != name {
        assert entries[1..][i] == entries[i + 1];
      }
      SetNewEntry(entries[1..], name, messageKey);
    }
  }

  /** A name that is there keeps its place and loses its old key; nothing else changes. */
  lemma {:induction false} SetOldEntry(entries: seq<Entry>, i: nat, messageKey: Bytes)
    requires i < |entries| && forall j | 0 <= j < i :: entries[j].name != entries[i].name
    ensures SetEntry(entries, entries[i].name, messageKey) == entries[i := Entry(entries[i].name, messageKey)]
  {
    if i == 0 {
    } else {
      assert entries[0].name != entries[i].name;
      SetOldEntry(entries[1..], i - 1, messageKey);
      assert entries[i := Entry(entries[i].name, messageKey)]
        == [entries[0]] + entries[1..][i - 1 := Entry(entries[i].name, messageKey)];
    }
  }

  // ---------------------------------------------------------------- the current public key

  /** While there is a chain, the public key in use is that of the local pair. */
  predicate CurrentIsLocal(st: State) {
    st.sendingChain.Some? || st.receivingChain.Some? ==> st.currentDHPublicKey == Some(st.localKeyPair.publicKey)
  }

  /** That holds of every new session and is kept by every operation, also by those that fail. */
  lemma CurrentStaysLocal(p: Primitives, rootKey: Bytes, pair: KeyPair, remote: Option<Bytes>, isSender: bool,
                          st: State, plaintext: Bytes, msg: Message, associatedData: Bytes, generated: KeyPair)
    requires st.Valid() && (st.sendingChain.Some? ==> st.currentDHPublicKey.Some?)
    ensures var start := NewSession(p, rootKey, pair, remote, isSender, generated);
      start.Ok? ==> CurrentIsLocal(start.value)
    ensures CurrentIsLocal(st) ==>
      && CurrentIsLocal(Encrypt(p, st, plaintext, associatedData, generated).0)
      && CurrentIsLocal(Decrypt(p, st, msg, associatedData).0)
  {
  }

  /** A header names the public key of the local pair, so what is sent can be answered. */
  lemma HeaderNamesLocalKey(p: Primitives, st: State, plaintext: Bytes, associatedData: Bytes, generated: KeyPair)
    requires st.sendingChain.Some? ==> st.currentDHPublicKey.Some?
    requires CurrentIsLocal(st)
    ensures var (after, r) := Encrypt(p, st, plaintext, associatedData, generated);
      && (r.Ok? ==> r.value.header.dhPublicKey == after.localKeyPair.publicKey)
      && (r.Err? <==> st.sendingChain.None? && st.remotePublicKey.None?)
      && (r.Err? ==> r.error == NoRemoteKey && after == st.(previousChainLength := after.previousChainLength))
  {
  }
}
