/**
 * Which message keys coincide, as far as the derivations of a run meet no collision. The derived
 * values spoken of are those of the run itself, so fixed-length derivations can meet the condition.
 */
module KeyUse {
  import opened Data
  import opened Kdf
  import opened Ratchet
  import opened Protocol
  import opened Invariant
  import opened Agreement
  import opened AgreementTheorems

  // ---------------------------------------------------------------- derivations that meet no collision

  /** Two chain keys, if different, lead to different chain keys and to different message keys. */
  predicate StepsApart(p: Primitives, x: Bytes, y: Bytes) {
    (p.chainStep(x).chainKey == p.chainStep(y).chainKey || p.chainStep(x).messageKey == p.chainStep(y).messageKey)
      ==> x == y
  }

  /** Going up to place m of one chain and place n of another meets no collision and does not run into their starts. */
  ghost predicate ChainsApart(p: Primitives, a: Bytes, m: nat, b: Bytes, n: nat) {
    && (forall i, j | 0 <= i <= m && 0 <= j <= n :: StepsApart(p, ChainKeyAt(p, a, i), ChainKeyAt(p, b, j)))
    && (forall i | 0 < i <= m :: ChainKeyAt(p, a, i) != b)
    && (forall j | 0 < j <= n :: ChainKeyAt(p, b, j) != a)
  }

  /** Two ratchet steps: if different root keys went into them, different keys come out of them. */
  predicate RootStepsApart(h: seq<Epoch>, i: nat, j: nat) {
    1 <= i < |h| && 1 <= j < |h| && h[i - 1].rootKey != h[j - 1].rootKey
    ==> h[i].rootKey != h[j].rootKey && h[i].chainKey != h[j].chainKey
  }

  /** The ratchet steps of a history meet no collision and never lead back to the first root key. */
  ghost predicate RootsApart(h: seq<Epoch>) {
    && (forall i | 1 <= i < |h| :: h[i].rootKey != h[0].rootKey)
    && forall i: nat, j: nat {:trigger RootStepsApart(h, i, j)} :: RootStepsApart(h, i, j)
  }

  ghost predicate PlacesApart(p: Primitives, h: seq<Epoch>, a: Packet, b: Packet) {
    a.epoch < |h| && b.epoch < |h| ==> ChainsApart(p, h[a.epoch].chainKey, a.number, h[b.epoch].chainKey, b.number)
  }

  ghost predicate SentApart(p: Primitives, h: seq<Epoch>, sent: seq<Packet>) {
    forall i, j {:trigger PlacesApart(p, h, sent[i], sent[j])} | 0 <= i < |sent| && 0 <= j < |sent| ::
      PlacesApart(p, h, sent[i], sent[j])
  }

  /** The run so far met no collision: in its ratchet steps, nor in its chains up to the places of messages sent. */
  ghost predicate NoCollision(p: Primitives, w: World) {
    RootsApart(w.history) && SentApart(p, w.history, w.sent)
  }

  // ---------------------------------------------------------------- keys of different places differ

  lemma {:induction false} RootKeysDiffer(h: seq<Epoch>, i: nat, j: nat)
    requires RootsApart(h) && i < |h| && j < |h| && h[i].rootKey == h[j].rootKey
    ensures i == j
    decreases i + j
  {
    if i == 0 || j == 0 {
    } else {
      assert RootStepsApart(h, i, j);
      RootKeysDiffer(h, i - 1, j - 1);
    }
  }

  /** Two chains from different starts never meet, and one chain never meets itself. */
  lemma {:induction false} ChainKeysDiffer(p: Primitives, a: Bytes, m: nat, b: Bytes, n: nat)
    requires ChainsApart(p, a, m, b, n) && ChainKeyAt(p, a, m) == ChainKeyAt(p, b, n)
    ensures a == b && m == n
    decreases m + n
  {
    if m == 0 || n == 0 {
      assert m > 0 ==> ChainKeyAt(p, a, m) != b;
      assert n > 0 ==> ChainKeyAt(p, b, n) != a;
    } else {
      assert StepsApart(p, ChainKeyAt(p, a, m - 1), ChainKeyAt(p, b, n - 1));
      ChainKeysDiffer(p, a, m - 1, b, n - 1);
    }
  }

  lemma MessageKeysDiffer(p: Primitives, a: Bytes, m: nat, b: Bytes, n: nat)
    requires ChainsApart(p, a, m, b, n) && MessageKeyAt(p, a, m) == MessageKeyAt(p, b, n)
    ensures a == b && m == n
  {
    assert StepsApart(p, ChainKeyAt(p, a, m), ChainKeyAt(p, b, n));
    ChainKeysDiffer(p, a, m, b, n);
  }

  lemma ChainStartsDiffer(h: seq<Epoch>, i: nat, j: nat)
    requires RootsApart(h) && 1 <= i < |h| && 1 <= j < |h| && h[i].chainKey == h[j].chainKey
    ensures i == j
  {
    assert RootStepsApart(h, i, j);
    RootKeysDiffer(h, i - 1, j - 1);
  }

  /** The place of a message determines its key and the other way round. */
  lemma PlacesDiffer(p: Primitives, h: seq<Epoch>, a: Packet, b: Packet)
    requires RootsApart(h) && 1 <= a.epoch < |h| && 1 <= b.epoch < |h| && PlacesApart(p, h, a, b)
    requires MessageKeyAt(p, h[a.epoch].chainKey, a.number) == MessageKeyAt(p, h[b.epoch].chainKey, b.number)
    ensures a.epoch == b.epoch && a.number == b.number
  {
    MessageKeysDiffer(p, h[a.epoch].chainKey, a.number, h[b.epoch].chainKey, b.number);
    ChainStartsDiffer(h, a.epoch, b.epoch);
  }

  function KeyOf(p: Primitives, w: World, pk: Packet): Bytes
    requires pk.epoch < |w.history|
  {
    MessageKeyAt(p, w.history[pk.epoch].chainKey, pk.number)
  }

  /**
   * Over a whole run that met no collision, whoever sends and whenever, no two messages are
   * encrypted under one message key.
   */
  lemma EachMessageHasItsOwnKey(p: Primitives, w: World)
    requires Lawful(p) && Reachable(p, w) && NoCollision(p, w)
    ensures forall i | 0 <= i < |w.sent| ::
      var pk := w.sent[i];
      pk.epoch < |w.history|
      && pk.message == Sealed(p, KeyOf(p, w, pk), pk.message.header, pk.plaintext, pk.associatedData)
    ensures forall i, j | 0 <= i < j < |w.sent| :: KeyOf(p, w, w.sent[i]) != KeyOf(p, w, w.sent[j])
  {
    ReachableInv(p, w);
    KeysDistinct(p, w);
  }

  lemma KeysDistinct(p: Primitives, w: World)
    requires NoCollision(p, w) && SentOk(p, w.history, w.parties, w.sent)
    ensures forall i | 0 <= i < |w.sent| :: PacketOk(p, w.history, w.sent[i])
    ensures forall i, j | 0 <= i < j < |w.sent| :: KeyOf(p, w, w.sent[i]) != KeyOf(p, w, w.sent[j])
  {
    forall i, j | 0 <= i < j < |w.sent| ensures KeyOf(p, w, w.sent[i]) != KeyOf(p, w, w.sent[j]) {
      var a, b := w.sent[i], w.sent[j];
      assert PacketOk(p, w.history, a) && PacketOk(p, w.history, b) && PlacesApart(p, w.history, a, b);
      if KeyOf(p, w, a) == KeyOf(p, w, b) {
        PlacesDiffer(p, w.history, a, b);
      }
    }
  }

  // ---------------------------------------------------------------- messages taken out of order

  /** The chain a message is read from, and the place on it. */
  datatype Spot = Spot(start: Bytes, place: nat)

  /** A header with a new key opens a chain of its own; otherwise the current chain is moved on, never back. */
  function ReadAt(p: Primitives, h: seq<Epoch>, s: Side, me: Party, hd: Header): Spot
    requires me.epoch < |h|
  {
    if NeedsRatchet(me.state, hd.dhPublicKey)
    then Spot(p.rootStep(me.state.rootKey, p.sharedKey(me.state.localKeyPair.secretKey, hd.dhPublicKey)).chainKey,
      hd.messageNumber)
    else Spot(h[Reading(s, me.epoch)].chainKey, Max(Position(me.state), hd.messageNumber))
  }

  /**
   * Reading the message meets no collision either: the chain the receiver opens for it, if it opens
   * one, is not one of another root key, the place read and the place of the message are apart, and
   * so are the authentication codes under their keys.
   */
  ghost predicate NoCollisionReading(p: Primitives, h: seq<Epoch>, s: Side, me: Party, pk: Packet)
    requires me.epoch < |h| && 1 <= pk.epoch < |h|
  {
    var at, hd := ReadAt(p, h, s, me, pk.message.header), pk.message.header;
    var used, key := MessageKeyAt(p, at.start, at.place), MessageKeyAt(p, h[pk.epoch].chainKey, pk.number);
    var text := MacInput(pk.associatedData, hd, pk.message.ciphertext);
    && (NeedsRatchet(me.state, hd.dhPublicKey) && me.state.rootKey != h[pk.epoch - 1].rootKey
      ==> at.start != h[pk.epoch].chainKey)
    && ChainsApart(p, at.start, at.place, h[pk.epoch].chainKey, pk.number)
    && (used != key ==> p.mac(p.messageKeys(used).authKey, text) != p.mac(p.messageKeys(key).authKey, text))
  }

  /** The message key decrypt takes is the one of the place read. */
  lemma UsedKey(p: Primitives, h: seq<Epoch>, s: Side, me: Party, hd: Header)
    requires HistoryOk(p, h) && PartyOk(p, h, s, me) && me.state.Valid()
    ensures var at := ReadAt(p, h, s, me, hd);
      Positioned(p, me.state, hd).receivingChain == Some(ChainFrom(p, at.start, at.place))
  {
    var st := Ratcheted(p, me.state, hd);
    var at := ReadAt(p, h, s, me, hd);
    SkipMoves(p, st, at.start, hd.messageNumber);
  }

  /** A message that is not ahead is read at another place than its own. */
  lemma BehindIsElsewhere(p: Primitives, h: seq<Epoch>, s: Side, me: Party, pk: Packet)
    requires HistoryOk(p, h) && RootsApart(h) && PartyOk(p, h, s, me) && PacketOk(p, h, pk) && !Ahead(s, me, pk)
    requires NoCollisionReading(p, h, s, me, pk)
    ensures var at := ReadAt(p, h, s, me, pk.message.header);
      MessageKeyAt(p, at.start, at.place) != MessageKeyAt(p, h[pk.epoch].chainKey, pk.number)
  {
    var at := ReadAt(p, h, s, me, pk.message.header);
    if MessageKeyAt(p, at.start, at.place) == MessageKeyAt(p, h[pk.epoch].chainKey, pk.number) {
      MessageKeysDiffer(p, at.start, at.place, h[pk.epoch].chainKey, pk.number);
      if NeedsRatchet(me.state, pk.message.header.dhPublicKey) {
        RootKeysDiffer(h, me.epoch, pk.epoch - 1);
      }
    }
  }

  /** Under another key whose code differs the message is refused. */
  lemma OtherKeyIsRefused(p: Primitives, used: Bytes, key: Bytes, hd: Header, plaintext: Bytes, ad: Bytes)
    requires var m := Sealed(p, key, hd, plaintext, ad);
      p.mac(p.messageKeys(used).authKey, MacInput(ad, hd, m.ciphertext))
        != p.mac(p.messageKeys(key).authKey, MacInput(ad, hd, m.ciphertext))
    ensures Opened(p, used, Sealed(p, key, hd, plaintext, ad), ad) == Err(MacFailed)
  {
  }

  lemma BehindIsRefused(p: Primitives, h: seq<Epoch>, s: Side, me: Party, pk: Packet)
    requires HistoryOk(p, h) && RootsApart(h) && PartyOk(p, h, s, me) && me.state.Valid()
    requires PacketOk(p, h, pk) && !Ahead(s, me, pk) && NoCollisionReading(p, h, s, me, pk)
    ensures Decrypt(p, me.state, pk.message, pk.associatedData).1 == Err(MacFailed)
  {
    var at, hd := ReadAt(p, h, s, me, pk.message.header), pk.message.header;
    var used, key := MessageKeyAt(p, at.start, at.place), MessageKeyAt(p, h[pk.epoch].chainKey, pk.number);
    UsedKey(p, h, s, me, hd);
    DecryptFrom(p, me.state, pk.message, pk.associatedData, at.start, at.place);
    BehindIsElsewhere(p, h, s, me, pk);
    OtherKeyIsRefused(p, used, key, hd, pk.plaintext, pk.associatedData);
  }

  /**
   * Any message ever sent, handed to its receiver at any time, however late, early or repeated:
   * it decrypts when its place is still ahead, and is refused by the MAC check otherwise, as long
   * as the run and this reading met no collision.
   */
  lemma DecryptsExactlyWhenAhead(p: Primitives, w: World, to: Side, i: nat)
    requires Lawful(p) && Reachable(p, w) && RootsApart(w.history)
    requires i < |w.sent| && w.sent[i].from == to.Other() && w.parties.Of(to).state.Valid()
    requires w.parties.Of(to).epoch < |w.history| && 1 <= w.sent[i].epoch < |w.history|
    requires NoCollisionReading(p, w.history, to, w.parties.Of(to), w.sent[i])
    ensures var pk, me := w.sent[i], w.parties.Of(to);
      Decrypt(p, me.state, pk.message, pk.associatedData).1
        == if Ahead(to, me, pk) then Ok(pk.plaintext) else Err(MacFailed)
  {
    ReachableInv(p, w);
    assert SideOk(p, w, to) && PacketOk(p, w.history, w.sent[i]);
    ReadingDecides(p, w.history, to, w.parties.Of(to), w.sent[i]);
  }

  lemma ReadingDecides(p: Primitives, h: seq<Epoch>, s: Side, me: Party, pk: Packet)
    requires Lawful(p) && HistoryOk(p, h) && RootsApart(h) && PartyOk(p, h, s, me) && PartyBookOk(p, h, s, me)
    requires PacketOk(p, h, pk) && pk.from == s.Other() && me.state.Valid() && NoCollisionReading(p, h, s, me, pk)
    ensures Decrypt(p, me.state, pk.message, pk.associatedData).1
      == if Ahead(s, me, pk) then Ok(pk.plaintext) else Err(MacFailed)
  {
    if Ahead(s, me, pk) {
      DeliverToOk(p, h, s, me, pk);
    } else {
      BehindIsRefused(p, h, s, me, pk);
    }
  }

  // ---------------------------------------------------------------- free derivations

  /** Key derivation as free constructors see it: no collision anywhere. Fixed-length derivations cannot be so. */
  ghost predicate CollisionFree(p: Primitives) {
    && (forall r, d, r', d' :: p.rootStep(r, d).rootKey == p.rootStep(r', d').rootKey ==> r == r')
    && (forall r, d, r', d' :: p.rootStep(r, d).chainKey == p.rootStep(r', d').chainKey ==> r == r')
    && (forall k, k' :: p.chainStep(k).chainKey == p.chainStep(k').chainKey ==> k == k')
    && (forall k, k' :: p.chainStep(k).messageKey == p.chainStep(k').messageKey ==> k == k')
    && (forall r, d, k :: p.rootStep(r, d).chainKey != p.chainStep(k).chainKey)
    && (forall k, k', data ::
          p.mac(p.messageKeys(k).authKey, data) == p.mac(p.messageKeys(k').authKey, data) ==> k == k')
  }

  /** The first root key does not come out of the root derivation. */
  ghost predicate Underived(p: Primitives, rootKey: Bytes) {
    forall r, d :: p.rootStep(r, d).rootKey != rootKey
  }

  lemma FreeRootsApart(p: Primitives, h: seq<Epoch>)
    requires CollisionFree(p) && HistoryOk(p, h) && Underived(p, h[0].rootKey)
    ensures RootsApart(h)
  {
    FirstRootIsNew(p, h);
    forall i: nat, j: nat | 1 <= i < |h| && 1 <= j < |h| && h[i - 1].rootKey != h[j - 1].rootKey
      ensures RootStepsApart(h, i, j) {
      var d := DerivedFrom(p, h, i);
      var d' := DerivedFrom(p, h, j);
      FreeRootStep(p, h[i - 1].rootKey, d, h[j - 1].rootKey, d');
    }
  }

  lemma FirstRootIsNew(p: Primitives, h: seq<Epoch>)
    requires HistoryOk(p, h) && Underived(p, h[0].rootKey)
    ensures forall i | 1 <= i < |h| :: h[i].rootKey != h[0].rootKey
  {
    forall i | 1 <= i < |h| ensures h[i].rootKey != h[0].rootKey {
      var d := DerivedFrom(p, h, i);
    }
  }

  lemma FreeRootStep(p: Primitives, r: Bytes, d: Bytes, r': Bytes, d': Bytes)
    requires CollisionFree(p) && r != r'
    ensures p.rootStep(r, d).rootKey != p.rootStep(r', d').rootKey
    ensures p.rootStep(r, d).chainKey != p.rootStep(r', d').chainKey
  {
  }

  lemma DerivedFrom(p: Primitives, h: seq<Epoch>, e: nat) returns (d: Bytes)
    requires 1 <= e < |h| && StepOk(p, h, e)
    ensures p.rootStep(h[e - 1].rootKey, d) == RootStep(h[e].rootKey, h[e].chainKey)
  {
    d := p.sharedKey(h[e].pair.secretKey, h[e - 1].pair.publicKey);
  }

  lemma FreeChainsApart(p: Primitives, r: Bytes, d: Bytes, m: nat, r': Bytes, d': Bytes, n: nat)
    requires CollisionFree(p)
    ensures ChainsApart(p, p.rootStep(r, d).chainKey, m, p.rootStep(r', d').chainKey, n)
  {
  }

  /** With free derivations no run ever meets a collision. */
  lemma FreeDerivationsNeverCollide(p: Primitives, w: World)
    requires Lawful(p) && CollisionFree(p) && Reachable(p, w) && w.history != [] && Underived(p, w.history[0].rootKey)
    ensures NoCollision(p, w)
  {
    ReachableInv(p, w);
    FreeRootsApart(p, w.history);
    FreeSent(p, w.history, w.parties, w.sent);
  }

  /** And no reading does. */
  lemma FreeReadingsNeverCollide(p: Primitives, w: World, to: Side, i: nat)
    requires Lawful(p) && CollisionFree(p) && Reachable(p, w) && i < |w.sent| && w.sent[i].from == to.Other()
    ensures w.parties.Of(to).epoch < |w.history| && 1 <= w.sent[i].epoch < |w.history|
    ensures NoCollisionReading(p, w.history, to, w.parties.Of(to), w.sent[i])
  {
    ReachableInv(p, w);
    assert SideOk(p, w, to) && PacketOk(p, w.history, w.sent[i]);
    FreeReading(p, w.history, to, w.parties.Of(to), w.sent[i]);
  }

  lemma FreeSent(p: Primitives, h: seq<Epoch>, parties: Both<Party>, sent: seq<Packet>)
    requires CollisionFree(p) && HistoryOk(p, h) && SentOk(p, h, parties, sent)
    ensures SentApart(p, h, sent)
  {
    forall i, j | 0 <= i < |sent| && 0 <= j < |sent| ensures PlacesApart(p, h, sent[i], sent[j]) {
      assert PacketOk(p, h, sent[i]) && PacketOk(p, h, sent[j]);
      FreePlacesApart(p, h, sent[i], sent[j]);
    }
  }

  lemma FreePlacesApart(p: Primitives, h: seq<Epoch>, a: Packet, b: Packet)
    requires CollisionFree(p) && HistoryOk(p, h) && 1 <= a.epoch < |h| && 1 <= b.epoch < |h|
    ensures PlacesApart(p, h, a, b)
  {
    var d := DerivedFrom(p, h, a.epoch);
    var d' := DerivedFrom(p, h, b.epoch);
    FreeChainsApart(p, h[a.epoch - 1].rootKey, d, a.number, h[b.epoch - 1].rootKey, d', b.number);
  }

  lemma FreeReading(p: Primitives, h: seq<Epoch>, s: Side, me: Party, pk: Packet)
    requires CollisionFree(p) && HistoryOk(p, h) && PartyOk(p, h, s, me) && PacketOk(p, h, pk)
    ensures NoCollisionReading(p, h, s, me, pk)
  {
    var at, hd, k := ReadAt(p, h, s, me, pk.message.header), pk.message.header, Reading(s, me.epoch);
    var d' := DerivedFrom(p, h, pk.epoch);
    if NeedsRatchet(me.state, hd.dhPublicKey) {
      var d := p.sharedKey(me.state.localKeyPair.secretKey, hd.dhPublicKey);
      FreeChainsApart(p, me.state.rootKey, d, at.place, h[pk.epoch - 1].rootKey, d', pk.number);
    } else {
      var d := DerivedFrom(p, h, k);
      FreeChainsApart(p, h[k - 1].rootKey, d, at.place, h[pk.epoch - 1].rootKey, d', pk.number);
    }
  }

  /** Such primitives exist: tags keep the derivations apart. */
  function Tagged(): Primitives {
    Primitives(
      s => [0] + s,
      (s, k) => [],
      (r, d) => RootStep([1] + r, [2] + r),
      k => ChainStep([3] + k, [4] + k),
      k => MessageKeys(k, k, []),
      (k, iv, text) => text,
      (k, iv, text) => Some(text),
      (k, data) => k)
  }

  lemma TagInjective(x: byte, a: Bytes, y: byte, b: Bytes)
    requires [x] + a == [y] + b
    ensures x == y && a == b
  {
    assert ([x] + a)[0] == ([y] + b)[0];
    assert ([x] + a)[1..] == a && ([y] + b)[1..] == b;
  }

  lemma TaggedIsCollisionFree()
    ensures Lawful(Tagged()) && CollisionFree(Tagged()) && Underived(Tagged(), [9])
  {
    forall x: byte, a: Bytes, y: byte, b: Bytes | [x] + a == [y] + b ensures x == y && a == b {
      TagInjective(x, a, y, b);
    }
  }

  /** And sessions can start with them. */
  lemma TaggedCanStart() returns (w: World)
    ensures Start(Tagged(), w, [9], KeyPair([0, 1], [1]), KeyPair([0, 1], [1]), KeyPair([0, 2], [2]), [0, 3])
    ensures Reachable(Tagged(), w) && w.history != [] && w.history[0].rootKey == [9]
  {
    var p, generated, responderPair := Tagged(), KeyPair([0, 1], [1]), KeyPair([0, 2], [2]);
    var a := NewSession(p, [9], generated, Some(responderPair.publicKey), true, generated).value;
    var b := NewSession(p, [9], responderPair, Some([0, 3]), false, generated).value;
    w := World(Both(Party(a, 1, {}), Party(b, 0, {})), Both([], []),
               [Epoch([9], [], responderPair), Epoch(a.rootKey, a.sendingChain.value.key, generated)], [], []);
    assert [0] + [1] == [0, 1] && [0] + [2] == [0, 2];
    assert generated.publicKey[1] != responderPair.publicKey[1];
    assert Start(p, w, [9], generated, generated, responderPair, [0, 3]);
    assert LegalRun(p, w, []) && w == Run(p, w, []);
  }
}
