/**
 * What becomes of a session that is handed messages of the other side in any order, again and again,
 * none of them sent by itself in between: which of them it decrypts, and where each leaves it.
 */
module AnyOrder {
  import opened Data
  import opened Ratchet
  import opened Protocol
  import opened Invariant
  import opened Agreement
  import opened KeyUse

  // ---------------------------------------------------------------- where a session stands

  /**
   * In step with the other side, at an epoch and a place on the chain being read, or astray on a
   * chain that is nobody's, opened by a message of an epoch heard again.
   */
  datatype Standing = On(epoch: nat, place: nat) | Astray(at: Spot, heard: nat)

  ghost predicate StandsAt(p: Primitives, h: seq<Epoch>, s: Side, st: State, r: Standing) {
    && st.Valid() && (st.sendingChain.Some? ==> st.currentDHPublicKey.Some?)
    && match r
       case On(e, n) => PartyOk(p, h, s, Party(st, e, {})) && n == Position(st) && |h| <= e + 2
       case Astray(at, heard) =>
         && 1 <= heard < |h| && Mine(s.Other(), heard) && st.remotePublicKey == Some(h[heard].pair.publicKey)
         && st.receivingChain == Some(ChainFrom(p, at.start, at.place)) && at.start != h[heard].chainKey
         && RootAstray(h, st.rootKey)
  }

  /** No epoch but the newest has the root key. */
  predicate RootAstray(h: seq<Epoch>, rootKey: Bytes) {
    forall i | 0 <= i < |h| - 1 :: h[i].rootKey != rootKey
  }

  /** Does a session that stands so decrypt the message? */
  predicate Reads(s: Side, r: Standing, pk: Packet) {
    && r.On?
    && (pk.epoch == r.epoch + 1 || (pk.epoch == Reading(s, r.epoch) && pk.number >= r.place))
  }

  /** The chain and the place the message is read from. */
  function ReadFrom(p: Primitives, h: seq<Epoch>, s: Side, st: State, r: Standing, hd: Header): Spot
    requires r.On? ==> r.epoch < |h|
  {
    if NeedsRatchet(st, hd.dhPublicKey)
    then Spot(Step(p, st, hd).chainKey, hd.messageNumber)
    else match r
      case On(e, n) => Spot(h[Reading(s, e)].chainKey, Max(n, hd.messageNumber))
      case Astray(at, _) => Spot(at.start, Max(at.place, hd.messageNumber))
  }

  /** The DH ratchet step the message calls for. */
  function Step(p: Primitives, st: State, hd: Header): Kdf.RootStep {
    p.rootStep(st.rootKey, p.sharedKey(st.localKeyPair.secretKey, hd.dhPublicKey))
  }

  /** Where the session stands after the message, decrypted or refused. */
  function Turned(p: Primitives, h: seq<Epoch>, s: Side, st: State, r: Standing, pk: Packet): (r': Standing)
    requires r.On? ==> r.epoch < |h|
    ensures r'.On? && pk.epoch < |h| ==> r'.epoch < |h|
    ensures r.Astray? ==> r'.Astray?
  {
    var at := ReadFrom(p, h, s, st, r, pk.message.header);
    if r.On? && pk.epoch == r.epoch + 1 then On(r.epoch + 1, pk.number + 1)
    else if r.On? && pk.epoch == Reading(s, r.epoch) then On(r.epoch, at.place + 1)
    else Astray(Spot(at.start, at.place + 1), pk.epoch)
  }

  // ---------------------------------------------------------------- no collision while reading

  /** The keys out of a ratchet step are those of an epoch only if the same root key went in. */
  predicate StepApart(h: seq<Epoch>, rootKey: Bytes, step: Kdf.RootStep) {
    && |h| > 0 && step.rootKey != h[0].rootKey
    && forall i | 1 <= i < |h| && h[i - 1].rootKey != rootKey ::
         h[i].rootKey != step.rootKey && h[i].chainKey != step.chainKey
  }

  /** This reading meets no collision: in its ratchet step, between the two chains, and of the two codes. */
  ghost predicate Apart(p: Primitives, h: seq<Epoch>, s: Side, st: State, r: Standing, pk: Packet)
    requires (r.On? ==> r.epoch < |h|) && 1 <= pk.epoch < |h|
  {
    var hd := pk.message.header;
    var at := ReadFrom(p, h, s, st, r, hd);
    var used, own := MessageKeyAt(p, at.start, at.place), MessageKeyAt(p, h[pk.epoch].chainKey, pk.number);
    var text := MacInput(pk.associatedData, hd, pk.message.ciphertext);
    && (NeedsRatchet(st, hd.dhPublicKey) ==> StepApart(h, st.rootKey, Step(p, st, hd)))
    && ChainsApart(p, at.start, at.place, h[pk.epoch].chainKey, pk.number)
    && (used != own ==> p.mac(p.messageKeys(used).authKey, text) != p.mac(p.messageKeys(own).authKey, text))
  }

  // ---------------------------------------------------------------- one message

  /** What holds of a message handed over. */
  ghost predicate Handable(p: Primitives, h: seq<Epoch>, s: Side, pk: Packet) {
    PacketOk(p, h, pk) && pk.from == s.Other()
  }

  /** The message is as decided, and the session stands where it should. */
  ghost predicate Decided(p: Primitives, h: seq<Epoch>, s: Side, st: State, r: Standing, pk: Packet)
    requires st.Valid() && (r.On? ==> r.epoch < |h|)
  {
    var (after, outcome) := Decrypt(p, st, pk.message, pk.associatedData);
    && outcome == (if Reads(s, r, pk) then Ok(pk.plaintext) else Err(MacFailed))
    && StandsAt(p, h, s, after, Turned(p, h, s, st, r, pk))
  }

  /** The key decrypt takes, and the state it leaves. */
  lemma DecryptsFrom(p: Primitives, h: seq<Epoch>, s: Side, st: State, r: Standing, pk: Packet)
    requires StandsAt(p, h, s, st, r)
    ensures r.On? ==> r.epoch < |h|
    ensures var at := ReadFrom(p, h, s, st, r, pk.message.header);
      Decrypt(p, st, pk.message, pk.associatedData)
        == (Positioned(p, st, pk.message.header).(receivingChain := Some(ChainFrom(p, at.start, at.place + 1))),
            Opened(p, MessageKeyAt(p, at.start, at.place), pk.message, pk.associatedData))
  {
    var hd := pk.message.header;
    var at := ReadFrom(p, h, s, st, r, hd);
    SkipMoves(p, Ratcheted(p, st, hd), at.start, hd.messageNumber);
    DecryptFrom(p, st, pk.message, pk.associatedData, at.start, at.place);
  }

  /** Read under its own key a message opens. */
  lemma OwnKeyOpens(p: Primitives, h: seq<Epoch>, pk: Packet)
    requires Lawful(p) && PacketOk(p, h, pk)
    ensures Opened(p, MessageKeyAt(p, h[pk.epoch].chainKey, pk.number), pk.message, pk.associatedData)
      == Ok(pk.plaintext)
  {
    OpenSealed(p, MessageKeyAt(p, h[pk.epoch].chainKey, pk.number), pk.message.header, pk.plaintext, pk.associatedData);
  }

  /** Read from elsewhere it is refused. */
  lemma ElsewhereRefused(p: Primitives, h: seq<Epoch>, s: Side, st: State, r: Standing, pk: Packet, at: Spot)
    requires (r.On? ==> r.epoch < |h|) && PacketOk(p, h, pk) && Apart(p, h, s, st, r, pk)
    requires at == ReadFrom(p, h, s, st, r, pk.message.header)
    requires at.start != h[pk.epoch].chainKey || at.place != pk.number
    ensures Opened(p, MessageKeyAt(p, at.start, at.place), pk.message, pk.associatedData) == Err(MacFailed)
  {
    var used, own := MessageKeyAt(p, at.start, at.place), MessageKeyAt(p, h[pk.epoch].chainKey, pk.number);
    if used == own {
      MessageKeysDiffer(p, at.start, at.place, h[pk.epoch].chainKey, pk.number);
    }
    OtherKeyIsRefused(p, used, own, pk.message.header, pk.plaintext, pk.associatedData);
  }

  /** The session after the ratchet step to the next epoch, with its chain moved along. */
  lemma NextEpochOk(p: Primitives, h: seq<Epoch>, s: Side, st: State, e: nat, prev: nat, place: nat, after: State)
    requires PartyOk(p, h, s, Party(st, e, {})) && e + 1 < |h| && st.Valid() && (e == 0 || Mine(s, e))
    requires var st0 := RatchetReceive(p, Skip(p, st, prev), h[e + 1].pair.publicKey);
      && st0.rootKey == h[e + 1].rootKey && h[e + 1].pair.publicKey != []
      && after == st0.(receivingChain := Some(ChainFrom(p, h[e + 1].chainKey, place)), skipped := after.skipped)
    ensures PartyOk(p, h, s, Party(after, e + 1, {})) && Position(after) == place && after.sendingChain.None?
  {
  }

  lemma EpochKeyNotEmpty(p: Primitives, h: seq<Epoch>, e: nat)
    requires Lawful(p) && HistoryOk(p, h) && e < |h|
    ensures h[e].pair.publicKey != []
  {
    assert ValidPair(p, h[e].pair);
  }

  /** A message of the epoch right after the session's own is read from its place. */
  lemma NewerReadFrom(p: Primitives, h: seq<Epoch>, s: Side, st: State, r: Standing, pk: Packet)
    requires Lawful(p) && HistoryOk(p, h) && StandsAt(p, h, s, st, r) && Handable(p, h, s, pk)
    requires r.On? && pk.epoch == r.epoch + 1
    ensures NeedsRatchet(st, pk.message.header.dhPublicKey) && (r.epoch == 0 || Mine(s, r.epoch))
    ensures ReadFrom(p, h, s, st, r, pk.message.header) == Spot(h[pk.epoch].chainKey, pk.number)
    ensures Ratcheted(p, st, pk.message.header).rootKey == h[pk.epoch].rootKey
  {
    var me := Party(st, r.epoch, {});
    RatchetsExactlyOnNewEpoch(p, h, s, me, pk);
    RatchetAgrees(p, h, s, me, Skip(p, st, pk.message.header.previousChainLength));
  }

  lemma NewerDecided(p: Primitives, h: seq<Epoch>, s: Side, st: State, r: Standing, pk: Packet)
    requires Lawful(p) && HistoryOk(p, h) && StandsAt(p, h, s, st, r) && Handable(p, h, s, pk)
    requires r.On? && pk.epoch == r.epoch + 1
    ensures Decided(p, h, s, st, r, pk)
  {
    NewerReadFrom(p, h, s, st, r, pk);
    DecryptsFrom(p, h, s, st, r, pk);
    OwnKeyOpens(p, h, pk);
    EpochKeyNotEmpty(p, h, pk.epoch);
    var after := Decrypt(p, st, pk.message, pk.associatedData).0;
    NextEpochOk(p, h, s, st, r.epoch, pk.message.header.previousChainLength, pk.number + 1, after);
  }

  /** Where a message of the chain being read leaves the session. */
  lemma SameChainMoves(p: Primitives, h: seq<Epoch>, s: Side, st: State, r: Standing, pk: Packet)
    requires StandsAt(p, h, s, st, r) && Handable(p, h, s, pk) && r.On? && pk.epoch == Reading(s, r.epoch)
    requires r.epoch < |h|
    ensures StandsAt(p, h, s, Decrypt(p, st, pk.message, pk.associatedData).0, Turned(p, h, s, st, r, pk))
  {
    var hd := pk.message.header;
    DecryptsFrom(p, h, s, st, r, pk);
    assert !NeedsRatchet(st, hd.dhPublicKey);
    var at := ReadFrom(p, h, s, st, r, hd);
    MovedAlong(p, h, s, Party(st, r.epoch, {}), at.place + 1, Positioned(p, st, hd).skipped, {});
  }

  /** A message of the chain being read. */
  lemma SameChainDecided(p: Primitives, h: seq<Epoch>, s: Side, st: State, r: Standing, pk: Packet)
    requires Lawful(p) && HistoryOk(p, h) && StandsAt(p, h, s, st, r) && Handable(p, h, s, pk)
    requires r.On? && pk.epoch == Reading(s, r.epoch) && Apart(p, h, s, st, r, pk)
    ensures Decided(p, h, s, st, r, pk)
  {
    var at := ReadFrom(p, h, s, st, r, pk.message.header);
    assert !NeedsRatchet(st, pk.message.header.dhPublicKey);
    SameChainMoves(p, h, s, st, r, pk);
    DecryptsFrom(p, h, s, st, r, pk);
    if pk.number >= r.place {
      OwnKeyOpens(p, h, pk);
    } else {
      ElsewhereRefused(p, h, s, st, r, pk, at);
    }
  }

  /** A ratchet step from a root key that no epoch but the session's has leads astray. */
  lemma StepLeadsAstray(h: seq<Epoch>, rootKey: Bytes, step: Kdf.RootStep, heard: nat)
    requires StepApart(h, rootKey, step) && 1 <= heard < |h|
    requires forall i | 0 <= i < |h| - 2 :: h[i].rootKey != rootKey
    requires h[heard - 1].rootKey != rootKey
    ensures RootAstray(h, step.rootKey) && step.chainKey != h[heard].chainKey
  {
    forall i | 0 <= i < |h| - 1 ensures h[i].rootKey != step.rootKey {
      assert i > 0 ==> h[i - 1].rootKey != rootKey;
    }
  }

  /** A message of an older epoch: its key is taken for a new one. */
  lemma OlderDecided(p: Primitives, h: seq<Epoch>, s: Side, st: State, r: Standing, pk: Packet)
    requires Lawful(p) && HistoryOk(p, h) && RootsApart(h) && StandsAt(p, h, s, st, r) && Handable(p, h, s, pk)
    requires r.On? && pk.epoch != r.epoch + 1 && pk.epoch != Reading(s, r.epoch) && Apart(p, h, s, st, r, pk)
    ensures Decided(p, h, s, st, r, pk) && Turned(p, h, s, st, r, pk).Astray?
  {
    var hd := pk.message.header;
    var at := ReadFrom(p, h, s, st, r, hd);
    assert Reading(s, r.epoch) > 0 && pk.epoch <= r.epoch;
    assert h[Reading(s, r.epoch)].pair.publicKey != h[pk.epoch].pair.publicKey;
    forall i | 0 <= i < |h| && i != r.epoch ensures h[i].rootKey != st.rootKey {
      if h[i].rootKey == h[r.epoch].rootKey {
        RootKeysDiffer(h, i, r.epoch);
      }
    }
    OlderRefused(p, h, s, st, r, pk);
  }

  lemma OlderRefused(p: Primitives, h: seq<Epoch>, s: Side, st: State, r: Standing, pk: Packet)
    requires StandsAt(p, h, s, st, r) && Handable(p, h, s, pk) && NeedsRatchet(st, pk.message.header.dhPublicKey)
    requires r.On? ==> r.epoch < |h|
    requires r.On? ==> pk.epoch != r.epoch + 1 && pk.epoch != Reading(s, r.epoch)
    requires Apart(p, h, s, st, r, pk)
    requires h[pk.epoch - 1].rootKey != st.rootKey
    requires r.On? ==> forall i | 0 <= i < |h| && i != r.epoch :: h[i].rootKey != st.rootKey
    ensures Decided(p, h, s, st, r, pk)
  {
    var at := ReadFrom(p, h, s, st, r, pk.message.header);
    StepLeadsAstrayFrom(p, h, s, st, r, pk);
    DecryptsFrom(p, h, s, st, r, pk);
    ElsewhereRefused(p, h, s, st, r, pk, at);
  }

  lemma StepLeadsAstrayFrom(p: Primitives, h: seq<Epoch>, s: Side, st: State, r: Standing, pk: Packet)
    requires 1 <= pk.epoch < |h| && StepApart(h, st.rootKey, Step(p, st, pk.message.header))
    requires h[pk.epoch - 1].rootKey != st.rootKey
    requires r.On? ==> |h| <= r.epoch + 2 && forall i | 0 <= i < |h| && i != r.epoch :: h[i].rootKey != st.rootKey
    requires r.Astray? ==> RootAstray(h, st.rootKey)
    ensures var step := Step(p, st, pk.message.header);
      RootAstray(h, step.rootKey) && step.chainKey != h[pk.epoch].chainKey
  {
    var step := Step(p, st, pk.message.header);
    StepLeadsAstray(h, st.rootKey, step, pk.epoch);
  }

  /** A session astray refuses everything and stays astray. */
  lemma AstrayDecided(p: Primitives, h: seq<Epoch>, s: Side, st: State, r: Standing, pk: Packet)
    requires HistoryOk(p, h) && StandsAt(p, h, s, st, r) && Handable(p, h, s, pk)
    requires r.Astray? && Apart(p, h, s, st, r, pk)
    ensures Decided(p, h, s, st, r, pk) && Turned(p, h, s, st, r, pk).Astray?
  {
    var hd := pk.message.header;
    var at := ReadFrom(p, h, s, st, r, hd);
    if NeedsRatchet(st, hd.dhPublicKey) {
      OlderRefused(p, h, s, st, r, pk);
    } else {
      assert pk.epoch == r.heard;
      DecryptsFrom(p, h, s, st, r, pk);
      ElsewhereRefused(p, h, s, st, r, pk, at);
    }
  }

  /** Any message of the other side: whether it decrypts, and where it leaves the session. */
  lemma OneDecided(p: Primitives, h: seq<Epoch>, s: Side, st: State, r: Standing, pk: Packet)
    requires Lawful(p) && HistoryOk(p, h) && RootsApart(h) && StandsAt(p, h, s, st, r) && Handable(p, h, s, pk)
    requires Apart(p, h, s, st, r, pk)
    ensures Decided(p, h, s, st, r, pk)
  {
    if r.Astray? {
      AstrayDecided(p, h, s, st, r, pk);
    } else if pk.epoch == r.epoch + 1 {
      NewerDecided(p, h, s, st, r, pk);
    } else if pk.epoch == Reading(s, r.epoch) {
      SameChainDecided(p, h, s, st, r, pk);
    } else {
      OlderDecided(p, h, s, st, r, pk);
    }
  }

  // ---------------------------------------------------------------- many messages

  function Handed(p: Primitives, st: State, pk: Packet): (st': State)
    requires st.Valid()
    ensures st'.Valid()
  {
    Decrypt(p, st, pk.message, pk.associatedData).0
  }

  /** What the session is after messages handed over one by one. */
  function StateAfter(p: Primitives, st: State, pks: seq<Packet>): (st': State)
    requires st.Valid()
    ensures st'.Valid()
    decreases |pks|
  {
    if pks == [] then st else StateAfter(p, Handed(p, st, pks[0]), pks[1..])
  }

  /** What comes of each. */
  function Outcomes(p: Primitives, st: State, pks: seq<Packet>): (outcomes: seq<Result<Bytes, Error>>)
    requires st.Valid()
    ensures |outcomes| == |pks|
    decreases |pks|
  {
    if pks == [] then []
    else [Decrypt(p, st, pks[0].message, pks[0].associatedData).1] + Outcomes(p, Handed(p, st, pks[0]), pks[1..])
  }

  ghost predicate AllHandable(p: Primitives, h: seq<Epoch>, s: Side, pks: seq<Packet>) {
    forall i | 0 <= i < |pks| :: Handable(p, h, s, pks[i])
  }

  predicate InHistory(h: seq<Epoch>, r: Standing) {
    r.On? ==> r.epoch < |h|
  }

  predicate AllInHistory(h: seq<Epoch>, pks: seq<Packet>) {
    forall i | 0 <= i < |pks| :: 1 <= pks[i].epoch < |h|
  }

  function StandingAfter(p: Primitives, h: seq<Epoch>, s: Side, st: State, r: Standing,
                         pks: seq<Packet>): (r': Standing)
    requires st.Valid() && InHistory(h, r) && AllInHistory(h, pks)
    ensures InHistory(h, r') && (r.Astray? ==> r'.Astray?)
    decreases |pks|
  {
    if pks == [] then r
    else StandingAfter(p, h, s, Handed(p, st, pks[0]), Turned(p, h, s, st, r, pks[0]), pks[1..])
  }

  /** Which of the messages are decrypted. */
  function Read(p: Primitives, h: seq<Epoch>, s: Side, st: State, r: Standing, pks: seq<Packet>): (read: seq<bool>)
    requires st.Valid() && InHistory(h, r) && AllInHistory(h, pks)
    ensures |read| == |pks|
    decreases |pks|
  {
    if pks == [] then []
    else [Reads(s, r, pks[0])] + Read(p, h, s, Handed(p, st, pks[0]), Turned(p, h, s, st, r, pks[0]), pks[1..])
  }

  ghost predicate AllApart(p: Primitives, h: seq<Epoch>, s: Side, st: State, r: Standing, pks: seq<Packet>)
    requires st.Valid() && InHistory(h, r) && AllInHistory(h, pks)
    decreases |pks|
  {
    pks == [] || (Apart(p, h, s, st, r, pks[0])
                  && AllApart(p, h, s, Handed(p, st, pks[0]), Turned(p, h, s, st, r, pks[0]), pks[1..]))
  }

  lemma HandableTail(p: Primitives, h: seq<Epoch>, s: Side, pks: seq<Packet>)
    requires AllHandable(p, h, s, pks)
    ensures AllInHistory(h, pks)
    ensures pks != [] ==> Handable(p, h, s, pks[0]) && AllHandable(p, h, s, pks[1..])
  {
    forall i | 0 <= i < |pks| ensures 1 <= pks[i].epoch < |h| {
      assert Handable(p, h, s, pks[i]);
    }
    if pks != [] {
      forall i | 0 <= i < |pks[1..]| ensures Handable(p, h, s, pks[1..][i]) {
        assert Handable(p, h, s, pks[i + 1]);
      }
    }
  }

  lemma StandsInHistory(p: Primitives, h: seq<Epoch>, s: Side, st: State, r: Standing)
    requires StandsAt(p, h, s, st, r)
    ensures st.Valid() && InHistory(h, r)
  {
  }

  /** All messages handed over, in any order and however often: each outcome, and the session left. */
  ghost predicate AllDecided(p: Primitives, h: seq<Epoch>, s: Side, st: State, r: Standing, pks: seq<Packet>)
    requires st.Valid() && InHistory(h, r) && AllInHistory(h, pks)
  {
    var outcomes, read := Outcomes(p, st, pks), Read(p, h, s, st, r, pks);
    && (forall i | 0 <= i < |pks| :: outcomes[i] == if read[i] then Ok(pks[i].plaintext) else Err(MacFailed))
    && StandsAt(p, h, s, StateAfter(p, st, pks), StandingAfter(p, h, s, st, r, pks))
  }

  lemma {:induction false} EachIsDecided(p: Primitives, h: seq<Epoch>, s: Side, st: State, r: Standing,
                                         pks: seq<Packet>)
    requires Lawful(p) && HistoryOk(p, h) && RootsApart(h) && StandsAt(p, h, s, st, r) && AllHandable(p, h, s, pks)
    requires st.Valid() && InHistory(h, r) && AllInHistory(h, pks) && AllApart(p, h, s, st, r, pks)
    ensures AllDecided(p, h, s, st, r, pks)
    decreases |pks|
  {
    if pks == [] {
    } else {
      var st1, r1 := Handed(p, st, pks[0]), Turned(p, h, s, st, r, pks[0]);
      HandableTail(p, h, s, pks);
      OneDecided(p, h, s, st, r, pks[0]);
      EachIsDecided(p, h, s, st1, r1, pks[1..]);
      OneMoreDecided(p, h, s, st, r, pks);
    }
  }

  lemma OneMoreDecided(p: Primitives, h: seq<Epoch>, s: Side, st: State, r: Standing, pks: seq<Packet>)
    requires pks != [] && st.Valid() && InHistory(h, r) && AllInHistory(h, pks) && Decided(p, h, s, st, r, pks[0])
    requires AllDecided(p, h, s, Handed(p, st, pks[0]), Turned(p, h, s, st, r, pks[0]), pks[1..])
    ensures AllDecided(p, h, s, st, r, pks)
  {
    var outcomes, read := Outcomes(p, st, pks), Read(p, h, s, st, r, pks);
    var st1, r1 := Handed(p, st, pks[0]), Turned(p, h, s, st, r, pks[0]);
    forall i | 0 <= i < |pks| ensures outcomes[i] == if read[i] then Ok(pks[i].plaintext) else Err(MacFailed) {
      if i > 0 {
        assert outcomes[i] == Outcomes(p, st1, pks[1..])[i - 1] && read[i] == Read(p, h, s, st1, r1, pks[1..])[i - 1];
      }
    }
  }

  // ---------------------------------------------------------------- which ones are read

  /** A session astray reads nothing any more. */
  lemma {:induction false} AstrayReadsNothing(p: Primitives, h: seq<Epoch>, s: Side, st: State, r: Standing,
      pks: seq<Packet>)
    requires st.Valid() && r.Astray? && AllInHistory(h, pks)
    ensures forall i | 0 <= i < |pks| :: !Read(p, h, s, st, r, pks)[i]
    decreases |pks|
  {
    if pks == [] {
    } else {
      var st1, r1 := Handed(p, st, pks[0]), Turned(p, h, s, st, r, pks[0]);
      AstrayReadsNothing(p, h, s, st1, r1, pks[1..]);
      forall i | 0 <= i < |pks| ensures !Read(p, h, s, st, r, pks)[i] {
        assert i > 0 ==> Read(p, h, s, st, r, pks)[i] == Read(p, h, s, st1, r1, pks[1..])[i - 1];
      }
    }
  }

  /** Whether message i is read depends on where those before it leave the session. */
  lemma {:induction false} ReadAtPlace(p: Primitives, h: seq<Epoch>, s: Side, st: State, r: Standing,
                                       pks: seq<Packet>, i: nat)
    requires st.Valid() && InHistory(h, r) && AllInHistory(h, pks) && i < |pks|
    ensures Read(p, h, s, st, r, pks)[i] == Reads(s, StandingAfter(p, h, s, st, r, pks[..i]), pks[i])
    decreases i
  {
    if i == 0 {
    } else {
      ReadAtPlace(p, h, s, Handed(p, st, pks[0]), Turned(p, h, s, st, r, pks[0]), pks[1..], i - 1);
      assert pks[..i][1..] == pks[1..][..i - 1] && pks[..i][0] == pks[0];
    }
  }

  /** A message that is neither of the chain being read nor of the next epoch. */
  predicate Older(s: Side, r: Standing, pk: Packet) {
    r.On? && pk.epoch != r.epoch + 1 && pk.epoch != Reading(s, r.epoch)
  }

  lemma {:induction false} StandingSplits(p: Primitives, h: seq<Epoch>, s: Side, st: State, r: Standing,
                                          pks: seq<Packet>, i: nat)
    requires st.Valid() && InHistory(h, r) && AllInHistory(h, pks) && i < |pks|
    ensures StandingAfter(p, h, s, st, r, pks[..i + 1])
      == Turned(p, h, s, StateAfter(p, st, pks[..i]), StandingAfter(p, h, s, st, r, pks[..i]), pks[i])
    decreases i
  {
    if i == 0 {
      assert pks[..1][1..] == [];
    } else {
      StandingSplits(p, h, s, Handed(p, st, pks[0]), Turned(p, h, s, st, r, pks[0]), pks[1..], i - 1);
      assert pks[..i][1..] == pks[1..][..i - 1] && pks[..i + 1][1..] == pks[1..][..i];
    }
  }

  lemma {:induction false} StandingJoins(p: Primitives, h: seq<Epoch>, s: Side, st: State, r: Standing,
                                         pks: seq<Packet>, more: seq<Packet>)
    requires st.Valid() && InHistory(h, r) && AllInHistory(h, pks) && AllInHistory(h, more)
    requires AllInHistory(h, pks + more)
    ensures StandingAfter(p, h, s, st, r, pks + more)
      == StandingAfter(p, h, s, StateAfter(p, st, pks), StandingAfter(p, h, s, st, r, pks), more)
    decreases |pks|
  {
    if pks == [] {
      assert [] + more == more;
    } else {
      assert (pks + more)[1..] == pks[1..] + more;
      StandingJoins(p, h, s, Handed(p, st, pks[0]), Turned(p, h, s, st, r, pks[0]), pks[1..], more);
    }
  }

  lemma AstrayFromThere(p: Primitives, h: seq<Epoch>, s: Side, st: State, r: Standing, pks: seq<Packet>, i: nat,
                        j: nat)
    requires st.Valid() && InHistory(h, r) && AllInHistory(h, pks) && i <= j <= |pks|
    requires StandingAfter(p, h, s, st, r, pks[..i]).Astray?
    ensures StandingAfter(p, h, s, st, r, pks[..j]).Astray?
  {
    assert pks[..j] == pks[..i] + pks[i..j];
    StandingJoins(p, h, s, st, r, pks[..i], pks[i..j]);
  }

  /** From the first message of an older epoch on, nothing is read. */
  lemma NothingAfterAnOlder(p: Primitives, h: seq<Epoch>, s: Side, st: State, r: Standing, pks: seq<Packet>, i: nat)
    requires st.Valid() && InHistory(h, r) && AllInHistory(h, pks) && i < |pks|
    requires Older(s, StandingAfter(p, h, s, st, r, pks[..i]), pks[i])
    ensures forall j | i <= j < |pks| :: !Read(p, h, s, st, r, pks)[j]
  {
    StandingSplits(p, h, s, st, r, pks, i);
    forall j | i <= j < |pks| ensures !Read(p, h, s, st, r, pks)[j] {
      ReadAtPlace(p, h, s, st, r, pks, j);
      if j > i {
        AstrayFromThere(p, h, s, st, r, pks, i + 1, j);
      }
    }
  }

  /** A session that is in step only ever turns to later epochs. */
  lemma {:induction false} StandingGrows(p: Primitives, h: seq<Epoch>, s: Side, st: State, r: Standing,
                                         pks: seq<Packet>)
    requires st.Valid() && InHistory(h, r) && AllInHistory(h, pks)
    ensures var r' := StandingAfter(p, h, s, st, r, pks);
      r'.On? ==> r.On? && r.epoch <= r'.epoch
    decreases |pks|
  {
    if pks == [] {
    } else {
      StandingGrows(p, h, s, Handed(p, st, pks[0]), Turned(p, h, s, st, r, pks[0]), pks[1..]);
    }
  }

  lemma ReadingGrows(s: Side, e: nat, e': nat)
    requires e <= e'
    ensures Reading(s, e) <= Reading(s, e')
  {
  }

  /** Nothing is read from a message on that is of an older epoch than the session reads at the start. */
  lemma OlderFromThere(p: Primitives, h: seq<Epoch>, s: Side, st: State, r: Standing, pks: seq<Packet>, i: nat)
    requires st.Valid() && InHistory(h, r) && AllInHistory(h, pks) && i < |pks| && r.On?
    requires pks[i].epoch < Reading(s, r.epoch)
    ensures forall j | i <= j < |pks| :: !Read(p, h, s, st, r, pks)[j]
  {
    var r' := StandingAfter(p, h, s, st, r, pks[..i]);
    StandingGrows(p, h, s, st, r, pks[..i]);
    if r'.On? {
      ReadingGrows(s, r.epoch, r'.epoch);
      NothingAfterAnOlder(p, h, s, st, r, pks, i);
    } else {
      forall j | i <= j < |pks| ensures !Read(p, h, s, st, r, pks)[j] {
        ReadAtPlace(p, h, s, st, r, pks, j);
        AstrayFromThere(p, h, s, st, r, pks, i, j);
      }
    }
  }

  // ---------------------------------------------------------------- messages of one chain

  function Numbers(pks: seq<Packet>): (ns: seq<nat>)
    ensures |ns| == |pks|
  {
    seq(|pks|, i requires 0 <= i < |pks| => pks[i].number)
  }

  /**
   * The place a session at q has come to after messages of the chain it reads: past each of them, and
   * one on for each.
   */
  function Came(ns: seq<nat>, q: nat): nat {
    if ns == [] then q else Came(ns[1..], Max(q, ns[0]) + 1)
  }

  /** A message is read exactly when the session has not come past it. */
  predicate InPlace(read: seq<bool>, ns: seq<nat>, q: nat) {
    |read| == |ns| && forall i | 0 <= i < |ns| :: read[i] <==> ns[i] >= Came(ns[..i], q)
  }

  lemma InPlaceMore(rest: seq<bool>, ns: seq<nat>, n: nat, q: nat)
    requires InPlace(rest, ns, Max(q, n) + 1)
    ensures InPlace([n >= q] + rest, [n] + ns, q) && Came([n] + ns, q) == Came(ns, Max(q, n) + 1)
  {
    var read, all := [n >= q] + rest, [n] + ns;
    assert all[1..] == ns;
    forall i | 0 <= i < |all| ensures read[i] <==> all[i] >= Came(all[..i], q) {
      if i > 0 {
        assert read[i] == rest[i - 1] && all[i] == ns[i - 1];
        assert all[..i][1..] == ns[..i - 1] && all[..i][0] == n;
      }
    }
  }

  ghost predicate ReadInPlace(p: Primitives, h: seq<Epoch>, s: Side, st: State, r: Standing, pks: seq<Packet>)
    requires st.Valid() && InHistory(h, r) && AllInHistory(h, pks) && r.On?
  {
    && StandingAfter(p, h, s, st, r, pks) == On(r.epoch, Came(Numbers(pks), r.place))
    && InPlace(Read(p, h, s, st, r, pks), Numbers(pks), r.place)
  }

  predicate AllOfEpoch(pks: seq<Packet>, k: nat) {
    forall i | 0 <= i < |pks| :: pks[i].epoch == k
  }

  /** So it is with messages of the chain being read. */
  lemma {:induction false} OneChain(p: Primitives, h: seq<Epoch>, s: Side, st: State, r: Standing, pks: seq<Packet>)
    requires Lawful(p) && HistoryOk(p, h) && RootsApart(h) && StandsAt(p, h, s, st, r) && AllHandable(p, h, s, pks)
    requires st.Valid() && InHistory(h, r) && AllInHistory(h, pks) && AllApart(p, h, s, st, r, pks)
    requires r.On? && AllOfEpoch(pks, Reading(s, r.epoch))
    ensures ReadInPlace(p, h, s, st, r, pks)
    decreases |pks|
  {
    if pks == [] {
    } else {
      var st1, r1 := Handed(p, st, pks[0]), Turned(p, h, s, st, r, pks[0]);
      HandableTail(p, h, s, pks);
      OneDecided(p, h, s, st, r, pks[0]);
      SameChainTurns(p, h, s, st, r, pks[0]);
      OneChain(p, h, s, st1, r1, pks[1..]);
      OneChainMore(p, h, s, st, r, pks);
    }
  }

  lemma OneChainMore(p: Primitives, h: seq<Epoch>, s: Side, st: State, r: Standing, pks: seq<Packet>)
    requires pks != [] && st.Valid() && InHistory(h, r) && AllInHistory(h, pks) && r.On?
    requires pks[0].epoch == Reading(s, r.epoch)
    requires Turned(p, h, s, st, r, pks[0]) == On(r.epoch, Max(r.place, pks[0].number) + 1)
    requires ReadInPlace(p, h, s, Handed(p, st, pks[0]), Turned(p, h, s, st, r, pks[0]), pks[1..])
    ensures ReadInPlace(p, h, s, st, r, pks)
  {
    var rest := Read(p, h, s, Handed(p, st, pks[0]), Turned(p, h, s, st, r, pks[0]), pks[1..]);
    InPlaceMore(rest, Numbers(pks[1..]), pks[0].number, r.place);
    assert Numbers(pks) == [pks[0].number] + Numbers(pks[1..]);
    assert Read(p, h, s, st, r, pks) == [pks[0].number >= r.place] + rest;
  }

  lemma SameChainTurns(p: Primitives, h: seq<Epoch>, s: Side, st: State, r: Standing, pk: Packet)
    requires StandsAt(p, h, s, st, r) && Handable(p, h, s, pk) && r.On? && pk.epoch == Reading(s, r.epoch)
    requires r.epoch < |h|
    ensures Turned(p, h, s, st, r, pk) == On(r.epoch, Max(r.place, pk.number) + 1)
  {
  }

  predicate Climbing(ns: seq<nat>) {
    forall i, j | 0 <= i < j < |ns| :: ns[i] < ns[j]
  }

  lemma {:induction false} CameSnoc(ns: seq<nat>, q: nat, n: nat)
    ensures Came(ns + [n], q) == Max(Came(ns, q), n) + 1
    decreases |ns|
  {
    if ns == [] {
      assert [] + [n] == [n] && [n][1..] == [];
    } else {
      CameSnoc(ns[1..], Max(q, ns[0]) + 1, n);
      assert (ns + [n])[1..] == ns[1..] + [n];
    }
  }

  lemma {:induction false} CameClimbing(ns: seq<nat>, q: nat, i: nat)
    requires Climbing(ns) && i < |ns|
    ensures Came(ns[..i], q) == if i == 0 then q else Max(q + i, ns[i - 1] + 1)
    decreases i
  {
    if i == 0 {
    } else {
      CameClimbing(ns, q, i - 1);
      CameSnoc(ns[..i - 1], q, ns[i - 1]);
      assert ns[..i] == ns[..i - 1] + [ns[i - 1]];
    }
  }

  /** In sending order, message i is read exactly when it is at least i places ahead of where the session started. */
  lemma ClimbingRead(ns: seq<nat>, q: nat, i: nat)
    requires Climbing(ns) && i < |ns|
    ensures ns[i] >= Came(ns[..i], q) <==> ns[i] >= q + i
  {
    CameClimbing(ns, q, i);
  }

  /** How many of them the session had passed at the start. */
  function Behind(ns: seq<nat>, q: nat): (r: nat)
    ensures r <= |ns|
  {
    if ns == [] then 0 else (if ns[0] < q then 1 else 0) + Behind(ns[1..], q)
  }

  lemma {:induction false} BehindFirst(ns: seq<nat>, q: nat)
    requires Climbing(ns)
    ensures forall i | 0 <= i < |ns| :: ns[i] < q <==> i < Behind(ns, q)
  {
    if ns == [] {
    } else {
      BehindFirst(ns[1..], q);
      if ns[0] >= q {
        NoneBehind(ns, q);
      }
      forall i | 0 <= i < |ns| ensures ns[i] < q <==> i < Behind(ns, q) {
        assert i > 0 ==> ns[i] == ns[1..][i - 1];
      }
    }
  }

  lemma {:induction false} NoneBehind(ns: seq<nat>, q: nat)
    requires forall i | 0 <= i < |ns| :: ns[i] >= q
    ensures Behind(ns, q) == 0
  {
    if ns == [] {
    } else {
      NoneBehind(ns[1..], q);
    }
  }

  lemma {:induction false} ClimbingSpread(ns: seq<nat>, i: nat, j: nat)
    requires Climbing(ns) && i <= j < |ns|
    ensures ns[j] - ns[i] >= j - i
    decreases j
  {
    if i == j {
    } else {
      ClimbingSpread(ns, i, j - 1);
    }
  }

  /**
   * In sending order, every new message is read if and only if there is none or the first of them
   * is at least as many places ahead of the session as old ones stand before it.
   */
  lemma AllNewReadExactlyWhen(ns: seq<nat>, q: nat)
    requires Climbing(ns)
    ensures var b := Behind(ns, q);
      (forall i | 0 <= i < |ns| && ns[i] >= q :: ns[i] >= Came(ns[..i], q)) <==> b == |ns| || ns[b] >= q + b
  {
    var b := Behind(ns, q);
    BehindFirst(ns, q);
    if b == |ns| || ns[b] >= q + b {
      forall i | 0 <= i < |ns| && ns[i] >= q ensures ns[i] >= Came(ns[..i], q) {
        ClimbingSpread(ns, b, i);
        ClimbingRead(ns, q, i);
      }
    } else {
      ClimbingRead(ns, q, b);
      assert ns[b] >= q && ns[b] < Came(ns[..b], q);
    }
  }

  // ---------------------------------------------------------------- what was passed

  /** The order in which the other side sends is kept by what a session has passed. */
  lemma PassedDown(p: Primitives, h: seq<Epoch>, s: Side, r: Standing, a: Packet, b: Packet)
    requires (r.On? ==> |h| <= r.epoch + 2) && Handable(p, h, s, a) && Handable(p, h, s, b)
    requires !Reads(s, r, a) && !Earlier(a, b)
    ensures !Reads(s, r, b)
  {
  }

  /** What was passed stays passed. */
  lemma PassedOn(p: Primitives, h: seq<Epoch>, s: Side, st: State, r: Standing, pk: Packet, a: Packet)
    requires StandsAt(p, h, s, st, r) && InHistory(h, r) && Handable(p, h, s, a) && Handable(p, h, s, pk)
    requires !Reads(s, r, a)
    ensures !Reads(s, Turned(p, h, s, st, r, pk), a)
  {
  }

  /** A message that is read has then been passed. */
  lemma ReadIsPassed(p: Primitives, h: seq<Epoch>, s: Side, st: State, r: Standing, pk: Packet)
    requires StandsAt(p, h, s, st, r) && InHistory(h, r) && Handable(p, h, s, pk) && Reads(s, r, pk)
    ensures !Reads(s, Turned(p, h, s, st, r, pk), pk)
  {
  }
}
