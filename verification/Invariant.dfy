/** What every reachable state of the two-party system satisfies. */
module Invariant {
  import opened Data
  import opened Kdf
  import opened Ratchet
  import opened Persistence
  import opened Protocol

  // ---------------------------------------------------------------- epochs

  /** In which epochs a side is the one that sends. */
  predicate Mine(s: Side, e: nat) {
    if s.Initiator? then e % 2 == 1 else e > 0 && e % 2 == 0
  }

  /** The epoch whose chain a side reads from; 0 stands for none yet. */
  function Reading(s: Side, e: nat): (k: nat)
    ensures k <= e
  {
    if Mine(s, e) then e - 1 else e
  }

  function ChainFrom(p: Primitives, start: Bytes, n: nat): Chain {
    Chain(ChainKeyAt(p, start, n), n)
  }

  ghost predicate StepOk(p: Primitives, h: seq<Epoch>, e: nat)
    requires 1 <= e < |h|
  {
    p.rootStep(h[e - 1].rootKey, p.sharedKey(h[e].pair.secretKey, h[e - 1].pair.publicKey))
      == RootStep(h[e].rootKey, h[e].chainKey)
  }

  ghost predicate DistinctKeys(h: seq<Epoch>) {
    forall i, j | 0 <= i < j < |h| :: h[i].pair.publicKey != h[j].pair.publicKey
  }

  ghost predicate HistoryOk(p: Primitives, h: seq<Epoch>) {
    && |h| >= 2 && h[0].rootKey != []
    && (forall e | 0 <= e < |h| :: ValidPair(p, h[e].pair))
    && (forall e | 1 <= e < |h| :: StepOk(p, h, e))
    && DistinctKeys(h)
  }

  // ---------------------------------------------------------------- one party

  predicate PartyOk(p: Primitives, h: seq<Epoch>, s: Side, pt: Party) {
    var e, st := pt.epoch, pt.state;
    && e < |h| && (s.Initiator? ==> e > 0)
    && st.rootKey == h[e].rootKey
    && st.localKeyPair == (if e == 0 || Mine(s, e) then h[e].pair else h[e - 1].pair)
    && st.currentDHPublicKey == (if e == 0 then None else Some(st.localKeyPair.publicKey))
    && st.remotePublicKey.Some? && st.remotePublicKey.value != []
    && (e > 0 ==> st.remotePublicKey == Some(h[Reading(s, e)].pair.publicKey))
    && st.sendingChain.Some? == Mine(s, e)
    && (Mine(s, e) ==> st.sendingChain.value == ChainFrom(p, h[e].chainKey, st.sendingChain.value.number))
    && st.receivingChain.Some? == (Reading(s, e) > 0)
    && (Reading(s, e) > 0 ==>
          st.receivingChain.value == ChainFrom(p, h[Reading(s, e)].chainKey, st.receivingChain.value.number))
  }

  // ---------------------------------------------------------------- skipped keys

  /** An entry holds the very message key its label names, of a message that was not decrypted. */
  ghost predicate EntryOk(p: Primitives, h: seq<Epoch>, k: nat, position: nat, decrypted: set<(nat, nat)>, entry: Entry)
    requires k < |h|
  {
    exists e: nat, m: nat {:trigger Label(h[e].pair.publicKey, m)} ::
      && 1 <= e <= k && (e == k ==> m < position) && (e, m) !in decrypted
      && entry == Entry(Label(h[e].pair.publicKey, m), MessageKeyAt(p, h[e].chainKey, m))
  }

  /**
   * The skipped keys while epoch k is read at a position: entries are right and unique, and every
   * message passed over in epoch k was either decrypted or has an entry.
   */
  ghost predicate BookOk(p: Primitives, h: seq<Epoch>, k: nat, position: nat, decrypted: set<(nat, nat)>,
                         entries: seq<Entry>)
    requires k < |h|
  {
    && UniqueNames(entries)
    && (forall i | 0 <= i < |entries| :: EntryOk(p, h, k, position, decrypted, entries[i]))
    && (forall r | r in decrypted :: 1 <= r.0 <= k && (r.0 == k ==> r.1 < position))
    && (forall m: nat | m < position :: (k, m) in decrypted || HasEntry(entries, Label(h[k].pair.publicKey, m)))
  }

  function Position(st: State): nat {
    if st.receivingChain.Some? then st.receivingChain.value.number else 0
  }

  ghost predicate PartyBookOk(p: Primitives, h: seq<Epoch>, s: Side, pt: Party)
    requires pt.epoch < |h|
  {
    BookOk(p, h, Reading(s, pt.epoch), Position(pt.state), pt.decrypted, pt.state.skipped)
  }

  // ---------------------------------------------------------------- messages

  /** The message is the honest encryption of its plaintext at its place in its epoch. */
  predicate PacketOk(p: Primitives, h: seq<Epoch>, pk: Packet) {
    && 1 <= pk.epoch < |h| && Mine(pk.from, pk.epoch)
    && var hd := pk.message.header;
       && hd.dhPublicKey == h[pk.epoch].pair.publicKey && hd.messageNumber == pk.number
       && pk.message == Sealed(p, MessageKeyAt(p, h[pk.epoch].chainKey, pk.number), hd, pk.plaintext, pk.associatedData)
  }

  /** The sender has indeed passed this place. */
  predicate Past(pt: Party, pk: Packet) {
    && pk.epoch <= pt.epoch
    && (pk.epoch == pt.epoch ==> pt.state.sendingChain.Some? && pk.number < pt.state.sendingChain.value.number)
  }

  /** The message is ahead of what the receiver has read, by position or by exactly one epoch. */
  predicate Ahead(s: Side, pt: Party, pk: Packet) {
    || (pk.epoch == Reading(s, pt.epoch) && pk.number >= Position(pt.state))
    || pk.epoch == pt.epoch + 1
  }

  predicate Earlier(a: Packet, b: Packet) {
    a.epoch < b.epoch || (a.epoch == b.epoch && a.number < b.number)
  }

  ghost predicate SentOk(p: Primitives, h: seq<Epoch>, parties: Both<Party>, sent: seq<Packet>) {
    && (forall i | 0 <= i < |sent| :: PacketOk(p, h, sent[i]) && Past(parties.Of(sent[i].from), sent[i]))
    && (forall i, j | 0 <= i < j < |sent| :: (sent[i].epoch, sent[i].number) != (sent[j].epoch, sent[j].number))
  }

  /** A side never reads past what the other has sent in its current epoch. */
  predicate NotOverrun(s: Side, sender: Party, receiver: Party) {
    (sender.state.sendingChain.Some? && Reading(s.Other(), receiver.epoch) == sender.epoch)
    ==> Position(receiver.state) <= sender.state.sendingChain.value.number
  }

  /** The channel of a side: sent messages in order, all of them ahead of the other side. */
  ghost predicate ChannelOk(s: Side, sender: Party, receiver: Party, ch: seq<Packet>, sent: seq<Packet>) {
    && NotOverrun(s, sender, receiver)
    && (forall i | 0 <= i < |ch| ::
          ch[i] in sent && ch[i].from == s && Mine(s, ch[i].epoch) && Ahead(s.Other(), receiver, ch[i]))
    && (forall i, j | 0 <= i < j < |ch| :: Earlier(ch[i], ch[j]))
  }

  /** The sender of the newest epoch is in it; the other side is in it too or one behind. */
  predicate TopOk(size: nat, parties: Both<Party>) {
    && size >= 2
    && var top := size - 1;
       var owner := if top % 2 == 1 then Initiator else Responder;
       && parties.Of(owner).epoch == top
       && top - 1 <= parties.Of(owner.Other()).epoch <= top
  }

  ghost predicate DeliveredOk(sent: seq<Packet>, delivered: seq<Delivery>) {
    forall i | 0 <= i < |delivered| ::
      && delivered[i].packet in sent && delivered[i].packet.from == delivered[i].to.Other()
      && delivered[i].outcome == Ok(delivered[i].packet.plaintext)
  }

  ghost predicate SideOk(p: Primitives, w: World, s: Side) {
    && PartyOk(p, w.history, s, w.parties.Of(s))
    && PartyBookOk(p, w.history, s, w.parties.Of(s))
    && ChannelOk(s, w.parties.Of(s), w.parties.Of(s.Other()), w.channels.Of(s), w.sent)
  }

  ghost predicate Inv(p: Primitives, w: World) {
    && HistoryOk(p, w.history)
    && TopOk(|w.history|, w.parties)
    && SideOk(p, w, Initiator) && SideOk(p, w, Responder)
    && SentOk(p, w.history, w.parties, w.sent)
    && DeliveredOk(w.sent, w.delivered)
  }

  // ---------------------------------------------------------------- the start

  lemma StartInv(p: Primitives, w: World, rootKey: Bytes, passed: KeyPair, generated: KeyPair,
                 responderPair: KeyPair, initiatorIdentity: Bytes)
    requires Lawful(p) && Start(p, w, rootKey, passed, generated, responderPair, initiatorIdentity)
    ensures Inv(p, w)
  {
    assert StepOk(p, w.history, 1);
  }

  // ---------------------------------------------------------------- fast-forwarding a chain

  function Max(a: nat, b: nat): nat {
    if a < b then b else a
  }

  /** Skipping moves the receiving chain to the position asked for, never back. */
  lemma {:induction false} SkipMoves(p: Primitives, st: State, start: Bytes, until: nat)
    requires st.Valid() && st.receivingChain.Some?
    requires st.receivingChain.value == ChainFrom(p, start, st.receivingChain.value.number)
    ensures Skip(p, st, until).receivingChain == Some(ChainFrom(p, start, Max(st.receivingChain.value.number, until)))
    decreases until - st.receivingChain.value.number
  {
    var c := st.receivingChain.value;
    if c.number >= until {
    } else {
      SkipMoves(p, SkipOne(p, st), start, until);
    }
  }

  function SkipOne(p: Primitives, st: State): State
    requires st.Valid() && st.receivingChain.Some?
  {
    var c := st.receivingChain.value;
    st.(receivingChain := Some(Forward(p, c)),
        skipped := SetEntry(st.skipped, Label(st.remotePublicKey.value, c.number), p.chainStep(c.key).messageKey))
  }

  lemma LabelIsNew(p: Primitives, h: seq<Epoch>, k: nat, position: nat, decrypted: set<(nat, nat)>, entries: seq<Entry>)
    requires 1 <= k < |h| && DistinctKeys(h) && BookOk(p, h, k, position, decrypted, entries)
    ensures !HasEntry(entries, Label(h[k].pair.publicKey, position))
  {
    forall i | 0 <= i < |entries| ensures entries[i].name != Label(h[k].pair.publicKey, position) {
      assert EntryOk(p, h, k, position, decrypted, entries[i]);
      var e: nat, m: nat :| 1 <= e <= k && (e == k ==> m < position) && (e, m) !in decrypted
        && entries[i] == Entry(Label(h[e].pair.publicKey, m), MessageKeyAt(p, h[e].chainKey, m));
      if entries[i].name == Label(h[k].pair.publicKey, position) {
        LabelInjective(h[e].pair.publicKey, m, h[k].pair.publicKey, position);
      }
    }
  }

  lemma EntryStaysOk(p: Primitives, h: seq<Epoch>, k: nat, position: nat, decrypted: set<(nat, nat)>, entry: Entry,
                     k': nat, position': nat, decrypted': set<(nat, nat)>)
    requires k <= k' < |h| && EntryOk(p, h, k, position, decrypted, entry)
    requires k == k' ==> position <= position'
    requires forall r | r in decrypted' :: r in decrypted || r.0 > k || (r.0 == k && r.1 >= position)
    ensures EntryOk(p, h, k', position', decrypted', entry)
  {
    var e: nat, m: nat :| 1 <= e <= k && (e == k ==> m < position) && (e, m) !in decrypted
      && entry == Entry(Label(h[e].pair.publicKey, m), MessageKeyAt(p, h[e].chainKey, m));
    assert Label(h[e].pair.publicKey, m) == entry.name;
  }

  /** Passing over one message stores its key under its label and keeps the book right. */
  lemma PassOver(p: Primitives, h: seq<Epoch>, k: nat, position: nat, decrypted: set<(nat, nat)>, entries: seq<Entry>)
    requires 1 <= k < |h| && DistinctKeys(h) && BookOk(p, h, k, position, decrypted, entries)
    ensures BookOk(p, h, k, position + 1, decrypted,
                   SetEntry(entries, Label(h[k].pair.publicKey, position), MessageKeyAt(p, h[k].chainKey, position)))
  {
    var name := Label(h[k].pair.publicKey, position);
    var entry := Entry(name, MessageKeyAt(p, h[k].chainKey, position));
    LabelIsNew(p, h, k, position, decrypted, entries);
    SetNewEntry(entries, name, entry.messageKey);
    var entries' := entries + [entry];
    forall i | 0 <= i < |entries'| ensures EntryOk(p, h, k, position + 1, decrypted, entries'[i]) {
      if i < |entries| {
        assert EntryOk(p, h, k, position, decrypted, entries[i]);
        EntryStaysOk(p, h, k, position, decrypted, entries[i], k, position + 1, decrypted);
      } else {
        assert entries'[i] == Entry(Label(h[k].pair.publicKey, position), MessageKeyAt(p, h[k].chainKey, position));
        assert (k, position) !in decrypted;
      }
    }
    forall m: nat | m < position + 1
      ensures (k, m) in decrypted || HasEntry(entries', Label(h[k].pair.publicKey, m))
    {
      if m < position && (k, m) !in decrypted {
        var i :| 0 <= i < |entries| && entries[i].name == Label(h[k].pair.publicKey, m);
        assert entries'[i].name == Label(h[k].pair.publicKey, m);
      } else if m == position {
        assert entries'[|entries|].name == name;
      }
    }
  }

  lemma SkipOneKeepsBook(p: Primitives, h: seq<Epoch>, k: nat, st: State, decrypted: set<(nat, nat)>)
    requires 1 <= k < |h| && DistinctKeys(h)
    requires st.Valid() && st.receivingChain.Some? && st.remotePublicKey == Some(h[k].pair.publicKey)
    requires st.receivingChain.value == ChainFrom(p, h[k].chainKey, st.receivingChain.value.number)
    requires BookOk(p, h, k, Position(st), decrypted, st.skipped)
    ensures SkipOne(p, st).receivingChain == Some(ChainFrom(p, h[k].chainKey, Position(st) + 1))
    ensures BookOk(p, h, k, Position(st) + 1, decrypted, SkipOne(p, st).skipped)
  {
    PassOver(p, h, k, Position(st), decrypted, st.skipped);
    assert p.chainStep(st.receivingChain.value.key).messageKey == MessageKeyAt(p, h[k].chainKey, Position(st));
  }

  lemma {:induction false} SkipKeepsBook(p: Primitives, h: seq<Epoch>, k: nat, st: State, decrypted: set<(nat, nat)>,
                                         until: nat)
    requires 1 <= k < |h| && DistinctKeys(h)
    requires st.Valid() && st.receivingChain.Some? && st.remotePublicKey == Some(h[k].pair.publicKey)
    requires st.receivingChain.value == ChainFrom(p, h[k].chainKey, st.receivingChain.value.number)
    requires BookOk(p, h, k, Position(st), decrypted, st.skipped)
    ensures var r := Skip(p, st, until);
      && r.receivingChain == Some(ChainFrom(p, h[k].chainKey, Max(Position(st), until)))
      && BookOk(p, h, k, Position(r), decrypted, r.skipped)
    decreases until - st.receivingChain.value.number
  {
    SkipMoves(p, st, h[k].chainKey, until);
    if st.receivingChain.value.number >= until {
    } else {
      SkipOneKeepsBook(p, h, k, st, decrypted);
      SkipKeepsBook(p, h, k, SkipOne(p, st), decrypted, until);
    }
  }
}
