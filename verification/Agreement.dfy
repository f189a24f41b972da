/**
 * Every step keeps the invariant, so in every run the two sessions stay in agreement: each
 * delivered message decrypts to its plaintext.
 */
module Agreement {
  import opened Data
  import opened Ratchet
  import opened Protocol
  import opened Invariant

  // ---------------------------------------------------------------- extending the history

  lemma ExtendedParty(p: Primitives, h: seq<Epoch>, h': seq<Epoch>, s: Side, pt: Party)
    requires h <= h' && PartyOk(p, h, s, pt) && PartyBookOk(p, h, s, pt)
    ensures PartyOk(p, h', s, pt) && PartyBookOk(p, h', s, pt)
  {
    var k := Reading(s, pt.epoch);
    forall i | 0 <= i < |pt.state.skipped|
      ensures EntryOk(p, h', k, Position(pt.state), pt.decrypted, pt.state.skipped[i])
    {
      var entry := pt.state.skipped[i];
      assert EntryOk(p, h, k, Position(pt.state), pt.decrypted, entry);
      var e: nat, m: nat :| 1 <= e <= k && (e == k ==> m < Position(pt.state)) && (e, m) !in pt.decrypted
        && entry == Entry(Label(h[e].pair.publicKey, m), MessageKeyAt(p, h[e].chainKey, m));
      assert entry == Entry(Label(h'[e].pair.publicKey, m), MessageKeyAt(p, h'[e].chainKey, m));
    }
  }

  // ---------------------------------------------------------------- sending

  /** A side without a sending chain has caught up with the newest epoch, and so has its peer. */
  lemma CaughtUp(p: Primitives, w: World, s: Side)
    requires Inv(p, w) && !Mine(s, w.parties.Of(s).epoch) && w.parties.Of(s).epoch > 0
    ensures |w.history| == w.parties.Of(s).epoch + 1 && w.parties.Of(s.Other()).epoch == w.parties.Of(s).epoch
  {
  }

  /** The history a send leaves. */
  function Extended(p: Primitives, h: seq<Epoch>, me: Party, generated: KeyPair): seq<Epoch>
    requires me.state.remotePublicKey.Some?
  {
    if me.state.sendingChain.Some? then h else h + [Opening(p, me, generated)]
  }

  lemma ExtendedHistory(p: Primitives, h: seq<Epoch>, s: Side, me: Party, generated: KeyPair)
    requires Lawful(p) && HistoryOk(p, h) && PartyOk(p, h, s, me) && me.epoch > 0
    requires me.state.sendingChain.None? ==>
      && |h| == me.epoch + 1 && ValidPair(p, generated)
      && forall e | 0 <= e < |h| :: h[e].pair.publicKey != generated.publicKey
    ensures HistoryOk(p, Extended(p, h, me, generated))
  {
    var h' := Extended(p, h, me, generated);
    forall e | 1 <= e < |h'| ensures StepOk(p, h', e) {
      assert e < |h| ==> StepOk(p, h, e);
    }
  }

  /** What encrypt does to a side in order, and the packet that results. */
  lemma SendByOk(p: Primitives, h: seq<Epoch>, s: Side, me: Party, plaintext: Bytes, ad: Bytes, generated: KeyPair)
    requires HistoryOk(p, h) && PartyOk(p, h, s, me) && me.epoch > 0
    requires me.state.sendingChain.None? ==> |h| == me.epoch + 1
    ensures var (me', r) := SendBy(p, s, me, plaintext, ad, generated); var h' := Extended(p, h, me, generated);
      && r.Ok? && PartyOk(p, h', s, me') && PacketOk(p, h', r.value)
      && Mine(s, me'.epoch) && me'.epoch == (if Mine(s, me.epoch) then me.epoch else me.epoch + 1)
      && r.value == Packet(s, me'.epoch, r.value.number, plaintext, ad, r.value.message)
      && me'.state.sendingChain.value.number == r.value.number + 1
      && (Mine(s, me.epoch) ==> r.value.number == me.state.sendingChain.value.number)
      && me'.state.receivingChain == me.state.receivingChain && me'.state.skipped == me.state.skipped
      && me'.decrypted == me.decrypted
  {
    if Mine(s, me.epoch) {
      ForwardFrom(p, h[me.epoch].chainKey, me.state.sendingChain.value.number);
    } else {
      ForwardFrom(p, Opening(p, me, generated).chainKey, 0);
    }
  }

  lemma ForwardFrom(p: Primitives, start: Bytes, n: nat)
    ensures Forward(p, ChainFrom(p, start, n)) == ChainFrom(p, start, n + 1)
    ensures ChainFrom(p, start, 0) == Chain(start, 0)
  {
  }

  /** The new state of a side and the new packet are related to the old state as a send relates them. */
  predicate SendRelates(s: Side, me: Party, me': Party, pk: Packet) {
    && me.epoch > 0 && Mine(s, me'.epoch) && me'.epoch == (if Mine(s, me.epoch) then me.epoch else me.epoch + 1)
    && pk.from == s && pk.epoch == me'.epoch
    && me'.state.sendingChain.Some? && me'.state.sendingChain.value.number == pk.number + 1
    && (Mine(s, me.epoch) ==> me.state.sendingChain.Some? && pk.number == me.state.sendingChain.value.number)
    && me'.state.receivingChain == me.state.receivingChain && me'.state.skipped == me.state.skipped
    && me'.decrypted == me.decrypted
  }

  lemma SendKeepsInv(p: Primitives, w: World, s: Side, plaintext: Bytes, ad: Bytes, generated: KeyPair)
    requires Lawful(p) && Inv(p, w) && Enabled(p, w, Send(s, plaintext, ad, generated))
    ensures Inv(p, SendStep(p, w, s, plaintext, ad, generated))
  {
    var me, h := w.parties.Of(s), w.history;
    assert SideOk(p, w, s);
    if !Mine(s, me.epoch) {
      CaughtUp(p, w, s);
    }
    var h' := Extended(p, h, me, generated);
    ExtendedHistory(p, h, s, me, generated);
    SendByOk(p, h, s, me, plaintext, ad, generated);
    var (me', r) := SendBy(p, s, me, plaintext, ad, generated);
    SentWorldOk(p, w, s, me', r.value, h');
  }

  lemma SentWorldOk(p: Primitives, w: World, s: Side, me': Party, pk: Packet, h': seq<Epoch>)
    requires Inv(p, w) && SendRelates(s, w.parties.Of(s), me', pk)
    requires w.history <= h' && HistoryOk(p, h') && PartyOk(p, h', s, me') && PacketOk(p, h', pk)
    requires if Mine(s, w.parties.Of(s).epoch) then h' == w.history
             else |h'| == |w.history| + 1 && |w.history| == w.parties.Of(s).epoch + 1
                  && w.parties.Of(s.Other()).epoch == w.parties.Of(s).epoch
    ensures Inv(p, World(w.parties.With(s, me'), w.channels.With(s, w.channels.Of(s) + [pk]), h',
                         w.sent + [pk], w.delivered))
  {
    var o, me, you := s.Other(), w.parties.Of(s), w.parties.Of(s.Other());
    assert SideOk(p, w, s) && SideOk(p, w, o);
    SentStaysOk(p, w.history, w.parties, w.sent, s, me', pk, h');
    OwnChannelStaysOk(s, me, me', you, w.channels.Of(s), w.parties, w.sent, pk);
    BackChannelStaysOk(s, me, me', you, w.channels.Of(o), w.sent, pk);
    TopStaysOk(|w.history|, |h'|, w.parties, s, me');
    ExtendedParty(p, w.history, h', o, you);
    ExtendedParty(p, w.history, h', s, me);
    assert Reading(s, me'.epoch) == Reading(s, me.epoch);
    MoreSent(w.sent, w.delivered, pk);
  }

  lemma MoreSent(sent: seq<Packet>, delivered: seq<Delivery>, pk: Packet)
    requires DeliveredOk(sent, delivered)
    ensures DeliveredOk(sent + [pk], delivered)
  {
    forall i | 0 <= i < |delivered| ensures delivered[i].packet in sent + [pk] {
      assert delivered[i].packet in sent;
    }
  }

  lemma TopStaysOk(size: nat, size': nat, parties: Both<Party>, s: Side, me': Party)
    requires TopOk(size, parties)
    requires var me := parties.Of(s);
      if Mine(s, me.epoch) then size' == size && me'.epoch == me.epoch
      else me.epoch > 0 && size' == size + 1 && me'.epoch == me.epoch + 1 && size == me.epoch + 1
    ensures TopOk(size', parties.With(s, me'))
  {
  }

  lemma SentStaysOk(p: Primitives, h: seq<Epoch>, parties: Both<Party>, sent: seq<Packet>, s: Side, me': Party,
                    pk: Packet, h': seq<Epoch>)
    requires SentOk(p, h, parties, sent) && h <= h' && PacketOk(p, h', pk)
    requires SendRelates(s, parties.Of(s), me', pk)
    ensures SentOk(p, h', parties.With(s, me'), sent + [pk])
  {
    var parties' := parties.With(s, me');
    forall i | 0 <= i < |sent|
      ensures PacketOk(p, h', sent[i]) && Past(parties'.Of(sent[i].from), sent[i])
      ensures (sent[i].epoch, sent[i].number) != (pk.epoch, pk.number)
    {
      assert PacketOk(p, h, sent[i]) && Past(parties.Of(sent[i].from), sent[i]);
      if sent[i].from != s {
        assert Mine(s.Other(), sent[i].epoch) && Mine(s, pk.epoch);
      }
    }
  }

  lemma OwnChannelStaysOk(s: Side, me: Party, me': Party, you: Party, ch: seq<Packet>, parties: Both<Party>,
                          sent: seq<Packet>, pk: Packet)
    requires ChannelOk(s, me, you, ch, sent) && SendRelates(s, me, me', pk) && -1 <= you.epoch - me.epoch <= 1
    requires parties.Of(s) == me && forall i | 0 <= i < |sent| :: Past(parties.Of(sent[i].from), sent[i])
    requires !Mine(s, me.epoch) ==> you.epoch == me.epoch
    ensures ChannelOk(s, me', you, ch + [pk], sent + [pk])
  {
    forall i | 0 <= i < |ch| ensures Earlier(ch[i], pk) && ch[i] in sent + [pk] {
      assert ch[i] in sent;
      var j :| 0 <= j < |sent| && sent[j] == ch[i];
      assert Past(me, sent[j]);
    }
    assert Ahead(s.Other(), you, pk);
    assert NotOverrun(s, me', you);
    assert (sent + [pk])[|sent|] == pk;
  }

  lemma BackChannelStaysOk(s: Side, me: Party, me': Party, you: Party, back: seq<Packet>, sent: seq<Packet>, pk: Packet)
    requires ChannelOk(s.Other(), you, me, back, sent) && SendRelates(s, me, me', pk)
    ensures ChannelOk(s.Other(), you, me', back, sent + [pk])
  {
    assert Reading(s, me'.epoch) == Reading(s, me.epoch);
    forall i | 0 <= i < |back| ensures Ahead(s, me', back[i]) && back[i] in sent + [pk] {
      assert back[i] in sent && Mine(s.Other(), back[i].epoch) && Ahead(s, me, back[i]);
    }
  }

  // ---------------------------------------------------------------- delivering

  /** A new epoch starts with an empty chain; what the book says of older ones stays. */
  lemma BookOfNewEpoch(p: Primitives, h: seq<Epoch>, k: nat, position: nat, decrypted: set<(nat, nat)>,
                       entries: seq<Entry>, k': nat)
    requires k < k' < |h| && BookOk(p, h, k, position, decrypted, entries)
    ensures BookOk(p, h, k', 0, decrypted, entries)
  {
    forall i | 0 <= i < |entries| ensures EntryOk(p, h, k', 0, decrypted, entries[i]) {
      assert EntryOk(p, h, k, position, decrypted, entries[i]);
      EntryStaysOk(p, h, k, position, decrypted, entries[i], k', 0, decrypted);
    }
  }

  lemma BookOfRead(p: Primitives, h: seq<Epoch>, k: nat, position: nat, decrypted: set<(nat, nat)>, entries: seq<Entry>)
    requires 1 <= k < |h| && BookOk(p, h, k, position, decrypted, entries)
    ensures BookOk(p, h, k, position + 1, decrypted + {(k, position)}, entries)
  {
    var decrypted' := decrypted + {(k, position)};
    forall i | 0 <= i < |entries| ensures EntryOk(p, h, k, position + 1, decrypted', entries[i]) {
      assert EntryOk(p, h, k, position, decrypted, entries[i]);
      EntryStaysOk(p, h, k, position, decrypted, entries[i], k, position + 1, decrypted');
    }
    forall m: nat | m < position + 1
      ensures (k, m) in decrypted' || HasEntry(entries, Label(h[k].pair.publicKey, m))
    {
      assert m < position ==> (k, m) in decrypted || HasEntry(entries, Label(h[k].pair.publicKey, m));
    }
  }

  lemma RatchetsExactlyOnNewEpoch(p: Primitives, h: seq<Epoch>, s: Side, me: Party, pk: Packet)
    requires HistoryOk(p, h) && PartyOk(p, h, s, me) && PacketOk(p, h, pk) && pk.from == s.Other() && Ahead(s, me, pk)
    ensures NeedsRatchet(me.state, pk.message.header.dhPublicKey) <==> pk.epoch == me.epoch + 1
    ensures pk.epoch == me.epoch + 1 ==> me.epoch == 0 || Mine(s, me.epoch)
  {
    var k := Reading(s, me.epoch);
    if pk.epoch == me.epoch + 1 && k > 0 {
      assert h[k].pair.publicKey != h[pk.epoch].pair.publicKey;
    }
  }

  /** The receiver's half of a DH ratchet step gives the root key and chain the sender has. */
  lemma RatchetAgrees(p: Primitives, h: seq<Epoch>, s: Side, me: Party, st: State)
    requires Lawful(p) && HistoryOk(p, h) && PartyOk(p, h, s, me) && me.epoch + 1 < |h|
    requires me.epoch == 0 || Mine(s, me.epoch)
    requires st.rootKey == me.state.rootKey && st.localKeyPair == me.state.localKeyPair
    ensures var r := RatchetReceive(p, st, h[me.epoch + 1].pair.publicKey);
      r.rootKey == h[me.epoch + 1].rootKey && r.receivingChain == Some(ChainFrom(p, h[me.epoch + 1].chainKey, 0))
  {
    var e := me.epoch;
    assert StepOk(p, h, e + 1);
    assert p.sharedKey(h[e].pair.secretKey, p.publicKey(h[e + 1].pair.secretKey))
        == p.sharedKey(h[e + 1].pair.secretKey, p.publicKey(h[e].pair.secretKey));
  }

  /** The state after the DH ratchet that a message may call for, before fast-forwarding to its number. */
  function Ratcheted(p: Primitives, st: State, hd: Header): (r: State)
    requires st.Valid()
    ensures r.Valid() && r.receivingChain.Some?
    ensures Positioned(p, st, hd) == Skip(p, r, hd.messageNumber)
  {
    if NeedsRatchet(st, hd.dhPublicKey)
    then RatchetReceive(p, Skip(p, st, hd.previousChainLength), hd.dhPublicKey)
    else st
  }

  lemma RatchetedOk(p: Primitives, h: seq<Epoch>, s: Side, me: Party, pk: Packet)
    requires Lawful(p) && HistoryOk(p, h) && PartyOk(p, h, s, me) && PartyBookOk(p, h, s, me)
    requires PacketOk(p, h, pk) && pk.from == s.Other() && Ahead(s, me, pk)
    ensures var epoch := if pk.epoch == me.epoch + 1 then me.epoch + 1 else me.epoch;
      var st := Ratcheted(p, me.state, pk.message.header);
      && PartyOk(p, h, s, Party(st, epoch, me.decrypted)) && Reading(s, epoch) == pk.epoch
      && PartyBookOk(p, h, s, Party(st, epoch, me.decrypted))
      && Position(st) <= pk.number
      && (pk.epoch != me.epoch + 1 ==> st == me.state)
  {
    RatchetsExactlyOnNewEpoch(p, h, s, me, pk);
    if pk.epoch == me.epoch + 1 {
      var k := Reading(s, me.epoch);
      var skipped := Skip(p, me.state, pk.message.header.previousChainLength);
      RatchetAgrees(p, h, s, me, skipped);
      if k > 0 {
        SkipKeepsBook(p, h, k, me.state, me.decrypted, pk.message.header.previousChainLength);
      }
      BookOfNewEpoch(p, h, k, Position(skipped), me.decrypted, skipped.skipped, pk.epoch);
    }
  }

  /** The epoch of a receiver once it has taken the DH ratchet step a message calls for. */
  function EpochAfter(me: Party, pk: Packet): nat {
    if pk.epoch == me.epoch + 1 then me.epoch + 1 else me.epoch
  }

  /** A side stays in order when its receiving chain moves along. */
  lemma MovedAlong(p: Primitives, h: seq<Epoch>, s: Side, pt: Party, n: nat, entries: seq<Entry>,
                   decrypted: set<(nat, nat)>)
    requires PartyOk(p, h, s, pt) && Reading(s, pt.epoch) > 0
    ensures var c := ChainFrom(p, h[Reading(s, pt.epoch)].chainKey, n);
      PartyOk(p, h, s, Party(pt.state.(receivingChain := Some(c), skipped := entries), pt.epoch, decrypted))
  {
  }

  lemma FastForwarded(p: Primitives, h: seq<Epoch>, s: Side, pt: Party, n: nat)
    requires DistinctKeys(h) && PartyOk(p, h, s, pt) && PartyBookOk(p, h, s, pt)
    requires Reading(s, pt.epoch) > 0 && Position(pt.state) <= n && pt.state.Valid()
    ensures var st := Skip(p, pt.state, n); var k := Reading(s, pt.epoch);
      && st.receivingChain == Some(ChainFrom(p, h[k].chainKey, n))
      && st == pt.state.(receivingChain := st.receivingChain, skipped := st.skipped)
      && BookOk(p, h, k, n, pt.decrypted, st.skipped)
  {
    SkipKeepsBook(p, h, Reading(s, pt.epoch), pt.state, pt.decrypted, n);
  }

  /** decrypt is positioned at the very message, with everything passed over in the book. */
  lemma PositionedOk(p: Primitives, h: seq<Epoch>, s: Side, me: Party, pk: Packet)
    requires Lawful(p) && HistoryOk(p, h) && PartyOk(p, h, s, me) && PartyBookOk(p, h, s, me)
    requires PacketOk(p, h, pk) && pk.from == s.Other() && Ahead(s, me, pk)
    ensures var st0 := Ratcheted(p, me.state, pk.message.header); var st := Positioned(p, me.state, pk.message.header);
      && PartyOk(p, h, s, Party(st0, EpochAfter(me, pk), me.decrypted)) && Reading(s, EpochAfter(me, pk)) == pk.epoch
      && st.receivingChain == Some(ChainFrom(p, h[pk.epoch].chainKey, pk.number))
      && st == st0.(receivingChain := st.receivingChain, skipped := st.skipped)
      && BookOk(p, h, pk.epoch, pk.number, me.decrypted, st.skipped)
      && (pk.epoch != me.epoch + 1 ==> st0 == me.state)
  {
    RatchetedOk(p, h, s, me, pk);
    FastForwarded(p, h, s, Party(Ratcheted(p, me.state, pk.message.header), EpochAfter(me, pk), me.decrypted),
      pk.number);
  }

  /** The message key decrypt uses, and the state it leaves. */
  lemma DecryptFrom(p: Primitives, st: State, msg: Message, ad: Bytes, start: Bytes, n: nat)
    requires st.Valid() && Positioned(p, st, msg.header).receivingChain == Some(ChainFrom(p, start, n))
    ensures Decrypt(p, st, msg, ad)
      == (Positioned(p, st, msg.header).(receivingChain := Some(ChainFrom(p, start, n + 1))),
          Opened(p, MessageKeyAt(p, start, n), msg, ad))
  {
    ForwardFrom(p, start, n);
  }

  /** A message that is ahead of its receiver decrypts to its plaintext. */
  lemma DeliverToResult(p: Primitives, h: seq<Epoch>, s: Side, me: Party, pk: Packet)
    requires Lawful(p) && HistoryOk(p, h) && PartyOk(p, h, s, me) && PartyBookOk(p, h, s, me)
    requires PacketOk(p, h, pk) && pk.from == s.Other() && Ahead(s, me, pk)
    ensures var st := Positioned(p, me.state, pk.message.header);
      DeliverTo(p, me, pk)
        == (Party(st.(receivingChain := Some(ChainFrom(p, h[pk.epoch].chainKey, pk.number + 1))),
                  EpochAfter(me, pk), me.decrypted + {(pk.epoch, pk.number)}),
            Ok(pk.plaintext))
  {
    PositionedOk(p, h, s, me, pk);
    RatchetsExactlyOnNewEpoch(p, h, s, me, pk);
    DecryptFrom(p, me.state, pk.message, pk.associatedData, h[pk.epoch].chainKey, pk.number);
    OpenSealed(p, MessageKeyAt(p, h[pk.epoch].chainKey, pk.number), pk.message.header, pk.plaintext, pk.associatedData);
  }

  /** Delivery relates the old and the new state of the receiver. */
  predicate DeliveryRelates(s: Side, me: Party, me': Party, pk: Packet) {
    && me'.epoch == EpochAfter(me, pk)
    && Reading(s, me'.epoch) == pk.epoch && Position(me'.state) == pk.number + 1
    && (if pk.epoch == me.epoch + 1 then me'.state.sendingChain.None? && !Mine(s, me'.epoch)
        else me'.state.sendingChain == me.state.sendingChain)
  }

  /** Delivery leaves the receiver in order. */
  lemma DeliverToOk(p: Primitives, h: seq<Epoch>, s: Side, me: Party, pk: Packet)
    requires Lawful(p) && HistoryOk(p, h) && PartyOk(p, h, s, me) && PartyBookOk(p, h, s, me)
    requires PacketOk(p, h, pk) && pk.from == s.Other() && Ahead(s, me, pk)
    ensures var (me', r) := DeliverTo(p, me, pk);
      && r == Ok(pk.plaintext)
      && PartyOk(p, h, s, me') && PartyBookOk(p, h, s, me')
      && DeliveryRelates(s, me, me', pk)
  {
    DeliverToResult(p, h, s, me, pk);
    PositionedOk(p, h, s, me, pk);
    DeliveredParty(p, h, s, me, pk, Ratcheted(p, me.state, pk.message.header),
                   Positioned(p, me.state, pk.message.header));
  }

  lemma DeliveredParty(p: Primitives, h: seq<Epoch>, s: Side, me: Party, pk: Packet, st0: State, st: State)
    requires 1 <= pk.epoch < |h| && Mine(s.Other(), pk.epoch)
    requires PartyOk(p, h, s, Party(st0, EpochAfter(me, pk), me.decrypted))
    requires Reading(s, EpochAfter(me, pk)) == pk.epoch
    requires st.receivingChain == Some(ChainFrom(p, h[pk.epoch].chainKey, pk.number))
    requires st == st0.(receivingChain := st.receivingChain, skipped := st.skipped)
    requires BookOk(p, h, pk.epoch, pk.number, me.decrypted, st.skipped)
    requires pk.epoch != me.epoch + 1 ==> st0 == me.state
    ensures var me' := Party(st.(receivingChain := Some(ChainFrom(p, h[pk.epoch].chainKey, pk.number + 1))),
                             EpochAfter(me, pk), me.decrypted + {(pk.epoch, pk.number)});
      PartyOk(p, h, s, me') && PartyBookOk(p, h, s, me') && DeliveryRelates(s, me, me', pk)
  {
    BookOfRead(p, h, pk.epoch, pk.number, me.decrypted, st.skipped);
    MovedAlong(p, h, s, Party(st0, EpochAfter(me, pk), me.decrypted), pk.number + 1, st.skipped,
               me.decrypted + {(pk.epoch, pk.number)});
  }

  lemma DeliverKeepsInv(p: Primitives, w: World, to: Side)
    requires Lawful(p) && Inv(p, w) && Enabled(p, w, Deliver(to))
    ensures var w', pk := DeliverStep(p, w, to), w.channels.Of(to.Other())[0];
      Inv(p, w') && w'.delivered == w.delivered + [Delivery(to, pk, Ok(pk.plaintext))]
  {
    var from, me, h := to.Other(), w.parties.Of(to), w.history;
    var ch := w.channels.Of(from);
    var pk := ch[0];
    assert SideOk(p, w, to) && SideOk(p, w, from);
    assert pk in w.sent;
    DeliverToOk(p, h, to, me, pk);
    var (me', r) := DeliverTo(p, me, pk);
    DeliveredWorldOk(p, w, to, me');
  }

  lemma DeliveredWorldOk(p: Primitives, w: World, to: Side, me': Party)
    requires Inv(p, w) && w.channels.Of(to.Other()) != []
    requires PartyOk(p, w.history, to, me') && PartyBookOk(p, w.history, to, me')
    requires DeliveryRelates(to, w.parties.Of(to), me', w.channels.Of(to.Other())[0])
    ensures var pk := w.channels.Of(to.Other())[0];
      Inv(p, w.(parties := w.parties.With(to, me'),
                channels := w.channels.With(to.Other(), w.channels.Of(to.Other())[1..]),
                delivered := w.delivered + [Delivery(to, pk, Ok(pk.plaintext))]))
  {
    var from, me := to.Other(), w.parties.Of(to);
    var you, ch := w.parties.Of(from), w.channels.Of(from);
    assert SideOk(p, w, to) && SideOk(p, w, from);
    ReceivedFacts(|w.history|, w.parties, w.sent, to, ch);
    DeliveryKeepsSent(p, w.history, w.parties, w.sent, to, me', ch[0]);
    DeliveryKeepsChannel(to, me, me', you, ch, w.sent);
    DeliveryKeepsBackChannel(to, me, me', you, w.channels.Of(to), w.sent, ch[0]);
    DeliveryKeepsTop(|w.history|, w.parties, to, me', ch[0]);
  }

  /** The packet at the head of a channel was sent, and a new epoch in it is the newest of all. */
  lemma ReceivedFacts(size: nat, parties: Both<Party>, sent: seq<Packet>, to: Side, ch: seq<Packet>)
    requires ch != [] && ChannelOk(to.Other(), parties.Of(to.Other()), parties.Of(to), ch, sent) && TopOk(size, parties)
    requires forall i | 0 <= i < |sent| :: Past(parties.Of(sent[i].from), sent[i])
    ensures ch[0] in sent && Past(parties.Of(to.Other()), ch[0])
    ensures ch[0].epoch == parties.Of(to).epoch + 1 ==>
      size == ch[0].epoch + 1 && parties.Of(to.Other()).epoch == ch[0].epoch
  {
    assert ch[0] in sent;
    var i :| 0 <= i < |sent| && sent[i] == ch[0];
    assert Past(parties.Of(sent[i].from), sent[i]);
  }

  lemma DeliveryKeepsTop(size: nat, parties: Both<Party>, to: Side, me': Party, pk: Packet)
    requires TopOk(size, parties) && DeliveryRelates(to, parties.Of(to), me', pk)
    requires pk.epoch == parties.Of(to).epoch + 1 ==> size == pk.epoch + 1 && parties.Of(to.Other()).epoch == pk.epoch
    ensures TopOk(size, parties.With(to, me'))
  {
  }

  lemma DeliveryKeepsSent(p: Primitives, h: seq<Epoch>, parties: Both<Party>, sent: seq<Packet>, to: Side, me': Party,
                          pk: Packet)
    requires SentOk(p, h, parties, sent) && DeliveryRelates(to, parties.Of(to), me', pk)
    ensures SentOk(p, h, parties.With(to, me'), sent)
  {
    forall i | 0 <= i < |sent| ensures Past(parties.With(to, me').Of(sent[i].from), sent[i]) {
      assert Past(parties.Of(sent[i].from), sent[i]);
    }
  }

  /** What follows the packet delivered is still ahead. */
  lemma DeliveryKeepsChannel(to: Side, me: Party, me': Party, you: Party, ch: seq<Packet>, sent: seq<Packet>)
    requires ch != [] && ChannelOk(to.Other(), you, me, ch, sent)
    requires DeliveryRelates(to, me, me', ch[0]) && Past(you, ch[0])
    ensures ChannelOk(to.Other(), you, me', ch[1..], sent)
  {
    forall i | 1 <= i < |ch| ensures Ahead(to, me', ch[i]) {
      assert Earlier(ch[0], ch[i]) && Ahead(to, me, ch[i]) && Ahead(to, me, ch[0]);
      assert Mine(to.Other(), ch[i].epoch) && Mine(to.Other(), ch[0].epoch);
    }
  }

  lemma DeliveryKeepsBackChannel(to: Side, me: Party, me': Party, you: Party, back: seq<Packet>, sent: seq<Packet>,
                                 pk: Packet)
    requires ChannelOk(to, me, you, back, sent) && DeliveryRelates(to, me, me', pk)
    ensures ChannelOk(to, me', you, back, sent)
  {
  }
}
