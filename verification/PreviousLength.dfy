/**
 * The length a header reports for the previous chain. The Double Ratchet specification (section 3.4)
 * means the sender's previous sending chain, so that the receiver can store the keys of what it
 * has not got yet; the code reports how far the sender has read. What a receiver then keeps of an
 * epoch it leaves is settled here, and a run is given in which a key it needs is lost.
 */
module PreviousLength {
  import opened Data
  import opened Ratchet
  import opened Protocol
  import opened Invariant
  import opened Agreement
  import opened AgreementTheorems

  // ---------------------------------------------------------------- what skipping stores

  lemma {:induction false} SetEntryNames(entries: seq<Entry>, added: string, messageKey: Bytes, name: string)
    ensures HasEntry(SetEntry(entries, added, messageKey), name) <==> name == added || HasEntry(entries, name)
  {
    var es := SetEntry(entries, added, messageKey);
    if entries == [] {
      assert es[0].name == added;
    } else if entries[0].name == added {
      assert es[0].name == added;
      assert forall i | 1 <= i < |es| :: es[i] == entries[i];
    } else {
      SetEntryNames(entries[1..], added, messageKey, name);
      var rest := SetEntry(entries[1..], added, messageKey);
      HasEntryFirst(entries, name);
      HasEntryFirst(es, name);
      assert es[1..] == rest;
    }
  }

  lemma HasEntryFirst(entries: seq<Entry>, name: string)
    requires entries != []
    ensures HasEntry(entries, name) <==> entries[0].name == name || HasEntry(entries[1..], name)
  {
    if HasEntry(entries, name) {
      var i :| 0 <= i < |entries| && entries[i].name == name;
      assert i > 0 ==> entries[1..][i - 1].name == name;
    }
    if HasEntry(entries[1..], name) {
      var i :| 0 <= i < |entries[1..]| && entries[1..][i].name == name;
      assert entries[i + 1].name == name;
    }
  }

  /** Is a label one of those skipping from one position to another sets? */
  predicate Passed(remotePublicKey: Bytes, from: nat, until: nat, name: string) {
    exists m: nat | from <= m < until :: name == Label(remotePublicKey, m)
  }

  /** Skipping stores exactly the numbers from the position up to the one asked for, beside what was stored. */
  lemma {:induction false} SkipStores(p: Primitives, st: State, until: nat, name: string)
    requires st.Valid() && st.receivingChain.Some?
    ensures HasEntry(Skip(p, st, until).skipped, name)
      <==> HasEntry(st.skipped, name) || Passed(st.remotePublicKey.value, Position(st), until, name)
    decreases until - st.receivingChain.value.number
  {
    var n, key := Position(st), st.remotePublicKey.value;
    if n >= until {
    } else {
      SkipStores(p, SkipOne(p, st), until, name);
      SetEntryNames(st.skipped, Label(key, n), p.chainStep(st.receivingChain.value.key).messageKey, name);
      assert Passed(key, n, until, name) <==> name == Label(key, n) || Passed(key, n + 1, until, name);
    }
  }

  // ---------------------------------------------------------------- what is kept of an epoch left behind

  /** Can message n of epoch k be accounted for: was it decrypted, or is its key stored? */
  ghost predicate Accounted(h: seq<Epoch>, pt: Party, k: nat, n: nat)
    requires k < |h|
  {
    (k, n) in pt.decrypted || HasEntry(pt.state.skipped, Label(h[k].pair.publicKey, n))
  }

  lemma PassedLabel(h: seq<Epoch>, k: nat, j: nat, from: nat, until: nat, n: nat)
    requires DistinctKeys(h) && k < |h| && j < |h|
    ensures Passed(h[j].pair.publicKey, from, until, Label(h[k].pair.publicKey, n)) <==> j == k && from <= n < until
  {
    var a, b := h[j].pair.publicKey, h[k].pair.publicKey;
    if Passed(a, from, until, Label(b, n)) {
      var m: nat :| from <= m < until && Label(b, n) == Label(a, m);
      LabelInjective(b, n, a, m);
      assert !(j < k) && !(k < j);
    }
  }

  /** While an epoch is read, exactly the messages before the position are accounted for. */
  lemma ReadSoFar(p: Primitives, h: seq<Epoch>, k: nat, position: nat, pt: Party, n: nat)
    requires k < |h| && DistinctKeys(h) && BookOk(p, h, k, position, pt.decrypted, pt.state.skipped)
    ensures Accounted(h, pt, k, n) <==> n < position
  {
    var name := Label(h[k].pair.publicKey, n);
    if HasEntry(pt.state.skipped, name) {
      var i :| 0 <= i < |pt.state.skipped| && pt.state.skipped[i].name == name;
      assert EntryOk(p, h, k, position, pt.decrypted, pt.state.skipped[i]);
      var e: nat, m: nat :| 1 <= e <= k && (e == k ==> m < position) && (e, m) !in pt.decrypted
        && pt.state.skipped[i] == Entry(Label(h[e].pair.publicKey, m), MessageKeyAt(p, h[e].chainKey, m));
      LabelInjective(h[e].pair.publicKey, m, h[k].pair.publicKey, n);
    }
  }

  lemma RatchetStores(p: Primitives, h: seq<Epoch>, s: Side, me: Party, pk: Packet, n: nat)
    requires Lawful(p) && HistoryOk(p, h) && PartyOk(p, h, s, me) && PartyBookOk(p, h, s, me)
    requires PacketOk(p, h, pk) && pk.from == s.Other() && pk.epoch == me.epoch + 1 && Reading(s, me.epoch) > 0
    ensures var k, me' := Reading(s, me.epoch), DeliverTo(p, me, pk).0;
      Accounted(h, me', k, n) <==> n < Max(Position(me.state), pk.message.header.previousChainLength)
  {
    var k, hd, name := Reading(s, me.epoch), pk.message.header, Label(h[Reading(s, me.epoch)].pair.publicKey, n);
    DeliverToResult(p, h, s, me, pk);
    RatchetsExactlyOnNewEpoch(p, h, s, me, pk);
    var st1 := Skip(p, me.state, hd.previousChainLength);
    var st2 := RatchetReceive(p, st1, hd.dhPublicKey);
    SkipStores(p, me.state, hd.previousChainLength, name);
    SkipStores(p, st2, hd.messageNumber, name);
    PassedLabel(h, k, k, Position(me.state), hd.previousChainLength, n);
    PassedLabel(h, k, pk.epoch, 0, hd.messageNumber, n);
    ReadSoFar(p, h, k, Position(me.state), me, n);
  }

  /**
   * When a receiver turns to a new epoch, a message of the epoch it leaves stays accounted for
   * exactly when its number is below the reported length or below what was read already.
   */
  lemma KeptOfOldEpoch(p: Primitives, w: World, to: Side, n: nat)
    requires Lawful(p) && Reachable(p, w) && w.channels.Of(to.Other()) != [] && w.parties.Of(to).state.Valid()
    requires w.channels.Of(to.Other())[0].epoch == w.parties.Of(to).epoch + 1 && Reading(to, w.parties.Of(to).epoch) > 0
    ensures var me, pk, w' := w.parties.Of(to), w.channels.Of(to.Other())[0], DeliverStep(p, w, to);
      && w'.history == w.history && Reading(to, me.epoch) < |w.history|
      && Accounted(w.history, w'.parties.Of(to), Reading(to, me.epoch), n)
         == (n < Max(Position(me.state), pk.message.header.previousChainLength))
  {
    ReachableInv(p, w);
    assert SideOk(p, w, to) && SideOk(p, w, to.Other());
    RatchetStores(p, w.history, to, w.parties.Of(to), w.channels.Of(to.Other())[0], n);
  }

  // ---------------------------------------------------------------- runs one step longer

  lemma {:induction false} RunSnoc(p: Primitives, w: World, evs: seq<Event>, ev: Event)
    requires LegalRun(p, w, evs) && Enabled(p, Run(p, w, evs), ev)
    ensures LegalRun(p, w, evs + [ev]) && Run(p, w, evs + [ev]) == Next(p, Run(p, w, evs), ev)
    decreases |evs|
  {
    if evs == [] {
      assert [] + [ev] == [ev] && [ev][1..] == [];
    } else {
      RunSnoc(p, Next(p, w, evs[0]), evs[1..], ev);
      assert (evs + [ev])[1..] == evs[1..] + [ev];
    }
  }

  /** Some run leads from one world to another. */
  ghost predicate Follows(p: Primitives, w0: World, w: World) {
    exists evs: seq<Event> :: LegalRun(p, w0, evs) && w == Run(p, w0, evs)
  }

  lemma FollowsSelf(p: Primitives, w: World)
    ensures Follows(p, w, w)
  {
    assert LegalRun(p, w, []) && w == Run(p, w, []);
  }

  lemma FollowsNext(p: Primitives, w0: World, w: World, ev: Event)
    requires Follows(p, w0, w) && Enabled(p, w, ev)
    ensures Follows(p, w0, Next(p, w, ev))
  {
    var evs: seq<Event> :| LegalRun(p, w0, evs) && w == Run(p, w0, evs);
    RunSnoc(p, w0, evs, ev);
  }

  lemma FollowsStart(p: Primitives, w0: World, rootKey: Bytes, passed: KeyPair, generated: KeyPair,
                     responderPair: KeyPair, initiatorIdentity: Bytes, w: World)
    requires Start(p, w0, rootKey, passed, generated, responderPair, initiatorIdentity) && Follows(p, w0, w)
    ensures Reachable(p, w)
  {
  }

  // ---------------------------------------------------------------- the length reported

  /** What one encryption leaves behind, as numbers. A new chain reports how far its sender has read. */
  lemma SendByNumbers(p: Primitives, s: Side, me: Party, plaintext: Bytes, ad: Bytes, generated: KeyPair)
    requires me.state.sendingChain.Some? ==> me.state.currentDHPublicKey.Some?
    requires me.state.remotePublicKey.Some?
    ensures var (me', r) := SendBy(p, s, me, plaintext, ad, generated);
      && r.Ok? && r.value.from == s && me'.state.sendingChain.Some? && me'.epoch == r.value.epoch
      && me'.state.sendingChain.value.number == r.value.number + 1
      && Position(me'.state) == Position(me.state) && me'.decrypted == me.decrypted
      && (me.state.sendingChain.Some?
        ==> r.value.epoch == me.epoch && r.value.number == me.state.sendingChain.value.number)
      && (me.state.sendingChain.None? ==>
            r.value.epoch == me.epoch + 1 && r.value.number == 0
            && r.value.message.header.previousChainLength == Position(me.state))
  {
  }

  /** A world after a send: the sender, its packet and, on a new chain, one epoch more. */
  ghost predicate SendShape(w: World, s: Side, generated: KeyPair, w': World, pk: Packet) {
    var me, me' := w.parties.Of(s), w'.parties.Of(s);
    && w' == World(w.parties.With(s, me'), w.channels.With(s, w.channels.Of(s) + [pk]), w'.history, w.sent + [pk],
      w.delivered)
    && pk.from == s && me'.state.sendingChain.Some? && me'.epoch == pk.epoch
      && me'.state.sendingChain.value.number == pk.number + 1
    && Position(me'.state) == Position(me.state) && me'.decrypted == me.decrypted
    && if me.state.sendingChain.Some?
       then pk.epoch == me.epoch && pk.number == me.state.sendingChain.value.number && w'.history == w.history
       else pk.epoch == me.epoch + 1 && pk.number == 0 && pk.message.header.previousChainLength == Position(me.state)
            && |w'.history| == |w.history| + 1 && w.history <= w'.history && w'.history[|w.history|].pair == generated
  }

  lemma SendNumbers(p: Primitives, w0: World, w: World, s: Side, plaintext: Bytes, ad: Bytes, generated: KeyPair)
      returns (w': World, pk: Packet)
    requires Lawful(p) && Follows(p, w0, w) && Inv(p, w) && Enabled(p, w, Send(s, plaintext, ad, generated))
    ensures Follows(p, w0, w') && Inv(p, w') && SendShape(w, s, generated, w', pk)
  {
    assert SideOk(p, w, s);
    SendByNumbers(p, s, w.parties.Of(s), plaintext, ad, generated);
    SendKeepsInv(p, w, s, plaintext, ad, generated);
    w', pk := SendStep(p, w, s, plaintext, ad, generated),
      SendBy(p, s, w.parties.Of(s), plaintext, ad, generated).1.value;
    FollowsNext(p, w0, w, Send(s, plaintext, ad, generated));
  }

  ghost predicate DeliverShape(w: World, to: Side, w': World) {
    var from := to.Other();
    && w.channels.Of(from) != []
    && var me, me', pk := w.parties.Of(to), w'.parties.Of(to), w.channels.Of(from)[0];
       && w' == World(w.parties.With(to, me'), w.channels.With(from, w.channels.Of(from)[1..]), w.history, w.sent,
         w'.delivered)
       && me'.epoch == EpochAfter(me, pk) && Position(me'.state) == pk.number + 1
       && me'.state.sendingChain == (if pk.epoch == me.epoch + 1 then None else me.state.sendingChain)
       && me'.decrypted == me.decrypted + {(pk.epoch, pk.number)}
  }

  lemma DeliverNumbers(p: Primitives, w0: World, w: World, to: Side) returns (w': World)
    requires Lawful(p) && Follows(p, w0, w) && Inv(p, w) && w.channels.Of(to.Other()) != []
    ensures w.parties.Of(to).state.Valid()
    ensures w' == DeliverStep(p, w, to) && Follows(p, w0, w') && Inv(p, w') && DeliverShape(w, to, w')
  {
    assert SideOk(p, w, to) && SideOk(p, w, to.Other());
    var pk := w.channels.Of(to.Other())[0];
    DeliverToResult(p, w.history, to, w.parties.Of(to), pk);
    DeliverToOk(p, w.history, to, w.parties.Of(to), pk);
    DeliverKeepsInv(p, w, to);
    w' := DeliverStep(p, w, to);
    FollowsNext(p, w0, w, Deliver(to));
  }

  // ---------------------------------------------------------------- the run that loses a key

  /** The epochs of both sides and where each reads and sends. */
  predicate Stands(w: World, initiator: nat, readByInitiator: nat, responder: nat, readByResponder: nat) {
    && w.parties.initiator.epoch == initiator && Position(w.parties.initiator.state) == readByInitiator
    && w.parties.responder.epoch == responder && Position(w.parties.responder.state) == readByResponder
  }

  lemma StartNumbers(p: Primitives, w: World, rootKey: Bytes, passed: KeyPair, generated: KeyPair,
                     responderPair: KeyPair, initiatorIdentity: Bytes)
    requires Lawful(p) && Start(p, w, rootKey, passed, generated, responderPair, initiatorIdentity)
    ensures Inv(p, w) && Stands(w, 1, 0, 0, 0) && w.channels == Both([], []) && w.sent == []
    ensures w.parties.initiator.state.sendingChain.Some? && w.parties.initiator.state.sendingChain.value.number == 0
    ensures w.parties.initiator.state.currentDHPublicKey.Some? && w.parties.responder.state.sendingChain.None?
    ensures |w.history| == 2 && w.history[0].pair == responderPair && w.history[1].pair == generated
  {
    StartInv(p, w, rootKey, passed, generated, responderPair, initiatorIdentity);
  }

  /** A side may always encrypt with the sending chain it has. */
  lemma MaySend(p: Primitives, w: World, s: Side, plaintext: Bytes, ad: Bytes, generated: KeyPair)
    requires Inv(p, w) && w.parties.Of(s).state.sendingChain.Some? && (s.Responder? ==> w.parties.responder.epoch > 0)
    ensures Enabled(p, w, Send(s, plaintext, ad, generated))
  {
    assert SideOk(p, w, s);
  }

  /** Where everything is after two messages of epoch 1. */
  predicate TwoWait(w: World, history: seq<Epoch>) {
    && w.history == history && Stands(w, 1, 0, 0, 0) && w.parties.responder.state.sendingChain.None?
    && w.channels.responder == [] && |w.channels.initiator| == 2 && w.sent == w.channels.initiator
    && w.channels.initiator[0].epoch == 1 && w.channels.initiator[0].number == 0
    && w.channels.initiator[1].epoch == 1 && w.channels.initiator[1].number == 1
  }

  lemma TwoSentNumbers(w0: World, w1: World, w2: World, any: KeyPair, first: Packet, next: Packet)
    requires Stands(w0, 1, 0, 0, 0) && w0.channels == Both([], []) && w0.sent == []
    requires w0.parties.responder.state.sendingChain.None?
    requires w0.parties.initiator.state.sendingChain.Some? && w0.parties.initiator.state.sendingChain.value.number == 0
    requires SendShape(w0, Initiator, any, w1, first) && SendShape(w1, Initiator, any, w2, next)
    ensures TwoWait(w2, w0.history)
  {
    assert w2.channels.initiator == [first, next] && w2.sent == [first, next];
  }

  /** The initiator sends twice in epoch 1. */
  lemma TwoSent(p: Primitives, w0: World, any: KeyPair) returns (w: World)
    requires Lawful(p) && Inv(p, w0) && Stands(w0, 1, 0, 0, 0) && w0.channels == Both([], []) && w0.sent == []
    requires w0.parties.initiator.state.sendingChain.Some? && w0.parties.initiator.state.sendingChain.value.number == 0
    requires w0.parties.responder.state.sendingChain.None?
    ensures Follows(p, w0, w) && Inv(p, w) && TwoWait(w, w0.history)
  {
    FollowsSelf(p, w0);
    MaySend(p, w0, Initiator, [], [], any);
    var w1, first := SendNumbers(p, w0, w0, Initiator, [], [], any);
    MaySend(p, w1, Initiator, [], [], any);
    var w2, next := SendNumbers(p, w0, w1, Initiator, [], [], any);
    TwoSentNumbers(w0, w1, w2, any, first, next);
    w := w2;
  }

  lemma OneReadNumbers(w2: World, w3: World, history: seq<Epoch>)
    requires TwoWait(w2, history) && DeliverShape(w2, Responder, w3)
    ensures w3.history == history && w3.sent == w2.sent && Stands(w3, 1, 0, 1, 1)
    ensures w3.parties.responder.state.sendingChain.None?
    ensures w3.channels.responder == [] && w3.channels.initiator == [w2.channels.initiator[1]]
  {
    assert w3.channels.initiator == w2.channels.initiator[1..] == [w2.channels.initiator[1]];
  }

  /** The responder reads the first, the second is lost. */
  lemma OneRead(p: Primitives, w0: World, w2: World, history: seq<Epoch>) returns (w: World)
    requires Lawful(p) && Follows(p, w0, w2) && Inv(p, w2) && TwoWait(w2, history)
    ensures Follows(p, w0, w) && Inv(p, w) && w.history == history && w.sent == w2.sent && Stands(w, 1, 0, 1, 1)
    ensures w.parties.responder.state.sendingChain.None? && w.channels == Both([], [])
  {
    var w3 := DeliverNumbers(p, w0, w2, Responder);
    OneReadNumbers(w2, w3, history);
    w := Lose(p, w0, w3, w2.channels.initiator[1]);
  }

  /** Where everything is after the answer was read. */
  predicate Answer(w4: World, second: KeyPair, w: World) {
    && w4.sent <= w.sent && Stands(w, 2, 1, 2, 1)
    && |w.history| == |w4.history| + 1 && w4.history == w.history[..|w4.history|]
      && w.history[|w4.history|].pair == second
    && w.parties.initiator.state.sendingChain.None? && w.channels == Both([], [])
  }

  lemma AnsweredNumbers(w4: World, w5: World, w: World, second: KeyPair, reply: Packet)
    requires Stands(w4, 1, 0, 1, 1) && w4.channels == Both([], []) && w4.parties.responder.state.sendingChain.None?
    requires SendShape(w4, Responder, second, w5, reply) && DeliverShape(w5, Initiator, w)
    ensures Answer(w4, second, w)
  {
    assert w5.channels.responder == [reply];
    assert w.channels.responder == [reply][1..] == [];
    assert w.history == w5.history;
  }

  /** The responder answers in epoch 2 and the initiator reads that. */
  lemma Answered(p: Primitives, w0: World, w4: World, second: KeyPair) returns (w: World)
    requires Lawful(p) && Follows(p, w0, w4) && Inv(p, w4) && Stands(w4, 1, 0, 1, 1) && w4.channels == Both([], [])
    requires w4.parties.responder.state.sendingChain.None? && ValidPair(p, second) && Unused(w4, second)
    ensures Follows(p, w0, w) && Inv(p, w) && Answer(w4, second, w)
  {
    var w5, reply := SendNumbers(p, w0, w4, Responder, [], [], second);
    w := DeliverNumbers(p, w0, w5, Initiator);
    AnsweredNumbers(w4, w5, w, second, reply);
  }

  /** The message that opens epoch 3 says that one message of epoch 2 was read. */
  predicate OneReported(w: World) {
    && Stands(w, 3, 1, 2, 1) && |w.channels.initiator| == 1 && w.channels.initiator[0].epoch == 3
    && w.channels.initiator[0].message.header.previousChainLength == 1
  }

  /** The initiator goes on in epoch 3: its header reports the one message it has read. */
  lemma GoesOn(p: Primitives, w0: World, w6: World, third: KeyPair) returns (w: World)
    requires Lawful(p) && Follows(p, w0, w6) && Inv(p, w6) && Stands(w6, 2, 1, 2, 1) && w6.channels == Both([], [])
    requires w6.parties.initiator.state.sendingChain.None? && ValidPair(p, third) && Unused(w6, third)
    ensures Follows(p, w0, w) && Inv(p, w) && w6.sent <= w.sent && OneReported(w)
  {
    var w7, last := SendNumbers(p, w0, w6, Initiator, [], [], third);
    w := w7;
    assert w.channels.initiator == [last];
  }

  lemma StillUnused(w4: World, w6: World, second: KeyPair, third: KeyPair)
    requires Unused(w4, third) && second.publicKey != third.publicKey && Answer(w4, second, w6)
    ensures Unused(w6, third)
  {
    forall e | 0 <= e < |w6.history| ensures w6.history[e].pair.publicKey != third.publicKey {
      assert e < |w4.history| ==> w6.history[e] == w4.history[e];
    }
  }

  lemma AfterTwoSent(p: Primitives, w0: World, w2: World, history: seq<Epoch>, second: KeyPair, third: KeyPair)
      returns (w: World)
    requires Lawful(p) && Follows(p, w0, w2) && Inv(p, w2) && TwoWait(w2, history)
    requires ValidPair(p, second) && ValidPair(p, third) && second.publicKey != third.publicKey
    requires Unused(w2, second) && Unused(w2, third)
    ensures Follows(p, w0, w) && Inv(p, w) && w2.sent <= w.sent && OneReported(w)
  {
    var w4 := OneRead(p, w0, w2, history);
    var w6 := Answered(p, w0, w4, second);
    StillUnused(w4, w6, second, third);
    w := GoesOn(p, w0, w6, third);
  }

  lemma FreshPair(w: World, generated: KeyPair, responderPair: KeyPair, pair: KeyPair)
    requires |w.history| == 2 && w.history[0].pair == responderPair && w.history[1].pair == generated
    requires pair.publicKey !in {generated.publicKey, responderPair.publicKey}
    ensures Unused(w, pair)
  {
  }

  /**
   * Two messages are sent in epoch 1, the second is lost, one comes back in epoch 2 and one goes out
   * in epoch 3. The initiator's previous chain was two messages long; the header says one.
   */
  lemma ShortReport(p: Primitives, w0: World, any: KeyPair, second: KeyPair, third: KeyPair)
      returns (w: World, lost: Packet)
    requires Lawful(p) && Inv(p, w0) && Stands(w0, 1, 0, 0, 0) && w0.channels == Both([], []) && w0.sent == []
    requires w0.parties.initiator.state.sendingChain.Some? && w0.parties.initiator.state.sendingChain.value.number == 0
    requires w0.parties.responder.state.sendingChain.None?
    requires ValidPair(p, second) && ValidPair(p, third) && second.publicKey != third.publicKey
    requires Unused(w0, second) && Unused(w0, third)
    ensures Follows(p, w0, w) && Inv(p, w) && lost in w.sent && lost.epoch == 1 && lost.number == 1 && OneReported(w)
  {
    var w2 := TwoSent(p, w0, any);
    lost := w2.sent[1];
    w := AfterTwoSent(p, w0, w2, w0.history, second, third);
    assert w.sent[1] == lost;
  }

  lemma Lose(p: Primitives, w0: World, w: World, pk: Packet) returns (w': World)
    requires Lawful(p) && Follows(p, w0, w) && Inv(p, w) && w.channels.initiator == [pk]
    ensures Follows(p, w0, w') && Inv(p, w') && w' == w.(channels := w.channels.With(Initiator, []))
  {
    DropKeepsInv(p, w, Initiator, 0);
    FollowsNext(p, w0, w, Drop(Initiator, 0));
    w' := DropStep(w, Initiator, 0);
  }

  /** So the receiver leaves epoch 1 with a message sent in it neither decrypted nor accounted for by a stored key. */
  lemma TailKeyIsLost(p: Primitives, w0: World, rootKey: Bytes, passed: KeyPair, generated: KeyPair,
                      responderPair: KeyPair,
                      initiatorIdentity: Bytes, second: KeyPair, third: KeyPair) returns (w: World, lost: Packet)
    requires Lawful(p) && Start(p, w0, rootKey, passed, generated, responderPair, initiatorIdentity)
    requires ValidPair(p, second) && ValidPair(p, third) && second.publicKey != third.publicKey
    requires second.publicKey !in {generated.publicKey, responderPair.publicKey}
    requires third.publicKey !in {generated.publicKey, responderPair.publicKey}
    ensures Reachable(p, w) && w.channels.initiator != [] && w.parties.responder.state.Valid()
    ensures w.channels.initiator[0].message.header.previousChainLength == 1
    ensures var w' := DeliverStep(p, w, Responder);
      && lost in w'.sent && lost.epoch == 1 && w'.parties.responder.epoch == 3
      && 1 < |w'.history| && !Accounted(w'.history, w'.parties.responder, lost.epoch, lost.number)
  {
    StartNumbers(p, w0, rootKey, passed, generated, responderPair, initiatorIdentity);
    FreshPair(w0, generated, responderPair, second);
    FreshPair(w0, generated, responderPair, third);
    w, lost := ShortReport(p, w0, generated, second, third);
    var w' := DeliverNumbers(p, w0, w, Responder);
    FollowsStart(p, w0, rootKey, passed, generated, responderPair, initiatorIdentity, w);
    KeptOfOldEpoch(p, w, Responder, 1);
  }
}
