/** What messages handed over in any order do to the sessions a run reaches. */
module AnyOrderTheorems {
  import opened Data
  import opened Ratchet
  import opened Protocol
  import opened Invariant
  import opened AgreementTheorems
  import opened KeyUse
  import opened PreviousLength
  import opened AnyOrder

  // ---------------------------------------------------------------- every reachable session

  function StandingOf(pt: Party): Standing {
    On(pt.epoch, Position(pt.state))
  }

  lemma PartyStands(p: Primitives, w: World, to: Side)
    requires Inv(p, w)
    ensures StandsAt(p, w.history, to, w.parties.Of(to).state, StandingOf(w.parties.Of(to)))
  {
    assert SideOk(p, w, to);
  }

  /** Messages the other side sent, in any order, any of them as often as one likes. */
  predicate SentTo(w: World, to: Side, pks: seq<Packet>) {
    forall i | 0 <= i < |pks| :: pks[i] in w.sent && pks[i].from == to.Other()
  }

  lemma SentIsHandable(p: Primitives, w: World, to: Side, pks: seq<Packet>)
    requires Inv(p, w) && SentTo(w, to, pks)
    ensures AllHandable(p, w.history, to, pks) && AllInHistory(w.history, pks)
  {
    forall i | 0 <= i < |pks| ensures Handable(p, w.history, to, pks[i]) {
      assert pks[i] in w.sent;
      var k :| 0 <= k < |w.sent| && w.sent[k] == pks[i];
      assert PacketOk(p, w.history, w.sent[k]);
    }
    HandableTail(p, w.history, to, pks);
  }

  /** The session of a side of the run and what it is handed are as the results on any order ask. */
  ghost predicate HandedOver(p: Primitives, w: World, to: Side, pks: seq<Packet>) {
    var me := w.parties.Of(to);
    && me.state.Valid() && InHistory(w.history, StandingOf(me)) && AllInHistory(w.history, pks)
    && AllApart(p, w.history, to, me.state, StandingOf(me), pks)
  }

  /**
   * Whatever messages of the other side a session of a run is handed, in whatever order and however
   * often, without sending in between: each is decrypted to its plaintext or refused by the MAC check
   * as the standing of the session decides, as long as no collision is met.
   */
  lemma EveryHandingIsDecided(p: Primitives, w: World, to: Side, pks: seq<Packet>)
    requires Lawful(p) && Reachable(p, w) && RootsApart(w.history) && SentTo(w, to, pks) && HandedOver(p, w, to, pks)
    ensures AllDecided(p, w.history, to, w.parties.Of(to).state, StandingOf(w.parties.Of(to)), pks)
  {
    ReachableInv(p, w);
    PartyStands(p, w, to);
    SentIsHandable(p, w, to, pks);
    EachIsDecided(p, w.history, to, w.parties.Of(to).state, StandingOf(w.parties.Of(to)), pks);
  }

  /**
   * A message of an older epoch than the one being read is refused, and so is everything after it:
   * the session has taken a ratchet step that its peer never takes.
   */
  lemma OlderMessageEndsTheSession(p: Primitives, w: World, to: Side, pks: seq<Packet>)
    requires Lawful(p) && Reachable(p, w) && RootsApart(w.history) && SentTo(w, to, pks) && HandedOver(p, w, to, pks)
    requires pks != [] && pks[0].epoch < Reading(to, w.parties.Of(to).epoch)
    ensures forall i | 0 <= i < |pks| :: Outcomes(p, w.parties.Of(to).state, pks)[i] == Err(MacFailed)
  {
    var me := w.parties.Of(to);
    EveryHandingIsDecided(p, w, to, pks);
    assert pks[..0] == [];
    NothingAfterAnOlder(p, w.history, to, me.state, StandingOf(me), pks, 0);
  }

  // ---------------------------------------------------------------- free derivations

  /** The chain the session is astray on comes out of a ratchet step. */
  ghost predicate FromStep(p: Primitives, r: Standing) {
    r.Astray? ==> exists root, dh :: r.at.start == p.rootStep(root, dh).chainKey
  }

  lemma FreeStepApart(p: Primitives, h: seq<Epoch>, rootKey: Bytes, dh: Bytes)
    requires CollisionFree(p) && HistoryOk(p, h) && Underived(p, h[0].rootKey)
    ensures StepApart(h, rootKey, p.rootStep(rootKey, dh))
  {
    forall i | 1 <= i < |h| && h[i - 1].rootKey != rootKey
      ensures h[i].rootKey != p.rootStep(rootKey, dh).rootKey && h[i].chainKey != p.rootStep(rootKey, dh).chainKey
    {
      var d := DerivedFrom(p, h, i);
      FreeRootStep(p, h[i - 1].rootKey, d, rootKey, dh);
    }
  }

  /** The chain a message is read from comes out of a ratchet step too. */
  lemma ReadFromStep(p: Primitives, h: seq<Epoch>, s: Side, st: State, r: Standing, hd: Header)
      returns (root: Bytes, dh: Bytes)
    requires HistoryOk(p, h) && StandsAt(p, h, s, st, r) && InHistory(h, r) && FromStep(p, r)
    ensures ReadFrom(p, h, s, st, r, hd).start == p.rootStep(root, dh).chainKey
  {
    if NeedsRatchet(st, hd.dhPublicKey) {
      root, dh := st.rootKey, p.sharedKey(st.localKeyPair.secretKey, hd.dhPublicKey);
    } else if r.On? {
      var k := Reading(s, r.epoch);
      assert StepOk(p, h, k);
      dh := DerivedFrom(p, h, k);
      root := h[k - 1].rootKey;
    } else {
      root, dh :| r.at.start == p.rootStep(root, dh).chainKey;
    }
  }

  lemma FreeApart(p: Primitives, h: seq<Epoch>, s: Side, st: State, r: Standing, pk: Packet)
    requires CollisionFree(p) && HistoryOk(p, h) && Underived(p, h[0].rootKey) && StandsAt(p, h, s, st, r)
    requires InHistory(h, r)
    requires FromStep(p, r) && Handable(p, h, s, pk)
    ensures Apart(p, h, s, st, r, pk) && FromStep(p, Turned(p, h, s, st, r, pk))
  {
    var hd := pk.message.header;
    var at := ReadFrom(p, h, s, st, r, hd);
    FreeStepApart(p, h, st.rootKey, p.sharedKey(st.localKeyPair.secretKey, hd.dhPublicKey));
    var root, dh := ReadFromStep(p, h, s, st, r, hd);
    assert StepOk(p, h, pk.epoch);
    var d := DerivedFrom(p, h, pk.epoch);
    FreeChainsApart(p, root, dh, at.place, h[pk.epoch - 1].rootKey, d, pk.number);
  }

  /** With free derivations nothing handed over ever meets a collision. */
  lemma {:induction false} FreeAllApart(p: Primitives, h: seq<Epoch>, s: Side, st: State, r: Standing, pks: seq<Packet>)
    requires Lawful(p) && CollisionFree(p) && HistoryOk(p, h) && Underived(p, h[0].rootKey) && RootsApart(h)
    requires StandsAt(p, h, s, st, r) && FromStep(p, r) && AllHandable(p, h, s, pks)
    requires st.Valid() && InHistory(h, r) && AllInHistory(h, pks)
    ensures AllApart(p, h, s, st, r, pks)
    decreases |pks|
  {
    if pks == [] {
    } else {
      HandableTail(p, h, s, pks);
      FreeApart(p, h, s, st, r, pks[0]);
      OneDecided(p, h, s, st, r, pks[0]);
      FreeAllApart(p, h, s, Handed(p, st, pks[0]), Turned(p, h, s, st, r, pks[0]), pks[1..]);
    }
  }

  lemma FreeHandedOver(p: Primitives, w: World, to: Side, pks: seq<Packet>)
    requires Lawful(p) && CollisionFree(p) && Reachable(p, w) && w.history != [] && Underived(p, w.history[0].rootKey)
    requires SentTo(w, to, pks)
    ensures RootsApart(w.history) && HandedOver(p, w, to, pks)
  {
    ReachableInv(p, w);
    PartyStands(p, w, to);
    SentIsHandable(p, w, to, pks);
    FreeRootsApart(p, w.history);
    FreeAllApart(p, w.history, to, w.parties.Of(to).state, StandingOf(w.parties.Of(to)), pks);
  }

  // ---------------------------------------------------------------- a run in which it happens

  lemma ReachableNext(p: Primitives, w: World, ev: Event)
    requires Reachable(p, w) && Enabled(p, w, ev)
    ensures Reachable(p, Next(p, w, ev))
  {
    var w0: World, evs: seq<Event>, rootKey: Bytes, passed: KeyPair, generated: KeyPair, responderPair: KeyPair,
      identity: Bytes :|
      Start(p, w0, rootKey, passed, generated, responderPair, identity) && LegalRun(p, w0, evs) && w == Run(p, w0, evs);
    RunSnoc(p, w0, evs, ev);
    ReachedFrom(p, w0, evs + [ev], rootKey, passed, generated, responderPair, identity);
  }

  lemma ReachedFrom(p: Primitives, w0: World, evs: seq<Event>, rootKey: Bytes, passed: KeyPair, generated: KeyPair,
                    responderPair: KeyPair, identity: Bytes)
    requires Start(p, w0, rootKey, passed, generated, responderPair, identity) && LegalRun(p, w0, evs)
    ensures Reachable(p, Run(p, w0, evs))
  {
  }

  lemma {:induction false} HistoryBegins(p: Primitives, w: World, evs: seq<Event>)
    requires LegalRun(p, w, evs) && w.history != []
    ensures w.history[..1] <= Run(p, w, evs).history
    decreases |evs|
  {
    if evs == [] {
    } else {
      assert w.history[..1] <= Next(p, w, evs[0]).history;
      HistoryBegins(p, Next(p, w, evs[0]), evs[1..]);
    }
  }

  /** A side that has just read the message opening epoch 3 is sent another one of that epoch. */
  lemma OneMore(p: Primitives, w: World) returns (w': World, next: Packet)
    requires Lawful(p) && Reachable(p, w) && w.parties.initiator.epoch == 3 && w.parties.responder.epoch == 3
    ensures Reachable(p, w') && w'.parties.responder == w.parties.responder && w'.history == w.history
    ensures w.sent <= w'.sent && next in w'.sent && next.from == Initiator
    ensures Reads(Responder, StandingOf(w'.parties.responder), next)
  {
    ReachableInv(p, w);
    assert SideOk(p, w, Initiator);
    var any := w.parties.initiator.state.localKeyPair;
    MaySend(p, w, Initiator, [], [], any);
    ReachableNext(p, w, Send(Initiator, [], [], any));
    w' := SendStep(p, w, Initiator, [], [], any);
    ReachableInv(p, w');
    assert SideOk(p, w', Initiator);
    SendByNumbers(p, Initiator, w.parties.initiator, [], [], any);
    next := SendBy(p, Initiator, w.parties.initiator, [], [], any).1.value;
    var ch := w'.channels.initiator;
    assert ch[|ch| - 1] == next;
  }

  lemma FollowsKeepsFirst(p: Primitives, w0: World, w: World)
    requires Follows(p, w0, w) && w0.history != []
    ensures w.history != [] && w.history[0] == w0.history[0]
  {
    var evs: seq<Event> :| LegalRun(p, w0, evs) && w == Run(p, w0, evs);
    HistoryBegins(p, w0, evs);
  }

  /** The responder reads epoch 3, and a message of epoch 1 that it never read is about. */
  lemma LateMessageAbout(p: Primitives, w0: World, any: KeyPair, second: KeyPair, third: KeyPair)
      returns (w: World, late: Packet)
    requires Lawful(p) && Inv(p, w0) && Stands(w0, 1, 0, 0, 0) && w0.channels == Both([], []) && w0.sent == []
    requires w0.parties.initiator.state.sendingChain.Some? && w0.parties.initiator.state.sendingChain.value.number == 0
    requires w0.parties.responder.state.sendingChain.None?
    requires ValidPair(p, second) && ValidPair(p, third) && second.publicKey != third.publicKey
    requires Unused(w0, second) && Unused(w0, third)
    ensures Follows(p, w0, w) && Inv(p, w) && late in w.sent && late.epoch == 1
    ensures w.parties.initiator.epoch == 3 && w.parties.responder.epoch == 3
  {
    var w1;
    w1, late := ShortReport(p, w0, any, second, third);
    w := DeliverNumbers(p, w0, w1, Responder);
  }

  lemma EpochTellsSender(p: Primitives, w: World, pk: Packet)
    requires Lawful(p) && Reachable(p, w) && pk in w.sent && pk.epoch == 1
    ensures pk.from == Initiator
  {
    ReachableInv(p, w);
    var k :| 0 <= k < |w.sent| && w.sent[k] == pk;
    assert PacketOk(p, w.history, w.sent[k]);
  }

  /** The responder would read the next message; handed the late one first, it refuses both. */
  predicate EndedByLate(p: Primitives, w: World, late: Packet, next: Packet) {
    var st := w.parties.responder.state;
    && st.Valid() && Outcomes(p, st, [next])[0] == Ok(next.plaintext)
    && Outcomes(p, st, [late, next])[0] == Err(MacFailed) && Outcomes(p, st, [late, next])[1] == Err(MacFailed)
  }

  lemma AheadAloneIsRead(p: Primitives, w: World, next: Packet)
    requires Lawful(p) && CollisionFree(p) && Reachable(p, w) && w.history != [] && Underived(p, w.history[0].rootKey)
    requires next in w.sent && next.from == Initiator && Reads(Responder, StandingOf(w.parties.responder), next)
    ensures w.parties.responder.state.Valid() && Outcomes(p, w.parties.responder.state, [next])[0] == Ok(next.plaintext)
  {
    FreeHandedOver(p, w, Responder, [next]);
    EveryHandingIsDecided(p, w, Responder, [next]);
  }

  /**
   * Handed a message that is late by an epoch, the session refuses it and all that follows; without it,
   * it would read on.
   */
  lemma LateEndsIt(p: Primitives, w: World, late: Packet, next: Packet)
    requires Lawful(p) && CollisionFree(p) && Reachable(p, w) && w.history != [] && Underived(p, w.history[0].rootKey)
    requires late in w.sent && late.from == Initiator && next in w.sent && next.from == Initiator
    requires late.epoch < Reading(Responder, w.parties.responder.epoch)
    requires Reads(Responder, StandingOf(w.parties.responder), next)
    ensures SentTo(w, Responder, [late, next]) && EndedByLate(p, w, late, next)
  {
    AheadAloneIsRead(p, w, next);
    FreeHandedOver(p, w, Responder, [late, next]);
    OlderMessageEndsTheSession(p, w, Responder, [late, next]);
  }

  lemma LateFromStart(p: Primitives, w0: World, rootKey: Bytes, passed: KeyPair, generated: KeyPair,
                      responderPair: KeyPair, identity: Bytes, second: KeyPair, third: KeyPair)
    returns (w: World, late: Packet)
    requires Lawful(p) && Start(p, w0, rootKey, passed, generated, responderPair, identity)
    requires ValidPair(p, second) && ValidPair(p, third) && second.publicKey != third.publicKey
    requires second.publicKey !in {generated.publicKey, responderPair.publicKey}
    requires third.publicKey !in {generated.publicKey, responderPair.publicKey}
    ensures Reachable(p, w) && w.history != [] && w.history[0].rootKey == rootKey
    ensures late in w.sent && late.epoch == 1 && w.parties.initiator.epoch == 3 && w.parties.responder.epoch == 3
  {
    StartNumbers(p, w0, rootKey, passed, generated, responderPair, identity);
    FreshPair(w0, generated, responderPair, second);
    FreshPair(w0, generated, responderPair, third);
    w, late := LateMessageAbout(p, w0, generated, second, third);
    FollowsStart(p, w0, rootKey, passed, generated, responderPair, identity, w);
    FollowsKeepsFirst(p, w0, w);
  }

  lemma LateFrom(p: Primitives, w1: World, late: Packet) returns (w: World, next: Packet)
    requires Lawful(p) && CollisionFree(p) && Reachable(p, w1) && w1.history != []
    requires Underived(p, w1.history[0].rootKey)
    requires late in w1.sent && late.epoch == 1 && w1.parties.initiator.epoch == 3 && w1.parties.responder.epoch == 3
    ensures Reachable(p, w) && SentTo(w, Responder, [late, next]) && EndedByLate(p, w, late, next)
  {
    EpochTellsSender(p, w1, late);
    w, next := OneMore(p, w1);
    LateEndsIt(p, w, late, next);
  }

  /**
   * From every start, with free derivations, a run leads to a session that would read the next message
   * and, handed one that is an epoch late, refuses that one and then the next.
   */
  lemma LateMessageIsReal(p: Primitives, w0: World, rootKey: Bytes, passed: KeyPair, generated: KeyPair,
                          responderPair: KeyPair, identity: Bytes, second: KeyPair, third: KeyPair)
    returns (w: World, late: Packet, next: Packet)
    requires Lawful(p) && CollisionFree(p) && Underived(p, rootKey)
    requires Start(p, w0, rootKey, passed, generated, responderPair, identity)
    requires ValidPair(p, second) && ValidPair(p, third) && second.publicKey != third.publicKey
    requires second.publicKey !in {generated.publicKey, responderPair.publicKey}
    requires third.publicKey !in {generated.publicKey, responderPair.publicKey}
    ensures Reachable(p, w) && SentTo(w, Responder, [late, next]) && EndedByLate(p, w, late, next)
  {
    var w1;
    w1, late := LateFromStart(p, w0, rootKey, passed, generated, responderPair, identity, second, third);
    w, next := LateFrom(p, w1, late);
  }

  /** Such a start exists. */
  lemma LateMessageWitness() returns (p: Primitives, w: World, late: Packet, next: Packet)
    ensures Lawful(p) && Reachable(p, w) && SentTo(w, Responder, [late, next]) && EndedByLate(p, w, late, next)
  {
    p := Tagged();
    TaggedIsCollisionFree();
    var w0 := TaggedCanStart();
    var first, other, second, third :=
      KeyPair([0, 1], [1]), KeyPair([0, 2], [2]), KeyPair([0, 3], [3]), KeyPair([0, 4], [4]);
    assert [0] + [3 as byte] == [0, 3] && [0] + [4 as byte] == [0, 4];
    assert second.publicKey[1] != third.publicKey[1] && first.publicKey[1] == 1 && other.publicKey[1] == 2;
    w, late, next := LateMessageIsReal(p, w0, [9], first, first, other, [0, 3], second, third);
  }
}
