/** What holds in every run of the two-party system. */
module AgreementTheorems {
  import opened Data
  import opened Ratchet
  import opened Persistence
  import opened Protocol
  import opened Invariant
  import opened Agreement

  // ---------------------------------------------------------------- loss and reloading

  lemma DropKeepsInv(p: Primitives, w: World, from: Side, index: nat)
    requires Inv(p, w) && index < |w.channels.Of(from)|
    ensures Inv(p, DropStep(w, from, index))
  {
    assert SideOk(p, w, from) && SideOk(p, w, from.Other());
    ShorterChannelOk(from, w.parties.Of(from), w.parties.Of(from.Other()), w.channels.Of(from), w.sent, index);
  }

  lemma ShorterChannelOk(s: Side, sender: Party, receiver: Party, ch: seq<Packet>, sent: seq<Packet>, index: nat)
    requires ChannelOk(s, sender, receiver, ch, sent) && index < |ch|
    ensures ChannelOk(s, sender, receiver, ch[..index] + ch[index + 1..], sent)
  {
    var ch' := ch[..index] + ch[index + 1..];
    forall i | 0 <= i < |ch'|
      ensures ch'[i] in sent && ch'[i].from == s && Mine(s, ch'[i].epoch) && Ahead(s.Other(), receiver, ch'[i])
    {
      assert ch'[i] == ch[if i < index then i else i + 1];
    }
    forall i, j | 0 <= i < j < |ch'| ensures Earlier(ch'[i], ch'[j]) {
      assert ch'[i] == ch[if i < index then i else i + 1] && ch'[j] == ch[if j < index then j else j + 1];
    }
  }

  lemma {:induction false} ChainKeyNotEmpty(p: Primitives, start: Bytes, n: nat)
    requires Lawful(p) && start != []
    ensures ChainKeyAt(p, start, n) != []
  {
  }

  /** Every session the system reaches can be stored. */
  lemma PartyStorable(p: Primitives, h: seq<Epoch>, s: Side, pt: Party)
    requires Lawful(p) && HistoryOk(p, h) && PartyOk(p, h, s, pt) && PartyBookOk(p, h, s, pt)
    ensures Storable(pt.state)
  {
    forall e | 1 <= e < |h| ensures h[e].rootKey != [] && h[e].chainKey != [] {
      assert StepOk(p, h, e);
    }
    if pt.state.sendingChain.Some? {
      ChainKeyNotEmpty(p, h[pt.epoch].chainKey, pt.state.sendingChain.value.number);
    }
    if pt.state.receivingChain.Some? {
      ChainKeyNotEmpty(p, h[Reading(s, pt.epoch)].chainKey, pt.state.receivingChain.value.number);
    }
    forall i | 0 <= i < |pt.state.skipped| ensures pt.state.skipped[i].messageKey != [] {
      assert EntryOk(p, h, Reading(s, pt.epoch), Position(pt.state), pt.decrypted, pt.state.skipped[i]);
    }
  }

  /** Writing a session to disk and loading it elsewhere changes nothing at all. */
  lemma ReloadIsIdentity(p: Primitives, w: World, s: Side, localIdentity: string, remoteIdentity: string,
                         createdAt: int)
    requires Lawful(p) && Inv(p, w)
    ensures ReloadStep(w, s, localIdentity, remoteIdentity, createdAt) == w
  {
    assert SideOk(p, w, s);
    PartyStorable(p, w.history, s, w.parties.Of(s));
    SaveLoad(localIdentity, remoteIdentity, createdAt, w.parties.Of(s).state);
  }

  lemma StepKeepsInv(p: Primitives, w: World, ev: Event)
    requires Lawful(p) && Inv(p, w) && Enabled(p, w, ev)
    ensures Inv(p, Next(p, w, ev))
  {
    match ev
    case Send(s, plaintext, ad, generated) => SendKeepsInv(p, w, s, plaintext, ad, generated);
    case Deliver(to) => DeliverKeepsInv(p, w, to);
    case Drop(from, i) => DropKeepsInv(p, w, from, i);
    case Reload(s, local, remote, createdAt) => ReloadIsIdentity(p, w, s, local, remote, createdAt);
  }

  lemma {:induction false} RunKeepsInv(p: Primitives, w: World, evs: seq<Event>)
    requires Lawful(p) && Inv(p, w) && LegalRun(p, w, evs)
    ensures Inv(p, Run(p, w, evs))
    decreases |evs|
  {
    if evs == [] {
    } else {
      StepKeepsInv(p, w, evs[0]);
      RunKeepsInv(p, Next(p, w, evs[0]), evs[1..]);
    }
  }

  // ---------------------------------------------------------------- main results

  /** The states of all runs, from every start and with every interleaving the environment allows. */
  ghost predicate Reachable(p: Primitives, w: World) {
    exists w0: World, evs: seq<Event>, rootKey: Bytes, passed: KeyPair, generated: KeyPair, responderPair: KeyPair,
      initiatorIdentity: Bytes ::
      && Start(p, w0, rootKey, passed, generated, responderPair, initiatorIdentity)
      && LegalRun(p, w0, evs) && w == Run(p, w0, evs)
  }

  lemma ReachableInv(p: Primitives, w: World)
    requires Lawful(p) && Reachable(p, w)
    ensures Inv(p, w) && OrderOk(w)
  {
    var w0: World, evs: seq<Event>, rootKey: Bytes, passed: KeyPair, generated: KeyPair, responderPair: KeyPair,
      initiatorIdentity: Bytes :|
      Start(p, w0, rootKey, passed, generated, responderPair, initiatorIdentity) && LegalRun(p, w0, evs)
        && w == Run(p, w0, evs);
    StartInv(p, w0, rootKey, passed, generated, responderPair, initiatorIdentity);
    RunKeepsInv(p, w0, evs);
    RunKeepsOrder(p, w0, evs);
  }

  /** In every run, every delivered message was sent by the other side and decrypts to exactly what was encrypted. */
  lemma EveryDeliveryDecrypts(p: Primitives, w: World)
    requires Lawful(p) && Reachable(p, w)
    ensures forall i | 0 <= i < |w.delivered| ::
      && w.delivered[i].packet in w.sent && w.delivered[i].packet.from == w.delivered[i].to.Other()
      && w.delivered[i].outcome == Ok(w.delivered[i].packet.plaintext)
  {
    ReachableInv(p, w);
  }

  /** Each side is handed its messages in the order they were sent, none twice. */
  lemma DeliveredInOrder(p: Primitives, w: World, i: nat, j: nat, a: nat, b: nat)
    requires Lawful(p) && Reachable(p, w) && i < j < |w.delivered| && a < |w.sent| && b < |w.sent|
    requires w.delivered[i].packet == w.sent[a] && w.delivered[j].packet == w.sent[b]
    requires w.sent[a].from == w.sent[b].from
    ensures a < b
  {
    ReachableInv(p, w);
    EarlierMeansBefore(w, i, j, a, b);
  }

  lemma EarlierMeansBefore(w: World, i: nat, j: nat, a: nat, b: nat)
    requires OrderOk(w) && i < j < |w.delivered| && a < |w.sent| && b < |w.sent|
    requires w.delivered[i].packet == w.sent[a] && w.delivered[j].packet == w.sent[b]
    requires w.sent[a].from == w.sent[b].from
    ensures a < b
  {
    assert Earlier(w.sent[a], w.sent[b]);
  }

  /** What is delivered was sent before what is still under way, in each direction. */
  ghost predicate OrderOk(w: World) {
    && (forall i, j | 0 <= i < j < |w.sent| && w.sent[i].from == w.sent[j].from :: Earlier(w.sent[i], w.sent[j]))
    && (forall i, j | 0 <= i < j < |w.delivered| && w.delivered[i].packet.from == w.delivered[j].packet.from ::
          Earlier(w.delivered[i].packet, w.delivered[j].packet))
    && (forall i, s: Side, k | 0 <= i < |w.delivered| && 0 <= k < |w.channels.Of(s)|
      && w.delivered[i].packet.from == s ::
          Earlier(w.delivered[i].packet, w.channels.Of(s)[k]))
  }

  lemma SendKeepsOrder(p: Primitives, w: World, s: Side, plaintext: Bytes, ad: Bytes, generated: KeyPair)
    requires Lawful(p) && Inv(p, w) && OrderOk(w) && Enabled(p, w, Send(s, plaintext, ad, generated))
    ensures OrderOk(SendStep(p, w, s, plaintext, ad, generated))
  {
    var me := w.parties.Of(s);
    assert SideOk(p, w, s);
    if !Mine(s, me.epoch) {
      CaughtUp(p, w, s);
    }
    SendByOk(p, w.history, s, me, plaintext, ad, generated);
    var (me', r) := SendBy(p, s, me, plaintext, ad, generated);
    NewPacketLast(w, s, me', r.value);
    var w' := SendStep(p, w, s, plaintext, ad, generated);
    AppendKeepsOrder(w, w', s, r.value);
  }

  /** A new packet comes after everything its side has sent. */
  lemma NewPacketLast(w: World, s: Side, me': Party, pk: Packet)
    requires forall i | 0 <= i < |w.sent| :: Past(w.parties.Of(w.sent[i].from), w.sent[i])
    requires var me := w.parties.Of(s);
      if Mine(s, me.epoch) then pk.epoch == me.epoch && me.state.sendingChain.Some?
        && pk.number == me.state.sendingChain.value.number
      else pk.epoch == me.epoch + 1
    ensures forall i | 0 <= i < |w.sent| && w.sent[i].from == s :: Earlier(w.sent[i], pk)
  {
    forall i | 0 <= i < |w.sent| && w.sent[i].from == s ensures Earlier(w.sent[i], pk) {
      assert Past(w.parties.Of(s), w.sent[i]);
    }
  }

  lemma AppendKeepsOrder(w: World, w': World, s: Side, pk: Packet)
    requires OrderOk(w) && pk.from == s && w'.sent == w.sent + [pk] && w'.delivered == w.delivered
    requires w'.channels == w.channels.With(s, w.channels.Of(s) + [pk])
    requires forall i | 0 <= i < |w.sent| && w.sent[i].from == s :: Earlier(w.sent[i], pk)
    requires forall i | 0 <= i < |w.delivered| :: w.delivered[i].packet in w.sent
    ensures OrderOk(w')
  {
    forall i, t: Side, k | 0 <= i < |w'.delivered| && 0 <= k < |w'.channels.Of(t)| && w'.delivered[i].packet.from == t
      ensures Earlier(w'.delivered[i].packet, w'.channels.Of(t)[k])
    {
      if t == s && k == |w.channels.Of(s)| {
        assert w.delivered[i].packet in w.sent;
      } else {
        assert w'.channels.Of(t)[k] == w.channels.Of(t)[k];
      }
    }
  }

  lemma DeliverKeepsOrder(p: Primitives, w: World, to: Side)
    requires OrderOk(w) && w.channels.Of(to.Other()) != [] && w.parties.Of(to).state.Valid()
    requires var ch := w.channels.Of(to.Other());
      (forall i | 0 <= i < |ch| :: ch[i].from == to.Other()) && forall i | 1 <= i < |ch| :: Earlier(ch[0], ch[i])
    ensures OrderOk(DeliverStep(p, w, to))
  {
    var w' := DeliverStep(p, w, to);
    var from := to.Other();
    var pk := w.channels.Of(from)[0];
    forall i, t: Side, k | 0 <= i < |w'.delivered| && 0 <= k < |w'.channels.Of(t)| && w'.delivered[i].packet.from == t
      ensures Earlier(w'.delivered[i].packet, w'.channels.Of(t)[k])
    {
      var x := w'.channels.Of(t)[k];
      if t == from {
        assert x == w.channels.Of(from)[k + 1];
      } else {
        assert x == w.channels.Of(t)[k];
      }
    }
    forall i | 0 <= i < |w.delivered| && w.delivered[i].packet.from == pk.from
      ensures Earlier(w.delivered[i].packet, pk) {
      assert w.channels.Of(from)[0] == pk;
    }
  }

  lemma DropKeepsOrder(w: World, from: Side, index: nat)
    requires OrderOk(w) && index < |w.channels.Of(from)|
    ensures OrderOk(DropStep(w, from, index))
  {
    var w' := DropStep(w, from, index);
    forall i, t: Side, k | 0 <= i < |w'.delivered| && 0 <= k < |w'.channels.Of(t)| && w'.delivered[i].packet.from == t
      ensures Earlier(w'.delivered[i].packet, w'.channels.Of(t)[k])
    {
      assert w'.channels.Of(t)[k] == w.channels.Of(t)[if t == from && k >= index then k + 1 else k];
    }
  }

  lemma StepKeepsOrder(p: Primitives, w: World, ev: Event)
    requires Lawful(p) && Inv(p, w) && OrderOk(w) && Enabled(p, w, ev)
    ensures OrderOk(Next(p, w, ev))
  {
    match ev {
      case Send(s, plaintext, ad, generated) => SendKeepsOrder(p, w, s, plaintext, ad, generated);
      case Deliver(to) =>
        assert SideOk(p, w, to.Other());
        DeliverKeepsOrder(p, w, to);
      case Drop(from, i) => DropKeepsOrder(w, from, i);
      case Reload(s, local, remote, createdAt) => ReloadIsIdentity(p, w, s, local, remote, createdAt);
    }
  }

  lemma {:induction false} RunKeepsOrder(p: Primitives, w: World, evs: seq<Event>)
    requires Lawful(p) && Inv(p, w) && OrderOk(w) && LegalRun(p, w, evs)
    ensures OrderOk(Run(p, w, evs))
    decreases |evs|
  {
    if evs == [] {
    } else {
      StepKeepsOrder(p, w, evs[0]);
      StepKeepsInv(p, w, evs[0]);
      RunKeepsOrder(p, Next(p, w, evs[0]), evs[1..]);
    }
  }

  /**
   * Epochs stay in lockstep: they differ by at most one, in equal epochs the root keys are equal,
   * and a message in flight belongs to the epoch its receiver reads or to the one right after its own.
   */
  lemma Lockstep(p: Primitives, w: World)
    requires Lawful(p) && Reachable(p, w)
    ensures var a, b := w.parties.initiator, w.parties.responder;
      && -1 <= a.epoch - b.epoch <= 1
      && (a.epoch == b.epoch ==> a.state.rootKey == b.state.rootKey)
    ensures forall s: Side, i | 0 <= i < |w.channels.Of(s)| ::
      var to, pk := w.parties.Of(s.Other()), w.channels.Of(s)[i];
      pk.epoch == Reading(s.Other(), to.epoch) || pk.epoch == to.epoch + 1
  {
    ReachableInv(p, w);
    LockstepState(p, w);
  }

  lemma LockstepState(p: Primitives, w: World)
    requires Inv(p, w)
    ensures var a, b := w.parties.initiator, w.parties.responder;
      && -1 <= a.epoch - b.epoch <= 1
      && (a.epoch == b.epoch ==> a.state.rootKey == b.state.rootKey)
    ensures forall s: Side, i | 0 <= i < |w.channels.Of(s)| ::
      var to, pk := w.parties.Of(s.Other()), w.channels.Of(s)[i];
      pk.epoch == Reading(s.Other(), to.epoch) || pk.epoch == to.epoch + 1
  {
    assert PartyOk(p, w.history, Initiator, w.parties.Of(Initiator));
    assert PartyOk(p, w.history, Responder, w.parties.Of(Responder));
    forall s: Side, i | 0 <= i < |w.channels.Of(s)|
      ensures Ahead(s.Other(), w.parties.Of(s.Other()), w.channels.Of(s)[i])
    {
      assert SideOk(p, w, s);
    }
  }

  function WithoutReloads(evs: seq<Event>): seq<Event> {
    if evs == [] then []
    else (if evs[0].Reload? then [] else [evs[0]]) + WithoutReloads(evs[1..])
  }

  /** Persistence is invisible: reloads put anywhere in a run change neither its legality nor its outcome. */
  lemma {:induction false} ReloadsAreInvisible(p: Primitives, w: World, evs: seq<Event>)
    requires Lawful(p) && Inv(p, w)
    ensures LegalRun(p, w, evs) <==> LegalRun(p, w, WithoutReloads(evs))
    ensures LegalRun(p, w, evs) ==> Run(p, w, evs) == Run(p, w, WithoutReloads(evs))
    decreases |evs|
  {
    if evs == [] {
    } else {
      var ev, rest := evs[0], evs[1..];
      if ev.Reload? {
        ReloadIsIdentity(p, w, ev.side, ev.localIdentity, ev.remoteIdentity, ev.createdAt);
        assert Enabled(p, w, ev) && Next(p, w, ev) == w;
        assert WithoutReloads(evs) == WithoutReloads(rest);
        ReloadsAreInvisible(p, w, rest);
      } else {
        assert WithoutReloads(evs) == [ev] + WithoutReloads(rest);
        assert WithoutReloads(evs)[1..] == WithoutReloads(rest);
        if Enabled(p, w, ev) {
          StepKeepsInv(p, w, ev);
          ReloadsAreInvisible(p, Next(p, w, ev), rest);
        }
      }
    }
  }

  // ---------------------------------------------------------------- skipped keys

  function ReadNumbers(decrypted: set<(nat, nat)>, k: nat): set<nat> {
    set r | r in decrypted && r.0 == k :: r.1
  }

  ghost function StoredNumbers(entries: seq<Entry>, key: Bytes, position: nat): set<nat> {
    set m: nat | m < position && HasEntry(entries, Label(key, m))
  }

  /** The numbers below n. */
  function Below(n: nat): (s: set<nat>)
    ensures |s| == n && forall m: nat :: m in s <==> m < n
  {
    if n == 0 then {} else Below(n - 1) + {n - 1}
  }

  /**
   * Conservation on the chain being read: its position is the number of messages decrypted on it
   * plus the number of keys stored for it, and no message is in both.
   */
  lemma SkippedKeysConserved(p: Primitives, w: World, s: Side)
    requires Lawful(p) && Reachable(p, w)
    ensures var pt := w.parties.Of(s); var k := Reading(s, pt.epoch);
      k < |w.history| && var key := w.history[k].pair.publicKey;
      var read, stored := ReadNumbers(pt.decrypted, k), StoredNumbers(pt.state.skipped, key, Position(pt.state));
      && read * stored == {}
      && read + stored == Below(Position(pt.state))
      && Position(pt.state) == |read| + |stored|
  {
    ReachableInv(p, w);
    assert SideOk(p, w, s);
    var pt := w.parties.Of(s);
    BookConserved(p, w.history, Reading(s, pt.epoch), Position(pt.state), pt.decrypted, pt.state.skipped);
  }

  lemma BookConserved(p: Primitives, h: seq<Epoch>, k: nat, n: nat, decrypted: set<(nat, nat)>, entries: seq<Entry>)
    requires k < |h| && DistinctKeys(h) && BookOk(p, h, k, n, decrypted, entries)
    ensures var read, stored := ReadNumbers(decrypted, k), StoredNumbers(entries, h[k].pair.publicKey, n);
      read * stored == {} && read + stored == Below(n) && n == |read| + |stored|
  {
    var read, stored := ReadNumbers(decrypted, k), StoredNumbers(entries, h[k].pair.publicKey, n);
    forall m: nat | m in stored ensures m !in read {
      StoredIsNotRead(p, h, k, n, decrypted, entries, m);
    }
    forall m: nat ensures m in read + stored <==> m < n {
      assert m in read <==> (k, m) in decrypted;
    }
    assert read + stored == Below(n);
  }

  lemma StoredIsNotRead(p: Primitives, h: seq<Epoch>, k: nat, position: nat, decrypted: set<(nat, nat)>,
                        entries: seq<Entry>, m: nat)
    requires k < |h| && DistinctKeys(h) && BookOk(p, h, k, position, decrypted, entries)
    requires HasEntry(entries, Label(h[k].pair.publicKey, m))
    ensures (k, m) !in decrypted
  {
    var i :| 0 <= i < |entries| && entries[i].name == Label(h[k].pair.publicKey, m);
    assert EntryOk(p, h, k, position, decrypted, entries[i]);
    var e: nat, m': nat :| 1 <= e <= k && (e == k ==> m' < position) && (e, m') !in decrypted
      && entries[i] == Entry(Label(h[e].pair.publicKey, m'), MessageKeyAt(p, h[e].chainKey, m'));
    LabelInjective(h[e].pair.publicKey, m', h[k].pair.publicKey, m);
  }

  /** Whatever is stored under a label is the message key of the chain and the number the label names. */
  lemma StoredKeysAreRight(p: Primitives, w: World, s: Side, e: nat, m: nat, i: nat)
    requires Lawful(p) && Reachable(p, w) && e < |w.history| && i < |w.parties.Of(s).state.skipped|
    requires w.parties.Of(s).state.skipped[i].name == Label(w.history[e].pair.publicKey, m)
    ensures w.parties.Of(s).state.skipped[i].messageKey == MessageKeyAt(p, w.history[e].chainKey, m)
    ensures 1 <= e <= Reading(s, w.parties.Of(s).epoch) && (e, m) !in w.parties.Of(s).decrypted
  {
    ReachableInv(p, w);
    assert SideOk(p, w, s);
    var pt := w.parties.Of(s);
    StoredKeyIsRight(p, w.history, Reading(s, pt.epoch), Position(pt.state), pt.decrypted, pt.state.skipped, e, m, i);
  }

  lemma StoredKeyIsRight(p: Primitives, h: seq<Epoch>, k: nat, position: nat, decrypted: set<(nat, nat)>,
                         entries: seq<Entry>, e: nat, m: nat, i: nat)
    requires k < |h| && e < |h| && DistinctKeys(h) && BookOk(p, h, k, position, decrypted, entries)
    requires i < |entries| && entries[i].name == Label(h[e].pair.publicKey, m)
    ensures entries[i].messageKey == MessageKeyAt(p, h[e].chainKey, m) && 1 <= e <= k && (e, m) !in decrypted
  {
    assert EntryOk(p, h, k, position, decrypted, entries[i]);
    var e': nat, m': nat :| 1 <= e' <= k && (e' == k ==> m' < position) && (e', m') !in decrypted
      && entries[i] == Entry(Label(h[e'].pair.publicKey, m'), MessageKeyAt(p, h[e'].chainKey, m'));
    LabelInjective(h[e'].pair.publicKey, m', h[e].pair.publicKey, m);
    assert !(e < e') && !(e' < e);
  }
}
