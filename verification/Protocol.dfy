/**
 * Two sessions talking over one lossy first-in-first-out channel a direction, as a transition
 * system. Epochs count DH ratchet steps: the initiator sends in odd epochs, the responder in
 * even ones, and epoch 0 is the responder's identity key with the agreed root key.
 */
module Protocol {
  import opened Data
  import opened Ratchet
  import opened Persistence

  datatype Side = Initiator | Responder
  {
    function Other(): Side {
      if Initiator? then Responder else Initiator
    }
  }

  datatype Both<T> = Both(initiator: T, responder: T)
  {
    function Of(s: Side): T {
      if s.Initiator? then initiator else responder
    }

    function With(s: Side, v: T): (r: Both<T>)
      ensures r.Of(s) == v && r.Of(s.Other()) == Of(s.Other())
    {
      if s.Initiator? then Both(v, responder) else Both(initiator, v)
    }
  }

  /** What one DH ratchet step of the sender produced. */
  datatype Epoch = Epoch(rootKey: Bytes, chainKey: Bytes, pair: KeyPair)

  /** A message with a record of what was meant. */
  datatype Packet = Packet(from: Side, epoch: nat, number: nat, plaintext: Bytes, associatedData: Bytes,
                           message: Message)

  /** A session, the ratchet steps it has taken, and the (epoch, number) pairs it has decrypted. */
  datatype Party = Party(state: State, epoch: nat, decrypted: set<(nat, nat)>)

  datatype Delivery = Delivery(to: Side, packet: Packet, outcome: Result<Bytes, Error>)

  datatype World = World(
    parties: Both<Party>,
    channels: Both<seq<Packet>>,   // by sender, oldest first
    history: seq<Epoch>,
    sent: seq<Packet>,
    delivered: seq<Delivery>)

  datatype Event =
    | Send(side: Side, plaintext: Bytes, associatedData: Bytes, generated: KeyPair)
    | Deliver(to: Side)
    | Drop(from: Side, index: nat)
    | Reload(side: Side, localIdentity: string, remoteIdentity: string, createdAt: int)

  // ---------------------------------------------------------------- steps

  ghost predicate Unused(w: World, pair: KeyPair) {
    forall e | 0 <= e < |w.history| :: w.history[e].pair.publicKey != pair.publicKey
  }

  /**
   * The environment: fresh key pairs where encrypt draws one, a responder that decrypts first, and
   * channels that lose but do not reorder.
   */
  ghost predicate Enabled(p: Primitives, w: World, ev: Event) {
    match ev
    case Send(s, _, _, generated) =>
      && (w.parties.Of(s).state.sendingChain.None? ==> ValidPair(p, generated) && Unused(w, generated))
      && (s.Responder? ==> w.parties.responder.epoch > 0)
      && (w.parties.Of(s).state.sendingChain.Some? ==> w.parties.Of(s).state.currentDHPublicKey.Some?)
    case Deliver(to) => w.channels.Of(to.Other()) != [] && w.parties.Of(to).state.Valid()
    case Drop(from, index) => index < |w.channels.Of(from)|
    case Reload(_, _, _, _) => true
  }

  /** One side encrypts. */
  function SendBy(p: Primitives, s: Side, me: Party, plaintext: Bytes, ad: Bytes, generated: KeyPair)
    : (Party, Result<Packet, Error>)
    requires me.state.sendingChain.Some? ==> me.state.currentDHPublicKey.Some?
  {
    var (st, r) := Encrypt(p, me.state, plaintext, ad, generated);
    match r
    case Err(error) => (me.(state := st), Err(error))
    case Ok(msg) =>
      var epoch := if me.state.sendingChain.Some? then me.epoch else me.epoch + 1;
      (me.(state := st, epoch := epoch), Ok(Packet(s, epoch, msg.header.messageNumber, plaintext, ad, msg)))
  }

  /** The epoch a side opens by encrypting without a sending chain. */
  function Opening(p: Primitives, me: Party, generated: KeyPair): Epoch
    requires me.state.remotePublicKey.Some?
  {
    var st := RatchetSend(p, me.state, generated);
    Epoch(st.rootKey, st.sendingChain.value.key, generated)
  }

  function SendStep(p: Primitives, w: World, s: Side, plaintext: Bytes, ad: Bytes, generated: KeyPair): World
    requires w.parties.Of(s).state.sendingChain.Some? ==> w.parties.Of(s).state.currentDHPublicKey.Some?
  {
    var me := w.parties.Of(s);
    var (me', r) := SendBy(p, s, me, plaintext, ad, generated);
    match r
    case Err(_) => w.(parties := w.parties.With(s, me'))
    case Ok(pk) =>
      w.(parties := w.parties.With(s, me'),
         channels := w.channels.With(s, w.channels.Of(s) + [pk]),
         history := if me.state.sendingChain.Some? then w.history else w.history + [Opening(p, me, generated)],
         sent := w.sent + [pk])
  }

  /** One side decrypts. */
  function DeliverTo(p: Primitives, me: Party, pk: Packet): (Party, Result<Bytes, Error>)
    requires me.state.Valid()
  {
    var (st, r) := Decrypt(p, me.state, pk.message, pk.associatedData);
    (Party(st,
           if NeedsRatchet(me.state, pk.message.header.dhPublicKey) then me.epoch + 1 else me.epoch,
           if r.Ok? then me.decrypted + {(pk.epoch, pk.number)} else me.decrypted), r)
  }

  function DeliverStep(p: Primitives, w: World, to: Side): World
    requires w.channels.Of(to.Other()) != [] && w.parties.Of(to).state.Valid()
  {
    var channel := w.channels.Of(to.Other());
    var (me, r) := DeliverTo(p, w.parties.Of(to), channel[0]);
    w.(parties := w.parties.With(to, me),
       channels := w.channels.With(to.Other(), channel[1..]),
       delivered := w.delivered + [Delivery(to, channel[0], r)])
  }

  /** A message is lost, wherever it stands in its channel. */
  function DropStep(w: World, from: Side, index: nat): World
    requires index < |w.channels.Of(from)|
  {
    w.(channels := w.channels.With(from, w.channels.Of(from)[..index] + w.channels.Of(from)[index + 1..]))
  }

  /** The session is written to a file and read back by a manager that has nothing cached. */
  function ReloadStep(w: World, s: Side, localIdentity: string, remoteIdentity: string, createdAt: int): World {
    var me := w.parties.Of(s);
    w.(parties := w.parties.With(s,
      me.(state := LoadFile(SessionFile(localIdentity, remoteIdentity, createdAt, me.state)))))
  }

  ghost function Next(p: Primitives, w: World, ev: Event): World
    requires Enabled(p, w, ev)
  {
    match ev
    case Send(s, plaintext, ad, generated) => SendStep(p, w, s, plaintext, ad, generated)
    case Deliver(to) => DeliverStep(p, w, to)
    case Drop(from, i) => DropStep(w, from, i)
    case Reload(s, local, remote, createdAt) => ReloadStep(w, s, local, remote, createdAt)
  }

  // ---------------------------------------------------------------- runs

  ghost predicate LegalRun(p: Primitives, w: World, evs: seq<Event>)
    decreases |evs|
  {
    evs == [] || (Enabled(p, w, evs[0]) && LegalRun(p, Next(p, w, evs[0]), evs[1..]))
  }

  ghost function Run(p: Primitives, w: World, evs: seq<Event>): World
    requires LegalRun(p, w, evs)
    decreases |evs|
  {
    if evs == [] then w else Run(p, Next(p, w, evs[0]), evs[1..])
  }

  /**
   * The start: both sessions are built from one root key. The initiator's constructor generates a
   * key pair of its own, whatever pair it is passed; the responder keeps its identity key pair.
   */
  ghost predicate Start(p: Primitives, w: World, rootKey: Bytes, passed: KeyPair, generated: KeyPair,
                        responderPair: KeyPair, initiatorIdentity: Bytes)
  {
    && ValidPair(p, generated) && ValidPair(p, responderPair) && generated.publicKey != responderPair.publicKey
    && rootKey != [] && initiatorIdentity != []
    && var a := NewSession(p, rootKey, passed, Some(responderPair.publicKey), true, generated);
       var b := NewSession(p, rootKey, responderPair, Some(initiatorIdentity), false, generated);
       && a.Ok? && b.Ok?
       && w == World(Both(Party(a.value, 1, {}), Party(b.value, 0, {})), Both([], []),
                     [Epoch(rootKey, [], responderPair),
                       Epoch(a.value.rootKey, a.value.sendingChain.value.key, generated)],
                     [], [])
  }
}
