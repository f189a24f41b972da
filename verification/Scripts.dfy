/** The send and receive scripts: what one run of each does to the session files and what it puts on the wire. */
module Scripts {
  import opened Data
  import opened Json
  import opened Base64Url
  import opened Ratchet
  import opened Persistence
  import opened Session
  import opened SessionManager
  import opened X3dh
  import opened Envelopes
  import Mailbox

  /** What a profile lookup returns of a user: two public keys. */
  datatype Card = Card(signing: Bytes, identity: Bytes)

  datatype Account = Account(
    name: string,
    identity: KeyPair,
    signingKey: Bytes,
    mailbox: Bytes,
    pollToken: string,
    depositToken: string)

  datatype Env = Env(
    p: Primitives,
    sha256: Hash,
    render: Json -> Bytes,                   // JSON.stringify, as UTF-8
    parse: Bytes -> Option<Json>,            // JSON.parse; None is an exception
    sign: (Bytes, Bytes) -> Bytes,           // text, secret key
    verify: (Bytes, Bytes, Bytes) -> bool,   // text, signature, public key
    card: string -> Option<Card>)

  type Disk = map<string, Json>

  /** What the random generator and the clock returned to one run of the send script. */
  datatype Draw = Draw(ephemeral: KeyPair, generated: KeyPair, msgId: Bytes, at: int)

  /** A state encrypt and decrypt can work on; every state a session ever saves is one. */
  predicate Sound(st: State) {
    st.Valid() && (st.sendingChain.Some? ==> st.currentDHPublicKey.Some?)
  }

  // ---------------------------------------------------------------- sending

  function FirstSession(env: Env, me: Account, you: Card, draw: Draw): (st: State) {
    var agreement := InitiatorKeyAgreement(env.p, env.sha256, me.identity, you.identity, draw.ephemeral);
    NewSession(env.p, agreement.rootKey, agreement.ephemeral, Some(you.identity), true, draw.generated).value
  }

  function Sign(env: Env, me: Account, to: string, at: int, m: Message, ephemeral: Option<Bytes>): Envelope {
    Envelope(me.name, to, at, m, ephemeral, env.sign(env.render(SignedPart(me.name, to, at, m.header)), me.signingKey))
  }

  /** Encrypts, saves the session and wraps the message up; if encrypting fails nothing is saved. */
  function Encrypted(env: Env, me: Account, to: string, disk: Disk, session: State, plaintext: Bytes, draw: Draw,
                     ephemeral: Option<Bytes>): (Disk, Option<Bytes>)
    requires Sound(session)
  {
    var (after, r) := Encrypt(env.p, session, plaintext, [], draw.generated);
    if r.Err? then (disk, None)
    else (disk[GetSessionKey(me.name, to) := SessionFile(me.name, to, draw.at, after)],
          Some(env.render(EnvelopeJson(Sign(env, me, to, draw.at, r.value, ephemeral)))))
  }

  /** The files after the run and the blob it deposits; None when the script stops before depositing. */
  function SendMessage(env: Env, me: Account, to: string, disk: Disk, plaintext: Bytes, draw: Draw): (Disk,
                       Option<Bytes>) {
    var you, name := env.card(to), GetSessionKey(me.name, to);
    if you.None? then (disk, None)
    else
      var first := name !in disk;
      var session := if first then FirstSession(env, me, you.value, draw) else LoadFile(disk[name]);
      var disk1 := if first then disk[name := SessionFile(me.name, to, draw.at, session)] else disk;
      if !Sound(session) then (disk1, None)
      else
        Encrypted(env, me, to, disk1, session, plaintext, draw, if first then Some(draw.ephemeral.publicKey) else None)
  }

  function DepositRequest(you: Account, msgId: Bytes, blob: Bytes): Mailbox.Request {
    Mailbox.Deposit(you.mailbox, Some("Bearer " + you.depositToken), Some(Encode(msgId)), None, blob)
  }

  /** The session the script sends with: from its file, or a new one that is saved at once. */
  method SessionToSend(env: Env, me: Account, to: string, you: Card, sessionManager: SessionManager, draw: Draw)
    returns (session: DoubleRatchetSession, initialEphemeralPublicKey: Option<Bytes>)
    requires sessionManager.sessions == map[]
    modifies sessionManager
    ensures fresh(session) && fresh(session.Parts()) && session.Separate()
    ensures var name, disk := GetSessionKey(me.name, to), old(sessionManager.disk);
      && session.View() == (if name in disk then LoadFile(disk[name]) else FirstSession(env, me, you, draw))
      && initialEphemeralPublicKey == (if name in disk then None else Some(draw.ephemeral.publicKey))
      && sessionManager.disk
         == (if name in disk then disk else disk[name := SessionFile(me.name, to, draw.at, session.View())])
  {
    initialEphemeralPublicKey := None;
    var loaded := sessionManager.LoadSession(me.name, to);
    if loaded == null {
      var agreement := InitiatorKeyAgreement(env.p, env.sha256, me.identity, you.identity, draw.ephemeral);
      initialEphemeralPublicKey := Some(agreement.ephemeral.publicKey);
      session := new DoubleRatchetSession(env.p, agreement.rootKey, agreement.ephemeral, Some(you.identity), true,
        draw.generated);
      sessionManager.SaveSession(me.name, to, session, draw.at);
    } else {
      session := loaded;
    }
  }

  method EncryptAndSave(env: Env, me: Account, to: string, sessionManager: SessionManager,
                        session: DoubleRatchetSession,
                        plaintext: Bytes, draw: Draw, initialEphemeralPublicKey: Option<Bytes>)
                          returns (blob: Option<Bytes>)
    requires session.Separate() && Sound(session.View()) && (sessionManager as object) !in session.Parts()
    modifies sessionManager, session, session.Parts()
    ensures (sessionManager.disk, blob)
      == Encrypted(env, me, to, old(sessionManager.disk), old(session.View()), plaintext, draw,
        initialEphemeralPublicKey)
  {
    var r := session.Encrypt(env.p, plaintext, [], draw.generated);
    if r.Err? {
      return None;
    }
    sessionManager.SaveSession(me.name, to, session, draw.at);
    var envelope := Sign(env, me, to, draw.at, r.value, initialEphemeralPublicKey);
    return Some(env.render(EnvelopeJson(envelope)));
  }

  method RunSendMessage(env: Env, me: Account, to: string, disk: Disk, plaintext: Bytes, draw: Draw)
    returns (disk': Disk, blob: Option<Bytes>)
    ensures (disk', blob) == SendMessage(env, me, to, disk, plaintext, draw)
  {
    var you := env.card(to);
    if you.None? {
      return disk, None;
    }
    var sessionManager := new SessionManager(disk);
    var session, initialEphemeralPublicKey := SessionToSend(env, me, to, you.value, sessionManager, draw);
    var st := session.GetState();
    if !Sound(st) {
      return sessionManager.disk, None;
    }
    blob := EncryptAndSave(env, me, to, sessionManager, session, plaintext, draw, initialEphemeralPublicKey);
    disk' := sessionManager.disk;
  }

  // ---------------------------------------------------------------- receiving

  /** A plaintext and the envelope it travelled in. */
  datatype Letter = Letter(blob: Bytes, text: Bytes)

  /** The manager's files and cache, the ids to acknowledge and the letters shown. */
  datatype Inbox = Inbox(disk: Disk, cache: map<string, State>, msgIds: seq<string>, shown: seq<Letter>)

  function ReadBlob(env: Env, blob: Bytes): Option<Envelope> {
    var j := env.parse(blob);
    if j.None? then None else ReadEnvelope(j.value)
  }

  /** The blob is an envelope of a known sender, whose signature holds. */
  predicate Genuine(env: Env, blob: Bytes) {
    var j, e := env.parse(blob), ReadBlob(env, blob);
    e.Some? &&
    var sender := env.card(e.value.from);
    sender.Some? && env.verify(env.render(SignedText(j.value)), e.value.signature, sender.value.signing)
  }

  function ResponderSession(env: Env, me: Account, sender: Card, ephemeral: Bytes): State {
    var rootKey := ResponderKeyAgreement(env.p, env.sha256, me.identity, sender.identity, ephemeral);
    NewSession(env.p, rootKey, me.identity, Some(sender.identity), false, me.identity).value
  }

  /** The session for an envelope: from the cache, else from its file, else a new one. */
  function SessionFor(env: Env, me: Account, disk: Disk, cache: map<string, State>, e: Envelope): Option<State>
    requires env.card(e.from).Some?
  {
    var name := GetSessionKey(me.name, e.from);
    if name in cache then Some(cache[name])
    else if name in disk then Some(LoadFile(disk[name]))
    else if e.initialEphemeralKey.None? then None
    else Some(ResponderSession(env, me, env.card(e.from).value, e.initialEphemeralKey.value))
  }

  /** After a session was found or made: it is in the cache, and a new one is on disk. */
  function Obtained(me: Account, st: Inbox, from: string, session: State, at: int): Inbox {
    var name := GetSessionKey(me.name, from);
    st.(disk := if name in st.cache || name in st.disk then st.disk
      else st.disk[name := SessionFile(me.name, from, at, session)],
        cache := st.cache[name := session])
  }

  /** A message is read with a session that is in the cache; when it is refused the session stays moved on there. */
  function ReadWith(env: Env, me: Account, st: Inbox, session: State, e: Envelope, msg: Mailbox.PollMsg, at: int): Inbox
    requires Sound(session)
  {
    var name := GetSessionKey(me.name, e.from);
    var (after, r) := Decrypt(env.p, session, e.message, []);
    if r.Err? then st.(cache := st.cache[name := after])
    else Inbox(st.disk[name := SessionFile(me.name, e.from, at, after)], st.cache[name := after],
               st.msgIds + [msg.msgId], st.shown + [Letter(msg.blob, r.value)])
  }

  /** One message; whatever goes wrong, the loop goes on with the next. */
  function ReceiveOne(env: Env, me: Account, st: Inbox, msg: Mailbox.PollMsg, at: int): Inbox {
    var e := ReadBlob(env, msg.blob);
    if !Genuine(env, msg.blob) then st
    else
      var session := SessionFor(env, me, st.disk, st.cache, e.value);
      if session.None? then st
      else
        var st1 := Obtained(me, st, e.value.from, session.value, at);
        if !Sound(session.value) then st1 else ReadWith(env, me, st1, session.value, e.value, msg, at)
  }

  function ReceiveLoop(env: Env, me: Account, st: Inbox, messages: seq<Mailbox.PollMsg>, at: int): Inbox
    decreases |messages|
  {
    if messages == [] then st
    else ReceiveLoop(env, me, ReceiveOne(env, me, st, messages[0], at), messages[1..], at)
  }

  /** The session for an envelope, as an object; null when there is none and no key to make one. */
  method FindSession(env: Env, me: Account, st: Inbox, e: Envelope, at: int)
      returns (session: DoubleRatchetSession?, st': Inbox)
    requires env.card(e.from).Some?
    ensures session == null ==> SessionFor(env, me, st.disk, st.cache, e) == None && st' == st
    ensures session != null ==>
      && fresh(session) && fresh(session.Parts()) && session.Separate()
      && SessionFor(env, me, st.disk, st.cache, e) == Some(session.View())
      && st' == Obtained(me, st, e.from, session.View(), at)
  {
    st' := st;
    var name := GetSessionKey(me.name, e.from);
    if name in st.cache {
      session := new DoubleRatchetSession.FromState(st.cache[name]);
    } else if name in st.disk {
      session := new DoubleRatchetSession.FromState(LoadFile(st.disk[name]));
    } else if e.initialEphemeralKey.None? {
      return null, st;
    } else {
      var sender := env.card(e.from).value;
      var rootKey := ResponderKeyAgreement(env.p, env.sha256, me.identity, sender.identity,
        e.initialEphemeralKey.value);
      session := new DoubleRatchetSession(env.p, rootKey, me.identity, Some(sender.identity), false, me.identity);
      var created := session.GetState();
      st' := st'.(disk := st'.disk[name := SessionFile(me.name, e.from, at, created)]);
    }
    var found := session.GetState();
    st' := st'.(cache := st'.cache[name := found]);
  }

  method DecryptWith(env: Env, me: Account, st: Inbox, session: DoubleRatchetSession, e: Envelope,
                     msg: Mailbox.PollMsg, at: int)
    returns (st': Inbox)
    requires session.Separate() && Sound(session.View())
    modifies session, session.Parts()
    ensures st' == ReadWith(env, me, st, old(session.View()), e, msg, at)
  {
    var name := GetSessionKey(me.name, e.from);
    var r := session.Decrypt(env.p, e.message.ciphertext, e.message.mac, e.message.header, []);
    var after := session.GetState();
    st' := st.(cache := st.cache[name := after]);
    if r.Ok? {
      st' := Inbox(st'.disk[name := SessionFile(me.name, e.from, at, after)], st'.cache,
                   st'.msgIds + [msg.msgId], st'.shown + [Letter(msg.blob, r.value)]);
    }
  }

  /** One round of the loop: finds or makes the session, decrypts with it and, if that went well, saves it. */
  method ReceiveMessage(env: Env, me: Account, st: Inbox, msg: Mailbox.PollMsg, at: int) returns (st': Inbox)
    ensures st' == ReceiveOne(env, me, st, msg, at)
  {
    var envelope := ReadBlob(env, msg.blob);
    if envelope.None? || !Genuine(env, msg.blob) {
      return st;
    }
    var session, st1 := FindSession(env, me, st, envelope.value, at);
    if session == null {
      return st;
    }
    var found := session.GetState();
    if !Sound(found) {
      return st1;
    }
    st' := DecryptWith(env, me, st1, session, envelope.value, msg, at);
  }

  method ReceiveMessages(env: Env, me: Account, files: Disk, messages: seq<Mailbox.PollMsg>, at: int)
      returns (end: Inbox)
    ensures end == ReceiveLoop(env, me, Inbox(files, map[], [], []), messages, at)
  {
    end := Inbox(files, map[], [], []);
    for i := 0 to |messages|
      invariant ReceiveLoop(env, me, end, messages[i..], at)
        == ReceiveLoop(env, me, Inbox(files, map[], [], []), messages, at)
    {
      assert messages[i..][1..] == messages[i + 1..];
      end := ReceiveMessage(env, me, end, messages[i], at);
    }
  }
}
