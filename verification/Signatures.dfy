/** What the signature decides: an envelope whose signature does not hold is as if it were not there. */
module Signatures {
  import opened Data
  import opened Json
  import opened Base64Url
  import opened Rows
  import opened Ratchet
  import opened Persistence
  import opened SessionManager
  import opened Envelopes
  import opened Scripts
  import opened Subsequences
  import Mailbox

  /** The text a signature is checked over: sender, reader, time and ratchet header, as they came. */
  function SignedParts(j: Json): Json {
    Obj([Field("from", JsonMember(j, "from")),
         Field("to", JsonMember(j, "to")),
         Field("timestamp", JsonMember(j, "timestamp")),
         Field("ratchet_header", JsonMember(JsonMember(j, "ratchet"), "header"))])
  }

  /** That text determines sender, reader, time and header. */
  lemma SignatureCovers(j: Json, k: Json)
    ensures SignedParts(j) == SignedParts(k)
      <==> (&& JsonMember(j, "from") == JsonMember(k, "from") && JsonMember(j, "to") == JsonMember(k, "to")
            && JsonMember(j, "timestamp") == JsonMember(k, "timestamp")
            && JsonMember(JsonMember(j, "ratchet"), "header") == JsonMember(JsonMember(k, "ratchet"), "header"))
  {
    var a, b := SignedParts(j).fields, SignedParts(k).fields;
    assert a == b <==> a[0] == b[0] && a[1] == b[1] && a[2] == b[2] && a[3] == b[3];
  }

  /** A blob of version 2 that names a known sender, whose signature over its parts holds under the sender's key. */
  predicate SignedBySender(env: Env, blob: Bytes) {
    && env.parse(blob).Some?
    && var j := env.parse(blob).value;
       var from, signature := JsonMember(j, "from"), JsonMember(j, "signature");
       && JsonMember(j, "version") == Num(2)
       && ReadEnvelope(j).Some?
       && from.Str? && env.card(from.s).Some?
       && signature.Str? && Decode(signature.s).Some?
       && env.verify(env.render(SignedParts(j)), Decode(signature.s).value, env.card(from.s).value.signing)
  }

  function Signed(env: Env): Mailbox.PollMsg -> bool {
    (msg: Mailbox.PollMsg) => SignedBySender(env, msg.blob)
  }

  /** The check of the script is this one. */
  lemma GenuineIsSigned(env: Env, blob: Bytes)
    ensures Genuine(env, blob) <==> SignedBySender(env, blob)
  {
    if ReadBlob(env, blob).Some? {
      var e := ReadBlob(env, blob).value;
      EnvelopeReadExactly(env.parse(blob).value, e);
      DecodeEncode(e.signature);
    }
  }

  /** A message without a signature of its sender changes nothing and is not acknowledged. */
  lemma UnsignedIsSkipped(env: Env, me: Account, st: Inbox, msg: Mailbox.PollMsg, at: int)
    requires !SignedBySender(env, msg.blob)
    ensures ReceiveOne(env, me, st, msg, at) == st
  {
    GenuineIsSigned(env, msg.blob);
  }

  /** On every page, whatever the blobs and the files: striking out what is not signed changes nothing. */
  lemma {:induction false} UnsignedMayBeStruck(env: Env, me: Account, st: Inbox, messages: seq<Mailbox.PollMsg>,
                                               at: int)
    ensures ReceiveLoop(env, me, st, messages, at) == ReceiveLoop(env, me, st, Keep(messages, Signed(env)), at)
    decreases |messages|
  {
    if messages == [] {
    } else {
      var first, rest := messages[0], messages[1..];
      var kept := Keep(rest, Signed(env));
      if SignedBySender(env, first.blob) {
        UnsignedMayBeStruck(env, me, ReceiveOne(env, me, st, first, at), rest, at);
        LoopFirst(env, me, st, first, kept, at);
      } else {
        UnsignedIsSkipped(env, me, st, first, at);
        UnsignedMayBeStruck(env, me, st, rest, at);
        assert Keep(messages, Signed(env)) == kept;
      }
    }
  }

  lemma LoopFirst(env: Env, me: Account, st: Inbox, first: Mailbox.PollMsg, rest: seq<Mailbox.PollMsg>, at: int)
    ensures ReceiveLoop(env, me, st, [first] + rest, at)
      == ReceiveLoop(env, me, ReceiveOne(env, me, st, first, at), rest, at)
  {
    assert ([first] + rest)[1..] == rest;
  }

  // ---------------------------------------------------------------- what is acknowledged and shown

  /** One round adds nothing, or the id and the blob of its message, which was signed. */
  lemma OneAdds(env: Env, me: Account, st: Inbox, msg: Mailbox.PollMsg, at: int)
    ensures var end := ReceiveOne(env, me, st, msg, at);
      || (end.msgIds == st.msgIds && end.shown == st.shown)
      || (&& SignedBySender(env, msg.blob) && |end.shown| == |st.shown| + 1
          && end.msgIds == st.msgIds + [msg.msgId] && end.shown == st.shown + [end.shown[|st.shown|]]
          && end.shown[|st.shown|].blob == msg.blob)
  {
    if !SignedBySender(env, msg.blob) {
      UnsignedIsSkipped(env, me, st, msg, at);
    } else if Genuine(env, msg.blob) {
      var e := ReadBlob(env, msg.blob).value;
      var session := SessionFor(env, me, st.disk, st.cache, e);
      if session.Some? && Sound(session.value) {
        ReadWithAdds(env, me, Obtained(me, st, e.from, session.value, at), session.value, e, msg, at);
      }
    }
  }

  lemma ReadWithAdds(env: Env, me: Account, st: Inbox, session: State, e: Envelope, msg: Mailbox.PollMsg, at: int)
    requires Sound(session)
    ensures var end := ReadWith(env, me, st, session, e, msg, at);
      || (end.msgIds == st.msgIds && end.shown == st.shown)
      || (&& |end.shown| == |st.shown| + 1
          && end.msgIds == st.msgIds + [msg.msgId] && end.shown == st.shown + [end.shown[|st.shown|]]
          && end.shown[|st.shown|].blob == msg.blob)
  {
  }

  function IdsOf(messages: seq<Mailbox.PollMsg>): (r: seq<string>)
    ensures |r| == |messages| && forall k | 0 <= k < |messages| :: r[k] == messages[k].msgId
  {
    seq(|messages|, k requires 0 <= k < |messages| => messages[k].msgId)
  }

  function BlobsOf(messages: seq<Mailbox.PollMsg>): (r: seq<Bytes>)
    ensures |r| == |messages| && forall k | 0 <= k < |messages| :: r[k] == messages[k].blob
  {
    seq(|messages|, k requires 0 <= k < |messages| => messages[k].blob)
  }

  function Opened(letters: seq<Letter>): (r: seq<Bytes>)
    ensures |r| == |letters| && forall k | 0 <= k < |letters| :: r[k] == letters[k].blob
  {
    seq(|letters|, k requires 0 <= k < |letters| => letters[k].blob)
  }

  /** The loop acknowledged exactly these messages, and the letters it showed came in their blobs. */
  predicate Read(st: Inbox, end: Inbox, read: seq<Mailbox.PollMsg>) {
    end.msgIds == st.msgIds + IdsOf(read) && Opened(end.shown) == Opened(st.shown) + BlobsOf(read)
  }

  lemma ReadNothing(st: Inbox)
    ensures Read(st, st, [])
  {
  }

  lemma ReadThis(st: Inbox, end: Inbox, msg: Mailbox.PollMsg)
    requires |end.shown| == |st.shown| + 1 && end.msgIds == st.msgIds + [msg.msgId]
    requires end.shown == st.shown + [end.shown[|st.shown|]] && end.shown[|st.shown|].blob == msg.blob
    ensures Read(st, end, [msg])
  {
    var letter := end.shown[|st.shown|];
    assert Opened(st.shown + [letter]) == Opened(st.shown) + [letter.blob];
    assert IdsOf([msg]) == [msg.msgId] && BlobsOf([msg]) == [msg.blob];
  }

  lemma ReadOn(st: Inbox, mid: Inbox, end: Inbox, first: seq<Mailbox.PollMsg>, later: seq<Mailbox.PollMsg>)
    requires Read(st, mid, first) && Read(mid, end, later)
    ensures Read(st, end, first + later)
  {
    assert IdsOf(first + later) == IdsOf(first) + IdsOf(later);
    assert BlobsOf(first + later) == BlobsOf(first) + BlobsOf(later);
  }

  /**
   * What the loop acknowledges and shows are one and the same messages, signed ones of the page in the
   * order of the page, each at most once.
   */
  lemma {:induction false} ShownWasSigned(env: Env, me: Account, st: Inbox, messages: seq<Mailbox.PollMsg>, at: int)
    returns (read: seq<Mailbox.PollMsg>)
    ensures Subsequence(read, Keep(messages, Signed(env))) && Read(st, ReceiveLoop(env, me, st, messages, at), read)
    decreases |messages|
  {
    if messages == [] {
      read := [];
      ReadNothing(st);
      SubsequenceSelf<Mailbox.PollMsg>([]);
    } else {
      var first, mid, rest := messages[0], ReceiveOne(env, me, st, messages[0], at), messages[1..];
      OneAdds(env, me, st, first, at);
      var later := ShownWasSigned(env, me, mid, rest, at);
      var kept := Keep(rest, Signed(env));
      if mid.msgIds == st.msgIds && mid.shown == st.shown {
        read := later;
        SubsequenceSkip(first, later, kept);
        assert Keep(messages, Signed(env)) == if SignedBySender(env, first.blob) then [first] + kept else kept;
      } else {
        read := [first] + later;
        ReadThis(st, mid, first);
        ReadOn(st, mid, ReceiveLoop(env, me, st, messages, at), [first], later);
        SubsequenceAfter([first], later, kept);
      }
    }
  }

  // ---------------------------------------------------------------- what one round does to the files

  /** The session a signed envelope is read with: the one held, the one on file, or one made with its key. */
  predicate ReadsWith(env: Env, me: Account, st: Inbox, e: Envelope, session: State) {
    var name := GetSessionKey(me.name, e.from);
    if name in st.cache then session == st.cache[name]
    else if name in st.disk then session == LoadFile(st.disk[name])
    else
      && e.initialEphemeralKey.Some? && env.card(e.from).Some?
      && var rootKey := env.sha256(env.p.sharedKey(me.identity.secretKey, env.card(e.from).value.identity)
                                   + env.p.sharedKey(me.identity.secretKey, e.initialEphemeralKey.value)
                                   + TextBytes("WhisperX3DHRootKey"));
         session == State(rootKey, me.identity, Some(env.card(e.from).value.identity), None, None, None, 0, [])
  }

  /** The file and the session of a name are as they were. */
  predicate KeepsName(st: Inbox, end: Inbox, name: string) {
    && (name in end.disk <==> name in st.disk) && (name in st.disk ==> end.disk[name] == st.disk[name])
    && (name in end.cache <==> name in st.cache) && (name in st.cache ==> end.cache[name] == st.cache[name])
  }

  lemma ObtainedKeeps(me: Account, st: Inbox, from: string, session: State, at: int, name: string)
    requires name != GetSessionKey(me.name, from)
    ensures KeepsName(st, Obtained(me, st, from, session, at), name)
  {
  }

  lemma ReadWithKeeps(env: Env, me: Account, st: Inbox, session: State, e: Envelope, msg: Mailbox.PollMsg, at: int,
                      name: string)
    requires Sound(session) && name != GetSessionKey(me.name, e.from)
    ensures KeepsName(st, ReadWith(env, me, st, session, e, msg, at), name)
  {
  }

  /** The files and sessions of every other sender stay as they are. */
  lemma OtherFilesStay(env: Env, me: Account, st: Inbox, msg: Mailbox.PollMsg, at: int, name: string)
    requires ReadBlob(env, msg.blob).Some? ==> name != GetSessionKey(me.name, ReadBlob(env, msg.blob).value.from)
    ensures KeepsName(st, ReceiveOne(env, me, st, msg, at), name)
  {
    if Genuine(env, msg.blob) {
      var e := ReadBlob(env, msg.blob).value;
      var session := SessionFor(env, me, st.disk, st.cache, e);
      if session.Some? {
        var st1 := Obtained(me, st, e.from, session.value, at);
        ObtainedKeeps(me, st, e.from, session.value, at, name);
        if Sound(session.value) {
          ReadWithKeeps(env, me, st1, session.value, e, msg, at, name);
        }
      }
    }
  }

  /** Without a session and without a key for one nothing happens. */
  lemma NoSessionIsSkipped(env: Env, me: Account, st: Inbox, msg: Mailbox.PollMsg, e: Envelope, at: int)
    requires ReadBlob(env, msg.blob) == Some(e) && forall session :: !ReadsWith(env, me, st, e, session)
    ensures ReceiveOne(env, me, st, msg, at) == st
  {
    if Genuine(env, msg.blob) {
      var session := SessionFor(env, me, st.disk, st.cache, e);
      assert session.Some? ==> ReadsWith(env, me, st, e, session.value);
    }
  }

  /**
   * A signed envelope that is decrypted is shown and acknowledged, and the session after it is saved.
   * One that is refused saves nothing but a session that was made for it; the session held moves on.
   */
  lemma RoundSpelled(env: Env, me: Account, st: Inbox, msg: Mailbox.PollMsg, e: Envelope, session: State, at: int)
    requires SignedBySender(env, msg.blob) && ReadBlob(env, msg.blob) == Some(e)
    requires ReadsWith(env, me, st, e, session)
    requires session.receivingChain.Some? ==> session.remotePublicKey.Some?
    requires session.sendingChain.Some? ==> session.currentDHPublicKey.Some?
    ensures var name := GetSessionKey(me.name, e.from);
      var (after, r) := Decrypt(env.p, session, e.message, []);
      var end := ReceiveOne(env, me, st, msg, at);
      && name in end.cache && end.cache[name] == after
      && (r.Ok? ==>
            && name in end.disk && end.disk[name] == SessionFile(me.name, e.from, at, after)
            && end.msgIds == st.msgIds + [msg.msgId] && end.shown == st.shown + [Letter(msg.blob, r.value)])
      && (r.Err? ==> end.msgIds == st.msgIds && end.shown == st.shown)
      && (r.Err? && name !in st.cache && name !in st.disk
          ==> end.disk == st.disk[name := SessionFile(me.name, e.from, at, session)])
      && (r.Err? && (name in st.cache || name in st.disk) ==> end.disk == st.disk)
  {
    GenuineIsSigned(env, msg.blob);
    assert SessionFor(env, me, st.disk, st.cache, e) == Some(session);
  }

  // ---------------------------------------------------------------- the sender's part

  /** JSON is read as it was written. */
  ghost predicate Parses(env: Env) {
    forall e :: env.parse(env.render(EnvelopeJson(e))) == Some(EnvelopeJson(e))
  }

  /** The envelope a run of the send script deposits. */
  lemma SentEnvelope(env: Env, me: Account, to: string, disk: Disk, plaintext: Bytes, draw: Draw)
    returns (m: Message, ephemeral: Option<Bytes>)
    requires SendMessage(env, me, to, disk, plaintext, draw).1.Some?
    ensures SendMessage(env, me, to, disk, plaintext, draw).1
      == Some(env.render(EnvelopeJson(Sign(env, me, to, draw.at, m, ephemeral))))
  {
    var name := GetSessionKey(me.name, to);
    var first := name !in disk;
    var session := if first then FirstSession(env, me, env.card(to).value, draw) else LoadFile(disk[name]);
    m := Encrypt(env.p, session, plaintext, [], draw.generated).1.value;
    ephemeral := if first then Some(draw.ephemeral.publicKey) else None;
  }

  lemma SignSigns(env: Env, me: Account, to: string, at: int, m: Message, ephemeral: Option<Bytes>)
    ensures var j := EnvelopeJson(Sign(env, me, to, at, m, ephemeral));
      && JsonMember(j, "version") == Num(2)
      && JsonMember(j, "from") == Str(me.name) && JsonMember(j, "to") == Str(to)
      && JsonMember(j, "timestamp") == Num(at)
      && JsonMember(j, "signature") == Str(Encode(env.sign(env.render(SignedParts(j)), me.signingKey)))
  {
    var e := Sign(env, me, to, at, m, ephemeral);
    EnvelopeFields(e);
    EnvelopeSignature(e);
    SignedAsWritten(e);
  }

  /** The blob deposited is signed under the sender's key, over the parts a reader checks. */
  lemma SentIsSigned(env: Env, me: Account, to: string, disk: Disk, plaintext: Bytes, draw: Draw)
    requires Parses(env) && SendMessage(env, me, to, disk, plaintext, draw).1.Some?
    ensures var j := env.parse(SendMessage(env, me, to, disk, plaintext, draw).1.value);
      && j.Some? && JsonMember(j.value, "version") == Num(2)
      && JsonMember(j.value, "from") == Str(me.name) && JsonMember(j.value, "to") == Str(to)
      && JsonMember(j.value, "timestamp") == Num(draw.at)
      && JsonMember(j.value, "signature") == Str(Encode(env.sign(env.render(SignedParts(j.value)), me.signingKey)))
  {
    var m, ephemeral := SentEnvelope(env, me, to, disk, plaintext, draw);
    SignSigns(env, me, to, draw.at, m, ephemeral);
  }

  /** So it passes the check of every reader whose card of the sender holds the matching key. */
  lemma SentPassesCheck(env: Env, me: Account, to: string, disk: Disk, plaintext: Bytes, draw: Draw)
    requires Parses(env) && SendMessage(env, me, to, disk, plaintext, draw).1.Some?
    requires env.card(me.name).Some?
    requires forall text :: env.verify(text, env.sign(text, me.signingKey), env.card(me.name).value.signing)
    ensures SignedBySender(env, SendMessage(env, me, to, disk, plaintext, draw).1.value)
  {
    var m, ephemeral := SentEnvelope(env, me, to, disk, plaintext, draw);
    SignedPasses(env, me, to, draw.at, m, ephemeral);
  }

  lemma SignedPasses(env: Env, me: Account, to: string, at: int, m: Message, ephemeral: Option<Bytes>)
    requires Parses(env) && env.card(me.name).Some?
    requires forall text :: env.verify(text, env.sign(text, me.signingKey), env.card(me.name).value.signing)
    ensures SignedBySender(env, env.render(EnvelopeJson(Sign(env, me, to, at, m, ephemeral))))
  {
    var e := Sign(env, me, to, at, m, ephemeral);
    SignSigns(env, me, to, at, m, ephemeral);
    EnvelopeRoundTrip(e);
    EnvelopeSignature(e);
    DecodeEncode(e.signature);
    DecodeEncode(env.sign(env.render(SignedParts(EnvelopeJson(e))), me.signingKey));
    PartsPass(env, env.render(EnvelopeJson(e)), EnvelopeJson(e), me.name, e.signature);
  }

  lemma PartsPass(env: Env, blob: Bytes, j: Json, from: string, signature: Bytes)
    requires env.parse(blob) == Some(j) && ReadEnvelope(j).Some? && JsonMember(j, "version") == Num(2)
    requires JsonMember(j, "from") == Str(from) && JsonMember(j, "signature") == Str(Encode(signature))
    requires env.card(from).Some? && env.verify(env.render(SignedParts(j)), signature, env.card(from).value.signing)
    ensures SignedBySender(env, blob)
  {
    DecodeEncode(signature);
  }
}
