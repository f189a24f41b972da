/** The envelope a message travels in: JSON with base64url parts, signed over its routing and ratchet header. */
module Envelopes {
  import opened Data
  import opened Json
  import opened Base64Url
  import opened Ratchet
  import opened Persistence

  datatype Envelope = Envelope(
    from: string,
    to: string,
    timestamp: int,
    message: Message,
    initialEphemeralKey: Option<Bytes>,
    signature: Bytes)

  function HeaderPart(h: Header): Json {
    Obj([Field("dhPublicKey", Str(Encode(h.dhPublicKey))),
         Field("messageNumber", Num(h.messageNumber)),
         Field("previousChainLength", Num(h.previousChainLength))])
  }

  function RatchetPart(m: Message): Json {
    Obj([Field("ciphertext", Str(Encode(m.ciphertext))),
         Field("mac", Str(Encode(m.mac))),
         Field("header", HeaderPart(m.header))])
  }

  /** What the signature covers. */
  function SignedPart(from: string, to: string, timestamp: int, h: Header): Json {
    Obj([Field("from", Str(from)), Field("to", Str(to)), Field("timestamp", Num(timestamp)),
         Field("ratchet_header", HeaderPart(h))])
  }

  function EphemeralPart(key: Option<Bytes>): seq<Field> {
    if key.Some? then [Field("initialEphemeralKey", Str(Encode(key.value)))] else []
  }

  /** The envelope as sent; fields stand in the order they were set. */
  function EnvelopeJson(e: Envelope): Json {
    Obj([Field("version", Num(2)), Field("from", Str(e.from)), Field("to", Str(e.to)),
      Field("timestamp", Num(e.timestamp)),
         Field("ratchet", RatchetPart(e.message))]
        + EphemeralPart(e.initialEphemeralKey)
        + [Field("signature", Str(Encode(e.signature)))])
  }

  // ---------------------------------------------------------------- reading

  function AsText(j: Json): Option<string> {
    if j.Str? then Some(j.s) else None
  }

  function AsCoded(j: Json): Option<Bytes> {
    if j.Str? then Decode(j.s) else None
  }

  function AsCount(j: Json): Option<nat> {
    if j.Num? && j.n >= 0 then Some(j.n) else None
  }

  function ReadHeader(j: Json): Option<Header> {
    var key, number, previous :=
      AsCoded(JsonMember(j, "dhPublicKey")), AsCount(JsonMember(j, "messageNumber")),
        AsCount(JsonMember(j, "previousChainLength"));
    if key.None? || number.None? || previous.None? then None else Some(Header(key.value, number.value, previous.value))
  }

  function ReadMessage(j: Json): Option<Message> {
    var ciphertext, mac, header :=
      AsCoded(JsonMember(j, "ciphertext")), AsCoded(JsonMember(j, "mac")), ReadHeader(JsonMember(j, "header"));
    if ciphertext.None? || mac.None? || header.None? then None
      else Some(Message(ciphertext.value, mac.value, header.value))
  }

  /** None for other versions and for envelopes that are not of the shape above. */
  function ReadEnvelope(j: Json): Option<Envelope> {
    var from, to, timestamp := AsText(JsonMember(j, "from")), AsText(JsonMember(j, "to")), JsonMember(j, "timestamp");
    var message, signature := ReadMessage(JsonMember(j, "ratchet")), AsCoded(JsonMember(j, "signature"));
    var ephemeral := JsonMember(j, "initialEphemeralKey");
    if JsonMember(j, "version") != Num(2) || from.None? || to.None? || !timestamp.Num? || message.None?
      || signature.None? then None
    else Some(Envelope(from.value, to.value, timestamp.n, message.value, AsCoded(ephemeral), signature.value))
  }

  /** What the signature is checked over: the parts of the envelope as they came. */
  function SignedText(j: Json): Json {
    Obj([Field("from", JsonMember(j, "from")), Field("to", JsonMember(j, "to")),
         Field("timestamp", JsonMember(j, "timestamp")),
         Field("ratchet_header", JsonMember(JsonMember(j, "ratchet"), "header"))])
  }

  // ---------------------------------------------------------------- round trip

  lemma {:induction false} JsonGetAt(fs: seq<Field>, i: nat)
    requires i < |fs| && forall j | 0 <= j < i :: fs[j].key != fs[i].key
    ensures JsonGet(fs, fs[i].key) == fs[i].value
  {
    if i == 0 {
    } else {
      assert fs[0].key != fs[i].key;
      JsonGetAt(fs[1..], i - 1);
    }
  }

  lemma {:induction false} JsonGetMissing(fs: seq<Field>, key: string)
    requires forall j | 0 <= j < |fs| :: fs[j].key != key
    ensures JsonGet(fs, key) == Null
  {
    if fs == [] {
    } else {
      assert fs[0].key != key;
      JsonGetMissing(fs[1..], key);
    }
  }

  lemma HeaderRead(h: Header)
    ensures ReadHeader(HeaderPart(h)) == Some(h)
  {
    var fs := HeaderPart(h).fields;
    JsonGetAt(fs, 0);
    JsonGetAt(fs, 1);
    JsonGetAt(fs, 2);
    DecodeEncode(h.dhPublicKey);
  }

  lemma MessageRead(m: Message)
    ensures ReadMessage(RatchetPart(m)) == Some(m)
  {
    var fs := RatchetPart(m).fields;
    JsonGetAt(fs, 0);
    JsonGetAt(fs, 1);
    JsonGetAt(fs, 2);
    DecodeEncode(m.ciphertext);
    DecodeEncode(m.mac);
    HeaderRead(m.header);
  }

  lemma EnvelopeFields(e: Envelope)
    ensures var j := EnvelopeJson(e);
      && JsonMember(j, "version") == Num(2) && JsonMember(j, "from") == Str(e.from) && JsonMember(j, "to") == Str(e.to)
      && JsonMember(j, "timestamp") == Num(e.timestamp) && JsonMember(j, "ratchet") == RatchetPart(e.message)
  {
    var fs := EnvelopeJson(e).fields;
    JsonGetAt(fs, 0);
    JsonGetAt(fs, 1);
    JsonGetAt(fs, 2);
    JsonGetAt(fs, 3);
    JsonGetAt(fs, 4);
  }

  lemma EnvelopeSignature(e: Envelope)
    ensures JsonMember(EnvelopeJson(e), "signature") == Str(Encode(e.signature))
  {
    var fs := EnvelopeJson(e).fields;
    JsonGetAt(fs, |fs| - 1);
  }

  lemma EnvelopeEphemeral(e: Envelope)
    ensures JsonMember(EnvelopeJson(e), "initialEphemeralKey")
      == if e.initialEphemeralKey.Some? then Str(Encode(e.initialEphemeralKey.value)) else Null
  {
    var fs := EnvelopeJson(e).fields;
    if e.initialEphemeralKey.Some? {
      JsonGetAt(fs, 5);
    } else {
      JsonGetMissing(fs, "initialEphemeralKey");
    }
  }

  /** An envelope is read as it was written, the optional key included. */
  lemma EnvelopeRoundTrip(e: Envelope)
    ensures ReadEnvelope(EnvelopeJson(e)) == Some(e)
  {
    EnvelopeFields(e);
    EnvelopeSignature(e);
    EnvelopeEphemeral(e);
    MessageRead(e.message);
    DecodeEncode(e.signature);
    if e.initialEphemeralKey.Some? {
      DecodeEncode(e.initialEphemeralKey.value);
    }
  }

  /** The reader checks the signature over what the writer signed. */
  lemma SignedAsWritten(e: Envelope)
    ensures SignedText(EnvelopeJson(e)) == SignedPart(e.from, e.to, e.timestamp, e.message.header)
  {
    EnvelopeFields(e);
    JsonGetAt(RatchetPart(e.message).fields, 2);
  }

  // ---------------------------------------------------------------- reading, part by part

  lemma CodedIs(j: Json, b: Bytes)
    ensures AsCoded(j) == Some(b) <==> j == Str(Encode(b))
  {
    if j.Str? {
      DecodeInverts(j.s, b);
    }
  }

  /** The parts of the ratchet header. */
  ghost predicate HeaderHas(j: Json, h: Header) {
    && JsonMember(j, "dhPublicKey") == Str(Encode(h.dhPublicKey))
    && JsonMember(j, "messageNumber") == Num(h.messageNumber)
    && JsonMember(j, "previousChainLength") == Num(h.previousChainLength)
  }

  lemma HeaderReadExactly(j: Json, h: Header)
    ensures ReadHeader(j) == Some(h) <==> HeaderHas(j, h)
  {
    CodedIs(JsonMember(j, "dhPublicKey"), h.dhPublicKey);
  }

  ghost predicate MessageHas(j: Json, m: Message) {
    && JsonMember(j, "ciphertext") == Str(Encode(m.ciphertext)) && JsonMember(j, "mac") == Str(Encode(m.mac))
    && HeaderHas(JsonMember(j, "header"), m.header)
  }

  lemma MessageReadExactly(j: Json, m: Message)
    ensures ReadMessage(j) == Some(m) <==> MessageHas(j, m)
  {
    CodedIs(JsonMember(j, "ciphertext"), m.ciphertext);
    CodedIs(JsonMember(j, "mac"), m.mac);
    HeaderReadExactly(JsonMember(j, "header"), m.header);
  }

  /** The key for a session, when there is one that can be decoded. */
  ghost predicate KeyHas(j: Json, key: Option<Bytes>) {
    if key.Some? then j == Str(Encode(key.value)) else forall b: Bytes :: j != Str(Encode(b))
  }

  lemma KeyReadExactly(j: Json, key: Option<Bytes>)
    ensures AsCoded(j) == key <==> KeyHas(j, key)
  {
    if key.Some? {
      CodedIs(j, key.value);
    } else if AsCoded(j).Some? {
      CodedIs(j, AsCoded(j).value);
    } else {
      forall b: Bytes ensures j != Str(Encode(b)) {
        CodedIs(j, b);
      }
    }
  }

  /** An envelope is read exactly from a value of version 2 with these parts. */
  lemma EnvelopeReadExactly(j: Json, e: Envelope)
    ensures ReadEnvelope(j) == Some(e)
      <==> (&& JsonMember(j, "version") == Num(2)
            && JsonMember(j, "from") == Str(e.from) && JsonMember(j, "to") == Str(e.to)
            && JsonMember(j, "timestamp") == Num(e.timestamp)
            && MessageHas(JsonMember(j, "ratchet"), e.message)
            && KeyHas(JsonMember(j, "initialEphemeralKey"), e.initialEphemeralKey)
            && JsonMember(j, "signature") == Str(Encode(e.signature)))
  {
    MessageReadExactly(JsonMember(j, "ratchet"), e.message);
    KeyReadExactly(JsonMember(j, "initialEphemeralKey"), e.initialEphemeralKey);
    CodedIs(JsonMember(j, "signature"), e.signature);
  }
}
