/** What the authentication code of a message covers, and what a reader does with a message that was altered. */
module MessageMac {
  import opened Data
  import opened Json
  import opened JsonText
  import opened Ratchet

  // ---------------------------------------------------------------- the text covered

  /** The decimal texts of octets. */
  function Decimals(bytes: Bytes): (r: seq<string>)
    ensures |r| == |bytes| && forall i | 0 <= i < |bytes| :: r[i] == Decimal(bytes[i] as int)
  {
    seq(|bytes|, i requires 0 <= i < |bytes| => Decimal(bytes[i] as int))
  }

  lemma JoinedIsJoin(bytes: Bytes)
    ensures Joined(bytes) == Join(Decimals(bytes))
  {
    if bytes != [] {
      JoinedFirst(bytes);
      RestIsCommas(bytes);
      JoinFirst(Decimal(bytes[0] as int), Decimals(bytes[1..]));
      assert Decimals(bytes) == [Decimal(bytes[0] as int)] + Decimals(bytes[1..]);
    }
  }

  lemma {:induction false} RestIsCommas(bytes: Bytes)
    requires bytes != []
    ensures JoinedRest(bytes) == Commas(Decimals(bytes[1..]))
  {
    if |bytes| == 1 {
      assert Decimals(bytes[1..]) == [];
    } else {
      var rest := bytes[1..];
      JoinedFirst(rest);
      RestIsCommas(rest);
      CommasOf(Decimals(rest), Decimal(rest[0] as int), Decimals(rest[1..]));
      Associate(",", Decimal(rest[0] as int), JoinedRest(rest));
    }
  }

  lemma CommasOf(parts: seq<string>, first: string, rest: seq<string>)
    requires |parts| == |rest| + 1 && parts[0] == first && forall i | 0 <= i < |rest| :: parts[i + 1] == rest[i]
    ensures Commas(parts) == "," + first + Commas(rest)
  {
    assert parts[1..] == rest;
  }

  /** The label of a skipped key: its octets in decimal, joined by commas, a dash and the number. */
  lemma LabelSpelled(remotePublicKey: Bytes, number: nat)
    ensures Label(remotePublicKey, number) == Join(Decimals(remotePublicKey)) + "-" + Decimal(number)
  {
    JoinedIsJoin(remotePublicKey);
  }

  lemma NumberTexts(bytes: Bytes)
    ensures Text(Arr(ByteNumbers(bytes))) == "[" + Join(Decimals(bytes)) + "]"
  {
    TextSpelled(Arr(ByteNumbers(bytes)));
    assert Texts(ByteNumbers(bytes)) == Decimals(bytes);
  }

  lemma ThreeJoined(parts: seq<string>)
    requires |parts| == 3
    ensures Join(parts) == parts[0] + "," + parts[1] + "," + parts[2]
  {
    assert [parts[0]] + [parts[1]] + [parts[2]] == parts;
    JoinMore([parts[0]] + [parts[1]], parts[2]);
    JoinMore([parts[0]], parts[1]);
  }

  predicate AllPlain(s: string) {
    forall i | 0 <= i < |s| :: Plain(s[i])
  }

  lemma {:induction false} PlainCharacters(s: string)
    requires AllPlain(s)
    ensures Characters(s) == s
  {
    if s == "" {
    } else {
      var front, last := s[..|s| - 1], s[|s| - 1];
      assert s == front + [last] && Plain(last);
      PlainCharacters(front);
      EscapeSpelled(last);
    }
  }

  function Named(key: string, text: string): string {
    "\"" + key + "\":" + text
  }

  lemma MemberText(f: Field)
    requires AllPlain(f.key)
    ensures Text(Str(f.key)) + ":" + Text(f.value) == Named(f.key, Text(f.value))
  {
    TextSpelled(Str(f.key));
    PlainCharacters(f.key);
    assert "\"" + f.key + "\"" + ":" == "\"" + f.key + "\":";
  }

  lemma ThreeMembers(fs: seq<Field>)
    requires |fs| == 3 && forall i | 0 <= i < 3 :: AllPlain(fs[i].key)
    ensures Text(Obj(fs))
      == "{" + (Named(fs[0].key, Text(fs[0].value)) + "," + Named(fs[1].key, Text(fs[1].value))
        + "," + Named(fs[2].key, Text(fs[2].value))) + "}"
  {
    TextSpelled(Obj(fs));
    MemberText(fs[0]);
    MemberText(fs[1]);
    MemberText(fs[2]);
    ThreeJoined(MemberTexts(fs));
  }

  lemma KeysArePlain()
    ensures AllPlain("dhPublicKey") && AllPlain("messageNumber") && AllPlain("previousChainLength")
  {
  }

  /** The header as it stands in the text covered. */
  lemma HeaderSpelled(h: Header)
    ensures Text(HeaderJson(h))
      == "{" + (Named("dhPublicKey", "[" + Join(Decimals(h.dhPublicKey)) + "]")
        + "," + Named("messageNumber", Decimal(h.messageNumber))
        + "," + Named("previousChainLength", Decimal(h.previousChainLength))) + "}"
  {
    KeysArePlain();
    ThreeMembers(HeaderJson(h).fields);
    NumberTexts(h.dhPublicKey);
  }

  // ---------------------------------------------------------------- what it determines

  /** One byte a character. */
  predicate Narrow(s: string) {
    forall i | 0 <= i < |s| :: s[i] as int < 256
  }

  lemma NarrowJoin(parts: seq<string>)
    requires forall i | 0 <= i < |parts| :: Narrow(parts[i])
    ensures Narrow(Join(parts))
  {
    if |parts| > 1 {
      NarrowJoin(parts[..|parts| - 1]);
    }
  }

  lemma NarrowNamed(key: string, text: string)
    requires Narrow(key) && Narrow(text)
    ensures Narrow(Named(key, text))
  {
  }

  lemma NarrowThree(a: string, b: string, c: string)
    requires Narrow(a) && Narrow(b) && Narrow(c)
    ensures Narrow("{" + (a + "," + b + "," + c) + "}")
  {
    var s, t := a + "," + b, "," + c;
    assert Narrow(s) && Narrow(t);
    assert a + "," + b + "," + c == s + t;
    assert Narrow(s + t);
  }

  lemma NarrowDecimals(bytes: Bytes)
    ensures Narrow("[" + Join(Decimals(bytes)) + "]")
  {
    var parts := Decimals(bytes);
    forall i | 0 <= i < |parts| ensures Narrow(parts[i]) {
      assert forall k | 0 <= k < |parts[i]| :: IsDigit(parts[i][k]);
    }
    NarrowJoin(parts);
  }

  lemma HeaderIsNarrow(h: Header)
    ensures Narrow(Text(HeaderJson(h)))
  {
    HeaderSpelled(h);
    KeysArePlain();
    NarrowDecimals(h.dhPublicKey);
    NarrowNamed("dhPublicKey", "[" + Join(Decimals(h.dhPublicKey)) + "]");
    NarrowNamed("messageNumber", Decimal(h.messageNumber));
    NarrowNamed("previousChainLength", Decimal(h.previousChainLength));
    NarrowThree(Named("dhPublicKey", "[" + Join(Decimals(h.dhPublicKey)) + "]"),
      Named("messageNumber", Decimal(h.messageNumber)),
      Named("previousChainLength", Decimal(h.previousChainLength)));
  }

  /** Bytes as the characters they stand for. */
  function Characters256(b: Bytes): (s: string)
    ensures |s| == |b|
  {
    seq(|b|, i requires 0 <= i < |b| => b[i] as char)
  }

  lemma BytesOfText(s: string, rest: Bytes)
    requires Narrow(s)
    ensures Characters256(TextBytes(s) + rest) == s + Characters256(rest)
  {
    var b := TextBytes(s) + rest;
    forall i | 0 <= i < |b| ensures Characters256(b)[i] == (s + Characters256(rest))[i] {
      if i < |s| {
        assert b[i] == TextBytes(s)[i];
      }
    }
  }

  lemma CharactersInjective(a: Bytes, b: Bytes)
    requires Characters256(a) == Characters256(b)
    ensures a == b
  {
    forall i | 0 <= i < |a| ensures a[i] == b[i] {
      assert Characters256(a)[i] == Characters256(b)[i];
      assert a[i] as char as int == a[i] as int;
    }
  }

  /** The text of an object ends where its brace closes, whatever follows. */
  lemma ObjectDelimitsItself(fs: seq<Field>, x: string, gs: seq<Field>, y: string)
    requires Text(Obj(fs)) + x == Text(Obj(gs)) + y
    ensures fs == gs && x == y
  {
    BracketSplit('{', Members(fs), '}', x);
    BracketSplit('{', Members(gs), '}', y);
    MembersUnique(fs, x, gs, y);
  }

  lemma HeaderJsonInjective(h: Header, g: Header)
    requires HeaderJson(h) == HeaderJson(g)
    ensures h == g
  {
    var a, b := ByteNumbers(h.dhPublicKey), ByteNumbers(g.dhPublicKey);
    assert HeaderJson(h).fields[0].value.items == a && HeaderJson(g).fields[0].value.items == b;
    assert HeaderJson(h).fields[1] == HeaderJson(g).fields[1] && HeaderJson(h).fields[2] == HeaderJson(g).fields[2];
    forall i | 0 <= i < |a| ensures h.dhPublicKey[i] == g.dhPublicKey[i] {
      assert a[i] == b[i];
    }
  }

  lemma CancelBytes(a: Bytes, x: Bytes, b: Bytes, y: Bytes)
    requires |a| == |b| && a + x == b + y
    ensures a == b && x == y
  {
    assert (a + x)[..|a|] == a && (b + y)[..|b|] == b;
    assert (a + x)[|a|..] == x && (b + y)[|b|..] == y;
  }

  /** The text covered: the associated data, the header's JSON text and the ciphertext, one after the other. */
  lemma CoveredText(associatedData: Bytes, h: Header, ciphertext: Bytes)
    ensures MacInput(associatedData, h, ciphertext)
      == associatedData
        + (TextBytes("{" + (Named("dhPublicKey", "[" + Join(Decimals(h.dhPublicKey)) + "]")
                            + "," + Named("messageNumber", Decimal(h.messageNumber))
                            + "," + Named("previousChainLength", Decimal(h.previousChainLength))) + "}")
          + ciphertext)
  {
    HeaderSpelled(h);
  }

  /** The text covered determines header and ciphertext, and the associated data when its length is known. */
  lemma MacCoversMessage(associatedData: Bytes, h: Header, ciphertext: Bytes, other: Bytes, g: Header, text: Bytes)
    requires |associatedData| == |other|
    ensures MacInput(associatedData, h, ciphertext) == MacInput(other, g, text)
      <==> associatedData == other && h == g && ciphertext == text
  {
    if MacInput(associatedData, h, ciphertext) == MacInput(other, g, text) {
      var s, t := Text(HeaderJson(h)), Text(HeaderJson(g));
      assert associatedData + (TextBytes(s) + ciphertext) == MacInput(associatedData, h, ciphertext);
      assert other + (TextBytes(t) + text) == MacInput(other, g, text);
      CancelBytes(associatedData, TextBytes(s) + ciphertext, other, TextBytes(t) + text);
      HeaderAndRest(h, ciphertext, g, text);
    }
  }

  /** A header may be taken for associated data, when the ciphertext starts with another one. */
  lemma DataIsNotDelimited(h: Header, g: Header, text: Bytes)
    ensures MacInput([], h, TextBytes(Text(HeaderJson(g))) + text) == MacInput(TextBytes(Text(HeaderJson(h))), g, text)
  {
    var s, t := TextBytes(Text(HeaderJson(h))), TextBytes(Text(HeaderJson(g)));
    assert [] + s + (t + text) == s + t + text;
  }

  lemma HeaderAndRest(h: Header, ciphertext: Bytes, g: Header, text: Bytes)
    requires TextBytes(Text(HeaderJson(h))) + ciphertext == TextBytes(Text(HeaderJson(g))) + text
    ensures h == g && ciphertext == text
  {
    HeaderIsNarrow(h);
    HeaderIsNarrow(g);
    BytesOfText(Text(HeaderJson(h)), ciphertext);
    BytesOfText(Text(HeaderJson(g)), text);
    ObjectDelimitsItself(HeaderJson(h).fields, Characters256(ciphertext), HeaderJson(g).fields, Characters256(text));
    HeaderJsonInjective(h, g);
    CharactersInjective(ciphertext, text);
  }

  // ---------------------------------------------------------------- sealing and refusing

  /** Two different texts have one tag, under whatever keys. */
  ghost predicate TagCollision(p: Primitives, tag: Bytes) {
    exists k: Bytes, l: Bytes, s: Bytes, t: Bytes {:trigger p.mac(k, s), p.mac(l, t)} ::
      s != t && p.mac(k, s) == tag && p.mac(l, t) == tag
  }

  /** The tag of a message sent is taken over associated data, header and ciphertext, in this order. */
  lemma SentTag(p: Primitives, st: State, plaintext: Bytes, associatedData: Bytes, generated: KeyPair, m: Message)
    requires st.sendingChain.Some? ==> st.currentDHPublicKey.Some?
    requires Encrypt(p, st, plaintext, associatedData, generated).1 == Ok(m)
    ensures exists messageKey: Bytes ::
      var keys := p.messageKeys(messageKey);
      && m.ciphertext == p.seal(keys.encKey, keys.iv, plaintext)
      && m.mac == p.mac(keys.authKey, associatedData + TextBytes(Text(HeaderJson(m.header))) + m.ciphertext)
  {
    var st1 := if st.sendingChain.Some? then st else RatchetSend(p, st, generated);
    var messageKey := p.chainStep(st1.sendingChain.value.key).messageKey;
    assert m == Sealed(p, messageKey, m.header, plaintext, associatedData);
  }

  /** A message is opened exactly when its tag is the one of its own text, under the key of its place. */
  lemma OpenedExactlyWhen(p: Primitives, st: State, msg: Message, associatedData: Bytes, text: Bytes)
    requires st.Valid()
    ensures var chain := Positioned(p, st, msg.header).receivingChain.value;
      var keys := p.messageKeys(p.chainStep(chain.key).messageKey);
      var tag := p.mac(keys.authKey, associatedData + TextBytes(Text(HeaderJson(msg.header))) + msg.ciphertext);
      var r := Decrypt(p, st, msg, associatedData).1;
      && (r == Ok(text) <==> msg.mac == tag && p.open(keys.encKey, keys.iv, msg.ciphertext) == Some(text))
      && (r == Err(BadPadding) <==> msg.mac == tag && p.open(keys.encKey, keys.iv, msg.ciphertext) == None)
      && (r == Err(MacFailed) <==> msg.mac != tag)
  {
  }

  /**
   * A message that was altered in header or ciphertext, or is read under other associated data of the
   * same length, and carries the tag of the message sent, is refused by every session, unless the tag
   * belongs to two different texts.
   */
  lemma AlteredIsRefused(p: Primitives, sender: State, plaintext: Bytes, associatedData: Bytes, generated: KeyPair,
                         m: Message, reader: State, msg: Message, other: Bytes)
    requires sender.sendingChain.Some? ==> sender.currentDHPublicKey.Some?
    requires Encrypt(p, sender, plaintext, associatedData, generated).1 == Ok(m)
    requires reader.Valid() && |other| == |associatedData|
    requires msg.mac == m.mac && (msg.header, msg.ciphertext, other) != (m.header, m.ciphertext, associatedData)
    ensures Decrypt(p, reader, msg, other).1 == Err(MacFailed) || TagCollision(p, m.mac)
  {
    SentTag(p, sender, plaintext, associatedData, generated, m);
    var messageKey: Bytes :| m.mac == p.mac(p.messageKeys(messageKey).authKey,
      associatedData + TextBytes(Text(HeaderJson(m.header))) + m.ciphertext);
    MacCoversMessage(associatedData, m.header, m.ciphertext, other, msg.header, msg.ciphertext);
    OpenedExactlyWhen(p, reader, msg, other, []);
  }
}
