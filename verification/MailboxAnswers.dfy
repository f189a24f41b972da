/** When each request is granted, and what it then does, said without the order in which the code checks. */
module MailboxAnswers {
  import opened Data
  import opened Base64Url
  import opened Cursor
  import opened Rows
  import opened Mailbox
  import opened BearerTokens

  // ---------------------------------------------------------------- access

  /** The request carries the token, of 32 bytes, whose hash is given. */
  ghost predicate Presents(c: Config, auth: Option<string>, hash: Bytes) {
    exists raw: Bytes :: BearerToken(auth) == Ok(Encode(raw)) && |raw| == 32 && c.hmac(c.secret, raw) == hash
  }

  lemma PresentsItsHash(c: Config, auth: Option<string>, hash: Bytes)
    ensures TokenHash(c, auth) == Ok(hash) <==> Presents(c, auth, hash)
  {
    var token := BearerToken(auth);
    if TokenHash(c, auth) == Ok(hash) {
      var raw := Decode(token.value).value;
      DecodeInverts(token.value, raw);
      assert BearerToken(auth) == Ok(Encode(raw));
    }
    if Presents(c, auth, hash) {
      var raw: Bytes :| BearerToken(auth) == Ok(Encode(raw)) && |raw| == 32 && c.hmac(c.secret, raw) == hash;
      DecodeInverts(token.value, raw);
    }
  }

  /** A mailbox is polled exactly by who presents its poll token, with a cursor issued for it or none. */
  lemma PolledExactlyByOwner(c: Config, db: Db, now: int, mailbox: Bytes, auth: Option<string>, cursor: Option<string>,
                             limit: Option<int>)
    requires Sane(c)
    ensures HandlePoll(c, db, now, mailbox, auth, cursor, limit).Page?
      == (mailbox in db.mailboxes && Presents(c, auth, db.mailboxes[mailbox])
          && (cursor.None? || exists id: i64 :: cursor.value == CursorEncode(c.hmac, c.secret, mailbox, id)))
  {
    if mailbox in db.mailboxes {
      PresentsItsHash(c, auth, db.mailboxes[mailbox]);
    }
    if cursor.Some? {
      CursorIssued(c, mailbox, cursor.value);
    }
  }

  lemma CursorIssued(c: Config, mailbox: Bytes, cursor: string)
    requires Sane(c)
    ensures StartId(c, mailbox, Some(cursor)).Some?
      <==> exists id: i64 :: cursor == CursorEncode(c.hmac, c.secret, mailbox, id)
  {
    var start := CursorDecode(c.hmac, c.secret, mailbox, cursor);
    if start.Some? {
      CursorDecodesExactlyIssued(c.hmac, c.secret, mailbox, cursor, start.value);
    }
    if exists id: i64 :: cursor == CursorEncode(c.hmac, c.secret, mailbox, id) {
      var id: i64 :| cursor == CursorEncode(c.hmac, c.secret, mailbox, id);
      CursorDecodesExactlyIssued(c.hmac, c.secret, mailbox, cursor, id);
    }
  }

  // ---------------------------------------------------------------- deposits

  /** A live deposit token of the mailbox is presented. */
  ghost predicate MayDeposit(c: Config, db: Db, mailbox: Bytes, auth: Option<string>) {
    exists hash: Bytes :: Presents(c, auth, hash) && (mailbox, hash) in db.tokens && !db.tokens[(mailbox, hash)]
  }

  /** A message id of 16 to 32 bytes that no message of the mailbox has. */
  ghost predicate NewMsgId(db: Db, mailbox: Bytes, msgId: Option<string>) {
    exists id: Bytes ::
      && msgId == Some(Encode(id)) && 16 <= |id| <= 32
      && forall r | r in db.messages && r.mailbox == mailbox :: r.msgId != id
  }

  lemma HasMsgIdIs(db: Db, mailbox: Bytes, id: Bytes)
    ensures HasMsgId(Queue(db, mailbox), id) <==> exists r :: r in db.messages && r.mailbox == mailbox && r.msgId == id
  {
    var queue := Queue(db, mailbox);
    forall r ensures r in queue <==> r in db.messages && r.mailbox == mailbox {
      KeepMember(db.messages, InMailbox(mailbox), r);
    }
    if HasMsgId(queue, id) {
      var i :| 0 <= i < |queue| && queue[i].msgId == id;
      assert queue[i] in queue;
    }
  }

  /** The bodies stored for a mailbox, one after the other. */
  function Blobs(rows: seq<Row>, mailbox: Bytes): Bytes {
    if rows == [] then []
    else
      var last := rows[|rows| - 1];
      Blobs(rows[..|rows| - 1], mailbox) + if last.mailbox == mailbox then last.blob else []
  }

  lemma {:induction false} TotalOfTwo(rows: seq<Row>, more: seq<Row>)
    ensures TotalBytes(rows + more) == TotalBytes(rows) + TotalBytes(more)
  {
    if rows == [] {
      assert rows + more == more;
    } else {
      TotalOfTwo(rows[1..], more);
      assert (rows + more)[1..] == rows[1..] + more;
    }
  }

  lemma {:induction false} QueueBytes(rows: seq<Row>, mailbox: Bytes)
    ensures TotalBytes(Keep(rows, InMailbox(mailbox))) == |Blobs(rows, mailbox)|
  {
    if rows == [] {
    } else {
      var most, last := rows[..|rows| - 1], rows[|rows| - 1];
      QueueBytes(most, mailbox);
      KeepAppend(most, [last], InMailbox(mailbox));
      TotalOfTwo(Keep(most, InMailbox(mailbox)), Keep([last], InMailbox(mailbox)));
      assert most + [last] == rows;
      assert Keep([last], InMailbox(mailbox)) == if last.mailbox == mailbox then [last] else [];
    }
  }

  lemma MayDepositHash(c: Config, db: Db, mailbox: Bytes, auth: Option<string>)
    ensures MayDeposit(c, db, mailbox, auth)
      <==> (&& TokenHash(c, auth).Ok? && (mailbox, TokenHash(c, auth).value) in db.tokens
            && !db.tokens[(mailbox, TokenHash(c, auth).value)])
  {
    if TokenHash(c, auth).Ok? {
      PresentsItsHash(c, auth, TokenHash(c, auth).value);
    }
    forall hash | Presents(c, auth, hash) ensures TokenHash(c, auth) == Ok(hash) {
      PresentsItsHash(c, auth, hash);
    }
  }

  lemma MsgIdOf(db: Db, mailbox: Bytes, msgId: Option<string>)
    ensures NewMsgId(db, mailbox, msgId)
      <==> MsgIdHeader(msgId).Some? && !HasMsgId(Queue(db, mailbox), MsgIdHeader(msgId).value)
  {
    if MsgIdHeader(msgId).Some? {
      DecodeInverts(msgId.value, MsgIdHeader(msgId).value);
      HasMsgIdIs(db, mailbox, MsgIdHeader(msgId).value);
    }
    forall id: Bytes | msgId == Some(Encode(id)) ensures Decode(msgId.value) == Some(id) {
      DecodeInverts(msgId.value, id);
    }
  }

  /**
   * A deposit is accepted exactly under these conditions, and its message expires when asked for or at
   * the latest time allowed.
   */
  lemma DepositedExactlyWhen(c: Config, db: Db, now: int, mailbox: Bytes, auth: Option<string>, msgId: Option<string>,
                             expiresAt: Option<int>, body: Bytes)
    ensures var r := HandleDeposit(c, db, now, mailbox, auth, msgId, expiresAt, body).1;
      var latest := now + c.maxTtlDays * 86400;
      var wanted := if expiresAt.Some? then expiresAt.value else now + c.defaultTtlDays * 86400;
      && (r.Deposited? <==>
            && |body| <= c.maxMsgBytes && mailbox in db.mailboxes && MayDeposit(c, db, mailbox, auth)
            && wanted > now && latest > now
            && |Blobs(db.messages, mailbox)| + |body| <= c.maxQueueBytes
            && NewMsgId(db, mailbox, msgId) && db.lastId + 1 < TWO63)
      && (r.Deposited? ==>
            r.expiresAt <= wanted && r.expiresAt <= latest && (r.expiresAt == wanted || r.expiresAt == latest))
  {
    MayDepositHash(c, db, mailbox, auth);
    MsgIdOf(db, mailbox, msgId);
    QueueBytes(db.messages, mailbox);
  }

  // ---------------------------------------------------------------- tokens

  /** The token hashes a registration gets through before a bad token. */
  function Registering(c: Config, mailbox: Bytes, tokens: seq<string>): set<(Bytes, Bytes)> {
    if tokens == [] || Decode(tokens[0]).None? || |Decode(tokens[0]).value| != 32 then {}
    else {(mailbox, c.hmac(c.secret, Decode(tokens[0]).value))} + Registering(c, mailbox, tokens[1..])
  }

  /** Registering adds exactly the tokens it gets through, live unless they were there revoked. */
  lemma {:induction false} RegisterAddsListed(c: Config, db: Db, mailbox: Bytes, tokens: seq<string>, added: nat)
    ensures var end := RegisterLoop(c, db, mailbox, tokens, added).0;
      && end == db.(tokens := end.tokens) && end.tokens.Keys == db.tokens.Keys + Registering(c, mailbox, tokens)
      && forall k | k in end.tokens :: end.tokens[k] == (k in db.tokens && db.tokens[k])
    decreases |tokens|
  {
    if tokens == [] {
    } else {
      var raw := Decode(tokens[0]);
      if raw.Some? && |raw.value| == 32 {
        var key := (mailbox, c.hmac(c.secret, raw.value));
        if key in db.tokens {
          RegisterAddsListed(c, db, mailbox, tokens[1..], added);
        } else {
          var db1 := db.(tokens := db.tokens[key := false]);
          assert db1.tokens.Keys == db.tokens.Keys + {key};
          RegisterAddsListed(c, db1, mailbox, tokens[1..], added + 1);
        }
      }
    }
  }

  /** The number registration reports is the number of tokens that are new. */
  lemma {:induction false} RegisterCountsNew(c: Config, db: Db, mailbox: Bytes, tokens: seq<string>, added: nat)
    ensures var (end, n, _) := RegisterLoop(c, db, mailbox, tokens, added);
      n + |db.tokens.Keys| == added + |end.tokens.Keys|
    decreases |tokens|
  {
    if tokens == [] {
    } else {
      var raw := Decode(tokens[0]);
      if raw.Some? && |raw.value| == 32 {
        var key := (mailbox, c.hmac(c.secret, raw.value));
        if key in db.tokens {
          RegisterCountsNew(c, db, mailbox, tokens[1..], added);
        } else {
          var db1 := db.(tokens := db.tokens[key := false]);
          assert db1.tokens.Keys == db.tokens.Keys + {key};
          RegisterCountsNew(c, db1, mailbox, tokens[1..], added + 1);
        }
      }
    }
  }

  /** The token hashes a revocation gets through before a bad one. */
  function Revoking(mailbox: Bytes, hashes: seq<string>): set<(Bytes, Bytes)> {
    if hashes == [] || Decode(hashes[0]).None? || |Decode(hashes[0]).value| != 32 then {}
    else {(mailbox, Decode(hashes[0]).value)} + Revoking(mailbox, hashes[1..])
  }

  /** Revoking revokes exactly the listed tokens that exist, makes none, and brings none back. */
  lemma {:induction false} RevokeMarksListed(db: Db, mailbox: Bytes, hashes: seq<string>, count: nat)
    ensures var end := RevokeLoop(db, mailbox, hashes, count).0;
      && end == db.(tokens := end.tokens) && end.tokens.Keys == db.tokens.Keys
      && forall k | k in end.tokens :: end.tokens[k] == (db.tokens[k] || k in Revoking(mailbox, hashes))
    decreases |hashes|
  {
    if hashes == [] {
    } else {
      var raw := Decode(hashes[0]);
      if raw.Some? && |raw.value| == 32 {
        var key := (mailbox, raw.value);
        if key in db.tokens {
          RevokeMarksListed(db.(tokens := db.tokens[key := true]), mailbox, hashes[1..], count + 1);
        } else {
          RevokeMarksListed(db, mailbox, hashes[1..], count);
        }
      }
    }
  }

  /** Texts of 32 bytes, all of them. */
  predicate AllTokens(tokens: seq<string>) {
    forall i | 0 <= i < |tokens| :: Decode(tokens[i]).Some? && |Decode(tokens[i]).value| == 32
  }

  lemma AllTokensFirst(tokens: seq<string>)
    requires tokens != []
    ensures AllTokens(tokens)
      <==> Decode(tokens[0]).Some? && |Decode(tokens[0]).value| == 32 && AllTokens(tokens[1..])
  {
    assert forall i | 0 < i < |tokens| :: tokens[i] == tokens[1..][i - 1];
  }

  /** Registration gets through exactly when every token is 32 bytes. */
  lemma {:induction false} RegisterSucceeds(c: Config, db: Db, mailbox: Bytes, tokens: seq<string>, added: nat)
    ensures RegisterLoop(c, db, mailbox, tokens, added).2 <==> AllTokens(tokens)
    decreases |tokens|
  {
    if tokens == [] {
    } else {
      AllTokensFirst(tokens);
      var raw := Decode(tokens[0]);
      if raw.Some? && |raw.value| == 32 {
        var key := (mailbox, c.hmac(c.secret, raw.value));
        if key in db.tokens {
          RegisterSucceeds(c, db, mailbox, tokens[1..], added);
        } else {
          RegisterSucceeds(c, db.(tokens := db.tokens[key := false]), mailbox, tokens[1..], added + 1);
        }
      }
    }
  }

  /** Revocation gets through exactly when every hash is 32 bytes. */
  lemma {:induction false} RevokeSucceeds(db: Db, mailbox: Bytes, hashes: seq<string>, count: nat)
    ensures RevokeLoop(db, mailbox, hashes, count).2 <==> AllTokens(hashes)
    decreases |hashes|
  {
    if hashes == [] {
    } else {
      AllTokensFirst(hashes);
      var raw := Decode(hashes[0]);
      if raw.Some? && |raw.value| == 32 {
        var key := (mailbox, raw.value);
        if key in db.tokens {
          RevokeSucceeds(db.(tokens := db.tokens[key := true]), mailbox, hashes[1..], count + 1);
        } else {
          RevokeSucceeds(db, mailbox, hashes[1..], count);
        }
      }
    }
  }

  // ---------------------------------------------------------------- bearer tokens and new mailboxes

  lemma {:induction false} SymbolsAreNoSpaces(b: Bytes)
    ensures forall i | 0 <= i < |Encode(b)| :: !IsSpace(Encode(b)[i])
  {
    if |b| < 3 {
    } else {
      SymbolsAreNoSpaces(b[3..]);
    }
  }

  lemma BearerOf(token: string)
    requires OneWord(token)
    ensures BearerToken(Some("Bearer " + token)) == Ok(token)
  {
    var header := "Bearer " + token;
    assert IsBearer("Bearer") && Blank(" ") && Blank("");
    assert header == "" + ("Bearer" + (" " + (token + "")));
    assert HeaderCarries(header, token);
    BearerExactly(Some(header), token);
  }

  /** A token of 32 bytes in an authorization header is read as what it encodes. */
  lemma TokenHashOf(c: Config, raw: Bytes)
    requires |raw| == 32
    ensures TokenHash(c, Some("Bearer " + Encode(raw))) == Ok(c.hmac(c.secret, raw))
  {
    SymbolsAreNoSpaces(raw);
    assert |Encode(raw)| > 0;
    BearerOf(Encode(raw));
    DecodeEncode(raw);
  }

  /**
   * A mailbox is made exactly when its id is new and the poll token, if one is given, is 32 bytes.
   * Its owner then holds the token given or the one returned, and is the only one who can poll.
   */
  lemma CreatedExactlyWhen(c: Config, db: Db, mailbox: Bytes, pollToken: Option<string>, generated: Bytes)
    requires |generated| == 32
    ensures var (db', r) := HandleCreate(c, db, mailbox, pollToken, generated);
      var token := if pollToken.Some? then pollToken else if r.Created? then r.pollToken else None;
      && (r.Created? <==> mailbox !in db.mailboxes && (pollToken.Some? ==> AllTokens([pollToken.value])))
      && (!r.Created? ==> db' == db)
      && (r.Created? ==>
            && r.mailbox == mailbox && r.pollToken.Some? == pollToken.None? && token.Some?
            && db' == db.(mailboxes := db'.mailboxes) && db'.mailboxes.Keys == db.mailboxes.Keys + {mailbox}
            && (forall m | m in db.mailboxes :: db'.mailboxes[m] == db.mailboxes[m])
            && (forall auth: Option<string> ::
                  OwnerError(c, db', mailbox, auth).None? <==> Presents(c, auth, db'.mailboxes[mailbox]))
            && OwnerError(c, db', mailbox, Some("Bearer " + token.value)).None?)
  {
    if pollToken.Some? {
      assert AllTokens([pollToken.value])
        <==> Decode(pollToken.value).Some? && |Decode(pollToken.value).value| == 32 by {
        assert [pollToken.value][0] == pollToken.value;
      }
    }
    var (db', r) := HandleCreate(c, db, mailbox, pollToken, generated);
    if r.Created? {
      var raw := if pollToken.Some? then Decode(pollToken.value).value else generated;
      if pollToken.Some? {
        DecodeInverts(pollToken.value, raw);
      }
      TokenHashOf(c, raw);
      forall auth: Option<string>
        ensures OwnerError(c, db', mailbox, auth).None? <==> Presents(c, auth, db'.mailboxes[mailbox])
      {
        PresentsItsHash(c, auth, db'.mailboxes[mailbox]);
      }
    }
  }
}
