/** Every answer of the server: which refusal a request gets, and what the numbers in the others count. */
module MailboxReplies {
  import opened Data
  import opened Base64Url
  import opened Cursor
  import opened Rows
  import opened Mailbox
  import opened MailboxRuns
  import opened MailboxAnswers

  // ---------------------------------------------------------------- refusals

  /** A condition, and the error a request gets that meets the ones before it but not this one. */
  datatype Check = Check(passed: bool, error: ApiError)

  predicate AllPassed(checks: seq<Check>) {
    forall i | 0 <= i < |checks| :: checks[i].passed
  }

  predicate FailsAt(checks: seq<Check>, i: nat, error: ApiError) {
    i < |checks| && !checks[i].passed && AllPassed(checks[..i]) && checks[i].error == error
  }

  /** No error exactly when all conditions are met, and else the error of the first that is not. */
  ghost predicate Decided(checks: seq<Check>, error: Option<ApiError>) {
    if error.Some? then exists i: nat :: FailsAt(checks, i, error.value) else AllPassed(checks)
  }

  function ErrorOf(r: Response): Option<ApiError> {
    if r.Failed? then Some(r.error) else None
  }

  ghost predicate HasToken(c: Config, auth: Option<string>) {
    exists hash: Bytes :: Presents(c, auth, hash)
  }

  /** The base64url text of some bytes. */
  ghost predicate Coded(s: string) {
    exists raw: Bytes :: s == Encode(raw)
  }

  /** A token of 32 bytes in base64url. */
  ghost function TokenChecks(c: Config, auth: Option<string>): (r: seq<Check>)
    ensures |r| == 3
  {
    [Check(BearerToken(auth).Ok?, Unauthorized),
     Check(BearerToken(auth).Ok? && Coded(BearerToken(auth).value), InvalidInput),
     Check(HasToken(c, auth), Unauthorized)]
  }

  lemma CodedExactly(s: string)
    ensures Decode(s).Some? <==> Coded(s)
  {
    if Decode(s).Some? {
      EncodeDecode(s);
      assert s == Encode(Decode(s).value);
    }
    forall raw: Bytes | s == Encode(raw) ensures Decode(s).Some? {
      DecodeEncode(raw);
    }
  }

  lemma HasTokenExactly(c: Config, auth: Option<string>)
    ensures TokenHash(c, auth).Ok? <==> HasToken(c, auth)
  {
    if TokenHash(c, auth).Ok? {
      PresentsItsHash(c, auth, TokenHash(c, auth).value);
    }
    forall hash: Bytes | Presents(c, auth, hash) ensures TokenHash(c, auth).Ok? {
      PresentsItsHash(c, auth, hash);
    }
  }

  lemma TokenDecides(c: Config, auth: Option<string>)
    ensures var hash := TokenHash(c, auth); Decided(TokenChecks(c, auth), if hash.Err? then Some(hash.error) else None)
  {
    var checks, hash := TokenChecks(c, auth), TokenHash(c, auth);
    HasTokenExactly(c, auth);
    if BearerToken(auth).Ok? {
      CodedExactly(BearerToken(auth).value);
    }
    if hash.Err? {
      var i := if !checks[0].passed then 0 else if !checks[1].passed then 1 else 2;
      assert FailsAt(checks, i, hash.error);
    }
  }

  lemma FailsLater(checks: seq<Check>, more: seq<Check>, i: nat, error: ApiError)
    ensures FailsAt(checks, i, error) ==> FailsAt(checks + more, i, error)
    ensures AllPassed(checks) && FailsAt(more, i, error) ==> FailsAt(checks + more, |checks| + i, error)
    ensures AllPassed(checks + more) <==> AllPassed(checks) && AllPassed(more)
  {
    var all := checks + more;
    assert forall k | 0 <= k < |checks| :: all[k] == checks[k];
    assert forall k | 0 <= k < |more| :: all[|checks| + k] == more[k];
    assert forall k | |checks| <= k < |all| :: all[k] == more[k - |checks|];
    if i < |checks| {
      assert all[..i] == checks[..i];
    }
    if i < |more| {
      assert all[..|checks| + i] == checks + more[..i];
    }
  }

  /** Conditions one after the other: the first part decides, or else the second. */
  lemma DecidedInTurn(checks: seq<Check>, more: seq<Check>, first: Option<ApiError>, error: Option<ApiError>)
    requires Decided(checks, first) && if first.Some? then error == first else Decided(more, error)
    ensures Decided(checks + more, error)
  {
    if first.Some? {
      var i: nat :| FailsAt(checks, i, first.value);
      FailsLater(checks, more, i, first.value);
    } else if error.Some? {
      var i: nat :| FailsAt(more, i, error.value);
      FailsLater(checks, more, i, error.value);
    } else {
      FailsLater(checks, more, 0, NotFound);
    }
  }

  /** Of an existing mailbox, whose owner's token it is. */
  ghost function OwnerChecks(c: Config, db: Db, mailbox: Bytes, auth: Option<string>): seq<Check> {
    TokenChecks(c, auth)
      + [Check(mailbox in db.mailboxes, NotFound),
         Check(mailbox in db.mailboxes && Presents(c, auth, db.mailboxes[mailbox]), Forbidden)]
  }

  /** The owner's check answers with the first condition not met. */
  lemma OwnerDecides(c: Config, db: Db, mailbox: Bytes, auth: Option<string>)
    ensures Decided(OwnerChecks(c, db, mailbox, auth), OwnerError(c, db, mailbox, auth))
  {
    var hash, error := TokenHash(c, auth), OwnerError(c, db, mailbox, auth);
    var known := Check(mailbox in db.mailboxes, NotFound);
    var owned := Check(mailbox in db.mailboxes && Presents(c, auth, db.mailboxes[mailbox]), Forbidden);
    TokenDecides(c, auth);
    if hash.Ok? {
      if mailbox in db.mailboxes {
        PresentsItsHash(c, auth, db.mailboxes[mailbox]);
      }
      TwoMoreChecks(known, owned, error);
    }
    DecidedInTurn(TokenChecks(c, auth), [known, owned], if hash.Err? then Some(hash.error) else None, error);
  }

  lemma OneMoreCheck(check: Check, error: Option<ApiError>)
    requires error == if check.passed then None else Some(check.error)
    ensures Decided([check], error)
  {
    if error.Some? {
      assert FailsAt([check], 0, error.value);
    }
  }

  lemma TwoMoreChecks(first: Check, second: Check, error: Option<ApiError>)
    requires error
      == if !first.passed then Some(first.error) else if !second.passed then Some(second.error) else None
    ensures Decided([first, second], error)
  {
    if error.Some? {
      assert FailsAt([first, second], if !first.passed then 0 else 1, error.value);
    }
  }

  // ---------------------------------------------------------------- register, ack and revoke

  /** Registering: at most 5000 tokens and at least one, each of 32 bytes. */
  lemma RegisterRefusals(c: Config, db: Db, mailbox: Bytes, auth: Option<string>, tokens: seq<string>)
    ensures Decided(
      OwnerChecks(c, db, mailbox, auth)
        + [Check(1 <= |tokens| <= 5000, InvalidInput), Check(AllTokens(tokens), InvalidInput)],
      ErrorOf(HandleRegister(c, db, mailbox, auth, tokens).1))
  {
    var error, r := OwnerError(c, db, mailbox, auth), HandleRegister(c, db, mailbox, auth, tokens).1;
    OwnerDecides(c, db, mailbox, auth);
    if error.None? {
      RegisterSucceeds(c, db, mailbox, tokens, 0);
      TwoMoreChecks(Check(1 <= |tokens| <= 5000, InvalidInput), Check(AllTokens(tokens), InvalidInput), ErrorOf(r));
    }
    DecidedInTurn(OwnerChecks(c, db, mailbox, auth),
      [Check(1 <= |tokens| <= 5000, InvalidInput), Check(AllTokens(tokens), InvalidInput)], error, ErrorOf(r));
  }

  /** Acknowledging: at most 2000 ids and at least one, each base64url text. */
  lemma AckRefusals(c: Config, db: Db, mailbox: Bytes, auth: Option<string>, msgIds: seq<string>)
    ensures Decided(
      OwnerChecks(c, db, mailbox, auth)
        + [Check(1 <= |msgIds| <= 2000, InvalidInput), Check(AllDecode(msgIds), InvalidInput)],
      ErrorOf(HandleAck(c, db, mailbox, auth, msgIds).1))
  {
    var error, r := OwnerError(c, db, mailbox, auth), HandleAck(c, db, mailbox, auth, msgIds).1;
    OwnerDecides(c, db, mailbox, auth);
    if error.None? {
      AckSucceeds(db, mailbox, msgIds, 0);
      TwoMoreChecks(Check(1 <= |msgIds| <= 2000, InvalidInput), Check(AllDecode(msgIds), InvalidInput), ErrorOf(r));
    }
    DecidedInTurn(OwnerChecks(c, db, mailbox, auth),
      [Check(1 <= |msgIds| <= 2000, InvalidInput), Check(AllDecode(msgIds), InvalidInput)], error, ErrorOf(r));
  }

  /** Revoking: at most 1000 hashes and at least one, each of 32 bytes. */
  lemma RevokeRefusals(c: Config, db: Db, mailbox: Bytes, auth: Option<string>, hashes: seq<string>)
    ensures Decided(
      OwnerChecks(c, db, mailbox, auth)
        + [Check(1 <= |hashes| <= 1000, InvalidInput), Check(AllTokens(hashes), InvalidInput)],
      ErrorOf(HandleRevoke(c, db, mailbox, auth, hashes).1))
  {
    var error, r := OwnerError(c, db, mailbox, auth), HandleRevoke(c, db, mailbox, auth, hashes).1;
    OwnerDecides(c, db, mailbox, auth);
    if error.None? {
      RevokeSucceeds(db, mailbox, hashes, 0);
      TwoMoreChecks(Check(1 <= |hashes| <= 1000, InvalidInput), Check(AllTokens(hashes), InvalidInput), ErrorOf(r));
    }
    DecidedInTurn(OwnerChecks(c, db, mailbox, auth),
      [Check(1 <= |hashes| <= 1000, InvalidInput), Check(AllTokens(hashes), InvalidInput)], error, ErrorOf(r));
  }

  /** Polling: no cursor, or one issued for the mailbox. */
  lemma PollRefusals(c: Config, db: Db, now: int, mailbox: Bytes, auth: Option<string>, cursor: Option<string>,
                     limit: Option<int>)
    requires Sane(c)
    ensures Decided(
      OwnerChecks(c, db, mailbox, auth)
        + [Check(cursor.None? || exists id: i64 :: cursor.value == CursorEncode(c.hmac, c.secret, mailbox, id),
          InvalidInput)],
      ErrorOf(HandlePoll(c, db, now, mailbox, auth, cursor, limit)))
  {
    var error, r := OwnerError(c, db, mailbox, auth), HandlePoll(c, db, now, mailbox, auth, cursor, limit);
    var check := Check(cursor.None? || exists id: i64 :: cursor.value == CursorEncode(c.hmac, c.secret, mailbox, id),
      InvalidInput);
    OwnerDecides(c, db, mailbox, auth);
    if error.None? {
      if cursor.Some? {
        CursorIssued(c, mailbox, cursor.value);
      }
      OneMoreCheck(check, ErrorOf(r));
    }
    DecidedInTurn(OwnerChecks(c, db, mailbox, auth), [check], error, ErrorOf(r));
  }

  /** Making a mailbox: no token, or one of 32 bytes; an id in use is an error of the server. */
  lemma CreateRefusals(c: Config, db: Db, mailbox: Bytes, pollToken: Option<string>, generated: Bytes)
    ensures Decided(
      [Check(pollToken.None? || exists raw: Bytes :: |raw| == 32 && pollToken.value == Encode(raw), InvalidInput),
       Check(mailbox !in db.mailboxes, ServerError)],
      ErrorOf(HandleCreate(c, db, mailbox, pollToken, generated).1))
  {
    if pollToken.Some? {
      ThirtyTwo(pollToken.value);
    }
    TwoMoreChecks(
      Check(pollToken.None? || exists raw: Bytes :: |raw| == 32 && pollToken.value == Encode(raw), InvalidInput),
      Check(mailbox !in db.mailboxes, ServerError), ErrorOf(HandleCreate(c, db, mailbox, pollToken, generated).1));
  }

  lemma ThirtyTwo(s: string)
    ensures Decode(s).Some? && |Decode(s).value| == 32 <==> exists raw: Bytes :: |raw| == 32 && s == Encode(raw)
  {
    if Decode(s).Some? {
      EncodeDecode(s);
    }
    forall raw: Bytes | s == Encode(raw) ensures Decode(s) == Some(raw) {
      DecodeEncode(raw);
    }
  }

  // ---------------------------------------------------------------- deposit

  /** What a token and a time decide: mailbox, live token, expiry, room for the body, well-formed id. */
  ghost function AdmissionChecks(c: Config, db: Db, now: int, mailbox: Bytes, auth: Option<string>,
                                 msgId: Option<string>, expiresAt: Option<int>, body: Bytes): (r: seq<Check>)
    ensures |r| == 5
  {
    [Check(mailbox in db.mailboxes, NotFound),
     Check(MayDeposit(c, db, mailbox, auth), Forbidden),
     Check((if expiresAt.Some? then expiresAt.value > now else c.defaultTtlDays > 0) && c.maxTtlDays > 0, InvalidInput),
     Check(|Blobs(db.messages, mailbox)| + |body| <= c.maxQueueBytes, RateLimited),
     Check(exists id: Bytes :: msgId == Some(Encode(id)) && 16 <= |id| <= 32, InvalidInput)]
  }

  /** The message id is new to the mailbox, and there is a row id left. */
  ghost function InsertChecks(db: Db, mailbox: Bytes, msgId: Option<string>): (r: seq<Check>)
    ensures |r| == 2
  {
    [Check(forall r | r in db.messages && r.mailbox == mailbox :: Some(Encode(r.msgId)) != msgId, Conflict),
     Check(db.lastId + 1 < TWO63, ServerError)]
  }

  lemma FiveMoreChecks(checks: seq<Check>, error: Option<ApiError>)
    requires |checks| == 5
    requires error
      == if !checks[0].passed then Some(checks[0].error) else if !checks[1].passed then Some(checks[1].error)
        else if !checks[2].passed then Some(checks[2].error) else if !checks[3].passed then Some(checks[3].error)
        else if !checks[4].passed then Some(checks[4].error) else None
    ensures Decided(checks, error)
  {
    if error.Some? {
      var i := if !checks[0].passed then 0 else if !checks[1].passed then 1 else if !checks[2].passed then 2
        else if !checks[3].passed then 3 else 4;
      assert FailsAt(checks, i, error.value);
    }
  }

  lemma IdIsWellFormed(msgId: Option<string>)
    ensures MsgIdHeader(msgId).Some? <==> exists id: Bytes :: msgId == Some(Encode(id)) && 16 <= |id| <= 32
    ensures MsgIdHeader(msgId).Some? ==> msgId == Some(Encode(MsgIdHeader(msgId).value))
  {
    if MsgIdHeader(msgId).Some? {
      DecodeInverts(msgId.value, MsgIdHeader(msgId).value);
    }
    forall id: Bytes | msgId == Some(Encode(id)) ensures Decode(msgId.value) == Some(id) {
      DecodeEncode(id);
    }
  }

  lemma ExpiresInTime(c: Config, now: int, expiresAt: Option<int>)
    ensures DepositExpiry(c, now, expiresAt) > now
      <==> (if expiresAt.Some? then expiresAt.value > now else c.defaultTtlDays > 0) && c.maxTtlDays > 0
  {
  }

  /** The checks in the order of the code, as plain conditions. */
  lemma CheckOutcome(c: Config, db: Db, now: int, mailbox: Bytes, auth: Option<string>, msgId: Option<string>,
                     expiresAt: Option<int>, body: Bytes, hash: Bytes)
    requires |body| <= c.maxMsgBytes && TokenHash(c, auth) == Ok(hash)
    ensures DepositCheck(c, db, now, mailbox, auth, msgId, expiresAt, body)
      == if mailbox !in db.mailboxes then Err(NotFound)
        else if !((mailbox, hash) in db.tokens && !db.tokens[(mailbox, hash)]) then Err(Forbidden)
        else if !(DepositExpiry(c, now, expiresAt) > now) then Err(InvalidInput)
        else if !(TotalBytes(Queue(db, mailbox)) + |body| <= c.maxQueueBytes) then Err(RateLimited)
        else if !MsgIdHeader(msgId).Some? then Err(InvalidInput)
        else Ok(Pending(mailbox, MsgIdHeader(msgId).value, body, now, DepositExpiry(c, now, expiresAt)))
  {
  }

  lemma AdmissionRest(c: Config, db: Db, now: int, mailbox: Bytes, auth: Option<string>, msgId: Option<string>,
                      expiresAt: Option<int>, body: Bytes)
    requires |body| <= c.maxMsgBytes && TokenHash(c, auth).Ok?
    ensures var checked := DepositCheck(c, db, now, mailbox, auth, msgId, expiresAt, body);
      Decided(AdmissionChecks(c, db, now, mailbox, auth, msgId, expiresAt, body),
        if checked.Err? then Some(checked.error) else None)
  {
    var hash := TokenHash(c, auth).value;
    var checked := DepositCheck(c, db, now, mailbox, auth, msgId, expiresAt, body);
    var checks := AdmissionChecks(c, db, now, mailbox, auth, msgId, expiresAt, body);
    CheckOutcome(c, db, now, mailbox, auth, msgId, expiresAt, body, hash);
    assert checks[1].passed == ((mailbox, hash) in db.tokens && !db.tokens[(mailbox, hash)]) by {
      MayDepositHash(c, db, mailbox, auth);
    }
    assert checks[2].passed == (DepositExpiry(c, now, expiresAt) > now) by {
      ExpiresInTime(c, now, expiresAt);
    }
    assert checks[3].passed == (TotalBytes(Queue(db, mailbox)) + |body| <= c.maxQueueBytes) by {
      QueueBytes(db.messages, mailbox);
    }
    assert checks[4].passed == MsgIdHeader(msgId).Some? by {
      IdIsWellFormed(msgId);
    }
    FiveMoreChecks(checks, if checked.Err? then Some(checked.error) else None);
  }

  /** The conditions a deposit meets before its insert. */
  lemma AdmissionDecides(c: Config, db: Db, now: int, mailbox: Bytes, auth: Option<string>, msgId: Option<string>,
                         expiresAt: Option<int>, body: Bytes)
    ensures var checked := DepositCheck(c, db, now, mailbox, auth, msgId, expiresAt, body);
      Decided([Check(|body| <= c.maxMsgBytes, PayloadTooLarge)]
          + (TokenChecks(c, auth) + AdmissionChecks(c, db, now, mailbox, auth, msgId, expiresAt, body)),
        if checked.Err? then Some(checked.error) else None)
  {
    var size, token := Check(|body| <= c.maxMsgBytes, PayloadTooLarge), TokenHash(c, auth);
    var more := AdmissionChecks(c, db, now, mailbox, auth, msgId, expiresAt, body);
    var checked := DepositCheck(c, db, now, mailbox, auth, msgId, expiresAt, body);
    var error := if checked.Err? then Some(checked.error) else None;
    OneMoreCheck(size, if size.passed then None else Some(size.error));
    TokenDecides(c, auth);
    if size.passed {
      if token.Ok? {
        AdmissionRest(c, db, now, mailbox, auth, msgId, expiresAt, body);
      }
      DecidedInTurn(TokenChecks(c, auth), more, if token.Err? then Some(token.error) else None, error);
    }
    DecidedInTurn([size], TokenChecks(c, auth) + more, if size.passed then None else Some(size.error), error);
  }

  lemma InsertDecides(db: Db, p: Pending)
    ensures Decided(InsertChecks(db, p.mailbox, Some(Encode(p.msgId))), ErrorOf(DepositInsert(db, p).1))
  {
    HasMsgIdIs(db, p.mailbox, p.msgId);
    forall r | r in db.messages ensures Encode(r.msgId) == Encode(p.msgId) <==> r.msgId == p.msgId {
      DecodeEncode(r.msgId);
      DecodeEncode(p.msgId);
    }
    var checks := InsertChecks(db, p.mailbox, Some(Encode(p.msgId)));
    TwoMoreChecks(checks[0], checks[1], ErrorOf(DepositInsert(db, p).1));
    assert checks == [checks[0], checks[1]];
  }

  /** Depositing: all conditions in the order in which they decide. */
  lemma DepositRefusals(c: Config, db: Db, now: int, mailbox: Bytes, auth: Option<string>, msgId: Option<string>,
                        expiresAt: Option<int>, body: Bytes)
    ensures Decided(
      [Check(|body| <= c.maxMsgBytes, PayloadTooLarge)]
        + (TokenChecks(c, auth) + AdmissionChecks(c, db, now, mailbox, auth, msgId, expiresAt, body))
        + InsertChecks(db, mailbox, msgId),
      ErrorOf(HandleDeposit(c, db, now, mailbox, auth, msgId, expiresAt, body).1))
  {
    var checked := DepositCheck(c, db, now, mailbox, auth, msgId, expiresAt, body);
    AdmissionDecides(c, db, now, mailbox, auth, msgId, expiresAt, body);
    if checked.Ok? {
      IdIsWellFormed(msgId);
      InsertDecides(db, checked.value);
    }
    DecidedInTurn([Check(|body| <= c.maxMsgBytes, PayloadTooLarge)]
        + (TokenChecks(c, auth) + AdmissionChecks(c, db, now, mailbox, auth, msgId, expiresAt, body)),
      InsertChecks(db, mailbox, msgId), if checked.Err? then Some(checked.error) else None,
      ErrorOf(HandleDeposit(c, db, now, mailbox, auth, msgId, expiresAt, body).1));
  }

  // ---------------------------------------------------------------- the numbers reported

  /** The number of messages asked for, or the default, brought into the range from 1 to the maximum. */
  lemma LimitIsClamped(c: Config, limit: Option<int>)
    requires Sane(c)
    ensures var wanted := if limit.Some? then limit.value else c.pollLimitDefault;
      && 1 <= Limit(c, limit) <= c.pollLimitMax
      && (1 <= wanted <= c.pollLimitMax ==> Limit(c, limit) == wanted)
      && (wanted < 1 ==> Limit(c, limit) == 1)
      && (wanted > c.pollLimitMax ==> Limit(c, limit) == c.pollLimitMax)
  {
  }

  lemma {:induction false} RegisteringIs(c: Config, mailbox: Bytes, tokens: seq<string>)
    requires AllTokens(tokens)
    ensures forall key ::
      key in Registering(c, mailbox, tokens)
      <==> key.0 == mailbox && exists raw: Bytes :: Encode(raw) in tokens && c.hmac(c.secret, raw) == key.1
  {
    if tokens == [] {
    } else {
      var first := Decode(tokens[0]).value;
      AllTokensFirst(tokens);
      RegisteringIs(c, mailbox, tokens[1..]);
      EncodeDecode(tokens[0]);
      forall raw: Bytes ensures Encode(raw) in tokens <==> raw == first || Encode(raw) in tokens[1..] {
        DecodeEncode(raw);
        assert Encode(raw) in tokens <==> Encode(raw) == tokens[0] || Encode(raw) in tokens[1..];
      }
    }
  }

  /** A successful registration adds the hash of every token listed and reports how many are new. */
  lemma RegisterReports(c: Config, db: Db, mailbox: Bytes, auth: Option<string>, tokens: seq<string>)
    requires HandleRegister(c, db, mailbox, auth, tokens).1.Registered?
    ensures var (end, r) := HandleRegister(c, db, mailbox, auth, tokens);
      && r.added == |end.tokens.Keys| - |db.tokens.Keys| && end == db.(tokens := end.tokens)
      && (forall key :: key in end.tokens
            <==> key in db.tokens
                 || (key.0 == mailbox && exists raw: Bytes :: Encode(raw) in tokens && c.hmac(c.secret, raw) == key.1))
      && forall key | key in end.tokens :: end.tokens[key] == (key in db.tokens && db.tokens[key])
  {
    RegisterSucceeds(c, db, mailbox, tokens, 0);
    RegisterAddsListed(c, db, mailbox, tokens, 0);
    RegisterCountsNew(c, db, mailbox, tokens, 0);
    RegisteringIs(c, mailbox, tokens);
  }

  lemma {:induction false} AllListed(msgIds: seq<string>, id: Bytes)
    requires AllDecode(msgIds)
    ensures id in Listed(msgIds) <==> Encode(id) in msgIds
  {
    if msgIds == [] {
    } else {
      AllDecodeFirst(msgIds);
      AllListed(msgIds[1..], id);
      DecodeInverts(msgIds[0], id);
      assert Encode(id) in msgIds <==> Encode(id) == msgIds[0] || Encode(id) in msgIds[1..];
    }
  }

  /** A successful ack deletes the messages of its mailbox that are listed and reports how many those were. */
  lemma AckReports(c: Config, db: Db, mailbox: Bytes, auth: Option<string>, msgIds: seq<string>)
    requires HandleAck(c, db, mailbox, auth, msgIds).1.Acked?
    ensures var (end, r) := HandleAck(c, db, mailbox, auth, msgIds);
      && r.deleted == |db.messages| - |end.messages| && end == db.(messages := end.messages)
      && forall row ::
        row in end.messages <==> row in db.messages && !(row.mailbox == mailbox && Encode(row.msgId) in msgIds)
  {
    AckSucceeds(db, mailbox, msgIds, 0);
    AckDeletesListed(db, mailbox, msgIds, 0);
    var end := AckLoop(db, mailbox, msgIds, 0).0;
    forall row
      ensures row in end.messages <==> row in db.messages && !(row.mailbox == mailbox && Encode(row.msgId) in msgIds)
    {
      KeepMember(db.messages, NotListed(mailbox, Listed(msgIds)), row);
      AllListed(msgIds, row.msgId);
    }
  }

  /** The hash is in the table of the mailbox. */
  function Matches(db: Db, mailbox: Bytes): string -> bool {
    (hash: string) => Decode(hash).Some? && (mailbox, Decode(hash).value) in db.tokens
  }

  /** The number revocation reports: the hashes listed that are in the table, as often as they are listed. */
  lemma {:induction false} RevokeCountsMatches(db: Db, mailbox: Bytes, hashes: seq<string>, count: nat)
    requires AllTokens(hashes)
    ensures RevokeLoop(db, mailbox, hashes, count).1 == count + |Keep(hashes, Matches(db, mailbox))|
    decreases |hashes|
  {
    if hashes == [] {
    } else {
      AllTokensFirst(hashes);
      var key := (mailbox, Decode(hashes[0]).value);
      if key in db.tokens {
        var db1 := db.(tokens := db.tokens[key := true]);
        RevokeCountsMatches(db1, mailbox, hashes[1..], count + 1);
        KeepAgrees(hashes[1..], Matches(db, mailbox), Matches(db1, mailbox));
      } else {
        RevokeCountsMatches(db, mailbox, hashes[1..], count);
      }
    }
  }

  lemma {:induction false} RevokingIs(mailbox: Bytes, hashes: seq<string>, key: (Bytes, Bytes))
    requires AllTokens(hashes)
    ensures key in Revoking(mailbox, hashes) <==> key.0 == mailbox && Encode(key.1) in hashes
  {
    if hashes == [] {
    } else {
      AllTokensFirst(hashes);
      RevokingIs(mailbox, hashes[1..], key);
      DecodeInverts(hashes[0], key.1);
      assert Encode(key.1) in hashes <==> Encode(key.1) == hashes[0] || Encode(key.1) in hashes[1..];
    }
  }

  /** A successful revocation marks the hashes listed and reports the matches, also of tokens revoked before. */
  lemma RevokeReports(c: Config, db: Db, mailbox: Bytes, auth: Option<string>, hashes: seq<string>)
    requires HandleRevoke(c, db, mailbox, auth, hashes).1.Revoked?
    ensures var (end, r) := HandleRevoke(c, db, mailbox, auth, hashes);
      && r.count == |Keep(hashes, Matches(db, mailbox))| && end == db.(tokens := end.tokens)
      && end.tokens.Keys == db.tokens.Keys
      && forall key | key in end.tokens ::
           end.tokens[key] == (db.tokens[key] || (key.0 == mailbox && Encode(key.1) in hashes))
  {
    RevokeSucceeds(db, mailbox, hashes, 0);
    RevokeMarksListed(db, mailbox, hashes, 0);
    RevokeCountsMatches(db, mailbox, hashes, 0);
    forall key: (Bytes, Bytes)
      ensures key in Revoking(mailbox, hashes) <==> key.0 == mailbox && Encode(key.1) in hashes
    {
      RevokingIs(mailbox, hashes, key);
    }
  }

  /** The background task deletes exactly the messages that have expired. */
  lemma PurgeDeletesExpired(db: Db, now: int, row: Row)
    ensures row in Purge(db, now).messages <==> row in db.messages && row.expiresAt > now
    ensures Purge(db, now) == db.(messages := Purge(db, now).messages)
  {
    KeepMember(db.messages, Unexpired(now), row);
  }
}
