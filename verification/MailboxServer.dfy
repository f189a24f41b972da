/** The server as an object whose handlers change its tables statement by statement. */
module MailboxServer {
  import opened Data
  import opened Base64Url
  import opened Cursor
  import opened Rows
  import opened Mailbox
  import opened MailboxAnswers

  class MailboxServer {
    const config: Config
    var mailboxes: map<Bytes, Bytes>
    var tokens: map<(Bytes, Bytes), bool>
    var messages: seq<Row>
    var lastId: nat

    constructor (config: Config)
      ensures this.config == config && Tables() == Db(map[], map[], [], 0)
    {
      this.config := config;
      mailboxes, tokens, messages, lastId := map[], map[], [], 0;
    }

    function Tables(): Db
      reads this
    {
      Db(mailboxes, tokens, messages, lastId)
    }

    /** The generated token is 32 random bytes; it is used and returned when none is given. */
    method CreateMailbox(mailboxId: Bytes, pollToken: Option<string>, generated: Bytes) returns (r: Response)
      requires |generated| == 32
      modifies this
      ensures (Tables(), r) == Handle(config, old(Tables()), 0, Create(mailboxId, pollToken, generated))
      ensures r.Created? <==> mailboxId !in old(mailboxes) && (pollToken.Some? ==> AllTokens([pollToken.value]))
      ensures r.Created? ==> r.mailbox == mailboxId && r.pollToken.Some? == pollToken.None?
      ensures r.Created? ==>
        var token := if pollToken.Some? then pollToken else r.pollToken;
        OwnerError(config, Tables(), mailboxId, Some("Bearer " + token.value)).None?
      ensures !r.Created? ==> Tables() == old(Tables())
    {
      CreatedExactlyWhen(config, Tables(), mailboxId, pollToken, generated);
      var raw := generated;
      if pollToken.Some? {
        var given := Decode(pollToken.value);
        if given.None? || |given.value| != 32 {
          return Failed(InvalidInput);
        }
        raw := given.value;
      }
      var pollHash := config.hmac(config.secret, raw);
      if mailboxId in mailboxes {
        return Failed(ServerError);
      }
      mailboxes := mailboxes[mailboxId := pollHash];
      return Created(mailboxId, if pollToken.Some? then None else Some(Encode(generated)));
    }

    method RegisterDepositTokens(mailboxId: Bytes, auth: Option<string>, depositTokens: seq<string>)
        returns (r: Response)
      modifies this
      ensures (Tables(), r) == Handle(config, old(Tables()), 0, Register(mailboxId, auth, depositTokens))
    {
      var error := OwnerError(config, Tables(), mailboxId, auth);
      if error.Some? {
        return Failed(error.value);
      }
      if depositTokens == [] || |depositTokens| > 5000 {
        return Failed(InvalidInput);
      }
      var added, ok := InsertTokens(mailboxId, depositTokens);
      return if ok then Registered(added) else Failed(InvalidInput);
    }

    /** The loop of register: it stops at a bad token, with the earlier ones inserted. */
    method InsertTokens(mailboxId: Bytes, depositTokens: seq<string>) returns (added: nat, ok: bool)
      modifies this
      ensures (Tables(), added, ok) == RegisterLoop(config, old(Tables()), mailboxId, depositTokens, 0)
    {
      added := 0;
      for i := 0 to |depositTokens|
        invariant RegisterLoop(config, Tables(), mailboxId, depositTokens[i..], added)
          == RegisterLoop(config, old(Tables()), mailboxId, depositTokens, 0)
      {
        assert depositTokens[i..][1..] == depositTokens[i + 1..];
        var raw := Decode(depositTokens[i]);
        if raw.None? || |raw.value| != 32 {
          return added, false;
        }
        var depHash := config.hmac(config.secret, raw.value);
        if (mailboxId, depHash) !in tokens {
          tokens := tokens[(mailboxId, depHash) := false];
          added := added + 1;
        }
      }
      return added, true;
    }

    method Deposit(now: int, mailboxId: Bytes, auth: Option<string>, msgId: Option<string>, expires: Option<int>,
                   body: Bytes)
      returns (r: Response)
      modifies this
      ensures (Tables(), r)
        == Handle(config, old(Tables()), now, Request.Deposit(mailboxId, auth, msgId, expires, body))
    {
      var checked := CheckDeposit(now, mailboxId, auth, msgId, expires, body);
      if checked.Err? {
        return Failed(checked.error);
      }
      r := Insert(checked.value);
    }

    /** Everything deposit does before its INSERT; other requests may run in between. */
    method CheckDeposit(now: int, mailboxId: Bytes, auth: Option<string>, msgId: Option<string>, expires: Option<int>,
                        body: Bytes)
      returns (r: Result<Pending, ApiError>)
      ensures r == DepositCheck(config, Tables(), now, mailboxId, auth, msgId, expires, body)
    {
      if |body| > config.maxMsgBytes {
        return Err(PayloadTooLarge);
      }
      var depHash := TokenHash(config, auth);
      if depHash.Err? {
        return Err(depHash.error);
      }
      if mailboxId !in mailboxes {
        return Err(NotFound);
      }
      if (mailboxId, depHash.value) !in tokens || tokens[(mailboxId, depHash.value)] {
        return Err(Forbidden);
      }
      var expiresAt := if expires.Some? then expires.value else now + Seconds(config.defaultTtlDays);
      var maxExpires := now + Seconds(config.maxTtlDays);
      if expiresAt > maxExpires {
        expiresAt := maxExpires;
      }
      if expiresAt <= now {
        return Err(InvalidInput);
      }
      var queueBytes := TotalBytes(Keep(messages, InMailbox(mailboxId)));
      if queueBytes + |body| > config.maxQueueBytes {
        return Err(RateLimited);
      }
      var msgIdRaw := MsgIdHeader(msgId);
      if msgIdRaw.None? {
        return Err(InvalidInput);
      }
      return Ok(Pending(mailboxId, msgIdRaw.value, body, now, expiresAt));
    }

    /** The INSERT of a deposit. */
    method Insert(p: Pending) returns (r: Response)
      modifies this
      ensures (Tables(), r) == DepositInsert(old(Tables()), p)
    {
      if HasMsgId(Keep(messages, InMailbox(p.mailbox)), p.msgId) {
        return Failed(Conflict);
      }
      if lastId + 1 >= TWO63 {
        return Failed(ServerError);
      }
      lastId := lastId + 1;
      messages := messages + [Row(lastId, p.mailbox, p.msgId, p.blob, p.receivedAt, p.expiresAt)];
      return Deposited(Encode(p.msgId), p.expiresAt);
    }

    method Poll(now: int, mailboxId: Bytes, auth: Option<string>, cursor: Option<string>, limit: Option<int>)
      returns (r: Response)
      ensures (Tables(), r) == Handle(config, Tables(), now, Request.Poll(mailboxId, auth, cursor, limit))
    {
      var error := OwnerError(config, Tables(), mailboxId, auth);
      if error.Some? {
        return Failed(error.value);
      }
      var lastId := StartId(config, mailboxId, cursor);
      if lastId.None? {
        return Failed(InvalidInput);
      }
      var rows := PageRows(Tables(), mailboxId, lastId.value, now, Limit(config, limit));
      var msgs: seq<PollMsg> := [];
      var newLastId := lastId.value;
      for i := 0 to |rows|
        invariant newLastId == if i == 0 then lastId.value else rows[i - 1].id
        invariant |msgs| == i && forall k | 0 <= k < i :: msgs[k] == Shown(rows[k])
      {
        newLastId := rows[i].id;
        msgs := msgs + [Shown(rows[i])];
      }
      assert msgs == ShownAll(rows);
      return Page(CursorEncode(config.hmac, config.secret, mailboxId, AsI64(newLastId)), msgs);
    }

    method Ack(mailboxId: Bytes, auth: Option<string>, msgIds: seq<string>) returns (r: Response)
      modifies this
      ensures (Tables(), r) == Handle(config, old(Tables()), 0, Request.Ack(mailboxId, auth, msgIds))
    {
      var error := OwnerError(config, Tables(), mailboxId, auth);
      if error.Some? {
        return Failed(error.value);
      }
      if msgIds == [] || |msgIds| > 2000 {
        return Failed(InvalidInput);
      }
      var deleted, ok := DeleteMessages(mailboxId, msgIds);
      return if ok then Acked(deleted) else Failed(InvalidInput);
    }

    /** The loop of ack: it stops at an id that does not decode, with the earlier deletions done. */
    method DeleteMessages(mailboxId: Bytes, msgIds: seq<string>) returns (deletedTotal: nat, ok: bool)
      modifies this
      ensures (Tables(), deletedTotal, ok) == AckLoop(old(Tables()), mailboxId, msgIds, 0)
    {
      deletedTotal := 0;
      for i := 0 to |msgIds|
        invariant AckLoop(Tables(), mailboxId, msgIds[i..], deletedTotal)
          == AckLoop(old(Tables()), mailboxId, msgIds, 0)
      {
        assert msgIds[i..][1..] == msgIds[i + 1..];
        var raw := Decode(msgIds[i]);
        if raw.None? {
          return deletedTotal, false;
        }
        var before := |messages|;
        messages := Keep(messages, OtherThan(mailboxId, raw.value));
        deletedTotal := deletedTotal + (before - |messages|);
      }
      return deletedTotal, true;
    }

    method Revoke(mailboxId: Bytes, auth: Option<string>, depositTokenHashes: seq<string>) returns (r: Response)
      modifies this
      ensures (Tables(), r) == Handle(config, old(Tables()), 0, Request.Revoke(mailboxId, auth, depositTokenHashes))
    {
      var error := OwnerError(config, Tables(), mailboxId, auth);
      if error.Some? {
        return Failed(error.value);
      }
      if depositTokenHashes == [] || |depositTokenHashes| > 1000 {
        return Failed(InvalidInput);
      }
      var count, ok := MarkRevoked(mailboxId, depositTokenHashes);
      return if ok then Revoked(count) else Failed(InvalidInput);
    }

    /** The loop of revoke: it stops at a bad hash, with the earlier tokens revoked. */
    method MarkRevoked(mailboxId: Bytes, depositTokenHashes: seq<string>) returns (revokedTotal: nat, ok: bool)
      modifies this
      ensures (Tables(), revokedTotal, ok) == RevokeLoop(old(Tables()), mailboxId, depositTokenHashes, 0)
    {
      revokedTotal := 0;
      for i := 0 to |depositTokenHashes|
        invariant RevokeLoop(Tables(), mailboxId, depositTokenHashes[i..], revokedTotal)
          == RevokeLoop(old(Tables()), mailboxId, depositTokenHashes, 0)
      {
        assert depositTokenHashes[i..][1..] == depositTokenHashes[i + 1..];
        var raw := Decode(depositTokenHashes[i]);
        if raw.None? || |raw.value| != 32 {
          return revokedTotal, false;
        }
        if (mailboxId, raw.value) in tokens {
          tokens := tokens[(mailboxId, raw.value) := true];
          revokedTotal := revokedTotal + 1;
        }
      }
      return revokedTotal, true;
    }

    method PurgeExpired(now: int)
      modifies this
      ensures Tables() == Purge(old(Tables()), now)
    {
      messages := Keep(messages, Unexpired(now));
    }
  }
}
