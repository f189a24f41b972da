/**
 * The mailbox server as functions from tables and a request to tables and a response. Random
 * values and the time of day are part of the request; HMAC-SHA256 is a parameter.
 */
module Mailbox {
  import opened Data
  import opened Kdf
  import opened Base64Url
  import opened Cursor
  import opened Rows

  datatype ApiError =
    | Unauthorized | Forbidden | NotFound | InvalidInput | PayloadTooLarge | RateLimited | Conflict | ServerError

  datatype Config = Config(
    hmac: Hmac,
    secret: Bytes,
    defaultTtlDays: int,
    maxTtlDays: int,
    maxMsgBytes: nat,
    maxQueueBytes: int,
    pollLimitDefault: int,
    pollLimitMax: int)

  /** HMAC results are 32 bytes, and the poll limit can be clamped. */
  ghost predicate Sane(c: Config) {
    Sized(c.hmac) && c.pollLimitMax >= 1
  }

  datatype Row = Row(id: int, mailbox: Bytes, msgId: Bytes, blob: Bytes, receivedAt: int, expiresAt: int)

  /** The three tables; lastId is the counter of the AUTOINCREMENT column, shared by all mailboxes. */
  datatype Db = Db(
    mailboxes: map<Bytes, Bytes>,
    tokens: map<(Bytes, Bytes), bool>,    // (mailbox, token hash) to revoked
    messages: seq<Row>,                   // by id
    lastId: nat)

  datatype Request =
    | Create(mailbox: Bytes, pollToken: Option<string>, generated: Bytes)
    | Register(mailbox: Bytes, auth: Option<string>, tokens: seq<string>)
    | Deposit(mailbox: Bytes, auth: Option<string>, msgId: Option<string>, expiresAt: Option<int>, body: Bytes)
    | Poll(mailbox: Bytes, auth: Option<string>, cursor: Option<string>, limit: Option<int>)
    | Ack(mailbox: Bytes, auth: Option<string>, msgIds: seq<string>)
    | Revoke(mailbox: Bytes, auth: Option<string>, hashes: seq<string>)

  datatype PollMsg = PollMsg(msgId: string, receivedAt: int, expiresAt: int, blob: Bytes)

  datatype Response =
    | Created(mailbox: Bytes, pollToken: Option<string>)
    | Registered(added: nat)
    | Deposited(msgId: string, expiresAt: int)
    | Page(cursor: string, messages: seq<PollMsg>)
    | Acked(deleted: nat)
    | Revoked(count: nat)
    | Failed(error: ApiError)

  // ---------------------------------------------------------------- headers

  predicate IsSpace(c: char) {
    c == ' ' || c == '\t'
  }

  function WordLength(s: string): (n: nat)
    ensures n <= |s|
    ensures s != "" && !IsSpace(s[0]) ==> n > 0
  {
    if s == "" || IsSpace(s[0]) then 0 else 1 + WordLength(s[1..])
  }

  /** split_whitespace */
  function Words(s: string): seq<string>
    decreases |s|
  {
    if s == "" then []
    else if IsSpace(s[0]) then Words(s[1..])
    else [s[..WordLength(s)]] + Words(s[WordLength(s)..])
  }

  function Lower(s: string): string {
    seq(|s|, i requires 0 <= i < |s| => if 'A' <= s[i] <= 'Z' then s[i] - 'A' + 'a' else s[i])
  }

  function BearerToken(auth: Option<string>): Result<string, ApiError> {
    if auth.None? then Err(Unauthorized)
    else
      var parts := Words(auth.value);
      if |parts| != 2 || Lower(parts[0]) != "bearer" then Err(Unauthorized) else Ok(parts[1])
  }

  /** The bearer token as 32 bytes, hashed. */
  function TokenHash(c: Config, auth: Option<string>): Result<Bytes, ApiError> {
    var token := BearerToken(auth);
    if token.Err? then Err(token.error)
    else
      var raw := Decode(token.value);
      if raw.None? then Err(InvalidInput)
      else if |raw.value| != 32 then Err(Unauthorized)
      else Ok(c.hmac(c.secret, raw.value))
  }

  /** The owner's check shared by poll, ack, register and revoke; None is success. */
  function OwnerError(c: Config, db: Db, mailbox: Bytes, auth: Option<string>): Option<ApiError> {
    var hash := TokenHash(c, auth);
    if hash.Err? then Some(hash.error)
    else if mailbox !in db.mailboxes then Some(NotFound)
    else if db.mailboxes[mailbox] != hash.value then Some(Forbidden)
    else None
  }

  function MsgIdHeader(msgId: Option<string>): Option<Bytes> {
    if msgId.None? || Decode(msgId.value).None? then None
    else if 16 <= |Decode(msgId.value).value| <= 32 then Decode(msgId.value) else None
  }

  // ---------------------------------------------------------------- queries

  function InMailbox(mailbox: Bytes): Row -> bool {
    (r: Row) => r.mailbox == mailbox
  }

  function After(lastId: int, now: int): Row -> bool {
    (r: Row) => r.id > lastId && r.expiresAt > now
  }

  function OtherThan(mailbox: Bytes, msgId: Bytes): Row -> bool {
    (r: Row) => !(r.mailbox == mailbox && r.msgId == msgId)
  }

  function Unexpired(now: int): Row -> bool {
    (r: Row) => r.expiresAt > now
  }

  function Queue(db: Db, mailbox: Bytes): seq<Row> {
    Keep(db.messages, InMailbox(mailbox))
  }

  function TotalBytes(rows: seq<Row>): nat {
    if rows == [] then 0 else |rows[0].blob| + TotalBytes(rows[1..])
  }

  predicate HasMsgId(rows: seq<Row>, msgId: Bytes) {
    exists i | 0 <= i < |rows| :: rows[i].msgId == msgId
  }

  // ---------------------------------------------------------------- handlers

  function HandleCreate(c: Config, db: Db, mailbox: Bytes, pollToken: Option<string>, generated: Bytes)
    : (Db, Response)
  {
    if pollToken.Some? && (Decode(pollToken.value).None? || |Decode(pollToken.value).value| != 32)
      then (db, Failed(InvalidInput))
    else
      var raw := if pollToken.Some? then Decode(pollToken.value).value else generated;
      if mailbox in db.mailboxes then (db, Failed(ServerError))
      else (db.(mailboxes := db.mailboxes[mailbox := c.hmac(c.secret, raw)]),
            Created(mailbox, if pollToken.Some? then None else Some(Encode(generated))))
  }

  /** INSERT OR IGNORE for each token in turn; a bad token ends the loop and leaves the earlier ones in. */
  function RegisterLoop(c: Config, db: Db, mailbox: Bytes, tokens: seq<string>, added: nat): (Db, nat, bool)
    decreases |tokens|
  {
    if tokens == [] then (db, added, true)
    else
      var raw := Decode(tokens[0]);
      if raw.None? || |raw.value| != 32 then (db, added, false)
      else
        var key := (mailbox, c.hmac(c.secret, raw.value));
        if key in db.tokens then RegisterLoop(c, db, mailbox, tokens[1..], added)
        else RegisterLoop(c, db.(tokens := db.tokens[key := false]), mailbox, tokens[1..], added + 1)
  }

  function HandleRegister(c: Config, db: Db, mailbox: Bytes, auth: Option<string>, tokens: seq<string>)
    : (Db, Response)
  {
    var error := OwnerError(c, db, mailbox, auth);
    if error.Some? then (db, Failed(error.value))
    else if tokens == [] || |tokens| > 5000 then (db, Failed(InvalidInput))
    else
      var (db', added, ok) := RegisterLoop(c, db, mailbox, tokens, 0);
      (db', if ok then Registered(added) else Failed(InvalidInput))
  }

  /** A deposit between the quota query and the insert. */
  datatype Pending = Pending(mailbox: Bytes, msgId: Bytes, blob: Bytes, receivedAt: int, expiresAt: int)

  function Seconds(days: int): int {
    days * 24 * 3600
  }

  function DepositExpiry(c: Config, now: int, expiresAt: Option<int>): int {
    var wanted := if expiresAt.Some? then expiresAt.value else now + Seconds(c.defaultTtlDays);
    if wanted > now + Seconds(c.maxTtlDays) then now + Seconds(c.maxTtlDays) else wanted
  }

  /** Everything deposit does before its insert. */
  function DepositCheck(c: Config, db: Db, now: int, mailbox: Bytes, auth: Option<string>, msgId: Option<string>,
                        expiresAt: Option<int>, body: Bytes): Result<Pending, ApiError>
  {
    if |body| > c.maxMsgBytes then Err(PayloadTooLarge)
    else
      var hash := TokenHash(c, auth);
      if hash.Err? then Err(hash.error)
      else if mailbox !in db.mailboxes then Err(NotFound)
      else if (mailbox, hash.value) !in db.tokens || db.tokens[(mailbox, hash.value)] then Err(Forbidden)
      else
        var expiry := DepositExpiry(c, now, expiresAt);
        if expiry <= now then Err(InvalidInput)
        else if TotalBytes(Queue(db, mailbox)) + |body| > c.maxQueueBytes then Err(RateLimited)
        else
          var id := MsgIdHeader(msgId);
          if id.None? then Err(InvalidInput) else Ok(Pending(mailbox, id.value, body, now, expiry))
  }

  /** The insert; the unique index refuses a message id the mailbox already holds. */
  function DepositInsert(db: Db, p: Pending): (Db, Response) {
    if HasMsgId(Queue(db, p.mailbox), p.msgId) then (db, Failed(Conflict))
    else if db.lastId + 1 >= TWO63 then (db, Failed(ServerError))
    else (db.(messages := db.messages + [Row(db.lastId + 1, p.mailbox, p.msgId, p.blob, p.receivedAt, p.expiresAt)],
              lastId := db.lastId + 1),
          Deposited(Encode(p.msgId), p.expiresAt))
  }

  function HandleDeposit(c: Config, db: Db, now: int, mailbox: Bytes, auth: Option<string>, msgId: Option<string>,
                         expiresAt: Option<int>, body: Bytes): (Db, Response)
  {
    var checked := DepositCheck(c, db, now, mailbox, auth, msgId, expiresAt, body);
    if checked.Err? then (db, Failed(checked.error)) else DepositInsert(db, checked.value)
  }

  function Limit(c: Config, limit: Option<int>): int {
    var wanted := if limit.Some? then limit.value else c.pollLimitDefault;
    if wanted < 1 then 1 else if wanted > c.pollLimitMax then c.pollLimitMax else wanted
  }

  function Take<T>(s: seq<T>, n: int): seq<T> {
    if n < 0 then [] else if n < |s| then s[..n] else s
  }

  /** SELECT ... WHERE mailbox_id = ? AND id > ? AND expires_at > ? ORDER BY id ASC LIMIT ? */
  function PageRows(db: Db, mailbox: Bytes, lastId: int, now: int, limit: int): seq<Row> {
    Take(Keep(Queue(db, mailbox), After(lastId, now)), limit)
  }

  function Shown(r: Row): PollMsg {
    PollMsg(Encode(r.msgId), r.receivedAt, r.expiresAt, r.blob)
  }

  function ShownAll(rows: seq<Row>): (ms: seq<PollMsg>)
    ensures |ms| == |rows|
  {
    seq(|rows|, i requires 0 <= i < |rows| => Shown(rows[i]))
  }

  function NewLastId(lastId: int, rows: seq<Row>): int {
    if rows == [] then lastId else rows[|rows| - 1].id
  }

  function AsI64(n: int): i64 {
    if -TWO63 <= n < TWO63 then n else 0
  }

  /** The id a poll starts after; None is a cursor that was not issued for this mailbox. */
  function StartId(c: Config, mailbox: Bytes, cursor: Option<string>): Option<int> {
    if cursor.None? then Some(0)
    else
      var id := CursorDecode(c.hmac, c.secret, mailbox, cursor.value);
      if id.None? then None else Some(id.value)
  }

  function HandlePoll(c: Config, db: Db, now: int, mailbox: Bytes, auth: Option<string>, cursor: Option<string>,
                      limit: Option<int>): Response
  {
    var error := OwnerError(c, db, mailbox, auth);
    if error.Some? then Failed(error.value)
    else
      var lastId := StartId(c, mailbox, cursor);
      if lastId.None? then Failed(InvalidInput)
      else
        var rows := PageRows(db, mailbox, lastId.value, now, Limit(c, limit));
        Page(CursorEncode(c.hmac, c.secret, mailbox, AsI64(NewLastId(lastId.value, rows))), ShownAll(rows))
  }

  function DeleteMessage(db: Db, mailbox: Bytes, msgId: Bytes): Db {
    db.(messages := Keep(db.messages, OtherThan(mailbox, msgId)))
  }

  /** A DELETE for each id in turn; a bad id ends the loop and leaves the earlier deletions done. */
  function AckLoop(db: Db, mailbox: Bytes, msgIds: seq<string>, deleted: nat): (Db, nat, bool)
    decreases |msgIds|
  {
    if msgIds == [] then (db, deleted, true)
    else
      var raw := Decode(msgIds[0]);
      if raw.None? then (db, deleted, false)
      else
        var db1 := DeleteMessage(db, mailbox, raw.value);
        AckLoop(db1, mailbox, msgIds[1..], deleted + (|db.messages| - |db1.messages|))
  }

  function HandleAck(c: Config, db: Db, mailbox: Bytes, auth: Option<string>, msgIds: seq<string>): (Db, Response) {
    var error := OwnerError(c, db, mailbox, auth);
    if error.Some? then (db, Failed(error.value))
    else if msgIds == [] || |msgIds| > 2000 then (db, Failed(InvalidInput))
    else
      var (db', deleted, ok) := AckLoop(db, mailbox, msgIds, 0);
      (db', if ok then Acked(deleted) else Failed(InvalidInput))
  }

  /** An UPDATE for each hash in turn; it counts the rows matched, also those revoked before. */
  function RevokeLoop(db: Db, mailbox: Bytes, hashes: seq<string>, count: nat): (Db, nat, bool)
    decreases |hashes|
  {
    if hashes == [] then (db, count, true)
    else
      var raw := Decode(hashes[0]);
      if raw.None? || |raw.value| != 32 then (db, count, false)
      else
        var key := (mailbox, raw.value);
        if key in db.tokens then RevokeLoop(db.(tokens := db.tokens[key := true]), mailbox, hashes[1..], count + 1)
        else RevokeLoop(db, mailbox, hashes[1..], count)
  }

  function HandleRevoke(c: Config, db: Db, mailbox: Bytes, auth: Option<string>, hashes: seq<string>): (Db, Response) {
    var error := OwnerError(c, db, mailbox, auth);
    if error.Some? then (db, Failed(error.value))
    else if hashes == [] || |hashes| > 1000 then (db, Failed(InvalidInput))
    else
      var (db', count, ok) := RevokeLoop(db, mailbox, hashes, 0);
      (db', if ok then Revoked(count) else Failed(InvalidInput))
  }

  /** The background task: DELETE FROM messages WHERE expires_at <= ? */
  function Purge(db: Db, now: int): Db {
    db.(messages := Keep(db.messages, Unexpired(now)))
  }

  function Handle(c: Config, db: Db, now: int, req: Request): (Db, Response) {
    match req
    case Create(mailbox, pollToken, generated) => HandleCreate(c, db, mailbox, pollToken, generated)
    case Register(mailbox, auth, tokens) => HandleRegister(c, db, mailbox, auth, tokens)
    case Deposit(mailbox, auth, msgId, expiresAt, body) => HandleDeposit(c, db, now, mailbox, auth, msgId, expiresAt,
      body)
    case Poll(mailbox, auth, cursor, limit) => (db, HandlePoll(c, db, now, mailbox, auth, cursor, limit))
    case Ack(mailbox, auth, msgIds) => HandleAck(c, db, mailbox, auth, msgIds)
    case Revoke(mailbox, auth, hashes) => HandleRevoke(c, db, mailbox, auth, hashes)
  }
}
