/** What is stored of a deposit and what a page shows of it: every value is the one that was deposited. */
module MailboxRecords {
  import opened Data
  import opened Base64Url
  import opened Cursor
  import opened Rows
  import opened Mailbox
  import opened MailboxRuns
  import opened Pagination

  // ---------------------------------------------------------------- one deposit

  lemma CheckPasses(c: Config, db: Db, now: int, mailbox: Bytes, auth: Option<string>, msgId: Option<string>,
                    expiresAt: Option<int>, body: Bytes, p: Pending)
    requires DepositCheck(c, db, now, mailbox, auth, msgId, expiresAt, body) == Ok(p)
    ensures p.mailbox == mailbox && msgId == Some(Encode(p.msgId)) && p.blob == body && p.receivedAt == now
  {
    DecodeInverts(msgId.value, p.msgId);
  }

  lemma InsertStores(db: Db, p: Pending)
    requires DepositInsert(db, p).1.Deposited?
    ensures var (end, r) := DepositInsert(db, p);
      && r == Deposited(Encode(p.msgId), p.expiresAt)
      && end == db.(lastId := db.lastId + 1,
                    messages := db.messages
                      + [Row(db.lastId + 1, p.mailbox, p.msgId, p.blob, p.receivedAt, p.expiresAt)])
  {
  }

  /**
   * An accepted deposit answers the message id it was given and adds one row, the last one, with a new
   * id: the mailbox, the bytes of the message id, the body, the time of the request and the expiry answered.
   */
  lemma DepositStores(c: Config, db: Db, now: int, mailbox: Bytes, auth: Option<string>, msgId: Option<string>,
                      expiresAt: Option<int>, body: Bytes)
    requires Handle(c, db, now, Deposit(mailbox, auth, msgId, expiresAt, body)).1.Deposited?
    ensures var (end, r) := Handle(c, db, now, Deposit(mailbox, auth, msgId, expiresAt, body));
      && msgId == Some(r.msgId) && Decode(r.msgId).Some?
      && end == db.(lastId := db.lastId + 1,
                    messages := db.messages
                      + [Row(db.lastId + 1, mailbox, Decode(r.msgId).value, body, now, r.expiresAt)])
  {
    var p := DepositCheck(c, db, now, mailbox, auth, msgId, expiresAt, body).value;
    CheckPasses(c, db, now, mailbox, auth, msgId, expiresAt, body, p);
    InsertStores(db, p);
    DecodeEncode(p.msgId);
  }

  // ---------------------------------------------------------------- one page

  /** A message of a page gives the values of a row. */
  predicate ShowsRow(m: PollMsg, r: Row) {
    m.msgId == Encode(r.msgId) && m.receivedAt == r.receivedAt && m.expiresAt == r.expiresAt && m.blob == r.blob
  }

  /** The messages of a page are the values of its rows, in their order. */
  lemma PageShowsRows(c: Config, db: Db, now: int, mailbox: Bytes, auth: Option<string>, cursor: Option<string>,
                      limit: Option<int>)
    requires HandlePoll(c, db, now, mailbox, auth, cursor, limit).Page?
    ensures var ms := HandlePoll(c, db, now, mailbox, auth, cursor, limit).messages;
      && StartId(c, mailbox, cursor).Some?
      && var rows := PageRows(db, mailbox, StartId(c, mailbox, cursor).value, now, Limit(c, limit));
         && |ms| == |rows|
         && forall k | 0 <= k < |ms| ::
             && ShowsRow(ms[k], rows[k])
             && rows[k] in db.messages && rows[k].mailbox == mailbox && rows[k].expiresAt > now
  {
    var last := StartId(c, mailbox, cursor).value;
    var rows := PageRows(db, mailbox, last, now, Limit(c, limit));
    forall k | 0 <= k < |rows|
      ensures rows[k] in db.messages && rows[k].mailbox == mailbox && rows[k].expiresAt > now
    {
      LiveHas(db, mailbox, last, now, rows[k]);
    }
  }

  // ---------------------------------------------------------------- from the deposit to the page

  /** Neither a purge at its expiry or later nor an ack that lists it. */
  predicate Spares(a: Action, mailbox: Bytes, msgId: string, expiresAt: int) {
    match a
    case Sweep(now) => now < expiresAt
    case Serve(_, request) => request.Ack? && request.mailbox == mailbox ==> msgId !in request.msgIds
  }

  lemma {:induction false} ListedIds(msgIds: seq<string>, id: Bytes)
    requires id in Listed(msgIds)
    ensures Encode(id) in msgIds
  {
    if Decode(msgIds[0]).value == id {
      DecodeInverts(msgIds[0], id);
    } else {
      ListedIds(msgIds[1..], id);
    }
  }

  lemma ActionSpares(c: Config, db: Db, a: Action, row: Row)
    requires row in db.messages && Spares(a, row.mailbox, Encode(row.msgId), row.expiresAt)
    ensures row in Apply(c, db, a).messages
  {
    match a
    case Sweep(now) => KeepMember(db.messages, Unexpired(now), row);
    case Serve(now, request) =>
      match request
      case Register(m, auth, tokens) => RegisterChangesTokensOnly(c, db, m, tokens, 0);
      case Revoke(m, auth, hashes) => RevokeChangesTokensOnly(db, m, hashes, 0);
      case Ack(m, auth, msgIds) =>
        AckDeletesListed(db, m, msgIds, 0);
        if m == row.mailbox && row.msgId in Listed(msgIds) {
          ListedIds(msgIds, row.msgId);
          assert false;
        }
        KeepMember(db.messages, NotListed(m, Listed(msgIds)), row);
      case _ =>
  }

  /** A row stays as it is until it is acknowledged or purged. */
  lemma {:induction false} RowStays(c: Config, db: Db, actions: seq<Action>, row: Row)
    requires row in db.messages
    requires forall i | 0 <= i < |actions| :: Spares(actions[i], row.mailbox, Encode(row.msgId), row.expiresAt)
    ensures row in RunDb(c, db, actions).messages
    decreases |actions|
  {
    if actions == [] {
    } else {
      ActionSpares(c, db, actions[0], row);
      RowStays(c, Apply(c, db, actions[0]), actions[1..], row);
    }
  }

  /** A page that is short, or whose cursor is past the row, shows it. */
  lemma PageReaches(c: Config, db: Db, now: int, mailbox: Bytes, auth: Option<string>, cursor: Option<string>,
                    limit: Option<int>, row: Row, next: i64)
    requires Sane(c) && DbOk(c, db) && HandlePoll(c, db, now, mailbox, auth, cursor, limit).Page?
    requires StartId(c, mailbox, cursor).Some? && 0 <= StartId(c, mailbox, cursor).value <= db.lastId
    requires row in db.messages && row.mailbox == mailbox && row.expiresAt > now
    requires row.id > StartId(c, mailbox, cursor).value
    requires var page := HandlePoll(c, db, now, mailbox, auth, cursor, limit);
      || |page.messages| < Limit(c, limit)
      || (page.cursor == CursorEncode(c.hmac, c.secret, mailbox, next) && row.id <= next)
    ensures exists m :: m in HandlePoll(c, db, now, mailbox, auth, cursor, limit).messages && ShowsRow(m, row)
  {
    var page, last := HandlePoll(c, db, now, mailbox, auth, cursor, limit), StartId(c, mailbox, cursor).value;
    var rows := PageRows(db, mailbox, last, now, Limit(c, limit));
    var end := NewLastId(last, rows);
    PageHolds(c, db, mailbox, last, now, Limit(c, limit));
    if page.cursor == CursorEncode(c.hmac, c.secret, mailbox, next) {
      CursorDecodesExactlyIssued(c.hmac, c.secret, mailbox, page.cursor, next);
      CursorDecodesExactlyIssued(c.hmac, c.secret, mailbox, page.cursor, AsI64(end));
    }
    assert row in rows;
    var k :| 0 <= k < |rows| && rows[k] == row;
    PageShowsRows(c, db, now, mailbox, auth, cursor, limit);
    assert page.messages[k] in page.messages && ShowsRow(page.messages[k], row);
  }

  /**
   * A deposit accepted at time t is shown, until it expires or is acknowledged and whatever other requests
   * come in between, by every page that reaches it: with the message id given, received at t, expiring
   * when the deposit's answer said, and with its body. The page starts at the beginning or from a cursor
   * that was issued for a row before.
   */
  lemma DepositIsShown(c: Config, db: Db, t: int, mailbox: Bytes, depositor: Option<string>, msgId: Option<string>,
                       expiresAt: Option<int>, body: Bytes, actions: seq<Action>, now: int, owner: Option<string>,
                       from: Option<i64>, limit: Option<int>, next: i64)
    requires Sane(c) && DbOk(c, db) && (from.Some? ==> 0 <= from.value <= db.lastId)
    requires Handle(c, db, t, Deposit(mailbox, depositor, msgId, expiresAt, body)).1.Deposited?
    requires var r := Handle(c, db, t, Deposit(mailbox, depositor, msgId, expiresAt, body)).1;
      && now < r.expiresAt
      && forall i | 0 <= i < |actions| :: Spares(actions[i], mailbox, r.msgId, r.expiresAt)
    requires var end := RunDb(c, Handle(c, db, t, Deposit(mailbox, depositor, msgId, expiresAt, body)).0, actions);
      var cursor := if from.Some? then Some(CursorEncode(c.hmac, c.secret, mailbox, from.value)) else None;
      var page := HandlePoll(c, end, now, mailbox, owner, cursor, limit);
      && page.Page?
      && (|page.messages| < Limit(c, limit)
          || (page.cursor == CursorEncode(c.hmac, c.secret, mailbox, next) && next > db.lastId))
    ensures var (db1, r) := Handle(c, db, t, Deposit(mailbox, depositor, msgId, expiresAt, body));
      var cursor := if from.Some? then Some(CursorEncode(c.hmac, c.secret, mailbox, from.value)) else None;
      var page := HandlePoll(c, RunDb(c, db1, actions), now, mailbox, owner, cursor, limit);
      && msgId.Some? && PollMsg(msgId.value, t, r.expiresAt, body) in page.messages
  {
    var (db1, r) := Handle(c, db, t, Deposit(mailbox, depositor, msgId, expiresAt, body));
    var end := RunDb(c, db1, actions);
    var cursor := if from.Some? then Some(CursorEncode(c.hmac, c.secret, mailbox, from.value)) else None;
    DepositStores(c, db, t, mailbox, depositor, msgId, expiresAt, body);
    var row := Row(db.lastId + 1, mailbox, Decode(r.msgId).value, body, t, r.expiresAt);
    EncodeDecode(r.msgId);
    assert row in db1.messages;
    RowStays(c, db1, actions, row);
    ApplyKeepsDbOk(c, db, Serve(t, Deposit(mailbox, depositor, msgId, expiresAt, body)));
    RunKeepsDbOk(c, db1, actions);
    IdsAreNeverReused(c, db1, actions);
    if from.Some? {
      CursorDecodesExactlyIssued(c.hmac, c.secret, mailbox, cursor.value, from.value);
    }
    PageReaches(c, end, now, mailbox, owner, cursor, limit, row, next);
  }

  // ---------------------------------------------------------------- from the page to the deposit

  /** The row was stored by an accepted deposit of the run. */
  ghost predicate DepositedBy(c: Config, db: Db, actions: seq<Action>, i: nat, row: Row) {
    && i < |actions| && actions[i].Serve? && actions[i].request.Deposit?
    && var d := actions[i].request;
       && d.mailbox == row.mailbox && d.msgId == Some(Encode(row.msgId)) && d.body == row.blob
       && actions[i].now == row.receivedAt
       && Handle(c, RunDb(c, db, actions[..i]), actions[i].now, d).1 == Deposited(Encode(row.msgId), row.expiresAt)
  }

  lemma ActionAddsDeposit(c: Config, db: Db, a: Action, row: Row)
    requires row in Apply(c, db, a).messages && row !in db.messages
    ensures DepositedBy(c, db, [a], 0, row)
  {
    assert [a][..0] == [];
    match a
    case Sweep(now) => KeepMember(db.messages, Unexpired(now), row);
    case Serve(now, request) =>
      match request
      case Register(m, auth, tokens) => RegisterChangesTokensOnly(c, db, m, tokens, 0);
      case Revoke(m, auth, hashes) => RevokeChangesTokensOnly(db, m, hashes, 0);
      case Ack(m, auth, msgIds) =>
        AckDeletesListed(db, m, msgIds, 0);
        KeepMember(db.messages, NotListed(m, Listed(msgIds)), row);
      case Deposit(m, auth, msgId, expiresAt, body) =>
        DepositStores(c, db, now, m, auth, msgId, expiresAt, body);
        EncodeDecode(msgId.value);
      case _ =>
  }

  /** Every row a run leaves was there before or is the record of one deposit of the run. */
  lemma {:induction false} RowsAreDeposits(c: Config, db: Db, actions: seq<Action>, row: Row) returns (i: nat)
    requires row in RunDb(c, db, actions).messages
    ensures row in db.messages || DepositedBy(c, db, actions, i, row)
    decreases |actions|
  {
    i := 0;
    if actions == [] {
    } else {
      var db1 := Apply(c, db, actions[0]);
      var j := RowsAreDeposits(c, db1, actions[1..], row);
      if row in db1.messages {
        if row !in db.messages {
          ActionAddsDeposit(c, db, actions[0], row);
          assert actions[..0] == [] && [actions[0]][..0] == [];
        }
      } else {
        i := j + 1;
        assert actions[..i][1..] == actions[1..][..j];
      }
    }
  }

  /** Over every run from empty tables, whatever a page shows was deposited like that, and is not expired. */
  lemma ShownWasDeposited(c: Config, actions: seq<Action>, now: int, mailbox: Bytes, auth: Option<string>,
                          cursor: Option<string>, limit: Option<int>, m: PollMsg) returns (i: nat)
    requires var page := HandlePoll(c, RunDb(c, EMPTY, actions), now, mailbox, auth, cursor, limit);
      page.Page? && m in page.messages
    ensures i < |actions| && actions[i].Serve? && actions[i].request.Deposit?
    ensures var d := actions[i].request;
      && d.mailbox == mailbox && d.msgId == Some(m.msgId) && d.body == m.blob && actions[i].now == m.receivedAt
      && Handle(c, RunDb(c, EMPTY, actions[..i]), actions[i].now, d).1 == Deposited(m.msgId, m.expiresAt)
      && m.expiresAt > now
  {
    var db := RunDb(c, EMPTY, actions);
    var ms := HandlePoll(c, db, now, mailbox, auth, cursor, limit).messages;
    PageShowsRows(c, db, now, mailbox, auth, cursor, limit);
    var k :| 0 <= k < |ms| && ms[k] == m;
    var row := PageRows(db, mailbox, StartId(c, mailbox, cursor).value, now, Limit(c, limit))[k];
    i := RowsAreDeposits(c, EMPTY, actions, row);
  }
}
