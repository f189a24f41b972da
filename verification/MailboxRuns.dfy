/** What holds of the mailbox tables over every run of requests and purges. */
module MailboxRuns {
  import opened Data
  import opened Base64Url
  import opened Cursor
  import opened Rows
  import opened Mailbox

  datatype Action = Serve(now: int, request: Request) | Sweep(now: int)

  const EMPTY := Db(map[], map[], [], 0)

  function Apply(c: Config, db: Db, a: Action): Db {
    match a
    case Serve(now, request) => Handle(c, db, now, request).0
    case Sweep(now) => Purge(db, now)
  }

  function RunDb(c: Config, db: Db, actions: seq<Action>): Db
    decreases |actions|
  {
    if actions == [] then db else RunDb(c, Apply(c, db, actions[0]), actions[1..])
  }

  // ---------------------------------------------------------------- table invariant

  predicate RowOk(c: Config, r: Row, lastId: nat) {
    && 1 <= r.id <= lastId
    && r.receivedAt < r.expiresAt <= r.receivedAt + Seconds(c.maxTtlDays)
  }

  predicate Distinguished(a: Row, b: Row) {
    a.id < b.id && (a.mailbox, a.msgId) != (b.mailbox, b.msgId)
  }

  ghost predicate RowsOk(c: Config, rows: seq<Row>, lastId: nat) {
    && (forall i | 0 <= i < |rows| :: RowOk(c, rows[i], lastId))
    && (forall i, j | 0 <= i < j < |rows| :: Distinguished(rows[i], rows[j]))
  }

  /** Ids ascend, message ids are unique within a mailbox, and no message outlives the maximum TTL. */
  ghost predicate DbOk(c: Config, db: Db) {
    && RowsOk(c, db.messages, db.lastId) && db.lastId < TWO63
    && (forall i | 0 <= i < |db.messages| :: db.messages[i].mailbox in db.mailboxes)
  }

  lemma KeepRowsOk(c: Config, rows: seq<Row>, lastId: nat, f: Row -> bool)
    requires RowsOk(c, rows, lastId)
    ensures RowsOk(c, Keep(rows, f), lastId)
  {
    var kept := Keep(rows, f);
    forall i | 0 <= i < |kept| ensures RowOk(c, kept[i], lastId) {
      assert RowOk(c, rows[Place(rows, f, i)], lastId);
    }
    forall i, j | 0 <= i < j < |kept| ensures Distinguished(kept[i], kept[j]) {
      PlacesAscend(rows, f, i, j);
      assert Distinguished(rows[Place(rows, f, i)], rows[Place(rows, f, j)]);
    }
  }

  lemma KeepDbOk(c: Config, db: Db, f: Row -> bool)
    requires DbOk(c, db)
    ensures DbOk(c, db.(messages := Keep(db.messages, f)))
  {
    KeepRowsOk(c, db.messages, db.lastId, f);
    var kept := Keep(db.messages, f);
    forall i | 0 <= i < |kept| ensures kept[i].mailbox in db.mailboxes {
      assert kept[i] == db.messages[Place(db.messages, f, i)];
    }
  }

  lemma DepositKeepsDbOk(c: Config, db: Db, p: Pending)
    requires DbOk(c, db) && p.mailbox in db.mailboxes
    requires p.receivedAt < p.expiresAt <= p.receivedAt + Seconds(c.maxTtlDays)
    ensures DbOk(c, DepositInsert(db, p).0)
  {
    if !HasMsgId(Queue(db, p.mailbox), p.msgId) {
      forall i | 0 <= i < |db.messages| ensures (db.messages[i].mailbox, db.messages[i].msgId) != (p.mailbox, p.msgId) {
        var r := db.messages[i];
        if r.mailbox == p.mailbox {
          KeepMember(db.messages, InMailbox(p.mailbox), r);
          var j :| 0 <= j < |Queue(db, p.mailbox)| && Queue(db, p.mailbox)[j] == r;
        }
      }
      forall i | 0 <= i < |db.messages| ensures RowOk(c, db.messages[i], db.lastId + 1) {
        assert RowOk(c, db.messages[i], db.lastId);
      }
    }
  }

  lemma {:induction false} RegisterChangesTokensOnly(c: Config, db: Db, mailbox: Bytes, tokens: seq<string>, added: nat)
    ensures var end := RegisterLoop(c, db, mailbox, tokens, added).0;
      end == db.(tokens := end.tokens) && db.tokens.Keys <= end.tokens.Keys
      && forall k | k in db.tokens :: end.tokens[k] == db.tokens[k]
    decreases |tokens|
  {
    if tokens == [] {
    } else {
      var raw := Decode(tokens[0]);
      if raw.Some? && |raw.value| == 32 {
        var key := (mailbox, c.hmac(c.secret, raw.value));
        if key in db.tokens {
          RegisterChangesTokensOnly(c, db, mailbox, tokens[1..], added);
        } else {
          RegisterChangesTokensOnly(c, db.(tokens := db.tokens[key := false]), mailbox, tokens[1..], added + 1);
        }
      }
    }
  }

  lemma {:induction false} RevokeChangesTokensOnly(db: Db, mailbox: Bytes, hashes: seq<string>, count: nat)
    ensures var end := RevokeLoop(db, mailbox, hashes, count).0;
      end == db.(tokens := end.tokens) && db.tokens.Keys == end.tokens.Keys
      && forall k | k in db.tokens && db.tokens[k] :: end.tokens[k]
    decreases |hashes|
  {
    if hashes == [] {
    } else {
      var raw := Decode(hashes[0]);
      if raw.Some? && |raw.value| == 32 {
        var key := (mailbox, raw.value);
        if key in db.tokens {
          RevokeChangesTokensOnly(db.(tokens := db.tokens[key := true]), mailbox, hashes[1..], count + 1);
        } else {
          RevokeChangesTokensOnly(db, mailbox, hashes[1..], count);
        }
      }
    }
  }

  /** The rows a list of message ids leaves in place. */
  function NotListed(mailbox: Bytes, ids: set<Bytes>): Row -> bool {
    (r: Row) => !(r.mailbox == mailbox && r.msgId in ids)
  }

  /** The ids ack gets through before one that does not decode. */
  function Listed(msgIds: seq<string>): set<Bytes> {
    if msgIds == [] || Decode(msgIds[0]).None? then {} else {Decode(msgIds[0]).value} + Listed(msgIds[1..])
  }

  lemma DeletingInTurn(rows: seq<Row>, mailbox: Bytes, id: Bytes, rest: set<Bytes>)
    ensures Keep(Keep(rows, OtherThan(mailbox, id)), NotListed(mailbox, rest))
      == Keep(rows, NotListed(mailbox, {id} + rest))
  {
    KeepTwice(rows, OtherThan(mailbox, id), NotListed(mailbox, rest), NotListed(mailbox, {id} + rest));
  }

  /** Ack deletes exactly the rows of its mailbox whose ids it got through, and counts them, also when it fails. */
  lemma {:induction false} AckDeletesListed(db: Db, mailbox: Bytes, msgIds: seq<string>, deleted: nat)
    ensures var (end, total, ok) := AckLoop(db, mailbox, msgIds, deleted);
      && end == db.(messages := Keep(db.messages, NotListed(mailbox, Listed(msgIds))))
      && total + |end.messages| == deleted + |db.messages|
    decreases |msgIds|
  {
    if msgIds == [] || Decode(msgIds[0]).None? {
      KeepAll(db.messages, NotListed(mailbox, Listed(msgIds)));
    } else {
      var id := Decode(msgIds[0]).value;
      var db1 := DeleteMessage(db, mailbox, id);
      AckDeletesListed(db1, mailbox, msgIds[1..], deleted + (|db.messages| - |db1.messages|));
      DeletingInTurn(db.messages, mailbox, id, Listed(msgIds[1..]));
    }
  }

  predicate AllDecode(msgIds: seq<string>) {
    forall i | 0 <= i < |msgIds| :: Decode(msgIds[i]).Some?
  }

  lemma AllDecodeFirst(msgIds: seq<string>)
    requires msgIds != []
    ensures AllDecode(msgIds) <==> Decode(msgIds[0]).Some? && AllDecode(msgIds[1..])
  {
    assert forall i | 0 < i < |msgIds| :: msgIds[i] == msgIds[1..][i - 1];
  }

  /** Ack fails exactly when some id does not decode. */
  lemma {:induction false} AckSucceeds(db: Db, mailbox: Bytes, msgIds: seq<string>, deleted: nat)
    ensures AckLoop(db, mailbox, msgIds, deleted).2 <==> AllDecode(msgIds)
    decreases |msgIds|
  {
    if msgIds == [] {
    } else {
      AllDecodeFirst(msgIds);
      if Decode(msgIds[0]).Some? {
        var db1 := DeleteMessage(db, mailbox, Decode(msgIds[0]).value);
        AckSucceeds(db1, mailbox, msgIds[1..], deleted + (|db.messages| - |db1.messages|));
      }
    }
  }

  /** Two filters in a row are one filter by both. */
  lemma {:induction false} KeepTwice(rows: seq<Row>, f: Row -> bool, g: Row -> bool, both: Row -> bool)
    requires forall r | r in rows :: both(r) == (f(r) && g(r))
    ensures Keep(Keep(rows, f), g) == Keep(rows, both)
  {
    if rows == [] {
    } else {
      KeepTwice(rows[1..], f, g, both);
      KeepAppend(if f(rows[0]) then [rows[0]] else [], Keep(rows[1..], f), g);
    }
  }

  lemma AckKeepsDbOk(c: Config, db: Db, mailbox: Bytes, msgIds: seq<string>)
    requires DbOk(c, db)
    ensures DbOk(c, AckLoop(db, mailbox, msgIds, 0).0)
  {
    AckDeletesListed(db, mailbox, msgIds, 0);
    KeepDbOk(c, db, NotListed(mailbox, Listed(msgIds)));
  }

  lemma DepositRequestKeepsDbOk(c: Config, db: Db, now: int, request: Request)
    requires DbOk(c, db) && request.Deposit?
    ensures DbOk(c, Handle(c, db, now, request).0)
  {
    var checked := DepositCheck(c, db, now, request.mailbox, request.auth, request.msgId, request.expiresAt,
      request.body);
    if checked.Ok? {
      DepositKeepsDbOk(c, db, checked.value);
    }
  }

  lemma ApplyKeepsDbOk(c: Config, db: Db, a: Action)
    requires DbOk(c, db)
    ensures DbOk(c, Apply(c, db, a))
  {
    match a
    case Sweep(now) => KeepDbOk(c, db, Unexpired(now));
    case Serve(now, request) =>
      match request
      case Register(mailbox, auth, tokens) => RegisterChangesTokensOnly(c, db, mailbox, tokens, 0);
      case Revoke(mailbox, auth, hashes) => RevokeChangesTokensOnly(db, mailbox, hashes, 0);
      case Ack(mailbox, auth, msgIds) => AckKeepsDbOk(c, db, mailbox, msgIds);
      case Deposit(_, _, _, _, _) => DepositRequestKeepsDbOk(c, db, now, request);
      case _ =>
  }

  lemma {:induction false} RunKeepsDbOk(c: Config, db: Db, actions: seq<Action>)
    requires DbOk(c, db)
    ensures DbOk(c, RunDb(c, db, actions))
    decreases |actions|
  {
    if actions == [] {
    } else {
      ApplyKeepsDbOk(c, db, actions[0]);
      RunKeepsDbOk(c, Apply(c, db, actions[0]), actions[1..]);
    }
  }

  // ---------------------------------------------------------------- conservation

  /** Deposits accepted, rows deleted by ack, rows purged. */
  datatype Tally = Tally(accepted: nat, acked: nat, purged: nat)

  function Plus(a: Tally, b: Tally): Tally {
    Tally(a.accepted + b.accepted, a.acked + b.acked, a.purged + b.purged)
  }

  /** What one action adds to the tally of a mailbox, read off the responses and statements, not the tables after it. */
  function Added(c: Config, db: Db, a: Action, mailbox: Bytes): Tally {
    match a
    case Sweep(now) => Tally(0, 0, |Keep(Queue(db, mailbox), Not(Unexpired(now)))|)
    case Serve(now, request) =>
      if request.mailbox != mailbox then Tally(0, 0, 0)
      else if request.Deposit? then Tally(if Handle(c, db, now, request).1.Deposited? then 1 else 0, 0, 0)
      else if request.Ack? && OwnerError(c, db, mailbox, request.auth).None? && 0 < |request.msgIds| <= 2000 then
        Tally(0, AckLoop(db, mailbox, request.msgIds, 0).1, 0)
      else Tally(0, 0, 0)
  }

  function RunTally(c: Config, db: Db, actions: seq<Action>, mailbox: Bytes): Tally
    decreases |actions|
  {
    if actions == [] then Tally(0, 0, 0)
    else Plus(Added(c, db, actions[0], mailbox), RunTally(c, Apply(c, db, actions[0]), actions[1..], mailbox))
  }

  lemma DeletionIsLocal(db: Db, mailbox: Bytes, ids: set<Bytes>, other: Bytes)
    ensures var db' := db.(messages := Keep(db.messages, NotListed(mailbox, ids)));
      && (other != mailbox ==> Queue(db', other) == Queue(db, other))
      && |db.messages| - |db'.messages| == |Queue(db, mailbox)| - |Queue(db', mailbox)|
  {
    var f, rows := NotListed(mailbox, ids), db.messages;
    var db' := db.(messages := Keep(rows, f));
    if other != mailbox {
      KeepStronger(rows, f, InMailbox(other));
    }
    KeepStronger(rows, f, Not(InMailbox(mailbox)));
    KeepSplits(rows, InMailbox(mailbox));
    KeepSplits(Keep(rows, f), InMailbox(mailbox));
  }

  lemma PurgeIsLocal(db: Db, now: int, mailbox: Bytes)
    ensures Queue(Purge(db, now), mailbox) == Keep(Queue(db, mailbox), Unexpired(now))
  {
    KeepCommutes(db.messages, Unexpired(now), InMailbox(mailbox));
  }

  lemma InsertIsLocal(db: Db, p: Pending, mailbox: Bytes)
    ensures var (db', r) := DepositInsert(db, p);
      Queue(db', mailbox) == if p.mailbox == mailbox && r.Deposited?
        then Queue(db, mailbox) + [Row(db.lastId + 1, p.mailbox, p.msgId, p.blob, p.receivedAt, p.expiresAt)]
        else Queue(db, mailbox)
  {
    var row := Row(db.lastId + 1, p.mailbox, p.msgId, p.blob, p.receivedAt, p.expiresAt);
    KeepAppend(db.messages, [row], InMailbox(mailbox));
    assert Keep([row], InMailbox(mailbox)) == if p.mailbox == mailbox then [row] else [];
  }

  lemma SweepConserves(db: Db, now: int, mailbox: Bytes)
    ensures |Queue(Purge(db, now), mailbox)| + |Keep(Queue(db, mailbox), Not(Unexpired(now)))| == |Queue(db, mailbox)|
  {
    PurgeIsLocal(db, now, mailbox);
    KeepSplits(Queue(db, mailbox), Unexpired(now));
  }

  lemma AckConserves(db: Db, m: Bytes, msgIds: seq<string>, mailbox: Bytes)
    ensures var (end, total, _) := AckLoop(db, m, msgIds, 0);
      |Queue(db, mailbox)| == |Queue(end, mailbox)| + if m == mailbox then total else 0
  {
    AckDeletesListed(db, m, msgIds, 0);
    DeletionIsLocal(db, m, Listed(msgIds), mailbox);
  }

  lemma DepositConserves(c: Config, db: Db, now: int, request: Request, mailbox: Bytes)
    requires request.Deposit?
    ensures var (end, r) := Handle(c, db, now, request);
      |Queue(end, mailbox)| == |Queue(db, mailbox)| + if request.mailbox == mailbox && r.Deposited? then 1 else 0
  {
    var checked := DepositCheck(c, db, now, request.mailbox, request.auth, request.msgId, request.expiresAt,
      request.body);
    if checked.Ok? {
      InsertIsLocal(db, checked.value, mailbox);
    }
  }

  /** One action: what is stored changes by what is accepted, acknowledged and purged. */
  lemma ActionConserves(c: Config, db: Db, a: Action, mailbox: Bytes)
    ensures var t := Added(c, db, a, mailbox);
      |Queue(Apply(c, db, a), mailbox)| + t.acked + t.purged == |Queue(db, mailbox)| + t.accepted
  {
    match a
    case Sweep(now) => SweepConserves(db, now, mailbox);
    case Serve(now, request) =>
      match request
      case Register(m, auth, tokens) => RegisterChangesTokensOnly(c, db, m, tokens, 0);
      case Revoke(m, auth, hashes) => RevokeChangesTokensOnly(db, m, hashes, 0);
      case Ack(m, auth, msgIds) => AckConserves(db, m, msgIds, mailbox);
      case Deposit(_, _, _, _, _) => DepositConserves(c, db, now, request, mailbox);
      case _ =>
  }

  lemma {:induction false} RunConserves(c: Config, db: Db, actions: seq<Action>, mailbox: Bytes)
    ensures var t := RunTally(c, db, actions, mailbox);
      |Queue(RunDb(c, db, actions), mailbox)| + t.acked + t.purged == |Queue(db, mailbox)| + t.accepted
    decreases |actions|
  {
    if actions == [] {
    } else {
      ActionConserves(c, db, actions[0], mailbox);
      RunConserves(c, Apply(c, db, actions[0]), actions[1..], mailbox);
    }
  }

  /**
   * Over every run from empty tables, accepted deposits are stored, acknowledged or purged, and the
   * tables stay in order.
   */
  lemma MailboxConservation(c: Config, actions: seq<Action>, mailbox: Bytes)
    ensures var end, t := RunDb(c, EMPTY, actions), RunTally(c, EMPTY, actions, mailbox);
      t.accepted == |Queue(end, mailbox)| + t.acked + t.purged && DbOk(c, end)
  {
    RunConserves(c, EMPTY, actions, mailbox);
    RunKeepsDbOk(c, EMPTY, actions);
  }

  // ---------------------------------------------------------------- ids, purge, revocation

  /** Rows after an action were there before it or have a new id. */
  lemma ActionRows(c: Config, db: Db, a: Action)
    ensures db.lastId <= Apply(c, db, a).lastId
    ensures forall r | r in Apply(c, db, a).messages :: r in db.messages || r.id > db.lastId
  {
    match a
    case Sweep(now) =>
      forall r | r in Purge(db, now).messages ensures r in db.messages { KeepMember(db.messages, Unexpired(now), r); }
    case Serve(now, request) =>
      match request
      case Register(m, auth, tokens) => RegisterChangesTokensOnly(c, db, m, tokens, 0);
      case Revoke(m, auth, hashes) => RevokeChangesTokensOnly(db, m, hashes, 0);
      case Ack(m, auth, msgIds) =>
        AckDeletesListed(db, m, msgIds, 0);
        var f := NotListed(m, Listed(msgIds));
        forall r | r in Keep(db.messages, f) ensures r in db.messages { KeepMember(db.messages, f, r); }
      case _ =>
  }

  /** Ids are never reused: over any run a row is an old one or its id is above every id given out before. */
  lemma {:induction false} IdsAreNeverReused(c: Config, db: Db, actions: seq<Action>)
    ensures db.lastId <= RunDb(c, db, actions).lastId
    ensures forall r | r in RunDb(c, db, actions).messages :: r in db.messages || r.id > db.lastId
    decreases |actions|
  {
    if actions == [] {
    } else {
      ActionRows(c, db, actions[0]);
      IdsAreNeverReused(c, Apply(c, db, actions[0]), actions[1..]);
    }
  }

  /** A purge changes no poll at its own time or later. */
  lemma PurgeIsInvisible(c: Config, db: Db, purged: int, now: int, mailbox: Bytes, auth: Option<string>,
                         cursor: Option<string>, limit: Option<int>)
    requires purged <= now
    ensures HandlePoll(c, Purge(db, purged), now, mailbox, auth, cursor, limit)
      == HandlePoll(c, db, now, mailbox, auth, cursor, limit)
  {
    PurgeIsLocal(db, purged, mailbox);
    var lastId := StartId(c, mailbox, cursor);
    if lastId.Some? {
      KeepStronger(Queue(db, mailbox), Unexpired(purged), After(lastId.value, now));
    }
  }

  lemma ActionKeepsRevoked(c: Config, db: Db, a: Action, mailbox: Bytes, hash: Bytes)
    requires (mailbox, hash) in db.tokens && db.tokens[(mailbox, hash)]
    ensures var db' := Apply(c, db, a); (mailbox, hash) in db'.tokens && db'.tokens[(mailbox, hash)]
  {
    if a.Serve? {
      match a.request
      case Register(m, auth, tokens) => RegisterChangesTokensOnly(c, db, m, tokens, 0);
      case Revoke(m, auth, hashes) => RevokeChangesTokensOnly(db, m, hashes, 0);
      case Ack(m, auth, msgIds) => AckDeletesListed(db, m, msgIds, 0);
      case _ =>
    }
  }

  /** Revocation is for good: after any run, registering again included, the token deposits nothing. */
  lemma {:induction false} RevocationIsPermanent(c: Config, db: Db, actions: seq<Action>, mailbox: Bytes, hash: Bytes,
                                                 now: int, auth: Option<string>, msgId: Option<string>,
                                                 expiresAt: Option<int>, body: Bytes)
    requires (mailbox, hash) in db.tokens && db.tokens[(mailbox, hash)] && TokenHash(c, auth) == Ok(hash)
    ensures var end := RunDb(c, db, actions);
      var (end', r) := Handle(c, end, now, Deposit(mailbox, auth, msgId, expiresAt, body));
      end' == end && r.Failed? && r.error in {PayloadTooLarge, NotFound, Forbidden}
    decreases |actions|
  {
    if actions == [] {
    } else {
      ActionKeepsRevoked(c, db, actions[0], mailbox, hash);
      RevocationIsPermanent(c, Apply(c, db, actions[0]), actions[1..], mailbox, hash, now, auth, msgId, expiresAt,
        body);
    }
  }
}
