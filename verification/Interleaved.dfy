/**
 * Handlers whose statements interleave: a request is checked when it arrives, and each of its
 * statements is executed on its own, with those of other requests and purges in between.
 */
module Interleaved {
  import opened Data
  import opened Base64Url
  import opened Rows
  import opened Mailbox
  import opened MailboxRuns
  import Pagination

  datatype Statement =
    | AddMailbox(mailbox: Bytes, hash: Bytes)
    | AddToken(mailbox: Bytes, hash: Bytes)
    | AddMessage(deposit: Pending)
    | DeleteFrom(mailbox: Bytes, msgId: Bytes)
    | RevokeToken(mailbox: Bytes, hash: Bytes)

  function Execute(db: Db, st: Statement): Db {
    match st
    case AddMailbox(m, hash) => if m in db.mailboxes then db else db.(mailboxes := db.mailboxes[m := hash])
    case AddToken(m, hash) => if (m, hash) in db.tokens then db else db.(tokens := db.tokens[(m, hash) := false])
    case AddMessage(p) => DepositInsert(db, p).0
    case DeleteFrom(m, id) => DeleteMessage(db, m, id)
    case RevokeToken(m, hash) => if (m, hash) in db.tokens then db.(tokens := db.tokens[(m, hash) := true]) else db
  }

  function ExecuteAll(db: Db, sts: seq<Statement>): Db
    decreases |sts|
  {
    if sts == [] then db else ExecuteAll(Execute(db, sts[0]), sts[1..])
  }

  // ---------------------------------------------------------------- the statements of a request

  function TokensToAdd(c: Config, mailbox: Bytes, tokens: seq<string>): seq<Statement> {
    if tokens == [] || Decode(tokens[0]).None? || |Decode(tokens[0]).value| != 32 then []
    else [AddToken(mailbox, c.hmac(c.secret, Decode(tokens[0]).value))] + TokensToAdd(c, mailbox, tokens[1..])
  }

  function MessagesToDelete(mailbox: Bytes, msgIds: seq<string>): seq<Statement> {
    if msgIds == [] || Decode(msgIds[0]).None? then []
    else [DeleteFrom(mailbox, Decode(msgIds[0]).value)] + MessagesToDelete(mailbox, msgIds[1..])
  }

  function TokensToRevoke(mailbox: Bytes, hashes: seq<string>): seq<Statement> {
    if hashes == [] || Decode(hashes[0]).None? || |Decode(hashes[0]).value| != 32 then []
    else [RevokeToken(mailbox, Decode(hashes[0]).value)] + TokensToRevoke(mailbox, hashes[1..])
  }

  /** What a request has to do once it has passed its checks. */
  function StatementsOf(c: Config, db: Db, now: int, request: Request): seq<Statement> {
    match request
    case Create(m, pollToken, generated) =>
      if pollToken.Some? && (Decode(pollToken.value).None? || |Decode(pollToken.value).value| != 32) then []
      else [AddMailbox(m, c.hmac(c.secret, if pollToken.Some? then Decode(pollToken.value).value else generated))]
    case Register(m, auth, tokens) =>
      if OwnerError(c, db, m, auth).Some? || tokens == [] || |tokens| > 5000 then [] else TokensToAdd(c, m, tokens)
    case Deposit(m, auth, msgId, expiresAt, body) =>
      var checked := DepositCheck(c, db, now, m, auth, msgId, expiresAt, body);
      if checked.Err? then [] else [AddMessage(checked.value)]
    case Ack(m, auth, msgIds) =>
      if OwnerError(c, db, m, auth).Some? || msgIds == [] || |msgIds| > 2000 then [] else MessagesToDelete(m, msgIds)
    case Revoke(m, auth, hashes) =>
      if OwnerError(c, db, m, auth).Some? || hashes == [] || |hashes| > 1000 then [] else TokensToRevoke(m, hashes)
    case Poll(_, _, _, _) => []
  }

  lemma {:induction false} RegisterIsStatements(c: Config, db: Db, mailbox: Bytes, tokens: seq<string>, added: nat)
    ensures ExecuteAll(db, TokensToAdd(c, mailbox, tokens)) == RegisterLoop(c, db, mailbox, tokens, added).0
    decreases |tokens|
  {
    if tokens == [] || Decode(tokens[0]).None? || |Decode(tokens[0]).value| != 32 {
    } else {
      var key := (mailbox, c.hmac(c.secret, Decode(tokens[0]).value));
      var first, rest := AddToken(key.0, key.1), TokensToAdd(c, mailbox, tokens[1..]);
      assert ([first] + rest)[1..] == rest;
      RegisterIsStatements(c, Execute(db, first), mailbox, tokens[1..], if key in db.tokens then added else added + 1);
    }
  }

  lemma {:induction false} AckIsStatements(db: Db, mailbox: Bytes, msgIds: seq<string>, deleted: nat)
    ensures ExecuteAll(db, MessagesToDelete(mailbox, msgIds)) == AckLoop(db, mailbox, msgIds, deleted).0
    decreases |msgIds|
  {
    if msgIds == [] || Decode(msgIds[0]).None? {
    } else {
      var first, rest := DeleteFrom(mailbox, Decode(msgIds[0]).value), MessagesToDelete(mailbox, msgIds[1..]);
      assert ([first] + rest)[1..] == rest;
      var db1 := Execute(db, first);
      AckIsStatements(db1, mailbox, msgIds[1..], deleted + (|db.messages| - |db1.messages|));
    }
  }

  lemma {:induction false} RevokeIsStatements(db: Db, mailbox: Bytes, hashes: seq<string>, count: nat)
    ensures ExecuteAll(db, TokensToRevoke(mailbox, hashes)) == RevokeLoop(db, mailbox, hashes, count).0
    decreases |hashes|
  {
    if hashes == [] || Decode(hashes[0]).None? || |Decode(hashes[0]).value| != 32 {
    } else {
      var key := (mailbox, Decode(hashes[0]).value);
      var first, rest := RevokeToken(key.0, key.1), TokensToRevoke(mailbox, hashes[1..]);
      assert ([first] + rest)[1..] == rest;
      RevokeIsStatements(Execute(db, first), mailbox, hashes[1..], if key in db.tokens then count + 1 else count);
    }
  }

  lemma ExecuteOne(db: Db, st: Statement)
    ensures ExecuteAll(db, [st]) == Execute(db, st)
  {
    assert [st][1..] == [];
  }

  /** A handler that nothing interrupts leaves the tables as its statements do, executed one after the other. */
  lemma HandlerIsItsStatements(c: Config, db: Db, now: int, request: Request)
    ensures ExecuteAll(db, StatementsOf(c, db, now, request)) == Handle(c, db, now, request).0
  {
    match request
    case Create(m, pollToken, generated) =>
      ExecuteOne(db, AddMailbox(m, c.hmac(c.secret, if pollToken.Some? && Decode(pollToken.value).Some?
                                                    then Decode(pollToken.value).value else generated)));
    case Register(m, auth, tokens) => RegisterIsStatements(c, db, m, tokens, 0);
    case Deposit(m, auth, msgId, expiresAt, body) =>
      var checked := DepositCheck(c, db, now, m, auth, msgId, expiresAt, body);
      if checked.Ok? {
        ExecuteOne(db, AddMessage(checked.value));
      }
    case Ack(m, auth, msgIds) => AckIsStatements(db, m, msgIds, 0);
    case Revoke(m, auth, hashes) => RevokeIsStatements(db, m, hashes, 0);
    case Poll(_, _, _, _) =>
  }

  // ---------------------------------------------------------------- requests under way

  /** The tables, and what the requests under way have still to do. */
  datatype Server = Server(db: Db, tasks: seq<seq<Statement>>)

  datatype Event =
    | Arrive(now: int, request: Request)   // the checks of a request
    | Advance(task: nat)                   // the next statement of a request
    | Sweep(now: int)                      // a purge

  function Next(c: Config, s: Server, ev: Event): Server {
    match ev
    case Arrive(now, request) =>
      var todo := StatementsOf(c, s.db, now, request);
      if todo == [] then s else s.(tasks := s.tasks + [todo])
    case Advance(i) =>
      if i >= |s.tasks| || s.tasks[i] == [] then s
      else Server(Execute(s.db, s.tasks[i][0]), s.tasks[i := s.tasks[i][1..]])
    case Sweep(now) => s.(db := Purge(s.db, now))
  }

  function RunEvents(c: Config, s: Server, evs: seq<Event>): Server
    decreases |evs|
  {
    if evs == [] then s else RunEvents(c, Next(c, s, evs[0]), evs[1..])
  }

  // ---------------------------------------------------------------- invariants

  /** A message to be added is for a mailbox that exists and within the maximum TTL. */
  predicate Sound(c: Config, db: Db, st: Statement) {
    st.AddMessage? ==>
      && st.deposit.mailbox in db.mailboxes
      && st.deposit.receivedAt < st.deposit.expiresAt <= st.deposit.receivedAt + Seconds(c.maxTtlDays)
  }

  ghost predicate AllSound(c: Config, db: Db, sts: seq<Statement>) {
    forall i | 0 <= i < |sts| :: Sound(c, db, sts[i])
  }

  ghost predicate ServerOk(c: Config, s: Server) {
    DbOk(c, s.db) && forall i | 0 <= i < |s.tasks| :: AllSound(c, s.db, s.tasks[i])
  }

  lemma {:induction false} TokensAreSound(c: Config, db: Db, mailbox: Bytes, tokens: seq<string>)
    ensures AllSound(c, db, TokensToAdd(c, mailbox, tokens))
  {
    if tokens == [] {
    } else {
      TokensAreSound(c, db, mailbox, tokens[1..]);
    }
  }

  lemma {:induction false} DeletionsAreSound(c: Config, db: Db, mailbox: Bytes, msgIds: seq<string>)
    ensures AllSound(c, db, MessagesToDelete(mailbox, msgIds))
  {
    if msgIds == [] {
    } else {
      DeletionsAreSound(c, db, mailbox, msgIds[1..]);
    }
  }

  lemma {:induction false} RevocationsAreSound(c: Config, db: Db, mailbox: Bytes, hashes: seq<string>)
    ensures AllSound(c, db, TokensToRevoke(mailbox, hashes))
  {
    if hashes == [] {
    } else {
      RevocationsAreSound(c, db, mailbox, hashes[1..]);
    }
  }

  lemma StatementsAreSound(c: Config, db: Db, now: int, request: Request)
    ensures AllSound(c, db, StatementsOf(c, db, now, request))
  {
    match request
    case Register(m, auth, tokens) => TokensAreSound(c, db, m, tokens);
    case Ack(m, auth, msgIds) => DeletionsAreSound(c, db, m, msgIds);
    case Revoke(m, auth, hashes) => RevocationsAreSound(c, db, m, hashes);
    case _ =>
  }

  /** A statement removes no mailbox, takes no owner and no revocation back, and adds rows under new ids only. */
  lemma ExecuteGrows(db: Db, st: Statement)
    ensures var db' := Execute(db, st);
      && (forall m | m in db.mailboxes :: m in db'.mailboxes && db'.mailboxes[m] == db.mailboxes[m])
      && (forall k | k in db.tokens && db.tokens[k] :: k in db'.tokens && db'.tokens[k])
      && db.lastId <= db'.lastId && forall r | r in db'.messages :: r in db.messages || r.id > db.lastId
  {
    if st.DeleteFrom? {
      forall r | r in Execute(db, st).messages ensures r in db.messages {
        KeepMember(db.messages, OtherThan(st.mailbox, st.msgId), r);
      }
    }
  }

  lemma ExecuteKeepsDbOk(c: Config, db: Db, st: Statement)
    requires DbOk(c, db) && Sound(c, db, st)
    ensures DbOk(c, Execute(db, st))
  {
    match st
    case AddMessage(p) => DepositKeepsDbOk(c, db, p);
    case DeleteFrom(m, id) => KeepDbOk(c, db, OtherThan(m, id));
    case _ =>
  }

  lemma StillSound(c: Config, db: Db, db': Db, sts: seq<Statement>)
    requires AllSound(c, db, sts) && forall m | m in db.mailboxes :: m in db'.mailboxes
    ensures AllSound(c, db', sts)
  {
    forall i | 0 <= i < |sts| ensures Sound(c, db', sts[i]) {
      assert Sound(c, db, sts[i]);
    }
  }

  lemma NextKeepsOk(c: Config, s: Server, ev: Event)
    requires ServerOk(c, s)
    ensures ServerOk(c, Next(c, s, ev))
  {
    var s' := Next(c, s, ev);
    match ev {
      case Arrive(now, request) => StatementsAreSound(c, s.db, now, request);
      case Advance(i) =>
        if i < |s.tasks| && s.tasks[i] != [] {
          var st := s.tasks[i][0];
          assert AllSound(c, s.db, s.tasks[i]) && Sound(c, s.db, st);
          ExecuteKeepsDbOk(c, s.db, st);
          ExecuteGrows(s.db, st);
          AdvanceSound(c, s, i);
        }
      case Sweep(now) => KeepDbOk(c, s.db, Unexpired(now));
    }
    forall i | 0 <= i < |s'.tasks| ensures AllSound(c, s'.db, s'.tasks[i]) {
      if !ev.Advance? && i < |s.tasks| {
        StillSound(c, s.db, s'.db, s.tasks[i]);
      }
    }
  }

  lemma AdvanceSound(c: Config, s: Server, i: nat)
    requires ServerOk(c, s) && i < |s.tasks| && s.tasks[i] != []
    ensures var s' := Next(c, s, Advance(i)); forall j | 0 <= j < |s'.tasks| :: AllSound(c, s'.db, s'.tasks[j])
  {
    var s' := Next(c, s, Advance(i));
    ExecuteGrows(s.db, s.tasks[i][0]);
    forall j | 0 <= j < |s'.tasks| ensures AllSound(c, s'.db, s'.tasks[j]) {
      StillSound(c, s.db, s'.db, s.tasks[j]);
      if j == i {
        forall k | 0 <= k < |s'.tasks[i]| ensures Sound(c, s'.db, s'.tasks[i][k]) {
          assert s'.tasks[i][k] == s.tasks[i][k + 1];
        }
      }
    }
  }

  lemma {:induction false} RunKeepsOk(c: Config, s: Server, evs: seq<Event>)
    requires ServerOk(c, s)
    ensures ServerOk(c, RunEvents(c, s, evs))
    decreases |evs|
  {
    if evs == [] {
    } else {
      NextKeepsOk(c, s, evs[0]);
      RunKeepsOk(c, Next(c, s, evs[0]), evs[1..]);
    }
  }

  // ---------------------------------------------------------------- conservation

  /** What a statement adds to the tally of a mailbox: what it reports. */
  function Counted(db: Db, st: Statement, mailbox: Bytes): Tally {
    match st
    case AddMessage(p) => Tally(if p.mailbox == mailbox && DepositInsert(db, p).1.Deposited? then 1 else 0, 0, 0)
    case DeleteFrom(m, id) => Tally(0, if m == mailbox then Deleted(db, m, id) else 0, 0)
    case _ => Tally(0, 0, 0)
  }

  /** The rows a DELETE affects. */
  function Deleted(db: Db, mailbox: Bytes, id: Bytes): nat {
    |Keep(db.messages, Not(OtherThan(mailbox, id)))|
  }

  function Added(c: Config, s: Server, ev: Event, mailbox: Bytes): Tally {
    match ev
    case Arrive(_, _) => Tally(0, 0, 0)
    case Advance(i) =>
      if i >= |s.tasks| || s.tasks[i] == [] then Tally(0, 0, 0) else Counted(s.db, s.tasks[i][0], mailbox)
    case Sweep(now) => Tally(0, 0, |Keep(Queue(s.db, mailbox), Not(Unexpired(now)))|)
  }

  function RunTally(c: Config, s: Server, evs: seq<Event>, mailbox: Bytes): Tally
    decreases |evs|
  {
    if evs == [] then Tally(0, 0, 0)
    else Plus(Added(c, s, evs[0], mailbox), RunTally(c, Next(c, s, evs[0]), evs[1..], mailbox))
  }

  lemma DeleteConserves(db: Db, m: Bytes, id: Bytes, mailbox: Bytes)
    ensures |Queue(db, mailbox)|
      == |Queue(DeleteMessage(db, m, id), mailbox)| + if m == mailbox then Deleted(db, m, id) else 0
  {
    KeepAgrees(db.messages, OtherThan(m, id), NotListed(m, {id}));
    DeletionIsLocal(db, m, {id}, mailbox);
    KeepSplits(db.messages, OtherThan(m, id));
  }

  lemma ExecuteConserves(db: Db, st: Statement, mailbox: Bytes)
    ensures var t := Counted(db, st, mailbox);
      t.purged == 0 && |Queue(Execute(db, st), mailbox)| + t.acked == |Queue(db, mailbox)| + t.accepted
  {
    match st
    case AddMessage(p) => InsertIsLocal(db, p, mailbox);
    case DeleteFrom(m, id) => DeleteConserves(db, m, id, mailbox);
    case _ =>
  }

  lemma NextConserves(c: Config, s: Server, ev: Event, mailbox: Bytes)
    ensures var t := Added(c, s, ev, mailbox);
      |Queue(Next(c, s, ev).db, mailbox)| + t.acked + t.purged == |Queue(s.db, mailbox)| + t.accepted
  {
    match ev
    case Arrive(_, _) =>
    case Advance(i) =>
      if i < |s.tasks| && s.tasks[i] != [] {
        ExecuteConserves(s.db, s.tasks[i][0], mailbox);
      }
    case Sweep(now) => SweepConserves(s.db, now, mailbox);
  }

  lemma {:induction false} RunConserves(c: Config, s: Server, evs: seq<Event>, mailbox: Bytes)
    ensures var t := RunTally(c, s, evs, mailbox);
      |Queue(RunEvents(c, s, evs).db, mailbox)| + t.acked + t.purged == |Queue(s.db, mailbox)| + t.accepted
    decreases |evs|
  {
    if evs == [] {
    } else {
      NextConserves(c, s, evs[0], mailbox);
      RunConserves(c, Next(c, s, evs[0]), evs[1..], mailbox);
    }
  }

  /**
   * However the statements of the handlers interleave: every message an insert stored is still stored,
   * was counted by a delete of an ack, or was purged, and the tables stay in order.
   */
  lemma InterleavedConservation(c: Config, evs: seq<Event>, mailbox: Bytes)
    ensures var end, t := RunEvents(c, Server(EMPTY, []), evs).db, RunTally(c, Server(EMPTY, []), evs, mailbox);
      t.accepted == |Queue(end, mailbox)| + t.acked + t.purged && DbOk(c, end)
  {
    RunConserves(c, Server(EMPTY, []), evs, mailbox);
    RunKeepsOk(c, Server(EMPTY, []), evs);
  }

  // ---------------------------------------------------------------- revocation

  /** A deposit to the mailbox that presents the token of the hash. */
  predicate Presents(c: Config, ev: Event, mailbox: Bytes, hash: Bytes) {
    ev.Arrive? && ev.request.Deposit? && ev.request.mailbox == mailbox && TokenHash(c, ev.request.auth) == Ok(hash)
  }

  function Struck(c: Config, evs: seq<Event>, mailbox: Bytes, hash: Bytes): seq<Event> {
    if evs == [] then []
    else (if Presents(c, evs[0], mailbox, hash) then [] else [evs[0]]) + Struck(c, evs[1..], mailbox, hash)
  }

  lemma NextKeepsRevoked(c: Config, s: Server, ev: Event, mailbox: Bytes, hash: Bytes)
    requires (mailbox, hash) in s.db.tokens && s.db.tokens[(mailbox, hash)]
    ensures var db := Next(c, s, ev).db; (mailbox, hash) in db.tokens && db.tokens[(mailbox, hash)]
    ensures Presents(c, ev, mailbox, hash) ==> Next(c, s, ev) == s
  {
    if ev.Advance? && ev.task < |s.tasks| && s.tasks[ev.task] != [] {
      ExecuteGrows(s.db, s.tasks[ev.task][0]);
    }
  }

  /**
   * Once a token is revoked, the deposits that present it can be struck from the run without a trace:
   * only those that had passed their checks by then can still be stored, however the statements interleave.
   */
  lemma {:induction false} RevokedDepositsLeaveNoTrace(c: Config, s: Server, evs: seq<Event>, mailbox: Bytes,
      hash: Bytes)
    requires (mailbox, hash) in s.db.tokens && s.db.tokens[(mailbox, hash)]
    ensures RunEvents(c, s, evs) == RunEvents(c, s, Struck(c, evs, mailbox, hash))
    decreases |evs|
  {
    if evs == [] {
    } else {
      NextKeepsRevoked(c, s, evs[0], mailbox, hash);
      RevokedDepositsLeaveNoTrace(c, Next(c, s, evs[0]), evs[1..], mailbox, hash);
      var rest := Struck(c, evs[1..], mailbox, hash);
      if Presents(c, evs[0], mailbox, hash) {
        assert [] + rest == rest;
      } else {
        assert ([evs[0]] + rest)[1..] == rest;
      }
    }
  }

  // ---------------------------------------------------------------- paging

  /** A reader's poll, or an event of the server at a time. */
  datatype Move = Act(event: Event, at: int) | NextPage(at: int, limit: Option<int>)

  /** The requests under way and the reader, who shares the tables with them. */
  datatype Reading = Reading(tasks: seq<seq<Statement>>, walk: Pagination.Walk)

  function Moved(rd: Pagination.Reader, x: Reading, move: Move): Reading {
    match move
    case Act(ev, at) =>
      var s := Next(rd.config, Server(x.walk.db, x.tasks), ev);
      Reading(s.tasks, x.walk.(db := s.db, clock := at))
    case NextPage(at, limit) => x.(walk := Pagination.WalkStep(rd, x.walk, Pagination.NextPage(at, limit)))
  }

  function MovedAll(rd: Pagination.Reader, x: Reading, moves: seq<Move>): Reading
    decreases |moves|
  {
    if moves == [] then x else MovedAll(rd, Moved(rd, x, moves[0]), moves[1..])
  }

  predicate Timed(clock: int, moves: seq<Move>)
    decreases |moves|
  {
    moves == [] || (clock <= moves[0].at && Timed(moves[0].at, moves[1..]))
  }

  ghost predicate ReadingOk(rd: Pagination.Reader, x: Reading) {
    Pagination.WalkOk(rd, x.walk) && ServerOk(rd.config, Server(x.walk.db, x.tasks))
  }

  /** An event adds rows under new ids only, and keeps the owner. */
  lemma NextGrows(c: Config, s: Server, ev: Event)
    ensures var db' := Next(c, s, ev).db;
      && (forall m | m in s.db.mailboxes :: m in db'.mailboxes && db'.mailboxes[m] == s.db.mailboxes[m])
      && s.db.lastId <= db'.lastId && forall r | r in db'.messages :: r in s.db.messages || r.id > s.db.lastId
  {
    match ev
    case Arrive(_, _) =>
    case Advance(i) =>
      if i < |s.tasks| && s.tasks[i] != [] {
        ExecuteGrows(s.db, s.tasks[i][0]);
      }
    case Sweep(now) =>
      forall r | r in Purge(s.db, now).messages ensures r in s.db.messages {
        KeepMember(s.db.messages, Unexpired(now), r);
      }
  }

  lemma ActKeepsReadingOk(rd: Pagination.Reader, x: Reading, ev: Event, at: int)
    requires ReadingOk(rd, x) && x.walk.clock <= at
    ensures ReadingOk(rd, Moved(rd, x, Act(ev, at)))
  {
    NextKeepsOk(rd.config, Server(x.walk.db, x.tasks), ev);
    NextGrows(rd.config, Server(x.walk.db, x.tasks), ev);
  }

  lemma {:induction false} MovedAllOk(rd: Pagination.Reader, x: Reading, moves: seq<Move>)
    requires Sane(rd.config) && ReadingOk(rd, x) && Timed(x.walk.clock, moves)
    ensures ReadingOk(rd, MovedAll(rd, x, moves))
    decreases |moves|
  {
    if moves == [] {
    } else {
      match moves[0] {
        case Act(ev, at) => ActKeepsReadingOk(rd, x, ev, at);
        case NextPage(at, limit) => Pagination.PageStepKeepsWalkOk(rd, x.walk, at, limit);
      }
      MovedAllOk(rd, Moved(rd, x, moves[0]), moves[1..]);
    }
  }

  /**
   * Along a chain of pages ids only go up, nothing is shown twice, and a page shorter than its limit means
   * that everything live has been shown, however the statements of other requests come in between.
   */
  lemma PagesUnderInterleaving(rd: Pagination.Reader, w: Pagination.Walk, moves: seq<Move>, now: int,
                               limit: Option<int>)
    requires Sane(rd.config) && Pagination.Fresh(rd, w) && Timed(w.clock, moves)
    requires MovedAll(rd, Reading([], w), moves).walk.clock <= now
    ensures var end := MovedAll(rd, Reading([], w), moves).walk;
      var r := Pagination.PollOf(rd, end, now, limit);
      var after := Pagination.WalkStep(rd, end, Pagination.NextPage(now, limit));
      && r.Page? && after.shown == end.shown + r.messages && after.shown == ShownAll(after.seen)
      && (forall i, j | 0 <= i < j < |after.seen| :: after.seen[i].id < after.seen[j].id)
      && (|r.messages| < Limit(rd.config, limit) ==>
            forall row | row in Queue(end.db, rd.mailbox) && row.expiresAt > now :: row in after.seen)
  {
    Pagination.FreshIsOk(rd, w);
    MovedAllOk(rd, Reading([], w), moves);
    Pagination.PageCompletes(rd, MovedAll(rd, Reading([], w), moves).walk, now, limit);
  }
}
