/**
 * Reading a mailbox page by page: each poll passes the cursor of the poll before it, while other
 * requests and purges come in between and the clock never goes back.
 */
module Pagination {
  import opened Data
  import opened Cursor
  import opened Rows
  import opened Mailbox
  import opened MailboxRuns

  datatype Step = Act(action: Action) | NextPage(now: int, limit: Option<int>)

  /** The reader's cursor, what the pages so far showed and which rows those were. */
  datatype Walk = Walk(db: Db, clock: int, cursor: Option<string>, shown: seq<PollMsg>, seen: seq<Row>)

  datatype Reader = Reader(config: Config, mailbox: Bytes, auth: Option<string>)

  function Time(s: Step): int {
    match s
    case Act(a) => a.now
    case NextPage(now, _) => now
  }

  function PollOf(rd: Reader, w: Walk, now: int, limit: Option<int>): Response {
    HandlePoll(rd.config, w.db, now, rd.mailbox, rd.auth, w.cursor, limit)
  }

  /** The rows of the next page, when there is one. */
  function NextRows(rd: Reader, w: Walk, now: int, limit: Option<int>): seq<Row> {
    var last := StartId(rd.config, rd.mailbox, w.cursor);
    if last.None? then [] else PageRows(w.db, rd.mailbox, last.value, now, Limit(rd.config, limit))
  }

  function WalkStep(rd: Reader, w: Walk, s: Step): Walk {
    match s
    case Act(a) => w.(db := Apply(rd.config, w.db, a), clock := a.now)
    case NextPage(now, limit) =>
      var r := PollOf(rd, w, now, limit);
      if r.Page? then
        w.(clock := now, cursor := Some(r.cursor), shown := w.shown + r.messages,
            seen := w.seen + NextRows(rd, w, now, limit))
      else w.(clock := now)
  }

  predicate Timed(clock: int, steps: seq<Step>)
    decreases |steps|
  {
    steps == [] || (clock <= Time(steps[0]) && Timed(Time(steps[0]), steps[1..]))
  }

  function WalkRun(rd: Reader, w: Walk, steps: seq<Step>): Walk
    decreases |steps|
  {
    if steps == [] then w else WalkRun(rd, WalkStep(rd, w, steps[0]), steps[1..])
  }

  // ---------------------------------------------------------------- invariant

  ghost predicate Ascending(rows: seq<Row>) {
    forall i, j | 0 <= i < j < |rows| :: rows[i].id < rows[j].id
  }

  ghost predicate Within(rows: seq<Row>, mailbox: Bytes, last: int) {
    forall i | 0 <= i < |rows| :: rows[i].mailbox == mailbox && rows[i].id <= last
  }

  /** Nothing live was passed over. */
  ghost predicate Complete(stored: seq<Row>, mailbox: Bytes, last: int, clock: int, seen: seq<Row>) {
    forall r | r in stored && r.mailbox == mailbox && r.id <= last && r.expiresAt > clock :: r in seen
  }

  ghost predicate WalkOk(rd: Reader, w: Walk) {
    && DbOk(rd.config, w.db) && OwnerError(rd.config, w.db, rd.mailbox, rd.auth).None?
    && var last := StartId(rd.config, rd.mailbox, w.cursor);
       && last.Some? && 0 <= last.value <= w.db.lastId
       && Ascending(w.seen) && Within(w.seen, rd.mailbox, last.value)
       && Complete(w.db.messages, rd.mailbox, last.value, w.clock, w.seen)
       && w.shown == ShownAll(w.seen)
  }

  // ---------------------------------------------------------------- one page

  /** The rows a page is taken from, in id order. */
  lemma LiveAscend(c: Config, db: Db, mailbox: Bytes, last: int, now: int)
    requires DbOk(c, db)
    ensures Ascending(Keep(Queue(db, mailbox), After(last, now)))
  {
    var live := Keep(Queue(db, mailbox), After(last, now));
    KeepRowsOk(c, db.messages, db.lastId, InMailbox(mailbox));
    KeepRowsOk(c, Queue(db, mailbox), db.lastId, After(last, now));
    forall i, j | 0 <= i < j < |live| ensures live[i].id < live[j].id {
      assert Distinguished(live[i], live[j]);
    }
  }

  /** Which rows those are. */
  lemma LiveHas(db: Db, mailbox: Bytes, last: int, now: int, r: Row)
    ensures r in Keep(Queue(db, mailbox), After(last, now))
      <==> r in db.messages && r.mailbox == mailbox && r.id > last && r.expiresAt > now
  {
    KeepMember(Queue(db, mailbox), After(last, now), r);
    KeepMember(db.messages, InMailbox(mailbox), r);
  }

  lemma IdIsGiven(c: Config, db: Db, r: Row)
    requires DbOk(c, db) && r in db.messages
    ensures r.id <= db.lastId
  {
    var i :| 0 <= i < |db.messages| && db.messages[i] == r;
    assert RowOk(c, db.messages[i], db.lastId);
  }

  /** The first rows of an ascending list are those up to the last of them. */
  lemma TakeIsUpTo(rows: seq<Row>, last: int, limit: int)
    requires Ascending(rows) && limit >= 1 && forall i | 0 <= i < |rows| :: rows[i].id > last
    ensures var taken := Take(rows, limit); var next := NewLastId(last, taken);
      && taken <= rows && Ascending(taken) && last <= next && (forall i | 0 <= i < |taken| :: taken[i].id <= next)
      && (taken != [] ==> next == taken[|taken| - 1].id)
      && (forall r | r in rows :: (r in taken <==> r.id <= next) && (|taken| < limit ==> r in taken))
  {
    var taken := Take(rows, limit);
    forall r | r in rows ensures (r in taken <==> r.id <= NewLastId(last, taken)) && (|taken| < limit ==> r in taken) {
      var k :| 0 <= k < |rows| && rows[k] == r;
      if k < |taken| {
        assert taken[k] == r;
      }
    }
  }

  /** What a page holds: live rows after the cursor, in id order, none skipped, and all of them if it is short. */
  lemma PageHolds(c: Config, db: Db, mailbox: Bytes, last: int, now: int, limit: int)
    requires DbOk(c, db) && limit >= 1 && 0 <= last <= db.lastId
    ensures var rows := PageRows(db, mailbox, last, now, limit); var next := NewLastId(last, rows);
      && Ascending(rows) && Within(rows, mailbox, next) && last <= next <= db.lastId
      && (forall i | 0 <= i < |rows| :: rows[i].id > last)
      && (forall r | r in db.messages && r.mailbox == mailbox && last < r.id && r.expiresAt > now
            :: (r in rows <==> r.id <= next) && (|rows| < limit ==> r in rows))
  {
    var live, rows := Keep(Queue(db, mailbox), After(last, now)), PageRows(db, mailbox, last, now, limit);
    LiveAscend(c, db, mailbox, last, now);
    forall i | 0 <= i < |live| ensures live[i].mailbox == mailbox && last < live[i].id <= db.lastId {
      LiveHas(db, mailbox, last, now, live[i]);
      IdIsGiven(c, db, live[i]);
    }
    TakeIsUpTo(live, last, limit);
    forall r | r in db.messages && r.mailbox == mailbox && last < r.id && r.expiresAt > now ensures r in live {
      LiveHas(db, mailbox, last, now, r);
    }
  }

  /** The cursor a page returns starts the next page after the last row shown. */
  lemma CursorContinues(c: Config, mailbox: Bytes, id: int)
    requires Sane(c) && 0 <= id < TWO63
    ensures StartId(c, mailbox, Some(CursorEncode(c.hmac, c.secret, mailbox, AsI64(id)))) == Some(id)
  {
    CursorDecodesExactlyIssued(c.hmac, c.secret, mailbox, CursorEncode(c.hmac, c.secret, mailbox, id), id);
  }

  /** What was seen, extended by a page. */
  lemma PageExtends(stored: seq<Row>, mailbox: Bytes, last: int, clock: int, seen: seq<Row>, rows: seq<Row>,
                    next: int, now: int)
    requires Ascending(seen) && Within(seen, mailbox, last) && Complete(stored, mailbox, last, clock, seen)
    requires clock <= now
    requires Ascending(rows) && Within(rows, mailbox, next) && last <= next
    requires forall i | 0 <= i < |rows| :: rows[i].id > last
    requires forall r | r in stored && r.mailbox == mailbox && last < r.id <= next && r.expiresAt > now :: r in rows
    ensures Ascending(seen + rows) && Within(seen + rows, mailbox, next)
    ensures Complete(stored, mailbox, next, now, seen + rows)
    ensures ShownAll(seen + rows) == ShownAll(seen) + ShownAll(rows)
  {
  }

  lemma PageStepKeepsWalkOk(rd: Reader, w: Walk, now: int, limit: Option<int>)
    requires Sane(rd.config) && WalkOk(rd, w) && w.clock <= now
    ensures PollOf(rd, w, now, limit).Page?
    ensures WalkOk(rd, WalkStep(rd, w, NextPage(now, limit)))
  {
    var c, last := rd.config, StartId(rd.config, rd.mailbox, w.cursor).value;
    var rows := NextRows(rd, w, now, limit);
    var next := NewLastId(last, rows);
    PageHolds(c, w.db, rd.mailbox, last, now, Limit(c, limit));
    PageExtends(w.db.messages, rd.mailbox, last, w.clock, w.seen, rows, next, now);
    CursorContinues(c, rd.mailbox, next);
  }

  // ---------------------------------------------------------------- other requests

  lemma ActionKeepsOwner(c: Config, db: Db, a: Action, mailbox: Bytes, auth: Option<string>)
    requires OwnerError(c, db, mailbox, auth).None?
    ensures OwnerError(c, Apply(c, db, a), mailbox, auth).None?
  {
    if a.Serve? {
      match a.request
      case Register(m, auth, tokens) => RegisterChangesTokensOnly(c, db, m, tokens, 0);
      case Revoke(m, auth, hashes) => RevokeChangesTokensOnly(db, m, hashes, 0);
      case Ack(m, auth, msgIds) => AckDeletesListed(db, m, msgIds, 0);
      case _ =>
    }
  }

  lemma ActStepKeepsWalkOk(rd: Reader, w: Walk, a: Action)
    requires WalkOk(rd, w) && w.clock <= a.now
    ensures WalkOk(rd, WalkStep(rd, w, Act(a)))
  {
    ApplyKeepsDbOk(rd.config, w.db, a);
    ActionKeepsOwner(rd.config, w.db, a, rd.mailbox, rd.auth);
    ActionRows(rd.config, w.db, a);
  }

  lemma {:induction false} WalkRunOk(rd: Reader, w: Walk, steps: seq<Step>)
    requires Sane(rd.config) && WalkOk(rd, w) && Timed(w.clock, steps)
    ensures WalkOk(rd, WalkRun(rd, w, steps))
    decreases |steps|
  {
    if steps == [] {
    } else {
      match steps[0] {
        case Act(a) => ActStepKeepsWalkOk(rd, w, a);
        case NextPage(now, limit) => PageStepKeepsWalkOk(rd, w, now, limit);
      }
      WalkRunOk(rd, WalkStep(rd, w, steps[0]), steps[1..]);
    }
  }

  // ---------------------------------------------------------------- theorems

  /** The reader before the first page. */
  ghost predicate Fresh(rd: Reader, w: Walk) {
    && DbOk(rd.config, w.db) && OwnerError(rd.config, w.db, rd.mailbox, rd.auth).None?
    && w.cursor == None && w.shown == [] && w.seen == []
  }

  lemma FreshIsOk(rd: Reader, w: Walk)
    requires Fresh(rd, w)
    ensures WalkOk(rd, w)
  {
    forall r | r in w.db.messages ensures r.id > 0 {
      var i :| 0 <= i < |w.db.messages| && w.db.messages[i] == r;
      assert RowOk(rd.config, w.db.messages[i], w.db.lastId);
    }
  }

  /** Along a chain of pages no row is shown twice and ids only go up, whatever happens in between. */
  lemma PagesNeverRepeat(rd: Reader, w: Walk, steps: seq<Step>)
    requires Sane(rd.config) && Fresh(rd, w) && Timed(w.clock, steps)
    ensures var end := WalkRun(rd, w, steps);
      && end.shown == ShownAll(end.seen)
      && (forall i, j | 0 <= i < j < |end.seen| :: end.seen[i].id < end.seen[j].id)
      && forall i | 0 <= i < |end.seen| :: end.seen[i].mailbox == rd.mailbox
  {
    FreshIsOk(rd, w);
    WalkRunOk(rd, w, steps);
  }

  /** From any point of a chain the next page never fails, and if it is short everything live has been shown. */
  lemma PageCompletes(rd: Reader, w: Walk, now: int, limit: Option<int>)
    requires Sane(rd.config) && WalkOk(rd, w) && w.clock <= now
    ensures var r, after := PollOf(rd, w, now, limit), WalkStep(rd, w, NextPage(now, limit));
      && r.Page? && |r.messages| <= Limit(rd.config, limit) && WalkOk(rd, after) && after.shown == w.shown + r.messages
      && (|r.messages| < Limit(rd.config, limit) ==>
            forall row | row in Queue(w.db, rd.mailbox) && row.expiresAt > now :: row in after.seen)
  {
    PageStepKeepsWalkOk(rd, w, now, limit);
    var last := StartId(rd.config, rd.mailbox, w.cursor).value;
    PageHolds(rd.config, w.db, rd.mailbox, last, now, Limit(rd.config, limit));
    forall row | row in Queue(w.db, rd.mailbox) ensures row in w.db.messages && row.mailbox == rd.mailbox {
      KeepMember(w.db.messages, InMailbox(rd.mailbox), row);
    }
  }

  /** The next page never fails, and a page shorter than its limit means everything live has been shown. */
  lemma ShortPageMeansComplete(rd: Reader, w: Walk, steps: seq<Step>, now: int, limit: Option<int>)
    requires Sane(rd.config) && Fresh(rd, w) && Timed(w.clock, steps) && WalkRun(rd, w, steps).clock <= now
    ensures var end := WalkRun(rd, w, steps); var r := PollOf(rd, end, now, limit);
      && r.Page? && |r.messages| <= Limit(rd.config, limit)
      && var after := WalkStep(rd, end, NextPage(now, limit));
         && after.shown == end.shown + r.messages
         && (|r.messages| < Limit(rd.config, limit) ==>
              forall row | row in Queue(end.db, rd.mailbox) && row.expiresAt > now :: row in after.seen)
  {
    FreshIsOk(rd, w);
    WalkRunOk(rd, w, steps);
    PageCompletes(rd, WalkRun(rd, w, steps), now, limit);
  }
}
