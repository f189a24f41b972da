/**
 * The queue quota when deposits overlap: the query of the stored bytes and the insert are separate
 * statements, and other requests run between them.
 */
module Quota {
  import opened Data
  import opened Rows
  import opened Mailbox
  import opened MailboxRuns

  /** The tables and the deposits between their query and their insert. */
  datatype Server = Server(db: Db, pending: seq<Pending>)

  datatype Event =
    | Begin(now: int, request: Request)     // a deposit up to its insert
    | Finish(index: nat)                    // the insert
    | Other(action: Action)                 // any other request, or a purge

  predicate Fits(ev: Event) {
    match ev
    case Begin(_, request) => request.Deposit?
    case Finish(_) => true
    case Other(a) => a.Serve? ==> !a.request.Deposit?
  }

  function Checked(c: Config, db: Db, now: int, request: Request): Result<Pending, ApiError>
    requires request.Deposit?
  {
    DepositCheck(c, db, now, request.mailbox, request.auth, request.msgId, request.expiresAt, request.body)
  }

  function Next(c: Config, s: Server, ev: Event): Server {
    match ev
    case Begin(now, request) =>
      if request.Deposit? && Checked(c, s.db, now, request).Ok?
      then s.(pending := s.pending + [Checked(c, s.db, now, request).value])
      else s
    case Finish(i) =>
      if i >= |s.pending| then s
      else Server(DepositInsert(s.db, s.pending[i]).0, s.pending[..i] + s.pending[i + 1..])
    case Other(a) => s.(db := Apply(c, s.db, a))
  }

  function RunEvents(c: Config, s: Server, evs: seq<Event>): Server
    decreases |evs|
  {
    if evs == [] then s else RunEvents(c, Next(c, s, evs[0]), evs[1..])
  }

  function ForMailbox(mailbox: Bytes): Pending -> bool {
    (p: Pending) => p.mailbox == mailbox
  }

  /** How many deposits to the mailbox are between query and insert. */
  function Overlap(s: Server, mailbox: Bytes): nat {
    |Keep(s.pending, ForMailbox(mailbox))|
  }

  /** A run in which never more than k deposits to the mailbox overlap. */
  predicate AtMost(c: Config, s: Server, evs: seq<Event>, mailbox: Bytes, k: nat)
    decreases |evs|
  {
    && Overlap(s, mailbox) <= k
    && (evs == [] || (Fits(evs[0]) && AtMost(c, Next(c, s, evs[0]), evs[1..], mailbox, k)))
  }

  function Stored(db: Db, mailbox: Bytes): nat {
    TotalBytes(Queue(db, mailbox))
  }

  function PendingBytes(ps: seq<Pending>): nat {
    if ps == [] then 0 else |ps[0].blob| + PendingBytes(ps[1..])
  }

  function Waiting(s: Server, mailbox: Bytes): nat {
    PendingBytes(Keep(s.pending, ForMailbox(mailbox)))
  }

  // ---------------------------------------------------------------- byte counts

  lemma {:induction false} TotalBytesAppend(a: seq<Row>, b: seq<Row>)
    ensures TotalBytes(a + b) == TotalBytes(a) + TotalBytes(b)
  {
    if a == [] {
      assert a + b == b;
    } else {
      assert (a + b)[1..] == a[1..] + b;
      TotalBytesAppend(a[1..], b);
    }
  }

  lemma {:induction false} KeepBytes(rows: seq<Row>, f: Row -> bool)
    ensures TotalBytes(Keep(rows, f)) <= TotalBytes(rows)
  {
    if rows == [] {
    } else {
      KeepBytes(rows[1..], f);
      TotalBytesAppend(if f(rows[0]) then [rows[0]] else [], Keep(rows[1..], f));
    }
  }

  lemma {:induction false} PendingBytesAppend(a: seq<Pending>, b: seq<Pending>)
    ensures PendingBytes(a + b) == PendingBytes(a) + PendingBytes(b)
  {
    if a == [] {
      assert a + b == b;
    } else {
      assert (a + b)[1..] == a[1..] + b;
      PendingBytesAppend(a[1..], b);
    }
  }

  lemma {:induction false} PendingBytesBound(ps: seq<Pending>, size: nat)
    requires forall i | 0 <= i < |ps| :: |ps[i].blob| <= size
    ensures PendingBytes(ps) <= |ps| * size
  {
    if ps == [] {
    } else {
      PendingBytesBound(ps[1..], size);
    }
  }

  // ---------------------------------------------------------------- the bound

  ghost predicate SmallBlobs(ps: seq<Pending>, size: nat) {
    forall i | 0 <= i < |ps| :: |ps[i].blob| <= size
  }

  /** Stored and waiting bytes together respect the quota with k - 1 messages to spare, or there are none. */
  ghost predicate Within(c: Config, s: Server, mailbox: Bytes, k: nat) {
    var total := Stored(s.db, mailbox) + Waiting(s, mailbox);
    SmallBlobs(s.pending, c.maxMsgBytes) && (total == 0 || total <= c.maxQueueBytes + (k - 1) * c.maxMsgBytes)
  }

  lemma AckStoresNoMore(db: Db, m: Bytes, msgIds: seq<string>, mailbox: Bytes)
    ensures Stored(AckLoop(db, m, msgIds, 0).0, mailbox) <= Stored(db, mailbox)
  {
    var f := NotListed(m, Listed(msgIds));
    AckDeletesListed(db, m, msgIds, 0);
    KeepCommutes(db.messages, f, InMailbox(mailbox));
    KeepBytes(Queue(db, mailbox), f);
  }

  lemma SweepStoresNoMore(db: Db, now: int, mailbox: Bytes)
    ensures Stored(Purge(db, now), mailbox) <= Stored(db, mailbox)
  {
    PurgeIsLocal(db, now, mailbox);
    KeepBytes(Queue(db, mailbox), Unexpired(now));
  }

  lemma ActionStoresNoMore(c: Config, db: Db, a: Action, mailbox: Bytes)
    requires Fits(Other(a))
    ensures Stored(Apply(c, db, a), mailbox) <= Stored(db, mailbox)
  {
    match a
    case Sweep(now) => SweepStoresNoMore(db, now, mailbox);
    case Serve(now, request) =>
      match request
      case Register(m, auth, tokens) => RegisterChangesTokensOnly(c, db, m, tokens, 0);
      case Revoke(m, auth, hashes) => RevokeChangesTokensOnly(db, m, hashes, 0);
      case Ack(m, auth, msgIds) => AckStoresNoMore(db, m, msgIds, mailbox);
      case _ =>
  }

  /** A deposit passes the query only if its blob is small enough and fits beside what is stored. */
  lemma CheckedFits(c: Config, db: Db, now: int, request: Request)
    requires request.Deposit? && Checked(c, db, now, request).Ok?
    ensures var p := Checked(c, db, now, request).value;
      |p.blob| <= c.maxMsgBytes && Stored(db, p.mailbox) + |p.blob| <= c.maxQueueBytes
  {
  }

  lemma WaitingWith(ps: seq<Pending>, p: Pending, mailbox: Bytes, size: nat)
    requires SmallBlobs(ps, size)
    ensures var before, after := Keep(ps, ForMailbox(mailbox)), Keep(ps + [p], ForMailbox(mailbox));
      if p.mailbox == mailbox
      then |after| == |before| + 1 && PendingBytes(after) <= |before| * size + |p.blob|
      else after == before
  {
    var f := ForMailbox(mailbox);
    var before := Keep(ps, f);
    KeepAppend(ps, [p], f);
    assert Keep([p], f) == if p.mailbox == mailbox then [p] else [];
    if p.mailbox == mailbox {
      PendingBytesAppend(before, [p]);
      assert PendingBytes([p]) == |p.blob|;
      forall i | 0 <= i < |before| ensures |before[i].blob| <= size {
        assert before[i] == ps[Place(ps, f, i)];
      }
      PendingBytesBound(before, size);
    }
  }

  lemma BeginKeepsWithin(c: Config, s: Server, p: Pending, mailbox: Bytes, k: nat)
    requires Within(c, s, mailbox, k)
    requires |p.blob| <= c.maxMsgBytes && Stored(s.db, p.mailbox) + |p.blob| <= c.maxQueueBytes
    requires Overlap(s.(pending := s.pending + [p]), mailbox) <= k
    ensures Within(c, s.(pending := s.pending + [p]), mailbox, k)
  {
    WaitingWith(s.pending, p, mailbox, c.maxMsgBytes);
    if p.mailbox == mailbox {
      MoreIsMore(Overlap(s, mailbox), k - 1, c.maxMsgBytes);
    }
  }

  lemma BeginEventKeepsWithin(c: Config, s: Server, now: int, request: Request, mailbox: Bytes, k: nat)
    requires Within(c, s, mailbox, k) && request.Deposit?
    requires Overlap(Next(c, s, Begin(now, request)), mailbox) <= k
    ensures Within(c, Next(c, s, Begin(now, request)), mailbox, k)
  {
    var checked := Checked(c, s.db, now, request);
    if checked.Ok? {
      CheckedFits(c, s.db, now, request);
      BeginKeepsWithin(c, s, checked.value, mailbox, k);
    }
  }

  lemma MoreIsMore(a: nat, b: nat, size: nat)
    requires a <= b
    ensures a * size <= b * size
  {
  }

  /** Taking one out of the waiting deposits. */
  lemma WaitingWithout(ps: seq<Pending>, i: nat, mailbox: Bytes)
    requires i < |ps|
    ensures PendingBytes(Keep(ps, ForMailbox(mailbox)))
      == PendingBytes(Keep(ps[..i] + ps[i + 1..], ForMailbox(mailbox))) + if ps[i].mailbox == mailbox
        then |ps[i].blob| else 0
  {
    var f, p := ForMailbox(mailbox), ps[i];
    assert ps == ps[..i] + ([p] + ps[i + 1..]);
    KeepAppend(ps[..i], [p] + ps[i + 1..], f);
    KeepAppend(ps[..i], ps[i + 1..], f);
    KeepCons(p, ps[i + 1..], f);
    var before, after := Keep(ps[..i], f), Keep(ps[i + 1..], f);
    PendingBytesAppend(before, after);
    PendingBytesAppend(before, (if f(p) then [p] else []) + after);
    PendingBytesAppend(if f(p) then [p] else [], after);
  }

  lemma InsertStores(db: Db, p: Pending, mailbox: Bytes)
    ensures var (db', r) := DepositInsert(db, p);
      Stored(db', mailbox) == Stored(db, mailbox) + if r.Deposited? && p.mailbox == mailbox then |p.blob| else 0
  {
    InsertIsLocal(db, p, mailbox);
    var row := Row(db.lastId + 1, p.mailbox, p.msgId, p.blob, p.receivedAt, p.expiresAt);
    TotalBytesAppend(Queue(db, mailbox), [row]);
  }

  lemma FinishKeepsWithin(c: Config, s: Server, i: nat, mailbox: Bytes, k: nat)
    requires Within(c, s, mailbox, k)
    ensures Within(c, Next(c, s, Finish(i)), mailbox, k)
  {
    if i < |s.pending| {
      WaitingWithout(s.pending, i, mailbox);
      InsertStores(s.db, s.pending[i], mailbox);
    }
  }

  lemma {:induction false} RunKeepsWithin(c: Config, s: Server, evs: seq<Event>, mailbox: Bytes, k: nat)
    requires AtMost(c, s, evs, mailbox, k) && Within(c, s, mailbox, k)
    ensures Within(c, RunEvents(c, s, evs), mailbox, k)
    decreases |evs|
  {
    if evs == [] {
    } else {
      match evs[0] {
        case Begin(now, request) => BeginEventKeepsWithin(c, s, now, request, mailbox, k);
        case Finish(i) => FinishKeepsWithin(c, s, i, mailbox, k);
        case Other(a) => ActionStoresNoMore(c, s.db, a, mailbox);
      }
      RunKeepsWithin(c, Next(c, s, evs[0]), evs[1..], mailbox, k);
    }
  }

  /** With at most k deposits overlapping, the stored bytes exceed the quota by at most k - 1 messages of full size. */
  lemma QuotaUnderOverlap(c: Config, evs: seq<Event>, mailbox: Bytes, k: nat)
    requires AtMost(c, Server(EMPTY, []), evs, mailbox, k)
    ensures var stored := Stored(RunEvents(c, Server(EMPTY, []), evs).db, mailbox);
      stored == 0 || stored <= c.maxQueueBytes + (k - 1) * c.maxMsgBytes
  {
    RunKeepsWithin(c, Server(EMPTY, []), evs, mailbox, k);
  }

  /** Deposits that do not overlap keep the quota exactly. */
  lemma QuotaWithoutOverlap(c: Config, evs: seq<Event>, mailbox: Bytes)
    requires AtMost(c, Server(EMPTY, []), evs, mailbox, 1)
    ensures var stored := Stored(RunEvents(c, Server(EMPTY, []), evs).db, mailbox);
      stored == 0 || stored <= c.maxQueueBytes
  {
    QuotaUnderOverlap(c, evs, mailbox, 1);
  }
}
