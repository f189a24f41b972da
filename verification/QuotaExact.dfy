/**
 * The quota is kept exactly when deposits do not overlap: for any number of them that may, a run
 * from empty tables is built that reaches the bound.
 */
module QuotaExact {
  import opened Data
  import opened Base64Url
  import opened Cursor
  import opened Mailbox
  import opened MailboxAnswers
  import opened MailboxRuns
  import opened Quota

  // ---------------------------------------------------------------- overlapping deposits

  function BeginAll(now: int, requests: seq<Request>): seq<Event> {
    seq(|requests|, i requires 0 <= i < |requests| => Begin(now, requests[i]))
  }

  function FinishAll(n: nat): seq<Event> {
    seq(n, i requires 0 <= i < n => Finish(0))
  }

  /** A deposit that passes the query on the tables. */
  ghost predicate Passing(c: Config, db: Db, now: int, request: Request, p: Pending) {
    request.Deposit? && Checked(c, db, now, request) == Ok(p)
  }

  /** Deposits that all pass the query on the same tables. */
  ghost predicate AllPass(c: Config, db: Db, now: int, requests: seq<Request>, ps: seq<Pending>) {
    |ps| == |requests| && forall i {:trigger ps[i]} | 0 <= i < |ps| :: Passing(c, db, now, requests[i], ps[i])
  }

  ghost predicate AllOfSize(ps: seq<Pending>, size: nat) {
    forall i | 0 <= i < |ps| :: |ps[i].blob| == size
  }

  /** Message ids that are new and different, and ids enough for them. */
  ghost predicate Insertable(db: Db, mailbox: Bytes, ps: seq<Pending>) {
    && (forall i | 0 <= i < |ps| :: ps[i].mailbox == mailbox && !HasMsgId(Queue(db, mailbox), ps[i].msgId))
    && (forall i, j | 0 <= i < j < |ps| :: ps[i].msgId != ps[j].msgId)
    && db.lastId + |ps| < TWO63
  }

  lemma BeginWaits(c: Config, s: Server, now: int, request: Request, p: Pending)
    requires request.Deposit? && Checked(c, s.db, now, request) == Ok(p)
    ensures Next(c, s, Begin(now, request)) == s.(pending := s.pending + [p])
  {
  }

  lemma FirstEvent(c: Config, s: Server, ev: Event, rest: seq<Event>)
    ensures RunEvents(c, s, [ev] + rest) == RunEvents(c, Next(c, s, ev), rest)
  {
    assert ([ev] + rest)[1..] == rest;
  }

  lemma BeginFirst(c: Config, db: Db, waiting: seq<Pending>, now: int, requests: seq<Request>, p: Pending)
    requires requests != [] && Passing(c, db, now, requests[0], p)
    ensures RunEvents(c, Server(db, waiting), BeginAll(now, requests))
      == RunEvents(c, Server(db, waiting + [p]), BeginAll(now, requests[1..]))
  {
    BeginWaits(c, Server(db, waiting), now, requests[0], p);
    FirstEvent(c, Server(db, waiting), Begin(now, requests[0]), BeginAll(now, requests[1..]));
    assert BeginAll(now, requests) == [Begin(now, requests[0])] + BeginAll(now, requests[1..]);
  }

  lemma AllPassTail(c: Config, db: Db, now: int, requests: seq<Request>, ps: seq<Pending>)
    requires AllPass(c, db, now, requests, ps) && ps != []
    ensures Passing(c, db, now, requests[0], ps[0]) && AllPass(c, db, now, requests[1..], ps[1..])
  {
    assert Passing(c, db, now, requests[0], ps[0]);
    forall i {:trigger ps[1..][i]} | 0 <= i < |ps[1..]| ensures Passing(c, db, now, requests[1..][i], ps[1..][i]) {
      assert ps[1..][i] == ps[i + 1] && requests[1..][i] == requests[i + 1];
    }
  }

  lemma {:induction false} BeginsWait(c: Config, db: Db, waiting: seq<Pending>, now: int, requests: seq<Request>,
                                      ps: seq<Pending>)
    requires AllPass(c, db, now, requests, ps)
    ensures RunEvents(c, Server(db, waiting), BeginAll(now, requests)) == Server(db, waiting + ps)
    decreases |requests|
  {
    if requests == [] {
      assert waiting + ps == waiting;
    } else {
      AllPassTail(c, db, now, requests, ps);
      BeginFirst(c, db, waiting, now, requests, ps[0]);
      BeginsWait(c, db, waiting + [ps[0]], now, requests[1..], ps[1..]);
      assert waiting + [ps[0]] + ps[1..] == waiting + ps;
    }
  }

  lemma InsertableRest(db: Db, mailbox: Bytes, ps: seq<Pending>)
    requires Insertable(db, mailbox, ps) && ps != []
    ensures DepositInsert(db, ps[0]).1.Deposited? && Insertable(DepositInsert(db, ps[0]).0, mailbox, ps[1..])
  {
    var db' := DepositInsert(db, ps[0]).0;
    assert ps[0].mailbox == mailbox;
    InsertIsLocal(db, ps[0], mailbox);
    var before, after := Queue(db, mailbox), Queue(db', mailbox);
    forall i | 0 <= i < |ps[1..]| ensures ps[1..][i].mailbox == mailbox && !HasMsgId(after, ps[1..][i].msgId) {
      var p := ps[i + 1];
      assert p.mailbox == mailbox && !HasMsgId(before, p.msgId) && p.msgId != ps[0].msgId;
      forall j | 0 <= j < |after| ensures after[j].msgId != p.msgId {
        assert j < |before| ==> after[j] == before[j];
      }
    }
  }

  lemma {:induction false} FinishesStore(c: Config, s: Server, mailbox: Bytes)
    requires Insertable(s.db, mailbox, s.pending)
    ensures var end := RunEvents(c, s, FinishAll(|s.pending|));
      end.pending == [] && Stored(end.db, mailbox) == Stored(s.db, mailbox) + PendingBytes(s.pending)
    decreases |s.pending|
  {
    if s.pending == [] {
    } else {
      InsertableRest(s.db, mailbox, s.pending);
      InsertStores(s.db, s.pending[0], mailbox);
      assert s.pending[..0] + s.pending[1..] == s.pending[1..];
      assert FinishAll(|s.pending|)[1..] == FinishAll(|s.pending| - 1);
      FinishesStore(c, Next(c, s, Finish(0)), mailbox);
    }
  }

  lemma {:induction false} FullBytes(ps: seq<Pending>, size: nat)
    requires AllOfSize(ps, size)
    ensures PendingBytes(ps) == |ps| * size
  {
    if ps == [] {
    } else {
      FullBytes(ps[1..], size);
    }
  }

  /** Deposits of one size that pass the query together are all stored. */
  lemma OverlapStores(c: Config, db: Db, mailbox: Bytes, requests: seq<Request>, ps: seq<Pending>, size: nat)
    requires AllPass(c, db, 0, requests, ps) && Insertable(db, mailbox, ps)
    requires AllOfSize(ps, size)
    ensures Stored(RunEvents(c, Server(db, []), BeginAll(0, requests) + FinishAll(|requests|)).db, mailbox)
      == Stored(db, mailbox) + |requests| * size
  {
    BeginsWait(c, db, [], 0, requests, ps);
    assert [] + ps == ps;
    RunAppend(c, Server(db, []), BeginAll(0, requests), FinishAll(|requests|));
    FinishesStore(c, Server(db, ps), mailbox);
    FullBytes(ps, size);
  }

  // ---------------------------------------------------------------- runs in parts

  lemma {:induction false} RunAppend(c: Config, s: Server, evs: seq<Event>, more: seq<Event>)
    ensures RunEvents(c, s, evs + more) == RunEvents(c, RunEvents(c, s, evs), more)
    decreases |evs|
  {
    if evs == [] {
      assert [] + more == more;
    } else {
      assert (evs + more)[1..] == evs[1..] + more;
      RunAppend(c, Next(c, s, evs[0]), evs[1..], more);
    }
  }

  /** The first event of a run, also seen from the run with more behind it. */
  lemma FirstOf(c: Config, s: Server, evs: seq<Event>, more: seq<Event>, mailbox: Bytes, k: nat) returns (s1: Server)
    requires AtMost(c, s, evs, mailbox, k) && evs != []
    ensures AtMost(c, s1, evs[1..], mailbox, k) && RunEvents(c, s, evs) == RunEvents(c, s1, evs[1..])
    ensures AtMost(c, s1, evs[1..] + more, mailbox, k) ==> AtMost(c, s, evs + more, mailbox, k)
  {
    s1 := Next(c, s, evs[0]);
    assert (evs + more)[0] == evs[0] && (evs + more)[1..] == evs[1..] + more;
  }

  lemma {:induction false} AtMostAppend(
      c: Config, s: Server, evs: seq<Event>, end: Server, more: seq<Event>, mailbox: Bytes, k: nat)
    requires AtMost(c, s, evs, mailbox, k) && RunEvents(c, s, evs) == end && AtMost(c, end, more, mailbox, k)
    ensures AtMost(c, s, evs + more, mailbox, k)
    decreases |evs|
  {
    if evs == [] {
      assert [] + more == more;
    } else {
      var s1 := FirstOf(c, s, evs, more, mailbox, k);
      AtMostAppend(c, s1, evs[1..], end, more, mailbox, k);
    }
  }

  lemma {:induction false} AtMostMore(c: Config, s: Server, evs: seq<Event>, mailbox: Bytes, k: nat, k': nat)
    requires AtMost(c, s, evs, mailbox, k) && k <= k'
    ensures AtMost(c, s, evs, mailbox, k')
    decreases |evs|
  {
    if evs == [] {
    } else {
      AtMostMore(c, Next(c, s, evs[0]), evs[1..], mailbox, k, k');
    }
  }

  function Begins(evs: seq<Event>): nat {
    if evs == [] then 0 else (if evs[0].Begin? then 1 else 0) + Begins(evs[1..])
  }

  /** No more deposits overlap than are waiting and begin. */
  lemma {:induction false} FewBegins(c: Config, s: Server, evs: seq<Event>, mailbox: Bytes, k: nat)
    requires |s.pending| + Begins(evs) <= k && forall i | 0 <= i < |evs| :: Fits(evs[i])
    ensures AtMost(c, s, evs, mailbox, k)
    decreases |evs|
  {
    if evs == [] {
    } else {
      assert Fits(evs[0]);
      assert forall i | 0 <= i < |evs[1..]| :: evs[1..][i] == evs[i + 1];
      FewBegins(c, Next(c, s, evs[0]), evs[1..], mailbox, k);
    }
  }

  lemma {:induction false} BeginsOf(requests: seq<Request>, n: nat)
    ensures Begins(BeginAll(0, requests) + FinishAll(n)) == |requests|
    decreases |requests|
  {
    if requests == [] {
      assert BeginAll(0, requests) + FinishAll(n) == FinishAll(n);
      NoBegins(n);
    } else {
      assert (BeginAll(0, requests) + FinishAll(n))[1..] == BeginAll(0, requests[1..]) + FinishAll(n);
      BeginsOf(requests[1..], n);
    }
  }

  lemma {:induction false} NoBegins(n: nat)
    ensures Begins(FinishAll(n)) == 0
  {
    if n == 0 {
    } else {
      assert FinishAll(n)[1..] == FinishAll(n - 1);
      NoBegins(n - 1);
    }
  }

  // ---------------------------------------------------------------- a mailbox and its deposits

  /** Some message fits, deposits expire later than now, and row ids suffice to fill the queue byte by byte. */
  predicate Roomy(c: Config) {
    1 <= c.maxMsgBytes && 1 <= c.maxQueueBytes && c.maxQueueBytes + 1 < TWO63 && 1 <= c.defaultTtlDays
      && 1 <= c.maxTtlDays
  }

  /** A mailbox id and a token, which serves for polling and for depositing. */
  datatype Box = Box(mailbox: Bytes, raw: Bytes)
  {
    function Auth(): Option<string> {
      Some("Bearer " + Encode(raw))
    }

    function Hash(c: Config): Bytes {
      c.hmac(c.secret, raw)
    }
  }

  /** Message ids of 16 bytes. */
  function MsgIdAt(i: nat): (b: Bytes)
    requires i < TWO63
    ensures |b| == 16
  {
    IdBytes(i) + IdBytes(i)
  }

  lemma MsgIdsDiffer(i: nat, j: nat)
    requires i < TWO63 && j < TWO63 && MsgIdAt(i) == MsgIdAt(j)
    ensures i == j
  {
    assert MsgIdAt(i)[..8] == IdBytes(i) && MsgIdAt(j)[..8] == IdBytes(j);
    IdRoundTrip(i);
    IdRoundTrip(j);
  }

  function Body(size: nat): (b: Bytes)
    ensures |b| == size
  {
    seq(size, i => 0)
  }

  function DepositAt(box: Box, i: nat, size: nat): Request
    requires i < TWO63
  {
    Deposit(box.mailbox, box.Auth(), Some(Encode(MsgIdAt(i))), None, Body(size))
  }

  function WaitingAt(c: Config, box: Box, i: nat, size: nat): Pending
    requires i < TWO63
  {
    Pending(box.mailbox, MsgIdAt(i), Body(size), 0, DepositExpiry(c, 0, None))
  }

  /** The mailbox exists, its token is live, and its messages have so many bytes. */
  predicate Open(c: Config, db: Db, box: Box, bytes: nat) {
    && box.mailbox in db.mailboxes && (box.mailbox, box.Hash(c)) in db.tokens && !db.tokens[(box.mailbox, box.Hash(c))]
    && Stored(db, box.mailbox) == bytes
  }

  /** The mailbox is open and holds the first n messages. */
  ghost predicate Filled(c: Config, db: Db, box: Box, n: nat, bytes: nat) {
    && Open(c, db, box, bytes) && db.lastId == n < TWO63
    && |Queue(db, box.mailbox)| == n && forall i | 0 <= i < n :: Queue(db, box.mailbox)[i].msgId == MsgIdAt(i)
  }

  /** What lets a deposit pass the query, with the header texts read. */
  lemma QueryPasses(c: Config, db: Db, mailbox: Bytes, auth: Option<string>, hash: Bytes, msgId: Option<string>,
                    id: Bytes, body: Bytes)
    requires |body| <= c.maxMsgBytes && TokenHash(c, auth) == Ok(hash) && mailbox in db.mailboxes
    requires (mailbox, hash) in db.tokens && !db.tokens[(mailbox, hash)] && DepositExpiry(c, 0, None) > 0
    requires Stored(db, mailbox) + |body| <= c.maxQueueBytes && MsgIdHeader(msgId) == Some(id)
    ensures DepositCheck(c, db, 0, mailbox, auth, msgId, None, body)
      == Ok(Pending(mailbox, id, body, 0, DepositExpiry(c, 0, None)))
  {
  }

  lemma Passes(c: Config, db: Db, box: Box, bytes: nat, i: nat, size: nat)
    requires Roomy(c) && |box.raw| == 32 && Open(c, db, box, bytes) && i < TWO63
    requires size <= c.maxMsgBytes && bytes + size <= c.maxQueueBytes
    ensures Passing(c, db, 0, DepositAt(box, i, size), WaitingAt(c, box, i, size))
  {
    TokenHashOf(c, box.raw);
    MsgIdRead(MsgIdAt(i));
    QueryPasses(c, db, box.mailbox, box.Auth(), box.Hash(c), Some(Encode(MsgIdAt(i))), MsgIdAt(i), Body(size));
  }

  lemma MsgIdRead(id: Bytes)
    requires 16 <= |id| <= 32
    ensures MsgIdHeader(Some(Encode(id))) == Some(id)
  {
    DecodeEncode(id);
  }

  lemma IsNew(c: Config, db: Db, box: Box, n: nat, bytes: nat, i: nat)
    requires Filled(c, db, box, n, bytes) && n <= i < TWO63
    ensures !HasMsgId(Queue(db, box.mailbox), MsgIdAt(i))
  {
    forall j | 0 <= j < n ensures Queue(db, box.mailbox)[j].msgId != MsgIdAt(i) {
      if MsgIdAt(j) == MsgIdAt(i) {
        MsgIdsDiffer(j, i);
      }
    }
  }

  // ---------------------------------------------------------------- setting up and filling

  function SetUp(box: Box): seq<Event> {
    [Other(Serve(0, Create(box.mailbox, Some(Encode(box.raw)), []))),
      Other(Serve(0, Register(box.mailbox, box.Auth(), [Encode(box.raw)])))]
  }

  function NewDb(c: Config, box: Box): Db {
    Db(map[box.mailbox := box.Hash(c)], map[(box.mailbox, box.Hash(c)) := false], [], 0)
  }

  lemma SetUpMakes(c: Config, box: Box)
    requires |box.raw| == 32
    ensures RunEvents(c, Server(EMPTY, []), SetUp(box)) == Server(NewDb(c, box), [])
    ensures Filled(c, NewDb(c, box), box, 0, 0)
  {
    var created := Create(box.mailbox, Some(Encode(box.raw)), []);
    var registered := Register(box.mailbox, box.Auth(), [Encode(box.raw)]);
    DecodeEncode(box.raw);
    TokenHashOf(c, box.raw);
    var db1 := Handle(c, EMPTY, 0, created).0;
    assert db1 == Db(map[box.mailbox := box.Hash(c)], map[], [], 0);
    assert [Encode(box.raw)][1..] == [];
    assert RegisterLoop(c, db1, box.mailbox, [Encode(box.raw)], 0).0 == NewDb(c, box);
    assert Handle(c, db1, 0, registered).0 == NewDb(c, box);
    FirstEvent(c, Server(EMPTY, []), Other(Serve(0, created)), [Other(Serve(0, registered))]);
    FirstEvent(c, Server(db1, []), Other(Serve(0, registered)), []);
    assert SetUp(box) == [Other(Serve(0, created))] + [Other(Serve(0, registered))];
    assert [Other(Serve(0, registered))] + [] == [Other(Serve(0, registered))];
  }

  /** One deposit of one byte, begun and finished. */
  function FillOne(box: Box, i: nat): seq<Event>
    requires i < TWO63
  {
    [Begin(0, DepositAt(box, i, 1)), Finish(0)]
  }

  lemma DepositRun(c: Config, db: Db, request: Request, p: Pending)
    requires Passing(c, db, 0, request, p)
    ensures RunEvents(c, Server(db, []), [Begin(0, request), Finish(0)]) == Server(DepositInsert(db, p).0, [])
  {
    BeginWaits(c, Server(db, []), 0, request, p);
    assert [] + [p] == [p] && [p][..0] + [p][1..] == [];
    FirstEvent(c, Server(db, []), Begin(0, request), [Finish(0)]);
    FirstEvent(c, Server(db, [p]), Finish(0), []);
    assert [Finish(0)] + [] == [Finish(0)];
    assert [Begin(0, request), Finish(0)] == [Begin(0, request)] + [Finish(0)];
  }

  lemma InsertFills(c: Config, db: Db, box: Box, n: nat, p: Pending)
    requires Filled(c, db, box, n, n) && n + 1 < TWO63
    requires p.mailbox == box.mailbox && p.msgId == MsgIdAt(n) && |p.blob| == 1
    ensures Filled(c, DepositInsert(db, p).0, box, n + 1, n + 1)
  {
    IsNew(c, db, box, n, n, n);
    InsertIsLocal(db, p, box.mailbox);
    InsertStores(db, p, box.mailbox);
    var before, after := Queue(db, box.mailbox), Queue(DepositInsert(db, p).0, box.mailbox);
    forall i | 0 <= i < n + 1 ensures after[i].msgId == MsgIdAt(i) {
      assert i < n ==> after[i] == before[i];
    }
  }

  lemma FilledByOne(c: Config, db: Db, box: Box, n: nat) returns (db': Db)
    requires Roomy(c) && |box.raw| == 32 && Filled(c, db, box, n, n) && n < c.maxQueueBytes
    ensures RunEvents(c, Server(db, []), FillOne(box, n)) == Server(db', [])
    ensures Filled(c, db', box, n + 1, n + 1)
  {
    var p := WaitingAt(c, box, n, 1);
    db' := DepositInsert(db, p).0;
    Passes(c, db, box, n, n, 1);
    DepositRun(c, db, DepositAt(box, n, 1), p);
    InsertFills(c, db, box, n, p);
  }

  /** Requests and purges alone let no deposit overlap. */
  lemma SetUpOverlapsNothing(c: Config, box: Box)
    ensures AtMost(c, Server(EMPTY, []), SetUp(box), box.mailbox, 1)
  {
    var evs := SetUp(box);
    assert Begins(evs) == 0 by {
      assert Begins(evs) == Begins(evs[1..]);
      assert Begins(evs[1..]) == Begins(evs[1..][1..]);
    }
    FewBegins(c, Server(EMPTY, []), evs, box.mailbox, 1);
  }

  lemma OneOverlapsNothing(c: Config, db: Db, box: Box, i: nat)
    requires i < TWO63
    ensures AtMost(c, Server(db, []), FillOne(box, i), box.mailbox, 1)
  {
    var evs := FillOne(box, i);
    assert Begins(evs) == 1 by {
      assert Begins(evs) == 1 + Begins(evs[1..]);
      assert Begins(evs[1..]) == Begins(evs[1..][1..]);
    }
    FewBegins(c, Server(db, []), evs, box.mailbox, 1);
  }

  /** What a run from empty tables, one deposit at a time, can make of the tables. */
  ghost predicate Leads(c: Config, mailbox: Bytes, k: nat, evs: seq<Event>, db: Db) {
    AtMost(c, Server(EMPTY, []), evs, mailbox, k) && RunEvents(c, Server(EMPTY, []), evs) == Server(db, [])
  }

  lemma LeadsOn(c: Config, mailbox: Bytes, k: nat, evs: seq<Event>, db: Db, more: seq<Event>, db': Db)
    requires Leads(c, mailbox, k, evs, db) && AtMost(c, Server(db, []), more, mailbox, k)
    requires RunEvents(c, Server(db, []), more) == Server(db', [])
    ensures Leads(c, mailbox, k, evs + more, db')
  {
    RunAppend(c, Server(EMPTY, []), evs, more);
    AtMostAppend(c, Server(EMPTY, []), evs, Server(db, []), more, mailbox, k);
  }

  /** The queue can be filled byte by byte without any overlap. */
  lemma {:induction false} FilledUpTo(c: Config, box: Box, n: nat) returns (evs: seq<Event>, db: Db)
    requires Roomy(c) && |box.raw| == 32 && n <= c.maxQueueBytes
    ensures Leads(c, box.mailbox, 1, evs, db) && Filled(c, db, box, n, n)
  {
    if n == 0 {
      evs, db := SetUp(box), NewDb(c, box);
      SetUpMakes(c, box);
      SetUpOverlapsNothing(c, box);
    } else {
      var before, db0 := FilledUpTo(c, box, n - 1);
      db := FilledByOne(c, db0, box, n - 1);
      evs := before + FillOne(box, n - 1);
      OneOverlapsNothing(c, db0, box, n - 1);
      LeadsOn(c, box.mailbox, 1, before, db0, FillOne(box, n - 1), db);
    }
  }

  // ---------------------------------------------------------------- k deposits at once

  function DepositsFrom(box: Box, n: nat, k: nat, size: nat): (rs: seq<Request>)
    requires n + k < TWO63
    ensures |rs| == k
  {
    seq(k, i requires 0 <= i < k => DepositAt(box, n + i, size))
  }

  function WaitingFrom(c: Config, box: Box, n: nat, k: nat, size: nat): (ps: seq<Pending>)
    requires n + k < TWO63
    ensures |ps| == k
  {
    seq(k, i requires 0 <= i < k => WaitingAt(c, box, n + i, size))
  }

  lemma NthOfThem(c: Config, box: Box, n: nat, k: nat, size: nat, i: nat)
    requires n + k < TWO63 && i < k
    ensures DepositsFrom(box, n, k, size)[i] == DepositAt(box, n + i, size)
    ensures WaitingFrom(c, box, n, k, size)[i] == WaitingAt(c, box, n + i, size)
  {
  }

  lemma NthPasses(c: Config, db: Db, box: Box, bytes: nat, n: nat, k: nat, size: nat, i: nat)
    requires Roomy(c) && |box.raw| == 32 && Open(c, db, box, bytes) && n + k < TWO63 && i < k
    requires size <= c.maxMsgBytes && bytes + size <= c.maxQueueBytes
    ensures Passing(c, db, 0, DepositsFrom(box, n, k, size)[i], WaitingFrom(c, box, n, k, size)[i])
  {
    Passes(c, db, box, bytes, n + i, size);
    NthOfThem(c, box, n, k, size, i);
  }

  lemma AllOfThemPass(c: Config, db: Db, box: Box, n: nat, k: nat, size: nat)
    requires Roomy(c) && |box.raw| == 32 && Filled(c, db, box, n, n) && n + k < TWO63
    requires size <= c.maxMsgBytes && n + size <= c.maxQueueBytes
    ensures AllPass(c, db, 0, DepositsFrom(box, n, k, size), WaitingFrom(c, box, n, k, size))
  {
    var requests, ps := DepositsFrom(box, n, k, size), WaitingFrom(c, box, n, k, size);
    forall i {:trigger ps[i]} | 0 <= i < |ps| ensures Passing(c, db, 0, requests[i], ps[i]) {
      NthPasses(c, db, box, n, n, k, size, i);
    }
  }

  lemma NthIsNew(c: Config, db: Db, box: Box, n: nat, bytes: nat, k: nat, size: nat, i: nat)
    requires Filled(c, db, box, n, bytes) && n + k < TWO63 && i < k
    ensures var p := WaitingFrom(c, box, n, k, size)[i];
      p.mailbox == box.mailbox && !HasMsgId(Queue(db, box.mailbox), p.msgId)
  {
    NthOfThem(c, box, n, k, size, i);
    IsNew(c, db, box, n, bytes, n + i);
  }

  lemma TwoOfThemDiffer(c: Config, box: Box, n: nat, k: nat, size: nat, i: nat, j: nat)
    requires n + k < TWO63 && i < j < k
    ensures WaitingFrom(c, box, n, k, size)[i].msgId != WaitingFrom(c, box, n, k, size)[j].msgId
  {
    NthOfThem(c, box, n, k, size, i);
    NthOfThem(c, box, n, k, size, j);
    if MsgIdAt(n + i) == MsgIdAt(n + j) {
      MsgIdsDiffer(n + i, n + j);
    }
  }

  lemma AllOfThemInsertable(c: Config, db: Db, box: Box, n: nat, bytes: nat, k: nat, size: nat)
    requires Filled(c, db, box, n, bytes) && n + k < TWO63
    ensures Insertable(db, box.mailbox, WaitingFrom(c, box, n, k, size))
  {
    var ps := WaitingFrom(c, box, n, k, size);
    forall i | 0 <= i < |ps| ensures ps[i].mailbox == box.mailbox && !HasMsgId(Queue(db, box.mailbox), ps[i].msgId) {
      NthIsNew(c, db, box, n, bytes, k, size, i);
    }
    forall i, j | 0 <= i < j < |ps| ensures ps[i].msgId != ps[j].msgId {
      TwoOfThemDiffer(c, box, n, k, size, i, j);
    }
  }

  lemma WaitingSizes(c: Config, box: Box, n: nat, k: nat, size: nat)
    requires n + k < TWO63
    ensures AllOfSize(WaitingFrom(c, box, n, k, size), size)
  {
    var ps := WaitingFrom(c, box, n, k, size);
    forall i | 0 <= i < |ps| ensures |ps[i].blob| == size {
      NthOfThem(c, box, n, k, size, i);
    }
  }

  /** k deposits that all pass on tables holding so many bytes. */
  lemma OverlapFrom(c: Config, db: Db, box: Box, n: nat, k: nat, size: nat) returns (evs: seq<Event>)
    requires Roomy(c) && |box.raw| == 32 && Filled(c, db, box, n, n) && n + k < TWO63
    requires size <= c.maxMsgBytes && n + size <= c.maxQueueBytes
    ensures AtMost(c, Server(db, []), evs, box.mailbox, k)
    ensures Stored(RunEvents(c, Server(db, []), evs).db, box.mailbox) == n + k * size
  {
    AllOfThemPass(c, db, box, n, k, size);
    AllOfThemInsertable(c, db, box, n, n, k, size);
    WaitingSizes(c, box, n, k, size);
    evs := OverlapAtOnce(c, db, box.mailbox, DepositsFrom(box, n, k, size), WaitingFrom(c, box, n, k, size), size);
  }

  lemma OverlapAtOnce(c: Config, db: Db, mailbox: Bytes, requests: seq<Request>, ps: seq<Pending>, size: nat)
    returns (evs: seq<Event>)
    requires AllPass(c, db, 0, requests, ps) && Insertable(db, mailbox, ps) && AllOfSize(ps, size)
    ensures AtMost(c, Server(db, []), evs, mailbox, |requests|)
    ensures Stored(RunEvents(c, Server(db, []), evs).db, mailbox) == Stored(db, mailbox) + |requests| * size
  {
    evs := BeginAll(0, requests) + FinishAll(|requests|);
    OverlapStores(c, db, mailbox, requests, ps, size);
    forall i | 0 <= i < |requests| ensures requests[i].Deposit? {
      assert Passing(c, db, 0, requests[i], ps[i]);
    }
    OverlapIsAtMost(c, db, requests, |requests|, mailbox);
  }

  lemma OverlapIsAtMost(c: Config, db: Db, requests: seq<Request>, k: nat, mailbox: Bytes)
    requires |requests| == k && forall i | 0 <= i < k :: requests[i].Deposit?
    ensures AtMost(c, Server(db, []), BeginAll(0, requests) + FinishAll(k), mailbox, k)
  {
    var evs := BeginAll(0, requests) + FinishAll(k);
    BeginsOf(requests, k);
    forall i | 0 <= i < |evs| ensures Fits(evs[i]) {
      assert i < k ==> evs[i] == Begin(0, requests[i]);
      assert i >= k ==> evs[i] == Finish(0);
    }
    FewBegins(c, Server(db, []), evs, mailbox, k);
  }

  /**
   * From empty tables, with at most k deposits overlapping: the queue filled but for one message, then k
   * messages at once.
   */
  lemma OverlapRun(c: Config, box: Box, k: nat, size: nat) returns (evs: seq<Event>)
    requires Roomy(c) && |box.raw| == 32 && 1 <= k
    requires size <= c.maxMsgBytes && size <= c.maxQueueBytes && c.maxQueueBytes - size + k < TWO63
    ensures AtMost(c, Server(EMPTY, []), evs, box.mailbox, k)
    ensures Stored(RunEvents(c, Server(EMPTY, []), evs).db, box.mailbox) == c.maxQueueBytes - size + k * size
  {
    var n := c.maxQueueBytes - size;
    var before, db := FilledUpTo(c, box, n);
    var at := OverlapFrom(c, db, box, n, k, size);
    AtMostMore(c, Server(EMPTY, []), before, box.mailbox, 1, k);
    AtMostAppend(c, Server(EMPTY, []), before, Server(db, []), at, box.mailbox, k);
    RunAppend(c, Server(EMPTY, []), before, at);
    evs := before + at;
  }

  // ---------------------------------------------------------------- the results

  /** For every number of overlapping deposits a run from empty tables reaches the bound. */
  lemma TheBoundIsReached(c: Config, box: Box, k: nat) returns (evs: seq<Event>)
    requires Roomy(c) && |box.raw| == 32 && 1 <= k && c.maxMsgBytes <= c.maxQueueBytes
    requires c.maxQueueBytes - c.maxMsgBytes + k < TWO63
    ensures AtMost(c, Server(EMPTY, []), evs, box.mailbox, k)
    ensures Stored(RunEvents(c, Server(EMPTY, []), evs).db, box.mailbox) == c.maxQueueBytes + (k - 1) * c.maxMsgBytes
  {
    evs := OverlapRun(c, box, k, c.maxMsgBytes);
  }

  /** All runs from empty tables with at most k overlapping deposits keep the quota exactly when k is at most one. */
  lemma QuotaKeptExactlyWithoutOverlap(c: Config, mailbox: Bytes, k: nat)
    requires Roomy(c)
    ensures (forall evs | AtMost(c, Server(EMPTY, []), evs, mailbox, k) ::
               Stored(RunEvents(c, Server(EMPTY, []), evs).db, mailbox) <= c.maxQueueBytes)
      <==> k <= 1
  {
    if k <= 1 {
      forall evs | AtMost(c, Server(EMPTY, []), evs, mailbox, k)
        ensures Stored(RunEvents(c, Server(EMPTY, []), evs).db, mailbox) <= c.maxQueueBytes
      {
        AtMostMore(c, Server(EMPTY, []), evs, mailbox, k, 1);
        QuotaWithoutOverlap(c, evs, mailbox);
      }
    } else {
      var box := Box(mailbox, seq(32, i => 0));
      var size := if c.maxMsgBytes <= c.maxQueueBytes then c.maxMsgBytes else c.maxQueueBytes;
      var evs := OverlapRun(c, box, 2, size);
      AtMostMore(c, Server(EMPTY, []), evs, mailbox, 2, k);
    }
  }
}
