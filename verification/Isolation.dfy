/**
 * Mailboxes do not see each other, although they share one id counter: a run and the same run
 * without the requests to other mailboxes answer one mailbox alike, but for the cursor texts.
 */
module Isolation {
  import opened Data
  import opened Base64Url
  import opened Cursor
  import opened Rows
  import opened Mailbox
  import opened MailboxRuns
  import opened Pagination

  /** The cursor of a poll: none, the one of an earlier page of this mailbox, or a text that is no cursor of it. */
  datatype Choice = NoCursor | Earlier(page: nat) | Text(text: string)

  datatype Op =
    | Foreign(now: int, request: Request)
    | Own(now: int, request: Request)
    | OwnPoll(now: int, auth: Option<string>, choice: Choice, limit: Option<int>)
    | Clean(now: int)

  predicate Fits(c: Config, mailbox: Bytes, op: Op) {
    match op
    case Foreign(_, request) => request.mailbox != mailbox
    case Own(_, request) => request.mailbox == mailbox && !request.Poll?
    case OwnPoll(_, _, choice, _) => choice.Text? ==> StartId(c, mailbox, Some(choice.text)).None?
    case Clean(_) => true
  }

  /** The tables and the cursors the mailbox was given so far. */
  datatype Run = Run(db: Db, cursors: seq<string>)

  function Chosen(cursors: seq<string>, choice: Choice): Option<string> {
    match choice
    case NoCursor => None
    case Earlier(k) => if k < |cursors| then Some(cursors[k]) else None
    case Text(text) => Some(text)
  }

  /** One operation, with the answer given to the mailbox. */
  function Do(c: Config, mailbox: Bytes, run: Run, op: Op): (Run, seq<Response>) {
    match op
    case Foreign(now, request) => (run.(db := Handle(c, run.db, now, request).0), [])
    case Own(now, request) =>
      var (db, r) := Handle(c, run.db, now, request);
      (run.(db := db), [r])
    case OwnPoll(now, auth, choice, limit) =>
      var r := HandlePoll(c, run.db, now, mailbox, auth, Chosen(run.cursors, choice), limit);
      (if r.Page? then run.(cursors := run.cursors + [r.cursor]) else run, [r])
    case Clean(now) => (run.(db := Purge(run.db, now)), [])
  }

  function Answers(c: Config, mailbox: Bytes, run: Run, ops: seq<Op>): seq<Response>
    decreases |ops|
  {
    if ops == [] then []
    else
      var (run', answer) := Do(c, mailbox, run, ops[0]);
      answer + Answers(c, mailbox, run', ops[1..])
  }

  function WithoutForeign(ops: seq<Op>): seq<Op> {
    if ops == [] then []
    else (if ops[0].Foreign? then [] else [ops[0]]) + WithoutForeign(ops[1..])
  }

  predicate Alike(r: Response, s: Response) {
    r == s || (r.Page? && s.Page? && r.messages == s.messages)
  }

  predicate AllAlike(rs: seq<Response>, ss: seq<Response>) {
    |rs| == |ss| && forall i | 0 <= i < |rs| :: Alike(rs[i], ss[i])
  }

  // ---------------------------------------------------------------- the simulation relation

  ghost predicate SameOwner(x: Db, y: Db, mailbox: Bytes) {
    && (mailbox in x.mailboxes <==> mailbox in y.mailboxes)
    && (mailbox in x.mailboxes ==> x.mailboxes[mailbox] == y.mailboxes[mailbox])
    && forall h: Bytes ::
        && ((mailbox, h) in x.tokens <==> (mailbox, h) in y.tokens)
        && ((mailbox, h) in x.tokens ==> x.tokens[(mailbox, h)] == y.tokens[(mailbox, h)])
  }

  datatype Cut = Cut(left: int, right: int)

  /** The same message on the same side of every cursor. */
  predicate Twins(p: Row, q: Row, cuts: seq<Cut>) {
    && p.(id := 0) == q.(id := 0)
    && forall k | 0 <= k < |cuts| :: p.id > cuts[k].left <==> q.id > cuts[k].right
  }

  ghost predicate Paired(xs: seq<Row>, ys: seq<Row>, cuts: seq<Cut>) {
    |xs| == |ys| && forall i | 0 <= i < |xs| :: Twins(xs[i], ys[i], cuts)
  }

  ghost predicate CutsOk(c: Config, mailbox: Bytes, x: Run, y: Run, cuts: seq<Cut>) {
    && |cuts| == |x.cursors| == |y.cursors|
    && forall k | 0 <= k < |cuts| ::
        && 0 <= cuts[k].left <= x.db.lastId && 0 <= cuts[k].right <= y.db.lastId
        && StartId(c, mailbox, Some(x.cursors[k])) == Some(cuts[k].left)
        && StartId(c, mailbox, Some(y.cursors[k])) == Some(cuts[k].right)
  }

  /** x is the run with the other mailboxes, y the one without. */
  ghost predicate Related(c: Config, mailbox: Bytes, x: Run, y: Run, cuts: seq<Cut>) {
    && DbOk(c, x.db) && DbOk(c, y.db) && y.db.lastId <= x.db.lastId
    && SameOwner(x.db, y.db, mailbox)
    && Paired(Queue(x.db, mailbox), Queue(y.db, mailbox), cuts)
    && CutsOk(c, mailbox, x, y, cuts)
  }

  // ---------------------------------------------------------------- paired rows

  /** Filters that agree place by place keep the same places. */
  lemma {:induction false} SamePlaces(xs: seq<Row>, ys: seq<Row>, f: Row -> bool, g: Row -> bool)
    requires |xs| == |ys| && forall i | 0 <= i < |xs| :: f(xs[i]) == g(ys[i])
    ensures |Keep(xs, f)| == |Keep(ys, g)|
    ensures forall m | 0 <= m < |Keep(xs, f)| :: Place(xs, f, m) == Place(ys, g, m)
  {
    if xs == [] {
    } else {
      var xt, yt := xs[1..], ys[1..];
      assert forall i | 0 <= i < |xt| :: xt[i] == xs[i + 1] && yt[i] == ys[i + 1];
      SamePlaces(xt, yt, f, g);
      assert f(xs[0]) == g(ys[0]);
    }
  }

  lemma KeepPaired(xs: seq<Row>, ys: seq<Row>, cuts: seq<Cut>, f: Row -> bool, g: Row -> bool)
    requires Paired(xs, ys, cuts) && forall i | 0 <= i < |xs| :: f(xs[i]) == g(ys[i])
    ensures Paired(Keep(xs, f), Keep(ys, g), cuts)
  {
    SamePlaces(xs, ys, f, g);
    forall m | 0 <= m < |Keep(xs, f)| ensures Twins(Keep(xs, f)[m], Keep(ys, g)[m], cuts) {
      assert Twins(xs[Place(xs, f, m)], ys[Place(ys, g, m)], cuts);
    }
  }

  lemma {:induction false} PairedBytes(xs: seq<Row>, ys: seq<Row>, cuts: seq<Cut>)
    requires Paired(xs, ys, cuts)
    ensures TotalBytes(xs) == TotalBytes(ys)
  {
    if xs == [] {
    } else {
      assert Twins(xs[0], ys[0], cuts);
      assert forall i | 0 <= i < |xs[1..]| :: xs[1..][i] == xs[i + 1] && ys[1..][i] == ys[i + 1];
      PairedBytes(xs[1..], ys[1..], cuts);
    }
  }

  lemma PairedMsgIds(xs: seq<Row>, ys: seq<Row>, cuts: seq<Cut>, msgId: Bytes)
    requires Paired(xs, ys, cuts)
    ensures HasMsgId(xs, msgId) == HasMsgId(ys, msgId)
  {
    forall i | 0 <= i < |xs| ensures xs[i].msgId == ys[i].msgId {
      assert Twins(xs[i], ys[i], cuts);
    }
    if HasMsgId(xs, msgId) {
      var i :| 0 <= i < |xs| && xs[i].msgId == msgId;
      assert ys[i].msgId == msgId;
    }
    if HasMsgId(ys, msgId) {
      var i :| 0 <= i < |ys| && ys[i].msgId == msgId;
      assert xs[i].msgId == msgId;
    }
  }

  // ---------------------------------------------------------------- requests to other mailboxes

  lemma {:induction false} RegisterIsLocal(c: Config, db: Db, mailbox: Bytes, tokens: seq<string>, added: nat,
                                           other: Bytes)
    requires mailbox != other
    ensures SameOwner(RegisterLoop(c, db, mailbox, tokens, added).0, db, other)
    decreases |tokens|
  {
    if tokens == [] {
    } else {
      var raw := Decode(tokens[0]);
      if raw.Some? && |raw.value| == 32 {
        var key := (mailbox, c.hmac(c.secret, raw.value));
        if key in db.tokens {
          RegisterIsLocal(c, db, mailbox, tokens[1..], added, other);
        } else {
          RegisterIsLocal(c, db.(tokens := db.tokens[key := false]), mailbox, tokens[1..], added + 1, other);
        }
      }
    }
  }

  lemma {:induction false} RevokeIsLocal(db: Db, mailbox: Bytes, hashes: seq<string>, count: nat, other: Bytes)
    requires mailbox != other
    ensures SameOwner(RevokeLoop(db, mailbox, hashes, count).0, db, other)
    decreases |hashes|
  {
    if hashes == [] {
    } else {
      var raw := Decode(hashes[0]);
      if raw.Some? && |raw.value| == 32 {
        var key := (mailbox, raw.value);
        if key in db.tokens {
          RevokeIsLocal(db.(tokens := db.tokens[key := true]), mailbox, hashes[1..], count + 1, other);
        } else {
          RevokeIsLocal(db, mailbox, hashes[1..], count, other);
        }
      }
    }
  }

  lemma ForeignOwner(c: Config, db: Db, now: int, request: Request, mailbox: Bytes)
    requires request.mailbox != mailbox
    ensures SameOwner(Handle(c, db, now, request).0, db, mailbox)
  {
    match request
    case Register(m, auth, tokens) =>
      RegisterChangesTokensOnly(c, db, m, tokens, 0);
      RegisterIsLocal(c, db, m, tokens, 0, mailbox);
    case Revoke(m, auth, hashes) =>
      RevokeChangesTokensOnly(db, m, hashes, 0);
      RevokeIsLocal(db, m, hashes, 0, mailbox);
    case Ack(m, auth, msgIds) => AckDeletesListed(db, m, msgIds, 0);
    case _ =>
  }

  lemma ForeignRows(c: Config, db: Db, now: int, request: Request, mailbox: Bytes)
    requires request.mailbox != mailbox
    ensures Queue(Handle(c, db, now, request).0, mailbox) == Queue(db, mailbox)
  {
    match request
    case Register(m, auth, tokens) => RegisterChangesTokensOnly(c, db, m, tokens, 0);
    case Revoke(m, auth, hashes) => RevokeChangesTokensOnly(db, m, hashes, 0);
    case Ack(m, auth, msgIds) =>
      AckDeletesListed(db, m, msgIds, 0);
      DeletionIsLocal(db, m, Listed(msgIds), mailbox);
    case Deposit(m, auth, msgId, expiresAt, body) =>
      var checked := DepositCheck(c, db, now, m, auth, msgId, expiresAt, body);
      if checked.Ok? {
        InsertIsLocal(db, checked.value, mailbox);
      }
    case _ =>
  }

  lemma CounterMoves(c: Config, db: Db, now: int, request: Request)
    ensures db.lastId <= Handle(c, db, now, request).0.lastId <= db.lastId + 1
  {
    match request
    case Register(m, auth, tokens) => RegisterChangesTokensOnly(c, db, m, tokens, 0);
    case Revoke(m, auth, hashes) => RevokeChangesTokensOnly(db, m, hashes, 0);
    case Ack(m, auth, msgIds) => AckDeletesListed(db, m, msgIds, 0);
    case _ =>
  }

  /** A request to another mailbox leaves the rows, the owner and the tokens of this one alone. */
  lemma ForeignIsLocal(c: Config, db: Db, now: int, request: Request, mailbox: Bytes)
    requires request.mailbox != mailbox
    ensures var db' := Handle(c, db, now, request).0;
      SameOwner(db', db, mailbox) && Queue(db', mailbox) == Queue(db, mailbox)
        && db.lastId <= db'.lastId <= db.lastId + 1
  {
    ForeignOwner(c, db, now, request, mailbox);
    ForeignRows(c, db, now, request, mailbox);
    CounterMoves(c, db, now, request);
  }

  // ---------------------------------------------------------------- requests to this mailbox

  lemma {:induction false} RegisterAlike(c: Config, x: Db, y: Db, mailbox: Bytes, tokens: seq<string>, added: nat)
    requires SameOwner(x, y, mailbox)
    ensures var (x', n, ok), (y', n', ok') :=
      RegisterLoop(c, x, mailbox, tokens, added), RegisterLoop(c, y, mailbox, tokens, added);
      && SameOwner(x', y', mailbox) && n == n' && ok == ok'
      && x' == x.(tokens := x'.tokens) && y' == y.(tokens := y'.tokens)
    decreases |tokens|
  {
    if tokens == [] {
    } else {
      var raw := Decode(tokens[0]);
      if raw.Some? && |raw.value| == 32 {
        var key := (mailbox, c.hmac(c.secret, raw.value));
        if key in x.tokens {
          RegisterAlike(c, x, y, mailbox, tokens[1..], added);
        } else {
          RegisterAlike(c, x.(tokens := x.tokens[key := false]), y.(tokens := y.tokens[key := false]), mailbox,
            tokens[1..], added + 1);
        }
      }
    }
  }

  lemma {:induction false} RevokeAlike(x: Db, y: Db, mailbox: Bytes, hashes: seq<string>, count: nat)
    requires SameOwner(x, y, mailbox)
    ensures var (x', n, ok), (y', n', ok') :=
      RevokeLoop(x, mailbox, hashes, count), RevokeLoop(y, mailbox, hashes, count);
      && SameOwner(x', y', mailbox) && n == n' && ok == ok'
      && x' == x.(tokens := x'.tokens) && y' == y.(tokens := y'.tokens)
    decreases |hashes|
  {
    if hashes == [] {
    } else {
      var raw := Decode(hashes[0]);
      if raw.Some? && |raw.value| == 32 {
        var key := (mailbox, raw.value);
        if key in x.tokens {
          RevokeAlike(x.(tokens := x.tokens[key := true]), y.(tokens := y.tokens[key := true]), mailbox, hashes[1..],
            count + 1);
        } else {
          RevokeAlike(x, y, mailbox, hashes[1..], count);
        }
      }
    }
  }

  lemma AckAlike(x: Db, y: Db, mailbox: Bytes, msgIds: seq<string>, cuts: seq<Cut>)
    requires Paired(Queue(x, mailbox), Queue(y, mailbox), cuts)
    ensures var (x', n, ok), (y', n', ok') := AckLoop(x, mailbox, msgIds, 0), AckLoop(y, mailbox, msgIds, 0);
      && Paired(Queue(x', mailbox), Queue(y', mailbox), cuts) && n == n' && ok == ok'
      && x' == x.(messages := x'.messages) && y' == y.(messages := y'.messages)
  {
    var ids := Listed(msgIds);
    var f := NotListed(mailbox, ids);
    AckDeletesListed(x, mailbox, msgIds, 0);
    AckDeletesListed(y, mailbox, msgIds, 0);
    AckSucceeds(x, mailbox, msgIds, 0);
    AckSucceeds(y, mailbox, msgIds, 0);
    DeletionIsLocal(x, mailbox, ids, mailbox);
    DeletionIsLocal(y, mailbox, ids, mailbox);
    KeepCommutes(x.messages, f, InMailbox(mailbox));
    KeepCommutes(y.messages, f, InMailbox(mailbox));
    forall i | 0 <= i < |Queue(x, mailbox)| ensures f(Queue(x, mailbox)[i]) == f(Queue(y, mailbox)[i]) {
      assert Twins(Queue(x, mailbox)[i], Queue(y, mailbox)[i], cuts);
    }
    KeepPaired(Queue(x, mailbox), Queue(y, mailbox), cuts, f, f);
  }

  lemma CleanAlike(x: Db, y: Db, mailbox: Bytes, now: int, cuts: seq<Cut>)
    requires Paired(Queue(x, mailbox), Queue(y, mailbox), cuts)
    ensures Paired(Queue(Purge(x, now), mailbox), Queue(Purge(y, now), mailbox), cuts)
  {
    PurgeIsLocal(x, now, mailbox);
    PurgeIsLocal(y, now, mailbox);
    forall i | 0 <= i < |Queue(x, mailbox)|
      ensures Unexpired(now)(Queue(x, mailbox)[i]) == Unexpired(now)(Queue(y, mailbox)[i]) {
      assert Twins(Queue(x, mailbox)[i], Queue(y, mailbox)[i], cuts);
    }
    KeepPaired(Queue(x, mailbox), Queue(y, mailbox), cuts, Unexpired(now), Unexpired(now));
  }

  /** Both runs accept or both refuse a deposit; an accepted row lies after every cursor given out. */
  lemma InsertAlike(x: Db, y: Db, p: Pending, cuts: seq<Cut>)
    requires Paired(Queue(x, p.mailbox), Queue(y, p.mailbox), cuts)
    requires forall k | 0 <= k < |cuts| :: cuts[k].left <= x.lastId && cuts[k].right <= y.lastId
    requires y.lastId <= x.lastId && x.lastId + 1 < TWO63
    ensures var (x', r), (y', s) := DepositInsert(x, p), DepositInsert(y, p);
      Paired(Queue(x', p.mailbox), Queue(y', p.mailbox), cuts) && r == s && y'.lastId <= x'.lastId
  {
    PairedMsgIds(Queue(x, p.mailbox), Queue(y, p.mailbox), cuts, p.msgId);
    InsertIsLocal(x, p, p.mailbox);
    InsertIsLocal(y, p, p.mailbox);
  }

  lemma DepositAlike(c: Config, mailbox: Bytes, x: Run, y: Run, cuts: seq<Cut>, now: int, request: Request)
    requires Related(c, mailbox, x, y, cuts) && x.db.lastId + 1 < TWO63
    requires request.Deposit? && request.mailbox == mailbox
    ensures var (x', r), (y', s) := Handle(c, x.db, now, request), Handle(c, y.db, now, request);
      && r == s && y'.lastId <= x'.lastId && Paired(Queue(x', mailbox), Queue(y', mailbox), cuts)
      && SameOwner(x', y', mailbox)
  {
    PairedBytes(Queue(x.db, mailbox), Queue(y.db, mailbox), cuts);
    var checked := DepositCheck(c, x.db, now, mailbox, request.auth, request.msgId, request.expiresAt, request.body);
    assert checked == DepositCheck(c, y.db, now, mailbox, request.auth, request.msgId, request.expiresAt, request.body);
    if checked.Ok? {
      InsertAlike(x.db, y.db, checked.value, cuts);
    }
  }

  /**
   * The one thing mailboxes share: an accepted deposit is answered alike exactly while the other traffic
   * has left an id.
   */
  lemma OnlyTheCounterIsShared(c: Config, mailbox: Bytes, x: Run, y: Run, cuts: seq<Cut>, now: int, request: Request)
    requires Related(c, mailbox, x, y, cuts) && request.Deposit? && request.mailbox == mailbox
    requires Handle(c, y.db, now, request).1.Deposited?
    ensures Handle(c, x.db, now, request).1 == Handle(c, y.db, now, request).1 <==> x.db.lastId + 1 < TWO63
  {
    PairedBytes(Queue(x.db, mailbox), Queue(y.db, mailbox), cuts);
    var checked := DepositCheck(c, x.db, now, mailbox, request.auth, request.msgId, request.expiresAt, request.body);
    assert checked == DepositCheck(c, y.db, now, mailbox, request.auth, request.msgId, request.expiresAt, request.body);
    PairedMsgIds(Queue(x.db, mailbox), Queue(y.db, mailbox), cuts, checked.value.msgId);
  }

  // ---------------------------------------------------------------- polls

  lemma CutsAgree(c: Config, xs: seq<Row>, ys: seq<Row>, m: nat, n: nat, at: nat)
    requires RowsOk(c, xs, m) && RowsOk(c, ys, n) && |xs| == |ys| && at < |xs|
    ensures forall i | 0 <= i < |xs| :: xs[i].id > xs[at].id <==> ys[i].id > ys[at].id
  {
    forall i | 0 <= i < |xs| ensures xs[i].id > xs[at].id <==> ys[i].id > ys[at].id {
      if i < at {
        assert Distinguished(xs[i], xs[at]) && Distinguished(ys[i], ys[at]);
      } else if at < i {
        assert Distinguished(xs[at], xs[i]) && Distinguished(ys[at], ys[i]);
      }
    }
  }

  lemma TwinsShow(p: seq<Row>, q: seq<Row>, cuts: seq<Cut>)
    requires Paired(p, q, cuts)
    ensures ShownAll(p) == ShownAll(q)
  {
    forall m | 0 <= m < |p| ensures Shown(p[m]) == Shown(q[m]) {
      assert Twins(p[m], q[m], cuts);
    }
  }

  lemma TakePaired(p: seq<Row>, q: seq<Row>, cuts: seq<Cut>, n: int)
    requires Paired(p, q, cuts)
    ensures Paired(Take(p, n), Take(q, n), cuts)
  {
    forall m | 0 <= m < |Take(p, n)| ensures Twins(Take(p, n)[m], Take(q, n)[m], cuts) {
      assert Twins(p[m], q[m], cuts);
    }
  }

  /** Pages of related runs end at the same place of their queues. */
  lemma SameEnd(xs: seq<Row>, ys: seq<Row>, f: Row -> bool, g: Row -> bool, limit: int) returns (at: nat)
    requires limit >= 1 && |xs| == |ys| && Keep(xs, f) != [] && forall i | 0 <= i < |xs| :: f(xs[i]) == g(ys[i])
    ensures at < |xs|
    ensures var p, q := Take(Keep(xs, f), limit), Take(Keep(ys, g), limit);
      |p| == |q| > 0 && p[|p| - 1] == xs[at] && q[|q| - 1] == ys[at]
  {
    SamePlaces(xs, ys, f, g);
    var last := |Take(Keep(xs, f), limit)| - 1;
    at := Place(xs, f, last);
    assert at == Place(ys, g, last);
  }

  /** The last rows of pages of related runs cut both queues at the same place. */
  lemma LastRowsAlike(c: Config, xs: seq<Row>, ys: seq<Row>, m: nat, n: nat, f: Row -> bool, g: Row -> bool, limit: int)
    requires RowsOk(c, xs, m) && RowsOk(c, ys, n) && limit >= 1
    requires |xs| == |ys| && Keep(xs, f) != [] && forall i | 0 <= i < |xs| :: f(xs[i]) == g(ys[i])
    ensures var p, q := Take(Keep(xs, f), limit), Take(Keep(ys, g), limit);
      |p| == |q| > 0 && forall i | 0 <= i < |xs| :: xs[i].id > p[|p| - 1].id <==> ys[i].id > q[|q| - 1].id
  {
    var at := SameEnd(xs, ys, f, g, limit);
    CutsAgree(c, xs, ys, m, n, at);
  }

  /** Pages of related runs show the same, and leave both readers at the same place. */
  lemma PagesAlike(c: Config, x: Db, y: Db, mailbox: Bytes, a: int, b: int, now: int, limit: int, cuts: seq<Cut>)
    requires DbOk(c, x) && DbOk(c, y) && limit >= 1
    requires Paired(Queue(x, mailbox), Queue(y, mailbox), cuts)
    requires forall i | 0 <= i < |Queue(x, mailbox)| :: Queue(x, mailbox)[i].id > a <==> Queue(y, mailbox)[i].id > b
    ensures var p, q := PageRows(x, mailbox, a, now, limit), PageRows(y, mailbox, b, now, limit);
      && ShownAll(p) == ShownAll(q)
      && Paired(Queue(x, mailbox), Queue(y, mailbox), cuts + [Cut(NewLastId(a, p), NewLastId(b, q))])
  {
    var xs, ys, f, g := Queue(x, mailbox), Queue(y, mailbox), After(a, now), After(b, now);
    var p, q := Take(Keep(xs, f), limit), Take(Keep(ys, g), limit);
    forall i | 0 <= i < |xs| ensures f(xs[i]) == g(ys[i]) {
      assert Twins(xs[i], ys[i], cuts);
    }
    KeepPaired(xs, ys, cuts, f, g);
    TakePaired(Keep(xs, f), Keep(ys, g), cuts, limit);
    TwinsShow(p, q, cuts);
    if Keep(xs, f) != [] {
      KeepRowsOk(c, x.messages, x.lastId, InMailbox(mailbox));
      KeepRowsOk(c, y.messages, y.lastId, InMailbox(mailbox));
      LastRowsAlike(c, xs, ys, x.lastId, y.lastId, f, g, limit);
    }
    CutAdded(xs, ys, cuts, NewLastId(a, p), NewLastId(b, q));
  }

  lemma CutAdded(xs: seq<Row>, ys: seq<Row>, cuts: seq<Cut>, left: int, right: int)
    requires Paired(xs, ys, cuts) && forall i | 0 <= i < |xs| :: xs[i].id > left <==> ys[i].id > right
    ensures Paired(xs, ys, cuts + [Cut(left, right)])
  {
    forall i | 0 <= i < |xs| ensures Twins(xs[i], ys[i], cuts + [Cut(left, right)]) {
      assert Twins(xs[i], ys[i], cuts);
    }
  }

  /** The cursors related runs choose start at the same place of their queues. */
  lemma ChoicesAlike(c: Config, mailbox: Bytes, x: Run, y: Run, cuts: seq<Cut>, choice: Choice)
    requires Related(c, mailbox, x, y, cuts)
    requires choice.Text? ==> StartId(c, mailbox, Some(choice.text)).None?
    ensures var a, b := StartId(c, mailbox, Chosen(x.cursors, choice)), StartId(c, mailbox, Chosen(y.cursors, choice));
      && a.Some? == b.Some?
      && (a.Some? ==>
            && 0 <= a.value <= x.db.lastId && 0 <= b.value <= y.db.lastId
            && forall i | 0 <= i < |Queue(x.db, mailbox)| ::
                Queue(x.db, mailbox)[i].id > a.value <==> Queue(y.db, mailbox)[i].id > b.value)
  {
    var xs, ys := Queue(x.db, mailbox), Queue(y.db, mailbox);
    if choice.Earlier? && choice.page < |cuts| {
      var cut := cuts[choice.page];
      forall i | 0 <= i < |xs| ensures xs[i].id > cut.left <==> ys[i].id > cut.right {
        assert Twins(xs[i], ys[i], cuts);
      }
    } else {
      KeepRowsOk(c, x.db.messages, x.db.lastId, InMailbox(mailbox));
      KeepRowsOk(c, y.db.messages, y.db.lastId, InMailbox(mailbox));
      forall i | 0 <= i < |xs| ensures xs[i].id > 0 && ys[i].id > 0 {
        assert RowOk(c, xs[i], x.db.lastId) && RowOk(c, ys[i], y.db.lastId);
      }
    }
  }

  /** Handing out the next cursors keeps the runs related. */
  lemma CursorsAlike(c: Config, mailbox: Bytes, x: Run, y: Run, cuts: seq<Cut>, left: int, right: int)
    requires Sane(c) && Related(c, mailbox, x, y, cuts) && 0 <= left <= x.db.lastId && 0 <= right <= y.db.lastId
    requires Paired(Queue(x.db, mailbox), Queue(y.db, mailbox), cuts + [Cut(left, right)])
    ensures Related(c, mailbox,
      x.(cursors := x.cursors + [CursorEncode(c.hmac, c.secret, mailbox, AsI64(left))]),
      y.(cursors := y.cursors + [CursorEncode(c.hmac, c.secret, mailbox, AsI64(right))]), cuts + [Cut(left, right)])
  {
    CursorContinues(c, mailbox, left);
    CursorContinues(c, mailbox, right);
  }

  /** The pages of related runs, from starts at the same place, show the same and end at the same place. */
  lemma NextCutsAlike(c: Config, mailbox: Bytes, x: Run, y: Run, cuts: seq<Cut>, a: int, b: int, now: int, limit: int)
    returns (left: int, right: int)
    requires Sane(c) && Related(c, mailbox, x, y, cuts) && limit >= 1
    requires 0 <= a <= x.db.lastId && 0 <= b <= y.db.lastId
    requires forall i | 0 <= i < |Queue(x.db, mailbox)| ::
      Queue(x.db, mailbox)[i].id > a <==> Queue(y.db, mailbox)[i].id > b
    ensures var p, q := PageRows(x.db, mailbox, a, now, limit), PageRows(y.db, mailbox, b, now, limit);
      ShownAll(p) == ShownAll(q) && left == NewLastId(a, p) && right == NewLastId(b, q)
    ensures Related(c, mailbox,
      x.(cursors := x.cursors + [CursorEncode(c.hmac, c.secret, mailbox, AsI64(left))]),
      y.(cursors := y.cursors + [CursorEncode(c.hmac, c.secret, mailbox, AsI64(right))]), cuts + [Cut(left, right)])
  {
    PagesAlike(c, x.db, y.db, mailbox, a, b, now, limit, cuts);
    PageHolds(c, x.db, mailbox, a, now, limit);
    PageHolds(c, y.db, mailbox, b, now, limit);
    left, right := NewLastId(a, PageRows(x.db, mailbox, a, now, limit)),
      NewLastId(b, PageRows(y.db, mailbox, b, now, limit));
    CursorsAlike(c, mailbox, x, y, cuts, left, right);
  }

  /** A poll that is granted returns its page and hands out a cursor. */
  lemma PollGoes(c: Config, mailbox: Bytes, run: Run, op: Op, start: int)
    requires op.OwnPoll? && OwnerError(c, run.db, mailbox, op.auth).None?
    requires StartId(c, mailbox, Chosen(run.cursors, op.choice)) == Some(start)
    ensures var rows := PageRows(run.db, mailbox, start, op.now, Limit(c, op.limit));
      var cursor := CursorEncode(c.hmac, c.secret, mailbox, AsI64(NewLastId(start, rows)));
      Do(c, mailbox, run, op) == (run.(cursors := run.cursors + [cursor]), [Page(cursor, ShownAll(rows))])
  {
  }

  lemma PollAlike(c: Config, mailbox: Bytes, x: Run, y: Run, cuts: seq<Cut>, op: Op) returns (cuts': seq<Cut>)
    requires Sane(c) && Related(c, mailbox, x, y, cuts) && op.OwnPoll? && Fits(c, mailbox, op)
    ensures var (x', r), (y', s) := Do(c, mailbox, x, op), Do(c, mailbox, y, op);
      Related(c, mailbox, x', y', cuts') && AllAlike(r, s) && x'.db == x.db
  {
    cuts' := cuts;
    var start := StartId(c, mailbox, Chosen(x.cursors, op.choice));
    var start' := StartId(c, mailbox, Chosen(y.cursors, op.choice));
    ChoicesAlike(c, mailbox, x, y, cuts, op.choice);
    if OwnerError(c, x.db, mailbox, op.auth).None? && start.Some? {
      var left, right := NextCutsAlike(c, mailbox, x, y, cuts, start.value, start'.value, op.now, Limit(c, op.limit));
      PollGoes(c, mailbox, x, op, start.value);
      PollGoes(c, mailbox, y, op, start'.value);
      cuts' := cuts + [Cut(left, right)];
    }
  }

  // ---------------------------------------------------------------- one operation and runs

  /** What one request to the mailbox does in related runs. */
  ghost predicate Alongside(c: Config, x: Db, y: Db, cuts: seq<Cut>, now: int, request: Request) {
    var (x', r), (y', s) := Handle(c, x, now, request), Handle(c, y, now, request);
    && r == s && y'.lastId <= x'.lastId && SameOwner(x', y', request.mailbox)
    && Paired(Queue(x', request.mailbox), Queue(y', request.mailbox), cuts)
  }

  lemma RegisterAlongside(c: Config, x: Db, y: Db, cuts: seq<Cut>, now: int, request: Request)
    requires request.Register? && SameOwner(x, y, request.mailbox) && y.lastId <= x.lastId
    requires Paired(Queue(x, request.mailbox), Queue(y, request.mailbox), cuts)
    ensures Alongside(c, x, y, cuts, now, request)
  {
    RegisterAlike(c, x, y, request.mailbox, request.tokens, 0);
  }

  lemma RevokeAlongside(c: Config, x: Db, y: Db, cuts: seq<Cut>, now: int, request: Request)
    requires request.Revoke? && SameOwner(x, y, request.mailbox) && y.lastId <= x.lastId
    requires Paired(Queue(x, request.mailbox), Queue(y, request.mailbox), cuts)
    ensures Alongside(c, x, y, cuts, now, request)
  {
    RevokeAlike(x, y, request.mailbox, request.hashes, 0);
  }

  lemma AckAlongside(c: Config, x: Db, y: Db, cuts: seq<Cut>, now: int, request: Request)
    requires request.Ack? && SameOwner(x, y, request.mailbox) && y.lastId <= x.lastId
    requires Paired(Queue(x, request.mailbox), Queue(y, request.mailbox), cuts)
    ensures Alongside(c, x, y, cuts, now, request)
  {
    var m, msgIds := request.mailbox, request.msgIds;
    assert OwnerError(c, x, m, request.auth) == OwnerError(c, y, m, request.auth);
    AckAlike(x, y, m, msgIds, cuts);
  }

  lemma OwnAlike(c: Config, mailbox: Bytes, x: Run, y: Run, cuts: seq<Cut>, now: int, request: Request)
    requires Related(c, mailbox, x, y, cuts) && x.db.lastId + 1 < TWO63
    requires request.mailbox == mailbox && !request.Poll?
    ensures Alongside(c, x.db, y.db, cuts, now, request)
  {
    match request
    case Create(_, _, _) =>
    case Register(_, _, _) => RegisterAlongside(c, x.db, y.db, cuts, now, request);
    case Revoke(_, _, _) => RevokeAlongside(c, x.db, y.db, cuts, now, request);
    case Ack(_, _, _) => AckAlongside(c, x.db, y.db, cuts, now, request);
    case Deposit(_, _, _, _, _) => DepositAlike(c, mailbox, x, y, cuts, now, request);
  }

  /** One operation: both runs do it and answer alike, or it is foreign and only the full run does it. */
  lemma OpAlike(c: Config, mailbox: Bytes, x: Run, y: Run, cuts: seq<Cut>, op: Op)
    returns (x': Run, y': Run, r: seq<Response>, s: seq<Response>, cuts': seq<Cut>)
    requires Sane(c) && Related(c, mailbox, x, y, cuts) && Fits(c, mailbox, op) && x.db.lastId + 1 < TWO63
    ensures (x', r) == Do(c, mailbox, x, op)
    ensures (y', s) == if op.Foreign? then (y, []) else Do(c, mailbox, y, op)
    ensures Related(c, mailbox, x', y', cuts') && AllAlike(r, s) && x'.db.lastId <= x.db.lastId + 1
  {
    cuts' := cuts;
    x', r := Do(c, mailbox, x, op).0, Do(c, mailbox, x, op).1;
    y', s := y, [];
    if !op.Foreign? {
      y', s := Do(c, mailbox, y, op).0, Do(c, mailbox, y, op).1;
    }
    match op
    case Foreign(now, request) =>
      ForeignIsLocal(c, x.db, now, request, mailbox);
      ApplyKeepsDbOk(c, x.db, Serve(now, request));
    case Own(now, request) =>
      OwnAlike(c, mailbox, x, y, cuts, now, request);
      ApplyKeepsDbOk(c, x.db, Serve(now, request));
      ApplyKeepsDbOk(c, y.db, Serve(now, request));
      CounterMoves(c, x.db, now, request);
      CounterMoves(c, y.db, now, request);
    case OwnPoll(_, _, _, _) =>
      cuts' := PollAlike(c, mailbox, x, y, cuts, op);
    case Clean(now) =>
      CleanAlike(x.db, y.db, mailbox, now, cuts);
      ApplyKeepsDbOk(c, x.db, Sweep(now));
      ApplyKeepsDbOk(c, y.db, Sweep(now));
  }

  lemma AnswersAppend(r: seq<Response>, s: seq<Response>, rs: seq<Response>, ss: seq<Response>)
    requires AllAlike(r, s) && AllAlike(rs, ss)
    ensures AllAlike(r + rs, s + ss)
  {
    forall i | 0 <= i < |r + rs| ensures Alike((r + rs)[i], (s + ss)[i]) {
      if i >= |r| {
        assert Alike(rs[i - |r|], ss[i - |r|]);
      }
    }
  }

  lemma ForeignFirst(c: Config, mailbox: Bytes, x: Run, y: Run, op: Op, rest: seq<Op>, x': Run)
    requires op.Foreign? && Do(c, mailbox, x, op) == (x', [])
    requires AllAlike(Answers(c, mailbox, x', rest), Answers(c, mailbox, y, WithoutForeign(rest)))
    ensures AllAlike(Answers(c, mailbox, x, [op] + rest), Answers(c, mailbox, y, WithoutForeign([op] + rest)))
  {
    var others := WithoutForeign(rest);
    assert ([op] + rest)[1..] == rest;
    assert [] + others == others;
    AnswersAppend([], [], Answers(c, mailbox, x', rest), Answers(c, mailbox, y, others));
    assert [] + Answers(c, mailbox, y, others) == Answers(c, mailbox, y, others);
  }

  lemma OwnFirst(c: Config, mailbox: Bytes, x: Run, y: Run, op: Op, rest: seq<Op>,
                 x': Run, r: seq<Response>, y': Run, s: seq<Response>)
    requires !op.Foreign? && Do(c, mailbox, x, op) == (x', r) && Do(c, mailbox, y, op) == (y', s) && AllAlike(r, s)
    requires AllAlike(Answers(c, mailbox, x', rest), Answers(c, mailbox, y', WithoutForeign(rest)))
    ensures AllAlike(Answers(c, mailbox, x, [op] + rest), Answers(c, mailbox, y, WithoutForeign([op] + rest)))
  {
    var others := WithoutForeign(rest);
    assert ([op] + rest)[1..] == rest && ([op] + others)[1..] == others;
    AnswersAppend(r, s, Answers(c, mailbox, x', rest), Answers(c, mailbox, y', others));
  }

  lemma {:induction false} RunsAlike(c: Config, mailbox: Bytes, x: Run, y: Run, cuts: seq<Cut>, ops: seq<Op>)
    requires Sane(c) && Related(c, mailbox, x, y, cuts) && x.db.lastId + |ops| < TWO63
    requires forall i | 0 <= i < |ops| :: Fits(c, mailbox, ops[i])
    ensures AllAlike(Answers(c, mailbox, x, ops), Answers(c, mailbox, y, WithoutForeign(ops)))
    decreases |ops|
  {
    if ops == [] {
    } else {
      var op, rest := ops[0], ops[1..];
      assert ops == [op] + rest && Fits(c, mailbox, op);
      var x', y', r, s, cuts' := OpAlike(c, mailbox, x, y, cuts, op);
      RunsAlike(c, mailbox, x', y', cuts', rest);
      if op.Foreign? {
        ForeignFirst(c, mailbox, x, y, op, rest, x');
      } else {
        OwnFirst(c, mailbox, x, y, op, rest, x', r, y', s);
      }
    }
  }

  /** Deleting every request to other mailboxes from a run changes no answer of a mailbox but the cursor texts. */
  lemma MailboxesAreIsolated(c: Config, mailbox: Bytes, ops: seq<Op>)
    requires Sane(c) && |ops| < TWO63
    requires forall i | 0 <= i < |ops| :: Fits(c, mailbox, ops[i])
    ensures AllAlike(Answers(c, mailbox, Run(EMPTY, []), ops), Answers(c, mailbox, Run(EMPTY, []), WithoutForeign(ops)))
  {
    RunsAlike(c, mailbox, Run(EMPTY, []), Run(EMPTY, []), [], ops);
  }
}
