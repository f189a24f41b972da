/**
 * The scripts over the mailbox give the ratchet the channel it needs: what the reader of a mailbox
 * would be shown is a lossy first-in-first-out channel of the two-party system.
 */
module EndToEnd {
  import opened Data
  import opened Base64Url
  import opened Rows
  import opened Mailbox
  import opened MailboxRuns
  import opened Ratchet
  import opened Persistence
  import opened Protocol
  import opened Invariant
  import opened Agreement
  import opened AgreementTheorems
  import opened X3dh
  import opened Envelopes
  import opened Scripts
  import opened Subsequences
  import opened ScriptRuns
  import Pagination

  // ---------------------------------------------------------------- the simulation

  /** A blob is a genuine envelope of side s with the message of a packet. */
  predicate Carries(u: Setup, s: Side, blob: Bytes, pk: Packet) {
    var e := ReadBlob(u.env, blob);
    && e.Some? && Genuine(u.env, blob) && e.value.from == u.users.Of(s).name
    && e.value.message == pk.message && pk.associatedData == []
  }

  ghost predicate Carried(u: Setup, s: Side, rows: seq<Row>, ch: seq<Packet>) {
    |rows| == |ch| && forall i | 0 <= i < |rows| :: Carries(u, s, rows[i].blob, ch[i])
  }

  /** What side s sent and the other side would be shown now. */
  function Live(u: Setup, x: Net, s: Side): seq<Row> {
    Keep(Queue(x.db, u.users.Of(s.Other()).mailbox), Unexpired(x.clock))
  }

  /** The plaintexts of packets, each with the blob that carries it. */
  function Letters(rows: seq<Row>, ch: seq<Packet>): (ls: seq<Letter>)
    requires |rows| == |ch|
    ensures |ls| == |ch|
  {
    seq(|ch|, i requires 0 <= i < |ch| => Letter(rows[i].blob, ch[i].plaintext))
  }

  /** The first envelope holds the key from which the responder's script makes the responder's session. */
  predicate Introduces(u: Setup, blob: Bytes, st: State) {
    var e := ReadBlob(u.env, blob);
    && e.Some? && Genuine(u.env, blob) && e.value.initialEphemeralKey.Some?
    && ResponderSession(u.env, u.users.responder, u.env.card(e.value.from).value, e.value.initialEphemeralKey.value)
      == st
  }

  /** A user's session file holds the session of its side. */
  predicate FileOk(u: Setup, x: Net, s: Side, pt: Party) {
    Met(u, x, s) && LoadFile(x.disks.Of(s)[Name(u, s)]) == pt.state && (s.Responder? ==> pt.epoch > 0)
  }

  predicate HasKey(u: Setup, blob: Bytes) {
    var e := ReadBlob(u.env, blob);
    e.Some? && e.value.initialEphemeralKey.Some?
  }

  /** A later envelope of the initiator, from which no session can be made. */
  predicate Keyless(u: Setup, blob: Bytes) {
    var e := ReadBlob(u.env, blob);
    e.Some? && e.value.from == u.users.initiator.name && e.value.initialEphemeralKey.None?
  }

  ghost predicate AllKeyless(u: Setup, rows: seq<Row>) {
    forall i | 0 <= i < |rows| :: Keyless(u, rows[i].blob)
  }

  /** The responder has neither read nor written anything. */
  predicate Silent(u: Setup, x: Net) {
    && !Met(u, x, Responder) && x.shown == Both([], []) && x.sent.Of(Responder) == [] && Live(u, x, Responder) == []
  }

  /** The envelope that introduces the initiator is the oldest for the responder, and the only one with a key. */
  ghost predicate FirstWaits(u: Setup, x: Net, pt: Party) {
    var live := Live(u, x, Initiator);
    Silent(u, x) && live != [] && Introduces(u, live[0].blob, pt.state) && AllKeyless(u, live[1..])
  }

  /** The initiator has a session and the envelope that would give the responder one is gone. */
  ghost predicate Stranded(u: Setup, x: Net) {
    && ServerOk(u, x.db) && Met(u, x, Initiator) && Silent(u, x)
    && AllKeyless(u, Live(u, x, Initiator)) && |Live(u, x, Initiator)| < |x.sent.Of(Initiator)|
  }

  ghost predicate ChannelSim(u: Setup, x: Net, w: World, s: Side) {
    && Carried(u, s, Live(u, x, s), w.channels.Of(s))
    && Subsequence(x.shown.Of(s.Other()) + Letters(Live(u, x, s), w.channels.Of(s)), x.sent.Of(s))
  }

  ghost predicate KeysSim(h: seq<Epoch>, keys: set<Bytes>) {
    forall e | 0 <= e < |h| :: h[e].pair.publicKey in keys
  }

  ghost predicate ServerOk(u: Setup, db: Db) {
    && DbOk(u.server, db)
    && forall s: Side :: OwnerError(u.server, db, u.users.Of(s).mailbox, PollAuth(u.users.Of(s))).None?
  }

  /** The two users are at the state w of the two-party system. */
  ghost predicate Sim(u: Setup, x: Net, w: World) {
    && Inv(u.env.p, w) && ServerOk(u, x.db) && KeysSim(w.history, x.keys)
    && FileOk(u, x, Initiator, w.parties.initiator)
    && (FileOk(u, x, Responder, w.parties.responder) || FirstWaits(u, x, w.parties.responder))
    && ChannelSim(u, x, w, Initiator) && ChannelSim(u, x, w, Responder)
  }

  /** Nothing was sent yet. */
  ghost predicate Quiet(u: Setup, x: Net) {
    && ServerOk(u, x.db) && u.users.responder.identity.publicKey in x.keys
    && forall s: Side ::
        && !Met(u, x, s) && Queue(x.db, u.users.Of(s).mailbox) == []
        && x.sent.Of(s) == [] && x.shown.Of(s) == []
  }

  // ---------------------------------------------------------------- time passes

  /** The packets whose rows have not expired. */
  function Surviving(rows: seq<Row>, ch: seq<Packet>, now: int): seq<Packet>
    requires |rows| == |ch|
  {
    if rows == [] then []
    else (if rows[0].expiresAt > now then [ch[0]] else []) + Surviving(rows[1..], ch[1..], now)
  }

  lemma {:induction false} SurvivingCarried(u: Setup, s: Side, rows: seq<Row>, ch: seq<Packet>, now: int)
    requires Carried(u, s, rows, ch)
    ensures Carried(u, s, Keep(rows, Unexpired(now)), Surviving(rows, ch, now))
  {
    if rows == [] {
    } else {
      assert Carries(u, s, rows[0].blob, ch[0]);
      forall i | 0 <= i < |rows[1..]| ensures Carries(u, s, rows[1..][i].blob, ch[1..][i]) {
        assert Carries(u, s, rows[i + 1].blob, ch[i + 1]);
      }
      SurvivingCarried(u, s, rows[1..], ch[1..], now);
    }
  }

  lemma {:induction false} SurvivingSubsequence(rows: seq<Row>, ch: seq<Packet>, now: int)
    requires |rows| == |ch|
    ensures Subsequence(Surviving(rows, ch, now), ch)
  {
    if rows == [] {
      SubsequenceSelf(ch);
      assert ch == [];
    } else {
      var rest := Surviving(rows[1..], ch[1..], now);
      SurvivingSubsequence(rows[1..], ch[1..], now);
      SubsequenceAfter([ch[0]], rest, ch[1..]);
      assert ch == [ch[0]] + ch[1..];
      if rows[0].expiresAt <= now {
        SubsequenceAfter([], rest, ch[1..]);
        Tail(rest, ch);
        assert Surviving(rows, ch, now) == rest;
      }
    }
  }

  lemma Tail<T>(xs: seq<T>, ys: seq<T>)
    requires ys != [] && Subsequence(xs, ys[1..])
    ensures Subsequence(xs, ys)
  {
    var f: seq<nat> :| Places(xs, ys[1..], f);
    assert Places(xs, ys, seq(|xs|, i requires 0 <= i < |xs| => f[i] + 1));
  }

  /** The invariant holds of a channel that lost messages. */
  lemma SparserChannelOk(s: Side, sender: Party, receiver: Party, ch: seq<Packet>, sent: seq<Packet>, ch': seq<Packet>)
    requires ChannelOk(s, sender, receiver, ch, sent) && Subsequence(ch', ch)
    ensures ChannelOk(s, sender, receiver, ch', sent)
  {
    var f: seq<nat> :| Places(ch', ch, f);
    forall i | 0 <= i < |ch'|
      ensures ch'[i] in sent && ch'[i].from == s && Mine(s, ch'[i].epoch) && Ahead(s.Other(), receiver, ch'[i])
    {
      assert ch'[i] == ch[f[i]];
    }
    forall i, j | 0 <= i < j < |ch'| ensures Earlier(ch'[i], ch'[j]) {
      assert ch'[i] == ch[f[i]] && ch'[j] == ch[f[j]] && f[i] < f[j];
    }
  }

  lemma SparserInv(p: Primitives, w: World, s: Side, ch: seq<Packet>)
    requires Inv(p, w) && Subsequence(ch, w.channels.Of(s))
    ensures Inv(p, w.(channels := w.channels.With(s, ch)))
  {
    assert SideOk(p, w, s) && SideOk(p, w, s.Other());
    SparserChannelOk(s, w.parties.Of(s), w.parties.Of(s.Other()), w.channels.Of(s), w.sent, ch);
  }

  lemma {:induction false} SurvivingLetters(rows: seq<Row>, ch: seq<Packet>, now: int)
    requires |rows| == |ch|
    ensures |Keep(rows, Unexpired(now))| == |Surviving(rows, ch, now)|
    ensures Subsequence(Letters(Keep(rows, Unexpired(now)), Surviving(rows, ch, now)), Letters(rows, ch))
  {
    if rows == [] {
      SubsequenceSelf(Letters(rows, ch));
    } else {
      var kept, rest := Keep(rows[1..], Unexpired(now)), Surviving(rows[1..], ch[1..], now);
      SurvivingLetters(rows[1..], ch[1..], now);
      var first, later := Letter(rows[0].blob, ch[0].plaintext), Letters(rows[1..], ch[1..]);
      assert Letters(rows, ch) == [first] + later;
      if rows[0].expiresAt > now {
        assert Keep(rows, Unexpired(now)) == [rows[0]] + kept && Surviving(rows, ch, now) == [ch[0]] + rest;
        assert Letters([rows[0]] + kept, [ch[0]] + rest) == [first] + Letters(kept, rest);
        SubsequenceAfter([first], Letters(kept, rest), later);
      } else {
        assert Keep(rows, Unexpired(now)) == kept && Surviving(rows, ch, now) == rest;
        assert Letters(rows, ch)[1..] == later;
        Tail(Letters(kept, rest), Letters(rows, ch));
      }
    }
  }

  lemma SparserLetters(shown: seq<Letter>, kept: seq<Letter>, all: seq<Letter>, sent: seq<Letter>)
    requires Subsequence(kept, all) && Subsequence(shown + all, sent)
    ensures Subsequence(shown + kept, sent)
  {
    SubsequenceAfter(shown, kept, all);
    SubsequenceTransitive(shown + kept, shown + all, sent);
  }

  lemma LaterLive(u: Setup, x: Net, s: Side, now: int)
    requires x.clock <= now
    ensures Live(u, x.(clock := now), s) == Keep(Live(u, x, s), Unexpired(now))
  {
    KeepStronger(Queue(x.db, u.users.Of(s.Other()).mailbox), Unexpired(x.clock), Unexpired(now));
  }

  /** Messages that expire are lost from their channel. */
  lemma ChannelLater(u: Setup, x: Net, w: World, s: Side, now: int) returns (w': World)
    requires ChannelSim(u, x, w, s) && Inv(u.env.p, w) && x.clock <= now
    ensures Inv(u.env.p, w') && ChannelSim(u, x.(clock := now), w', s)
    ensures w' == w.(channels := w'.channels) && w'.channels.Of(s.Other()) == w.channels.Of(s.Other())
  {
    var rows, ch := Live(u, x, s), w.channels.Of(s);
    var ch' := Surviving(rows, ch, now);
    w' := w.(channels := w.channels.With(s, ch'));
    LaterLive(u, x, s, now);
    SurvivingCarried(u, s, rows, ch, now);
    SurvivingSubsequence(rows, ch, now);
    SparserInv(u.env.p, w, s, ch');
    SurvivingLetters(rows, ch, now);
    SparserLetters(x.shown.Of(s.Other()), Letters(Live(u, x.(clock := now), s), ch'), Letters(rows, ch), x.sent.Of(s));
  }

  lemma ChannelsLater(u: Setup, x: Net, w: World, now: int) returns (w': World)
    requires ChannelSim(u, x, w, Initiator) && ChannelSim(u, x, w, Responder) && Inv(u.env.p, w) && x.clock <= now
    ensures Inv(u.env.p, w') && w' == w.(channels := w'.channels)
    ensures ChannelSim(u, x.(clock := now), w', Initiator) && ChannelSim(u, x.(clock := now), w', Responder)
  {
    var w1 := ChannelLater(u, x, w, Initiator, now);
    SameLive(u, x, x, w, w1, Responder);
    w' := ChannelLater(u, x, w1, Responder, now);
    SameLive(u, x.(clock := now), x.(clock := now), w1, w', Initiator);
  }

  lemma KeptKeyless(u: Setup, rows: seq<Row>, f: Row -> bool)
    requires AllKeyless(u, rows)
    ensures AllKeyless(u, Keep(rows, f))
  {
    forall i | 0 <= i < |Keep(rows, f)| ensures Keyless(u, Keep(rows, f)[i].blob) {
      assert Keep(rows, f)[i] == rows[Place(rows, f, i)];
    }
  }

  lemma SilentLater(u: Setup, x: Net, now: int)
    requires Silent(u, x) && x.clock <= now
    ensures Silent(u, x.(clock := now))
  {
    LaterLive(u, x, Responder, now);
  }

  lemma {:induction false} KeepAtMost(rows: seq<Row>, f: Row -> bool)
    ensures |Keep(rows, f)| <= |rows|
  {
    if rows == [] {
    } else {
      KeepAtMost(rows[1..], f);
    }
  }

  /** Either the first envelope still waits, or none is left that has a key, and fewer are left than were. */
  lemma FirstLater(u: Setup, x: Net, pt: Party, now: int)
    requires FirstWaits(u, x, pt) && x.clock <= now
    ensures var x' := x.(clock := now); var live, live' := Live(u, x, Initiator), Live(u, x', Initiator);
      && Silent(u, x')
      && (live[0].expiresAt > now ==> FirstWaits(u, x', pt))
      && (live[0].expiresAt <= now ==> AllKeyless(u, live') && |live'| < |live|)
  {
    var live := Live(u, x, Initiator);
    SilentLater(u, x, now);
    LaterLive(u, x, Initiator, now);
    KeptKeyless(u, live[1..], Unexpired(now));
    KeepAtMost(live[1..], Unexpired(now));
    KeepCons(live[0], live[1..], Unexpired(now));
    assert live == [live[0]] + live[1..];
  }

  lemma LaterSim(u: Setup, x: Net, w: World, now: int, w': World)
    requires Sim(u, x, w) && Inv(u.env.p, w') && w' == w.(channels := w'.channels)
    requires ChannelSim(u, x.(clock := now), w', Initiator) && ChannelSim(u, x.(clock := now), w', Responder)
    requires Met(u, x, Responder) || FirstWaits(u, x.(clock := now), w.parties.responder)
    ensures Sim(u, x.(clock := now), w')
  {
  }

  /** The clock moves on: the state of the system stays, but for what expires, or the first envelope expires unread. */
  lemma Later(u: Setup, x: Net, w: World, now: int) returns (w': World)
    requires Sim(u, x, w) && x.clock <= now
    ensures Sim(u, x.(clock := now), w') || Stranded(u, x.(clock := now))
  {
    w' := ChannelsLater(u, x, w, now);
    if Met(u, x, Responder) {
      LaterSim(u, x, w, now, w');
    } else {
      FirstLater(u, x, w.parties.responder, now);
      if Live(u, x, Initiator)[0].expiresAt > now {
        LaterSim(u, x, w, now, w');
      } else {
        FewerThanSent(u, x, w);
      }
    }
  }

  lemma FewerThanSent(u: Setup, x: Net, w: World)
    requires ChannelSim(u, x, w, Initiator)
    ensures |Live(u, x, Initiator)| <= |x.sent.Of(Initiator)|
  {
    var ls := Letters(Live(u, x, Initiator), w.channels.Of(Initiator));
    SubsequenceLength(x.shown.Of(Responder) + ls, x.sent.Of(Initiator));
  }

  // ---------------------------------------------------------------- other traffic

  lemma SweptRows(db: Db, now: int, mailbox: Bytes)
    ensures var rows, rows' := Queue(db, mailbox), Queue(Purge(db, now), mailbox);
      Keep(rows', Unexpired(now)) == Keep(rows, Unexpired(now))
  {
    PurgeIsLocal(db, now, mailbox);
    KeepStronger(Queue(db, mailbox), Unexpired(now), Unexpired(now));
  }

  lemma ServedRows(c: Config, db: Db, now: int, request: Request, mailbox: Bytes)
    requires request.mailbox != mailbox || !(request.Deposit? || request.Ack?)
    ensures Queue(Handle(c, db, now, request).0, mailbox) == Queue(db, mailbox)
  {
    match request
    case Register(m, auth, tokens) => RegisterChangesTokensOnly(c, db, m, tokens, 0);
    case Revoke(m, auth, hashes) => RevokeChangesTokensOnly(db, m, hashes, 0);
    case Ack(m, auth, msgIds) =>
      AckDeletesListed(db, m, msgIds, 0);
      DeletionIsLocal(db, m, Listed(msgIds), mailbox);
    case Deposit(m, auth, msgId, expiresAt, body) =>
      var checked := DepositCheck(c, db, now, m, auth, msgId, expiresAt, body);
      if checked.Ok? {
        InsertIsLocal(db, checked.value, mailbox);
      }
    case _ =>
  }

  lemma ElsewhereRows(u: Setup, db: Db, a: Action, mailbox: Bytes)
    requires OfUsers(u, mailbox)
    requires a.Serve? ==> !OfUsers(u, a.request.mailbox) || !(a.request.Deposit? || a.request.Ack?)
    ensures var rows, rows' := Queue(db, mailbox), Queue(Apply(u.server, db, a), mailbox);
      && Keep(rows', Unexpired(a.now)) == Keep(rows, Unexpired(a.now))
      && (rows == [] ==> rows' == [])
  {
    match a
    case Sweep(now) =>
      SweptRows(db, now, mailbox);
      PurgeIsLocal(db, now, mailbox);
    case Serve(now, request) => ServedRows(u.server, db, now, request, mailbox);
  }

  lemma ElsewhereServerOk(u: Setup, db: Db, a: Action)
    requires ServerOk(u, db)
    ensures ServerOk(u, Apply(u.server, db, a))
  {
    ApplyKeepsDbOk(u.server, db, a);
    forall s: Side
      ensures OwnerError(u.server, Apply(u.server, db, a), u.users.Of(s).mailbox, PollAuth(u.users.Of(s))).None? {
      Pagination.ActionKeepsOwner(u.server, db, a, u.users.Of(s).mailbox, PollAuth(u.users.Of(s)));
    }
  }

  /** A channel depends on the server only through the live rows. */
  lemma SameLive(u: Setup, x: Net, x': Net, w: World, w': World, s: Side)
    requires ChannelSim(u, x, w, s) && Live(u, x', s) == Live(u, x, s) && w'.channels.Of(s) == w.channels.Of(s)
    requires x'.shown.Of(s.Other()) == x.shown.Of(s.Other()) && x'.sent.Of(s) == x.sent.Of(s)
    ensures ChannelSim(u, x', w', s)
  {
  }

  lemma ElsewhereLive(u: Setup, x: Net, a: Action, s: Side)
    requires x.clock == a.now
    requires a.Serve? ==> !OfUsers(u, a.request.mailbox) || !(a.request.Deposit? || a.request.Ack?)
    ensures Live(u, x.(db := Apply(u.server, x.db, a)), s) == Live(u, x, s)
  {
    ElsewhereRows(u, x.db, a, u.users.Of(s.Other()).mailbox);
  }

  /** The state of the system depends on the server only through the live rows. */
  lemma SameRows(u: Setup, x: Net, w: World, db: Db)
    requires Sim(u, x, w) && ServerOk(u, db)
    requires Live(u, x.(db := db), Initiator) == Live(u, x, Initiator)
      && Live(u, x.(db := db), Responder) == Live(u, x, Responder)
    ensures Sim(u, x.(db := db), w)
  {
    var x' := x.(db := db);
    SameLive(u, x, x', w, w, Initiator);
    SameLive(u, x, x', w, w, Responder);
    if !Met(u, x, Responder) {
      SameWaits(u, x, x', w.parties.responder);
    }
  }

  lemma SameWaits(u: Setup, x: Net, x': Net, pt: Party)
    requires FirstWaits(u, x, pt) && x'.disks == x.disks && x'.shown == x.shown && x'.sent == x.sent
    requires Live(u, x', Initiator) == Live(u, x, Initiator) && Live(u, x', Responder) == Live(u, x, Responder)
    ensures FirstWaits(u, x', pt)
  {
  }

  lemma ElsewhereKeepsSim(u: Setup, x: Net, w: World, a: Action)
    requires Sim(u, x, w) && x.clock == a.now
    requires a.Serve? ==> !OfUsers(u, a.request.mailbox) || !(a.request.Deposit? || a.request.Ack?)
    ensures Sim(u, x.(db := Apply(u.server, x.db, a)), w)
  {
    ElsewhereServerOk(u, x.db, a);
    ElsewhereLive(u, x, a, Initiator);
    ElsewhereLive(u, x, a, Responder);
    SameRows(u, x, w, Apply(u.server, x.db, a));
  }

  // ---------------------------------------------------------------- sending

  /** What one run of the send script needs of the session it finds. */
  lemma PartyIsSound(p: Primitives, h: seq<Epoch>, s: Side, pt: Party)
    requires PartyOk(p, h, s, pt)
    ensures Sound(pt.state)
  {
  }

  /** What passes the query is the blob given, for the mailbox given, and not expired. */
  lemma CheckedDeposit(c: Config, db: Db, now: int, mailbox: Bytes, auth: Option<string>, msgId: Option<string>,
                       body: Bytes)
    ensures var r := DepositCheck(c, db, now, mailbox, auth, msgId, None, body);
      r.Ok? ==> r.value.mailbox == mailbox && r.value.blob == body && r.value.expiresAt > now
  {
  }

  lemma InsertAddsRow(db: Db, p: Pending, other: Bytes) returns (row: Row)
    requires other != p.mailbox
    ensures var (db', r) := DepositInsert(db, p);
      && Queue(db', other) == Queue(db, other)
      && (!r.Deposited? ==> db' == db)
      && (r.Deposited? ==>
            Queue(db', p.mailbox) == Queue(db, p.mailbox) + [row] && row.blob == p.blob && row.expiresAt == p.expiresAt)
  {
    row := Row(db.lastId + 1, p.mailbox, p.msgId, p.blob, p.receivedAt, p.expiresAt);
    InsertIsLocal(db, p, p.mailbox);
    InsertIsLocal(db, p, other);
  }

  /** A deposit is accepted, and the row is last in its mailbox and live, or it leaves the tables as they were. */
  lemma DepositAddsRow(c: Config, db: Db, now: int, you: Account, msgId: Bytes, blob: Bytes, other: Bytes)
      returns (row: Row)
    requires other != you.mailbox
    ensures var (db', r) := Handle(c, db, now, DepositRequest(you, msgId, blob));
      && Queue(db', other) == Queue(db, other)
      && (!r.Deposited? ==> db' == db)
      && (r.Deposited? ==>
            Queue(db', you.mailbox) == Queue(db, you.mailbox) + [row] && row.blob == blob && row.expiresAt > now)
  {
    var auth, id := Some("Bearer " + you.depositToken), Some(Encode(msgId));
    var checked := DepositCheck(c, db, now, you.mailbox, auth, id, None, blob);
    row := Row(0, you.mailbox, [], blob, now, now + 1);
    if checked.Ok? {
      CheckedDeposit(c, db, now, you.mailbox, auth, id, blob);
      row := InsertAddsRow(db, checked.value, other);
    }
  }

  /** What the send script writes is read as it was written and passes the signature check. */
  lemma SignedIsGenuine(u: Setup, s: Side, at: int, m: Message, ephemeral: Option<Bytes>)
    requires Proper(u)
    ensures var e := Sign(u.env, u.users.Of(s), u.users.Of(s.Other()).name, at, m, ephemeral);
      var blob := u.env.render(EnvelopeJson(e));
      ReadBlob(u.env, blob) == Some(e) && Genuine(u.env, blob)
  {
    var e := Sign(u.env, u.users.Of(s), u.users.Of(s.Other()).name, at, m, ephemeral);
    EnvelopeRoundTrip(e);
    SignedAsWritten(e);
    var a := u.users.Of(s);
    assert ValidPair(u.env.p, a.identity);
  }

  lemma EncryptedPacket(p: Primitives, s: Side, me: Party, plaintext: Bytes, generated: KeyPair, after: State,
                        m: Message)
    returns (me': Party, pk: Packet)
    requires me.state.sendingChain.Some? ==> me.state.currentDHPublicKey.Some?
    requires Encrypt(p, me.state, plaintext, [], generated) == (after, Ok(m))
    ensures SendBy(p, s, me, plaintext, [], generated) == (me', Ok(pk))
    ensures me'.state == after && pk.message == m && pk.associatedData == []
  {
    var r := SendBy(p, s, me, plaintext, [], generated);
    me', pk := r.0, r.1.value;
  }

  /** One run of the send script that finds a session encrypts with it, saves it and wraps the message up. */
  lemma SendResult(u: Setup, x: Net, s: Side, h: seq<Epoch>, me: Party, plaintext: Bytes, draw: Draw)
    returns (me': Party, pk: Packet, disk: Disk, blob: Bytes)
    requires Proper(u) && FileOk(u, x, s, me) && PartyOk(u.env.p, h, s, me)
    ensures me.state.sendingChain.Some? ==> me.state.currentDHPublicKey.Some?
    ensures SendBy(u.env.p, s, me, plaintext, [], draw.generated) == (me', Ok(pk))
    ensures SendOutcome(u, x, s, plaintext, draw) == (disk, Some(blob))
    ensures Carries(u, s, blob, pk) && (s.Initiator? ==> Keyless(u, blob))
    ensures Name(u, s) in disk
    ensures disk[Name(u, s)] == SessionFile(u.users.Of(s).name, u.users.Of(s.Other()).name, draw.at, me'.state)
  {
    PartyIsSound(u.env.p, h, s, me);
    var r := Encrypt(u.env.p, me.state, plaintext, [], draw.generated);
    SignedIsGenuine(u, s, draw.at, r.1.value, None);
    assert u.env.card(u.users.Of(s.Other()).name).Some?;
    me', pk := EncryptedPacket(u.env.p, s, me, plaintext, draw.generated, r.0, r.1.value);
    disk, blob := SendOutcome(u, x, s, plaintext, draw).0, SendOutcome(u, x, s, plaintext, draw).1.value;
  }

  /** A file just saved holds the session, as every session of the system can be stored. */
  lemma SavedFile(p: Primitives, w: World, s: Side, local: string, remote: string, at: int)
    requires Lawful(p) && Inv(p, w)
    ensures LoadFile(SessionFile(local, remote, at, w.parties.Of(s).state)) == w.parties.Of(s).state
  {
    assert SideOk(p, w, s);
    PartyStorable(p, w.history, s, w.parties.Of(s));
    SaveLoad(local, remote, at, w.parties.Of(s).state);
  }

  lemma NotUsed(w: World, keys: set<Bytes>, pair: KeyPair)
    requires KeysSim(w.history, keys) && pair.publicKey !in keys
    ensures Unused(w, pair)
  {
  }

  /** The send step of the system, seen from outside: one packet more, and at most one key more. */
  lemma SendStepShape(p: Primitives, w: World, s: Side, plaintext: Bytes, generated: KeyPair, keys: set<Bytes>)
    requires w.parties.Of(s).state.sendingChain.Some? ==> w.parties.Of(s).state.currentDHPublicKey.Some?
    requires KeysSim(w.history, keys) && SendBy(p, s, w.parties.Of(s), plaintext, [], generated).1.Ok?
    ensures var w' := SendStep(p, w, s, plaintext, [], generated);
      var (me', r) := SendBy(p, s, w.parties.Of(s), plaintext, [], generated);
      && KeysSim(w'.history, keys + {generated.publicKey})
      && w'.parties == w.parties.With(s, me') && w'.channels == w.channels.With(s, w.channels.Of(s) + [r.value])
      && r.value.plaintext == plaintext && me'.epoch >= w.parties.Of(s).epoch
  {
  }

  /** The channel of the sender after a deposit: longer by the packet when it was accepted, as before otherwise. */
  lemma SentChannel(u: Setup, x: Net, w: World, s: Side, row: Row, pk: Packet, x': Net, w': World, stored: bool)
    requires ChannelSim(u, x, w, s) && x'.clock == x.clock && x'.shown == x.shown
    requires x'.sent.Of(s) == x.sent.Of(s) + [Letter(row.blob, pk.plaintext)]
    requires Carries(u, s, row.blob, pk) && row.expiresAt > x.clock
    requires var m := u.users.Of(s.Other()).mailbox;
      Queue(x'.db, m) == if stored then Queue(x.db, m) + [row] else Queue(x.db, m)
    requires w'.channels.Of(s) == if stored then w.channels.Of(s) + [pk] else w.channels.Of(s)
    ensures ChannelSim(u, x', w', s)
  {
    if stored {
      MoreLive(Queue(x.db, u.users.Of(s.Other()).mailbox), row, x.clock);
      MoreCarried(u, s, Live(u, x, s), w.channels.Of(s), row, pk);
    }
    SentLetters(x.shown.Of(s.Other()), Live(u, x, s), w.channels.Of(s), x.sent.Of(s), row, pk);
  }

  lemma MoreLive(queue: seq<Row>, row: Row, now: int)
    requires row.expiresAt > now
    ensures Keep(queue + [row], Unexpired(now)) == Keep(queue, Unexpired(now)) + [row]
  {
    KeepAppend(queue, [row], Unexpired(now));
    assert Keep([row], Unexpired(now)) == [row];
  }

  lemma MoreCarried(u: Setup, s: Side, rows: seq<Row>, ch: seq<Packet>, row: Row, pk: Packet)
    requires Carried(u, s, rows, ch) && Carries(u, s, row.blob, pk)
    ensures Carried(u, s, rows + [row], ch + [pk])
  {
    forall i | 0 <= i < |rows + [row]| ensures Carries(u, s, (rows + [row])[i].blob, (ch + [pk])[i]) {
      assert i < |ch| ==> Carries(u, s, rows[i].blob, ch[i]);
    }
  }

  lemma SentLetters(shown: seq<Letter>, rows: seq<Row>, ch: seq<Packet>, sent: seq<Letter>, row: Row, pk: Packet)
    requires |rows| == |ch| && Subsequence(shown + Letters(rows, ch), sent)
    ensures var letter := Letter(row.blob, pk.plaintext);
      && Subsequence(shown + Letters(rows, ch), sent + [letter])
      && Subsequence(shown + Letters(rows + [row], ch + [pk]), sent + [letter])
  {
    var letter := Letter(row.blob, pk.plaintext);
    SubsequenceAppend(shown + Letters(rows, ch), sent, letter);
    assert Letters(rows + [row], ch + [pk]) == Letters(rows, ch) + [letter];
    assert shown + Letters(rows + [row], ch + [pk]) == shown + Letters(rows, ch) + [letter];
  }

  /** The side that did not send: its file and what it sent are as before. */
  lemma OtherSide(u: Setup, x: Net, w: World, s: Side, x': Net, w': World)
    requires Sim(u, x, w) && w'.parties.Of(s.Other()) == w.parties.Of(s.Other())
    requires w'.channels.Of(s.Other()) == w.channels.Of(s.Other())
    requires x'.disks.Of(s.Other()) == x.disks.Of(s.Other()) && x'.clock == x.clock && x'.shown == x.shown
    requires x'.sent.Of(s.Other()) == x.sent.Of(s.Other())
    requires Queue(x'.db, u.users.Of(s).mailbox) == Queue(x.db, u.users.Of(s).mailbox)
    ensures ChannelSim(u, x', w', s.Other())
      && (Met(u, x, s.Other()) ==> FileOk(u, x', s.Other(), w'.parties.Of(s.Other())))
  {
    SameLive(u, x, x', w, w', s.Other());
  }

  lemma KeylessAppended(u: Setup, rows: seq<Row>, row: Row)
    requires AllKeyless(u, rows) && Keyless(u, row.blob)
    ensures AllKeyless(u, rows + [row])
  {
  }

  /** The first envelope waits on when a later one is put behind it or lost. */
  lemma FirstWaitsOn(u: Setup, x: Net, pt: Party, x': Net, row: Row, stored: bool)
    requires FirstWaits(u, x, pt) && x'.disks.Of(Responder) == x.disks.Of(Responder) && x'.clock == x.clock
    requires x'.shown == x.shown
    requires x'.sent.Of(Responder) == x.sent.Of(Responder) && Live(u, x', Responder) == Live(u, x, Responder)
    requires Live(u, x', Initiator) == if stored then Live(u, x, Initiator) + [row] else Live(u, x, Initiator)
    requires Keyless(u, row.blob)
    ensures FirstWaits(u, x', pt)
  {
    var live := Live(u, x, Initiator);
    KeylessAppended(u, live[1..], row);
    assert (live + [row])[0] == live[0] && (live + [row])[1..] == live[1..] + [row];
  }

  /** What one run of the send script does to the net, given the packet it encrypts and whether that was stored. */
  ghost predicate SendEffect(u: Setup, x: Net, x': Net, s: Side, pk: Packet, row: Row, stored: bool) {
    && x'.clock == x.clock && x'.shown == x.shown
      && x'.sent == x.sent.With(s, x.sent.Of(s) + [Letter(row.blob, pk.plaintext)])
    && x'.disks.Of(s.Other()) == x.disks.Of(s.Other())
    && Carries(u, s, row.blob, pk) && row.expiresAt > x.clock && ServerOk(u, x'.db)
    && Queue(x'.db, u.users.Of(s).mailbox) == Queue(x.db, u.users.Of(s).mailbox)
    && var m := u.users.Of(s.Other()).mailbox;
       Queue(x'.db, m) == if stored then Queue(x.db, m) + [row] else Queue(x.db, m)
  }

  /** Depositing a blob that carries a packet has the effect of sending that packet, stored or lost. */
  lemma DepositEffect(u: Setup, x: Net, s: Side, x': Net, blob: Bytes, pk: Packet, msgId: Bytes, arrives: bool)
    returns (row: Row, stored: bool)
    requires Proper(u) && ServerOk(u, x.db) && Carries(u, s, blob, pk)
    requires x'.clock == x.clock && x'.shown == x.shown
    requires x'.sent == x.sent.With(s, x.sent.Of(s) + [Letter(blob, pk.plaintext)])
    requires x'.disks.Of(s.Other()) == x.disks.Of(s.Other())
    requires x'.db == if arrives then DepositOutcome(u, x, s, x.clock, msgId, blob).0 else x.db
    ensures SendEffect(u, x, x', s, pk, row, stored) && row.blob == blob
    ensures stored == (arrives && DepositOutcome(u, x, s, x.clock, msgId, blob).1.Deposited?)
  {
    var a, b := u.users.Of(s), u.users.Of(s.Other());
    row := DepositAddsRow(u.server, x.db, x.clock, b, msgId, blob, a.mailbox);
    stored := arrives && DepositOutcome(u, x, s, x.clock, msgId, blob).1.Deposited?;
    if !stored {
      row := Row(0, b.mailbox, [], blob, x.clock, x.clock + 1);
    }
    ElsewhereServerOk(u, x.db, Serve(x.clock, DepositRequest(b, msgId, blob)));
  }

  /** The live rows after a deposit. */
  lemma SentLive(u: Setup, x: Net, x': Net, s: Side, pk: Packet, row: Row, stored: bool)
    requires SendEffect(u, x, x', s, pk, row, stored)
    ensures Live(u, x', s) == if stored then Live(u, x, s) + [row] else Live(u, x, s)
    ensures Live(u, x', s.Other()) == Live(u, x, s.Other())
  {
    if stored {
      MoreLive(Queue(x.db, u.users.Of(s.Other()).mailbox), row, x.clock);
    }
  }

  /** A send run of the net and a send step of the system, lost or not, belong together. */
  lemma SendsTogether(u: Setup, x: Net, w: World, s: Side, x': Net, w': World, pk: Packet, row: Row, stored: bool)
    requires Sim(u, x, w) && SendEffect(u, x, x', s, pk, row, stored)
    requires Inv(u.env.p, w') && KeysSim(w'.history, x'.keys)
    requires w'.parties.Of(s.Other()) == w.parties.Of(s.Other())
    requires w'.channels.Of(s.Other()) == w.channels.Of(s.Other())
    requires w'.channels.Of(s) == if stored then w.channels.Of(s) + [pk] else w.channels.Of(s)
    requires FileOk(u, x', s, w'.parties.Of(s)) && (s.Initiator? ==> Keyless(u, row.blob))
    ensures Sim(u, x', w')
  {
    SentChannel(u, x, w, s, row, pk, x', w', stored);
    OtherSide(u, x, w, s, x', w');
    if s.Initiator? && !Met(u, x, Responder) {
      SentLive(u, x, x', s, pk, row, stored);
      FirstWaitsOn(u, x, w.parties.responder, x', row, stored);
    }
  }

  lemma DepositKeepsSim(u: Setup, x: Net, w: World, s: Side, plaintext: Bytes, draw: Draw, arrives: bool, w': World,
                        pk: Packet, disk: Disk, blob: Bytes, stored: bool)
    requires Proper(u) && Sim(u, x, w) && Inv(u.env.p, w') && KeysSim(w'.history, x.keys + {draw.generated.publicKey})
    requires w'.parties.Of(s.Other()) == w.parties.Of(s.Other())
    requires w'.channels.Of(s.Other()) == w.channels.Of(s.Other())
    requires w'.channels.Of(s) == if stored then w.channels.Of(s) + [pk] else w.channels.Of(s)
    requires stored == (arrives && DepositOutcome(u, x, s, x.clock, draw.msgId, blob).1.Deposited?)
    requires Carries(u, s, blob, pk) && pk.plaintext == plaintext && (s.Initiator? ==> Keyless(u, blob))
    requires Name(u, s) in disk && LoadFile(disk[Name(u, s)]) == w'.parties.Of(s).state
      && (s.Responder? ==> w'.parties.Of(s).epoch > 0)
    ensures Sim(u, WithDeposit(u, x, s, x.clock, plaintext, draw, arrives, disk, Some(blob)), w')
  {
    var x' := WithDeposit(u, x, s, x.clock, plaintext, draw, arrives, disk, Some(blob));
    var row, accepted := DepositEffect(u, x, s, x', blob, pk, draw.msgId, arrives);
    SendsTogether(u, x, w, s, x', w', pk, row, stored);
  }

  lemma PartyOf(u: Setup, x: Net, w: World, s: Side)
    requires Sim(u, x, w) && Met(u, x, s)
    ensures FileOk(u, x, s, w.parties.Of(s)) && PartyOk(u.env.p, w.history, s, w.parties.Of(s))
  {
    assert SideOk(u.env.p, w, s);
  }

  lemma SendKeepsSim(u: Setup, x: Net, w: World, s: Side, plaintext: Bytes, draw: Draw, arrives: bool)
      returns (w': World)
    requires Proper(u) && Sim(u, x, w) && Met(u, x, s)
    requires ValidPair(u.env.p, draw.generated) && draw.generated.publicKey !in x.keys
    ensures Sim(u, AfterSend(u, x, s, x.clock, plaintext, draw, arrives), w')
  {
    var me := w.parties.Of(s);
    PartyOf(u, x, w, s);
    var me', pk, disk, blob := SendResult(u, x, s, w.history, me, plaintext, draw);
    var stored := arrives && DepositOutcome(u, x, s, x.clock, draw.msgId, blob).1.Deposited?;
    w' := SendWorld(u, x, w, s, plaintext, draw, me', pk, stored);
    SavedFile(u.env.p, w', s, u.users.Of(s).name, u.users.Of(s.Other()).name, draw.at);
    DepositKeepsSim(u, x, w, s, plaintext, draw, arrives, w', pk, disk, blob, stored);
  }

  lemma SendWorld(u: Setup, x: Net, w: World, s: Side, plaintext: Bytes, draw: Draw, me': Party, pk: Packet,
                  stored: bool)
    returns (w': World)
    requires Proper(u) && Sim(u, x, w) && Met(u, x, s)
    requires ValidPair(u.env.p, draw.generated) && draw.generated.publicKey !in x.keys
    requires w.parties.Of(s).state.sendingChain.Some? ==> w.parties.Of(s).state.currentDHPublicKey.Some?
    requires SendBy(u.env.p, s, w.parties.Of(s), plaintext, [], draw.generated) == (me', Ok(pk))
    ensures Inv(u.env.p, w') && KeysSim(w'.history, x.keys + {draw.generated.publicKey})
    ensures w'.parties == w.parties.With(s, me') && w'.channels.Of(s.Other()) == w.channels.Of(s.Other())
    ensures w'.channels.Of(s) == (if stored then w.channels.Of(s) + [pk] else w.channels.Of(s))
    ensures pk.plaintext == plaintext && me'.epoch >= w.parties.Of(s).epoch
  {
    var p := u.env.p;
    PartyOf(u, x, w, s);
    NotUsed(w, x.keys, draw.generated);
    SendStepShape(p, w, s, plaintext, draw.generated, x.keys);
    SendKeepsInv(p, w, s, plaintext, [], draw.generated);
    w' := SentOrLost(p, SendStep(p, w, s, plaintext, [], draw.generated), s, w.channels.Of(s), pk, stored);
  }

  lemma SentOrLost(p: Primitives, w: World, s: Side, ch: seq<Packet>, pk: Packet, stored: bool) returns (w': World)
    requires Inv(p, w) && w.channels.Of(s) == ch + [pk]
    ensures Inv(p, w') && w' == w.(channels := w'.channels) && w'.channels.Of(s.Other()) == w.channels.Of(s.Other())
    ensures w'.channels.Of(s) == if stored then ch + [pk] else ch
  {
    SubsequenceSelf(ch);
    SubsequenceAppend(ch, ch, pk);
    w' := if stored then w else w.(channels := w.channels.With(s, ch));
    if !stored {
      SparserInv(p, w, s, ch);
    }
  }

  // ---------------------------------------------------------------- the first message

  /** The system in which both sessions have just been agreed. */
  function FirstWorld(u: Setup, draw: Draw): World {
    Agreed(u.env.p, u.env.sha256, u.users.initiator.identity, u.users.responder.identity, draw.ephemeral,
      draw.ephemeral, draw.generated)
  }

  /** The session the first run makes is that of the agreed system. */
  lemma FirstSessionIs(u: Setup, x: Net, draw: Draw)
    requires Proper(u) && Quiet(u, x)
    ensures !Met(u, x, Initiator) && u.env.card(u.users.responder.name).Some?
    ensures u.env.card(u.users.initiator.name).Some?
    ensures FirstSession(u.env, u.users.initiator, u.env.card(u.users.responder.name).value, draw)
      == FirstWorld(u, draw).parties.initiator.state
    ensures ResponderSession(u.env, u.users.responder, u.env.card(u.users.initiator.name).value,
      draw.ephemeral.publicKey)
      == FirstWorld(u, draw).parties.responder.state
  {
    var a, b := u.users.Of(Initiator), u.users.Of(Responder);
    assert !Met(u, x, Initiator) && u.env.card(b.name).Some?
      && u.env.card(b.name).value.identity == b.identity.publicKey;
    assert u.env.card(a.name).Some? && u.env.card(a.name).value.identity == a.identity.publicKey;
  }

  lemma FirstEncrypts(u: Setup, plaintext: Bytes, draw: Draw) returns (after: State, m: Message)
    requires Proper(u)
    ensures Sound(FirstWorld(u, draw).parties.initiator.state)
    ensures Encrypt(u.env.p, FirstWorld(u, draw).parties.initiator.state, plaintext, [], draw.generated)
      == (after, Ok(m))
  {
    var r := Encrypt(u.env.p, FirstWorld(u, draw).parties.initiator.state, plaintext, [], draw.generated);
    after, m := r.0, r.1.value;
  }

  /** The envelope of the first run. */
  function FirstEnvelope(u: Setup, draw: Draw, m: Message): Envelope {
    Sign(u.env, u.users.initiator, u.users.responder.name, draw.at, m, Some(draw.ephemeral.publicKey))
  }

  lemma FirstOutcome(u: Setup, x: Net, plaintext: Bytes, draw: Draw, st: State, after: State, m: Message)
      returns (disk: Disk)
    requires !Met(u, x, Initiator) && u.env.card(u.users.responder.name).Some? && Sound(st)
    requires FirstSession(u.env, u.users.initiator, u.env.card(u.users.responder.name).value, draw) == st
    requires Encrypt(u.env.p, st, plaintext, [], draw.generated) == (after, Ok(m))
    ensures SendOutcome(u, x, Initiator, plaintext, draw)
      == (disk, Some(u.env.render(EnvelopeJson(FirstEnvelope(u, draw, m)))))
    ensures Name(u, Initiator) in disk
    ensures disk[Name(u, Initiator)] == SessionFile(u.users.initiator.name, u.users.responder.name, draw.at, after)
  {
    disk := SendOutcome(u, x, Initiator, plaintext, draw).0;
  }

  /** What the first envelope is to its reader. */
  lemma FirstEnvelopeIs(u: Setup, draw: Draw, pk: Packet)
    requires Proper(u) && pk.associatedData == [] && u.env.card(u.users.initiator.name).Some?
    requires ResponderSession(u.env, u.users.responder, u.env.card(u.users.initiator.name).value,
      draw.ephemeral.publicKey)
      == FirstWorld(u, draw).parties.responder.state
    ensures var blob := u.env.render(EnvelopeJson(FirstEnvelope(u, draw, pk.message)));
      Carries(u, Initiator, blob, pk) && Introduces(u, blob, FirstWorld(u, draw).parties.responder.state)
  {
    SignedIsGenuine(u, Initiator, draw.at, pk.message, Some(draw.ephemeral.publicKey));
  }

  /** The first run of the send script makes the initiator's session and sends with it. */
  lemma FirstSendResult(u: Setup, x: Net, plaintext: Bytes, draw: Draw)
      returns (me': Party, pk: Packet, disk: Disk, blob: Bytes)
    requires Proper(u) && Quiet(u, x)
    ensures SendBy(u.env.p, Initiator, FirstWorld(u, draw).parties.initiator, plaintext, [], draw.generated)
      == (me', Ok(pk))
    ensures SendOutcome(u, x, Initiator, plaintext, draw) == (disk, Some(blob))
    ensures Carries(u, Initiator, blob, pk) && Introduces(u, blob, FirstWorld(u, draw).parties.responder.state)
    ensures Name(u, Initiator) in disk
    ensures disk[Name(u, Initiator)] == SessionFile(u.users.initiator.name, u.users.responder.name, draw.at, me'.state)
  {
    FirstSessionIs(u, x, draw);
    var after, m := FirstEncrypts(u, plaintext, draw);
    var me := FirstWorld(u, draw).parties.initiator;
    me', pk := EncryptedPacket(u.env.p, Initiator, me, plaintext, draw.generated, after, m);
    disk := FirstOutcome(u, x, plaintext, draw, me.state, after, m);
    blob := u.env.render(EnvelopeJson(FirstEnvelope(u, draw, m)));
    FirstEnvelopeIs(u, draw, pk);
  }

  lemma FirstWorldShape(u: Setup, keys: set<Bytes>, draw: Draw)
    requires Proper(u) && ValidPair(u.env.p, draw.generated) && ValidPair(u.env.p, draw.ephemeral)
    requires u.users.responder.identity.publicKey in keys && draw.generated.publicKey !in keys
    ensures var w0 := FirstWorld(u, draw);
      && Inv(u.env.p, w0) && KeysSim(w0.history, keys + {draw.generated.publicKey}) && w0.channels == Both([], [])
      && w0.parties.initiator.state.sendingChain.Some? && w0.parties.initiator.state.currentDHPublicKey.Some?
  {
    var a, b := u.users.Of(Initiator), u.users.Of(Responder);
    assert ValidPair(u.env.p, a.identity) && ValidPair(u.env.p, b.identity);
    SessionsStartInSync(u.env.p, u.env.sha256, a.identity, b.identity, draw.ephemeral, draw.ephemeral, draw.generated);
  }

  /** The system after the first message. */
  lemma FirstSendWorld(u: Setup, keys: set<Bytes>, plaintext: Bytes, draw: Draw, me': Party, pk: Packet)
      returns (w: World)
    requires Proper(u) && ValidPair(u.env.p, draw.generated) && ValidPair(u.env.p, draw.ephemeral)
    requires u.users.responder.identity.publicKey in keys && draw.generated.publicKey !in keys
    requires SendBy(u.env.p, Initiator, FirstWorld(u, draw).parties.initiator, plaintext, [], draw.generated)
      == (me', Ok(pk))
    ensures Inv(u.env.p, w) && KeysSim(w.history, keys + {draw.generated.publicKey})
    ensures w.parties == FirstWorld(u, draw).parties.With(Initiator, me') && w.history == FirstWorld(u, draw).history
    ensures w.channels == Both([pk], []) && FirstWorld(u, draw).channels == Both([], []) && pk.plaintext == plaintext
  {
    var w0, known := FirstWorld(u, draw), keys + {draw.generated.publicKey};
    FirstWorldShape(u, keys, draw);
    SendStepShape(u.env.p, w0, Initiator, plaintext, draw.generated, known);
    assert known + {draw.generated.publicKey} == known;
    SendKeepsInv(u.env.p, w0, Initiator, plaintext, [], draw.generated);
    w := SendStep(u.env.p, w0, Initiator, plaintext, [], draw.generated);
    assert [] + [pk] == [pk];
  }

  /** The run that sends the first message, accepted by the server, starts the system. */
  lemma FirstSendStarts(u: Setup, x: Net, plaintext: Bytes, draw: Draw) returns (w: World)
    requires Proper(u) && Quiet(u, x)
    requires ValidPair(u.env.p, draw.generated) && ValidPair(u.env.p, draw.ephemeral)
    requires draw.generated.publicKey !in x.keys
    requires var blob := SendOutcome(u, x, Initiator, plaintext, draw).1;
      blob.Some? ==> DepositOutcome(u, x, Initiator, x.clock, draw.msgId, blob.value).1.Deposited?
    ensures Sim(u, AfterSend(u, x, Initiator, x.clock, plaintext, draw, true), w)
    ensures w.history == FirstWorld(u, draw).history
  {
    var me', pk, disk, blob := FirstSendResult(u, x, plaintext, draw);
    w := FirstSendWorld(u, x.keys, plaintext, draw, me', pk);
    SavedFile(u.env.p, w, Initiator, u.users.initiator.name, u.users.responder.name, draw.at);
    FirstDepositStarts(u, x, plaintext, draw, FirstWorld(u, draw), w, pk, disk, blob);
  }

  lemma FirstDepositStarts(u: Setup, x: Net, plaintext: Bytes, draw: Draw, w0: World, w: World, pk: Packet,
                           disk: Disk, blob: Bytes)
    requires Proper(u) && Quiet(u, x) && Inv(u.env.p, w) && KeysSim(w.history, x.keys + {draw.generated.publicKey})
    requires w0.channels == Both([], []) && w.channels == Both([pk], []) && pk.plaintext == plaintext
    requires Carries(u, Initiator, blob, pk) && Introduces(u, blob, w.parties.responder.state)
    requires Name(u, Initiator) in disk && LoadFile(disk[Name(u, Initiator)]) == w.parties.initiator.state
    requires DepositOutcome(u, x, Initiator, x.clock, draw.msgId, blob).1.Deposited?
    ensures Sim(u, WithDeposit(u, x, Initiator, x.clock, plaintext, draw, true, disk, Some(blob)), w)
  {
    var x' := WithDeposit(u, x, Initiator, x.clock, plaintext, draw, true, disk, Some(blob));
    var row, stored := DepositEffect(u, x, Initiator, x', blob, pk, draw.msgId, true);
    FirstChannels(u, x, w0, w, x', pk, row);
    QuietIsSilent(u, x, x');
    FirstSim(u, x, x', w, row);
  }

  lemma FirstSim(u: Setup, x: Net, x': Net, w: World, row: Row)
    requires Inv(u.env.p, w) && ServerOk(u, x'.db) && KeysSim(w.history, x'.keys)
    requires FileOk(u, x', Initiator, w.parties.initiator)
    requires Silent(u, x') && Live(u, x', Initiator) == [row] && Introduces(u, row.blob, w.parties.responder.state)
    requires ChannelSim(u, x', w, Initiator) && ChannelSim(u, x', w, Responder)
    ensures Sim(u, x', w)
  {
    assert FirstWaits(u, x', w.parties.responder);
  }

  lemma QuietIsSilent(u: Setup, x: Net, x': Net)
    requires Quiet(u, x) && x'.shown == x.shown && x'.disks.Of(Responder) == x.disks.Of(Responder)
    requires x'.sent.Of(Responder) == x.sent.Of(Responder) && Live(u, x', Responder) == []
    ensures Silent(u, x')
  {
    assert !Met(u, x, Responder) && x.sent.Of(Responder) == [];
    assert x.shown.Of(Initiator) == [] && x.shown.Of(Responder) == [];
  }

  lemma FirstChannels(u: Setup, x: Net, w0: World, w: World, x': Net, pk: Packet, row: Row)
    requires Quiet(u, x) && w0.channels == Both([], []) && SendEffect(u, x, x', Initiator, pk, row, true)
    requires w.channels == Both([pk], [])
    ensures ChannelSim(u, x', w, Initiator) && ChannelSim(u, x', w, Responder)
    ensures Live(u, x', Initiator) == [row] && Live(u, x', Responder) == []
  {
    forall s: Side ensures ChannelSim(u, x, w0, s) {
      var m := u.users.Of(s.Other()).mailbox;
      assert Queue(x.db, m) == [] && x.sent.Of(s) == [] && x.shown.Of(s.Other()) == [];
      SubsequenceSelf<Letter>([]);
      assert x.shown.Of(s.Other()) + Letters(Live(u, x, s), w0.channels.Of(s)) == [];
    }
    assert [] + [pk] == [pk];
    assert Queue(x.db, u.users.Of(Responder).mailbox) == [] && Queue(x.db, u.users.Of(Initiator).mailbox) == [];
    SentChannel(u, x, w0, Initiator, row, pk, x', w, true);
    SentLive(u, x, x', Initiator, pk, row, true);
    SameLive(u, x, x', w0, w, Responder);
  }

  // ---------------------------------------------------------------- receiving

  /** The loop's record of the session agrees with the side's session. */
  predicate InboxHolds(u: Setup, to: Side, st: Inbox, pt: Party) {
    && Name(u, to) in st.cache && st.cache[Name(u, to)] == pt.state
    && Name(u, to) in st.disk && LoadFile(st.disk[Name(u, to)]) == pt.state && pt.epoch > 0
  }

  /** The session the loop would use for a blob is the side's session. */
  predicate Ready(u: Setup, to: Side, st: Inbox, blob: Bytes, pt: Party) {
    var e := ReadBlob(u.env, blob);
    e.Some? && Genuine(u.env, blob)
      && SessionFor(u.env, u.users.Of(to), st.disk, st.cache, e.value) == Some(pt.state)
  }

  /** One round of the loop on a message that the session decrypts. */
  lemma ReadOneScript(u: Setup, to: Side, pt: Party, pk: Packet, st: Inbox, msg: PollMsg, at: int, after: State,
                      text: Bytes)
    requires Carries(u, to.Other(), msg.blob, pk) && Ready(u, to, st, msg.blob, pt) && Sound(pt.state)
    requires Decrypt(u.env.p, pt.state, pk.message, []) == (after, Ok(text))
    ensures var st' := ReceiveOne(u.env, u.users.Of(to), st, msg, at);
      && st'.msgIds == st.msgIds + [msg.msgId] && st'.shown == st.shown + [Letter(msg.blob, text)]
      && Name(u, to) in st'.cache && st'.cache[Name(u, to)] == after
      && Name(u, to) in st'.disk
      && st'.disk[Name(u, to)] == SessionFile(u.users.Of(to).name, u.users.Of(to.Other()).name, at, after)
  {
  }

  lemma DeliverFacts(p: Primitives, w: World, to: Side)
    requires Lawful(p) && Inv(p, w) && w.channels.Of(to.Other()) != []
    requires w.channels.Of(to.Other())[0].associatedData == []
    ensures Sound(w.parties.Of(to).state)
    ensures var w', pk := DeliverStep(p, w, to), w.channels.Of(to.Other())[0];
      && Inv(p, w') && w'.parties.Of(to).epoch > 0
      && Decrypt(p, w.parties.Of(to).state, pk.message, []) == (w'.parties.Of(to).state, Ok(pk.plaintext))
  {
    assert SideOk(p, w, to);
    PartyIsSound(p, w.history, to, w.parties.Of(to));
    DeliverKeepsInv(p, w, to);
    var w' := DeliverStep(p, w, to);
    assert SideOk(p, w', to) && w'.delivered[|w.delivered|].outcome == Ok(w.channels.Of(to.Other())[0].plaintext);
  }

  function Ids(messages: seq<PollMsg>): (r: seq<string>)
    ensures |r| == |messages|
  {
    seq(|messages|, i requires 0 <= i < |messages| => messages[i].msgId)
  }

  /** The plaintexts of packets, each with the message of the page that carries it. */
  function Opened(messages: seq<PollMsg>, ch: seq<Packet>): (ls: seq<Letter>)
    requires |messages| <= |ch|
    ensures |ls| == |messages|
  {
    seq(|messages|, i requires 0 <= i < |messages| => Letter(messages[i].blob, ch[i].plaintext))
  }

  /** The messages of a page carry the oldest packets of a channel. */
  predicate PageCarried(u: Setup, from: Side, messages: seq<PollMsg>, ch: seq<Packet>) {
    |messages| <= |ch| && forall i | 0 <= i < |messages| :: Carries(u, from, messages[i].blob, ch[i])
  }

  /** A side has decrypted the packet. */
  predicate HasRead(pt: Party, pk: Packet) {
    (pk.epoch, pk.number) in pt.decrypted
  }

  predicate HasReadAll(pt: Party, pks: seq<Packet>) {
    forall i {:trigger HasRead(pt, pks[i])} | 0 <= i < |pks| :: HasRead(pt, pks[i])
  }

  /** What has been read of a channel from w to w'. */
  predicate ReadUpTo(w: World, to: Side, n: nat, w': World) {
    && n <= |w.channels.Of(to.Other())|
    && w.parties.Of(to).decrypted <= w'.parties.Of(to).decrypted
    && HasReadAll(w'.parties.Of(to), w.channels.Of(to.Other())[..n])
    && w' == w.(parties := w.parties.With(to, w'.parties.Of(to)),
                channels := w.channels.With(to.Other(), w.channels.Of(to.Other())[n..]), delivered := w'.delivered)
  }

  /** Delivering the oldest packet is reading it. */
  lemma DeliveryReads(p: Primitives, w: World, to: Side)
    requires w.channels.Of(to.Other()) != [] && w.parties.Of(to).state.Valid()
    requires var pk := w.channels.Of(to.Other())[0];
      Decrypt(p, w.parties.Of(to).state, pk.message, pk.associatedData).1.Ok?
    ensures ReadUpTo(w, to, 1, DeliverStep(p, w, to))
  {
    var ch, w' := w.channels.Of(to.Other()), DeliverStep(p, w, to);
    assert ch[..1] == [ch[0]] && HasRead(w'.parties.Of(to), ch[0]);
  }

  /** One round of the loop on a blob that carries the oldest packet is one delivery. */
  lemma ReadOne(u: Setup, to: Side, w: World, st: Inbox, msg: PollMsg, at: int) returns (w': World, st': Inbox)
    requires Proper(u) && Inv(u.env.p, w) && w.channels.Of(to.Other()) != []
    requires Carries(u, to.Other(), msg.blob, w.channels.Of(to.Other())[0])
    requires Ready(u, to, st, msg.blob, w.parties.Of(to))
    ensures Inv(u.env.p, w') && ReadUpTo(w, to, 1, w')
    ensures st' == ReceiveOne(u.env, u.users.Of(to), st, msg, at) && InboxHolds(u, to, st', w'.parties.Of(to))
    ensures st'.msgIds == st.msgIds + [msg.msgId]
    ensures st'.shown == st.shown + [Letter(msg.blob, w.channels.Of(to.Other())[0].plaintext)]
  {
    DeliverFacts(u.env.p, w, to);
    var pk := w.channels.Of(to.Other())[0];
    w', st' := DeliverStep(u.env.p, w, to), ReceiveOne(u.env, u.users.Of(to), st, msg, at);
    ReadOneScript(u, to, w.parties.Of(to), pk, st, msg, at, w'.parties.Of(to).state, pk.plaintext);
    DeliveryReads(u.env.p, w, to);
    SavedFile(u.env.p, w', to, u.users.Of(to).name, u.users.Of(to.Other()).name, at);
  }

  lemma ReadyAgain(u: Setup, to: Side, st: Inbox, pt: Party, blob: Bytes, pk: Packet)
    requires InboxHolds(u, to, st, pt) && Carries(u, to.Other(), blob, pk)
    ensures Ready(u, to, st, blob, pt)
  {
  }

  lemma ReadUpToOneMore(w: World, to: Side, w1: World, n: nat, w': World)
    requires ReadUpTo(w, to, 1, w1) && ReadUpTo(w1, to, n, w')
    ensures ReadUpTo(w, to, n + 1, w')
  {
    var ch := w.channels.Of(to.Other());
    assert ch[1..][n..] == ch[n + 1..];
    forall i {:trigger HasRead(w'.parties.Of(to), ch[..n + 1][i])} | 0 <= i < n + 1
      ensures HasRead(w'.parties.Of(to), ch[..n + 1][i])
    {
      assert i == 0 ==> HasRead(w1.parties.Of(to), ch[..1][0]);
      assert i > 0 ==> HasRead(w'.parties.Of(to), ch[1..][..n][i - 1]);
    }
  }

  lemma PageCarriedTail(u: Setup, from: Side, messages: seq<PollMsg>, ch: seq<Packet>)
    requires PageCarried(u, from, messages, ch) && messages != []
    ensures Carries(u, from, messages[0].blob, ch[0]) && PageCarried(u, from, messages[1..], ch[1..])
    ensures |messages| > 1 ==> Carries(u, from, messages[1].blob, ch[1])
  {
    forall i | 0 <= i < |messages[1..]| ensures Carries(u, from, messages[1..][i].blob, ch[1..][i]) {
      assert Carries(u, from, messages[i + 1].blob, ch[i + 1]);
    }
  }

  lemma RestIsReady(u: Setup, to: Side, messages: seq<PollMsg>, ch: seq<Packet>, st1: Inbox, pt: Party)
    requires messages != [] && PageCarried(u, to.Other(), messages, ch) && InboxHolds(u, to, st1, pt)
    ensures PageCarried(u, to.Other(), messages[1..], ch[1..])
    ensures |messages| > 1 ==> Ready(u, to, st1, messages[1].blob, pt)
  {
    PageCarriedTail(u, to.Other(), messages, ch);
    if |messages| > 1 {
      ReadyAgain(u, to, st1, pt, messages[1].blob, ch[1]);
    }
  }

  /** The first round of the loop on a page. */
  lemma ReadFirst(u: Setup, to: Side, w: World, st: Inbox, messages: seq<PollMsg>, at: int)
      returns (w1: World, st1: Inbox)
    requires Proper(u) && Inv(u.env.p, w) && messages != []
    requires PageCarried(u, to.Other(), messages, w.channels.Of(to.Other()))
    requires Ready(u, to, st, messages[0].blob, w.parties.Of(to))
    ensures Inv(u.env.p, w1) && ReadUpTo(w, to, 1, w1) && InboxHolds(u, to, st1, w1.parties.Of(to))
    ensures st1.msgIds == st.msgIds + [messages[0].msgId]
    ensures st1.shown == st.shown + [Letter(messages[0].blob, w.channels.Of(to.Other())[0].plaintext)]
    ensures ReceiveLoop(u.env, u.users.Of(to), st, messages, at)
      == ReceiveLoop(u.env, u.users.Of(to), st1, messages[1..], at)
    ensures PageCarried(u, to.Other(), messages[1..], w1.channels.Of(to.Other()))
    ensures |messages| > 1 ==> Ready(u, to, st1, messages[1].blob, w1.parties.Of(to))
  {
    var ch := w.channels.Of(to.Other());
    assert Carries(u, to.Other(), messages[0].blob, ch[0]);
    w1, st1 := ReadOne(u, to, w, st, messages[0], at);
    RestIsReady(u, to, messages, ch, st1, w1.parties.Of(to));
  }

  /** What reading a page comes to: its ids to acknowledge, its texts shown, the session moved on. */
  predicate PageRead(u: Setup, to: Side, w: World, st: Inbox, messages: seq<PollMsg>, w': World, st': Inbox) {
    && ReadUpTo(w, to, |messages|, w')
    && st'.msgIds == st.msgIds + Ids(messages)
    && st'.shown == st.shown + Opened(messages, w.channels.Of(to.Other()))
    && (messages == [] ==> st' == st && w' == w)
    && (messages != [] ==> InboxHolds(u, to, st', w'.parties.Of(to)))
  }

  lemma PageReadOneMore(u: Setup, to: Side, w: World, st: Inbox, messages: seq<PollMsg>, w1: World, st1: Inbox,
                        w': World, st': Inbox)
    requires messages != [] && ReadUpTo(w, to, 1, w1) && InboxHolds(u, to, st1, w1.parties.Of(to))
    requires st1.msgIds == st.msgIds + [messages[0].msgId]
    requires st1.shown == st.shown + [Letter(messages[0].blob, w.channels.Of(to.Other())[0].plaintext)]
    requires PageRead(u, to, w1, st1, messages[1..], w', st')
    ensures PageRead(u, to, w, st, messages, w', st')
  {
    var ch, n := w.channels.Of(to.Other()), |messages|;
    ReadUpToOneMore(w, to, w1, n - 1, w');
    assert [messages[0].msgId] + Ids(messages[1..]) == Ids(messages);
    assert w1.channels.Of(to.Other()) == ch[1..];
    assert [Letter(messages[0].blob, ch[0].plaintext)] + Opened(messages[1..], ch[1..]) == Opened(messages, ch);
  }

  lemma NothingRead(u: Setup, to: Side, w: World, st: Inbox)
    ensures PageRead(u, to, w, st, [], w, st)
  {
    assert w.channels.Of(to.Other())[0..] == w.channels.Of(to.Other());
  }

  /**
   * Reading a page is delivering its packets, one by one and in order; every one is decrypted and will
   * be acknowledged.
   */
  lemma {:induction false} ReadAll(u: Setup, to: Side, w: World, st: Inbox, messages: seq<PollMsg>, at: int)
    returns (w': World, st': Inbox)
    requires Proper(u) && Inv(u.env.p, w) && PageCarried(u, to.Other(), messages, w.channels.Of(to.Other()))
    requires messages != [] ==> Ready(u, to, st, messages[0].blob, w.parties.Of(to))
    ensures st' == ReceiveLoop(u.env, u.users.Of(to), st, messages, at)
    ensures Inv(u.env.p, w') && PageRead(u, to, w, st, messages, w', st')
    decreases |messages|
  {
    if messages == [] {
      w', st' := w, st;
      NothingRead(u, to, w, st);
    } else {
      var w1, st1 := ReadFirst(u, to, w, st, messages, at);
      w', st' := ReadAll(u, to, w1, st1, messages[1..], at);
      PageReadOneMore(u, to, w, st, messages, w1, st1, w', st');
    }
  }

  // ---------------------------------------------------------------- pages and acknowledgements

  lemma PageIsLive(c: Config, db: Db, mailbox: Bytes, now: int, limit: int)
    requires DbOk(c, db)
    ensures PageRows(db, mailbox, 0, now, limit) == Take(Keep(Queue(db, mailbox), Unexpired(now)), limit)
  {
    forall r | r in Queue(db, mailbox) ensures Mailbox.After(0, now)(r) == Unexpired(now)(r) {
      KeepMember(db.messages, InMailbox(mailbox), r);
      var i :| 0 <= i < |db.messages| && db.messages[i] == r;
      assert RowOk(c, db.messages[i], db.lastId);
    }
    KeepAgrees(Queue(db, mailbox), Mailbox.After(0, now), Unexpired(now));
  }

  lemma ListedFirst(id: Bytes, more: seq<string>)
    ensures Listed([Encode(id)] + more) == {id} + Listed(more)
  {
    DecodeEncode(id);
    assert ([Encode(id)] + more)[1..] == more;
  }

  predicate HasIdBefore(rows: seq<Row>, n: nat, id: Bytes)
    requires n <= |rows|
  {
    exists i | 0 <= i < n :: rows[i].msgId == id
  }

  lemma HasIdFirst(rows: seq<Row>, n: nat, id: Bytes)
    requires 0 < n <= |rows|
    ensures HasIdBefore(rows, n, id) <==> rows[0].msgId == id || HasIdBefore(rows[1..], n - 1, id)
  {
    assert forall i | 1 <= i < n :: rows[i] == rows[1..][i - 1];
  }

  lemma {:induction false} ListedShown(rows: seq<Row>, n: nat, id: Bytes)
    requires n <= |rows|
    ensures id in Listed(Ids(ShownAll(rows[..n]))) <==> HasIdBefore(rows, n, id)
    decreases n
  {
    if n == 0 {
    } else {
      var more := Ids(ShownAll(rows[1..][..n - 1]));
      ListedShown(rows[1..], n - 1, id);
      ListedFirst(rows[0].msgId, more);
      HasIdFirst(rows, n, id);
      assert Ids(ShownAll(rows[..n])) == [Encode(rows[0].msgId)] + more;
    }
  }

  lemma {:induction false} KeepTail(rows: seq<Row>, n: nat, f: Row -> bool)
    requires n <= |rows| && forall i | 0 <= i < |rows| :: f(rows[i]) == (i >= n)
    ensures Keep(rows, f) == rows[n..]
  {
    if rows == [] {
    } else {
      assert f(rows[0]) == (0 >= n);
      assert forall i | 0 <= i < |rows[1..]| :: rows[1..][i] == rows[i + 1];
      KeepTail(rows[1..], if n > 0 then n - 1 else 0, f);
    }
  }

  /** The rows of a mailbox that have not expired, in order, with different message ids. */
  lemma LiveRows(c: Config, db: Db, mailbox: Bytes, now: int)
    requires DbOk(c, db)
    ensures var live := Keep(Queue(db, mailbox), Unexpired(now));
      && (forall i | 0 <= i < |live| :: live[i].mailbox == mailbox)
      && (forall i, j | 0 <= i < j < |live| :: live[i].msgId != live[j].msgId)
  {
    var live := Keep(Queue(db, mailbox), Unexpired(now));
    KeepRowsOk(c, db.messages, db.lastId, InMailbox(mailbox));
    KeepRowsOk(c, Queue(db, mailbox), db.lastId, Unexpired(now));
    forall i | 0 <= i < |live| ensures live[i].mailbox == mailbox {
      KeepMember(Queue(db, mailbox), Unexpired(now), live[i]);
      KeepMember(db.messages, InMailbox(mailbox), live[i]);
    }
    forall i, j | 0 <= i < j < |live| ensures live[i].msgId != live[j].msgId {
      assert Distinguished(live[i], live[j]);
    }
  }

  /** Acknowledging the first n live rows leaves the others, in their order. */
  lemma AckedRows(c: Config, db: Db, mailbox: Bytes, now: int, n: nat)
    requires DbOk(c, db) && n <= |Keep(Queue(db, mailbox), Unexpired(now))|
    ensures var live := Keep(Queue(db, mailbox), Unexpired(now));
      var db' := AckLoop(db, mailbox, Ids(ShownAll(live[..n])), 0).0;
      && Keep(Queue(db', mailbox), Unexpired(now)) == live[n..]
      && (forall other | other != mailbox :: Queue(db', other) == Queue(db, other))
  {
    var queue := Queue(db, mailbox);
    var live := Keep(queue, Unexpired(now));
    var ids := Listed(Ids(ShownAll(live[..n])));
    var f := NotListed(mailbox, ids);
    AckDeletesListed(db, mailbox, Ids(ShownAll(live[..n])), 0);
    KeepCommutes(db.messages, f, InMailbox(mailbox));
    KeepCommutes(queue, f, Unexpired(now));
    LiveRows(c, db, mailbox, now);
    forall i | 0 <= i < |live| ensures f(live[i]) == (i >= n) {
      ListedShown(live, n, live[i].msgId);
    }
    KeepTail(live, n, f);
    forall other | other != mailbox ensures Queue(db.(messages := Keep(db.messages, f)), other) == Queue(db, other) {
      DeletionIsLocal(db, mailbox, ids, other);
    }
  }

  lemma ShownDecode(rows: seq<Row>)
    ensures AllDecode(Ids(ShownAll(rows)))
  {
    forall i | 0 <= i < |rows| ensures Decode(Ids(ShownAll(rows))[i]).Some? {
      DecodeEncode(rows[i].msgId);
    }
  }

  // ---------------------------------------------------------------- a run of the receive script

  /** The poll shows the oldest live rows. */
  lemma PageOf(u: Setup, x: Net, to: Side)
    requires Proper(u) && ServerOk(u, x.db)
    ensures var live, page := Live(u, x, to.Other()), PageFor(u, x, to, x.clock);
      && page.Page? && |page.messages| <= |live| && |page.messages| <= 2000
      && page.messages == ShownAll(live[..|page.messages|])
      && (live != [] ==> page.messages != [])
      && (|live| <= Limit(u.server, None) ==> |page.messages| == |live|)
  {
    PageIsLive(u.server, x.db, u.users.Of(to).mailbox, x.clock, Limit(u.server, None));
    assert OwnerError(u.server, x.db, u.users.Of(to).mailbox, PollAuth(u.users.Of(to))).None?;
    var live, rows := Live(u, x, to.Other()), Take(Live(u, x, to.Other()), Limit(u.server, None));
    assert rows == live[..|rows|];
  }

  /** The loop starts with the side's session: from its file, or made from the first envelope. */
  lemma StartsReady(u: Setup, x: Net, w: World, to: Side)
    requires Sim(u, x, w) && Live(u, x, to.Other()) != []
    ensures Ready(u, to, Inbox(x.disks.Of(to), map[], [], []), Live(u, x, to.Other())[0].blob, w.parties.Of(to))
  {
    var live, ch := Live(u, x, to.Other()), w.channels.Of(to.Other());
    assert ChannelSim(u, x, w, to.Other());
    assert Carries(u, to.Other(), live[0].blob, ch[0]);
    if !Met(u, x, to) {
      assert to == Responder && FirstWaits(u, x, w.parties.responder);
    }
  }

  lemma PageCarries(u: Setup, s: Side, live: seq<Row>, ch: seq<Packet>, n: nat)
    requires Carried(u, s, live, ch) && n <= |live|
    ensures PageCarried(u, s, ShownAll(live[..n]), ch)
  {
    forall i | 0 <= i < n ensures Carries(u, s, ShownAll(live[..n])[i].blob, ch[i]) {
      assert Carries(u, s, live[i].blob, ch[i]);
    }
  }

  /** An acknowledgement by the owner is granted when every id decodes. */
  lemma AckGranted(c: Config, db: Db, now: int, mailbox: Bytes, auth: Option<string>, ids: seq<string>)
    requires OwnerError(c, db, mailbox, auth).None? && ids != [] && |ids| <= 2000 && AckLoop(db, mailbox, ids, 0).2
    ensures var (db', r) := Handle(c, db, now, Ack(mailbox, auth, ids));
      db' == AckLoop(db, mailbox, ids, 0).0 && r.Acked?
  {
  }

  lemma AckAnswer(u: Setup, x: Net, to: Side, ids: seq<string>)
    requires ServerOk(u, x.db) && ids != [] && |ids| <= 2000 && AllDecode(ids)
    ensures var (db, r) := AckOutcome(u, x, to, x.clock, ids);
      db == AckLoop(x.db, u.users.Of(to).mailbox, ids, 0).0 && r.Acked?
  {
    var me := u.users.Of(to);
    assert AckLoop(x.db, me.mailbox, ids, 0).2 by {
      AckSucceeds(x.db, me.mailbox, ids, 0);
    }
    assert OwnerError(u.server, x.db, me.mailbox, PollAuth(me)).None?;
    AckGranted(u.server, x.db, x.clock, me.mailbox, PollAuth(me), ids);
  }

  lemma AckKeepsServerOk(u: Setup, x: Net, to: Side, ids: seq<string>)
    requires ServerOk(u, x.db)
    ensures ServerOk(u, AckOutcome(u, x, to, x.clock, ids).0)
  {
    ElsewhereServerOk(u, x.db, Serve(x.clock, Ack(u.users.Of(to).mailbox, PollAuth(u.users.Of(to)), ids)));
  }

  /** Of the two mailboxes, acknowledging changes one. */
  lemma AckedLive(u: Setup, x: Net, to: Side, n: nat)
    requires DbOk(u.server, x.db) && n <= |Live(u, x, to.Other())|
    requires u.users.initiator.mailbox != u.users.responder.mailbox
    ensures var live, m := Live(u, x, to.Other()), u.users.Of(to).mailbox;
      var db := AckLoop(x.db, m, Ids(ShownAll(live[..n])), 0).0;
      && Keep(Queue(db, m), Unexpired(x.clock)) == live[n..]
      && Queue(db, u.users.Of(to.Other()).mailbox) == Queue(x.db, u.users.Of(to.Other()).mailbox)
  {
    AckedRows(u.server, x.db, u.users.Of(to).mailbox, x.clock, n);
  }

  /** The acknowledgement succeeds and deletes exactly the rows shown. */
  lemma AckDeletes(u: Setup, x: Net, to: Side, n: nat)
    requires Proper(u) && ServerOk(u, x.db) && 0 < n <= |Live(u, x, to.Other())| && n <= 2000
    ensures var live, m := Live(u, x, to.Other()), u.users.Of(to).mailbox;
      var (db, r) := AckOutcome(u, x, to, x.clock, Ids(ShownAll(live[..n])));
      && r.Acked? && Keep(Queue(db, m), Unexpired(x.clock)) == live[n..] && ServerOk(u, db)
      && Queue(db, u.users.Of(to.Other()).mailbox) == Queue(x.db, u.users.Of(to.Other()).mailbox)
  {
    var ids := Ids(ShownAll(Live(u, x, to.Other())[..n]));
    ShownDecode(Live(u, x, to.Other())[..n]);
    AckAnswer(u, x, to, ids);
    AckedLive(u, x, to, n);
    AckKeepsServerOk(u, x, to, ids);
  }

  /** What one run of the receive script does to the net, n messages having been on the page. */
  ghost predicate ReceiveEffect(u: Setup, x: Net, x': Net, w: World, w': World, to: Side, n: nat) {
    && x'.clock == x.clock && x'.sent == x.sent && x'.keys == x.keys && ServerOk(u, x'.db)
    && x'.disks.Of(to.Other()) == x.disks.Of(to.Other())
    && n <= |w.channels.Of(to.Other())| == |Live(u, x, to.Other())|
    && x'.shown == x.shown.With(to,
      x.shown.Of(to) + Letters(Live(u, x, to.Other())[..n], w.channels.Of(to.Other())[..n]))
    && Live(u, x', to.Other()) == Live(u, x, to.Other())[n..]
    && Queue(x'.db, u.users.Of(to.Other()).mailbox) == Queue(x.db, u.users.Of(to.Other()).mailbox)
    && (n == 0 ==> x'.disks.Of(to) == x.disks.Of(to) && w' == w)
    && (n > 0 ==> FileOk(u, x', to, w'.parties.Of(to)))
    && (n == 0 ==> x'.db == x.db)
  }

  lemma ReceivesTogether(u: Setup, x: Net, w: World, to: Side, x': Net, w': World, n: nat)
    requires Sim(u, x, w) && Inv(u.env.p, w') && ReadUpTo(w, to, n, w') && ReceiveEffect(u, x, x', w, w', to, n)
    ensures Sim(u, x', w')
  {
    ReceivedChannel(u, x, w, to, x', w', n);
    assert ChannelSim(u, x, w, to);
    SameLive(u, x, x', w, w', to);
    ReceivedFiles(u, x, w, to, x', w', n);
  }

  lemma ReceivedChannel(u: Setup, x: Net, w: World, to: Side, x': Net, w': World, n: nat)
    requires ChannelSim(u, x, w, to.Other()) && n <= |w.channels.Of(to.Other())| == |Live(u, x, to.Other())|
    requires w'.channels.Of(to.Other()) == w.channels.Of(to.Other())[n..]
    requires Live(u, x', to.Other()) == Live(u, x, to.Other())[n..]
    requires x'.shown.Of(to) == x.shown.Of(to) + Letters(Live(u, x, to.Other())[..n], w.channels.Of(to.Other())[..n])
    requires x'.sent.Of(to.Other()) == x.sent.Of(to.Other())
    ensures ChannelSim(u, x', w', to.Other())
  {
    var from := to.Other();
    var ch, live := w.channels.Of(from), Live(u, x, from);
    RestCarried(u, from, live, ch, n);
    LettersMove(x.shown.Of(to), live, ch, n);
  }

  lemma LettersMove(shown: seq<Letter>, rows: seq<Row>, ch: seq<Packet>, n: nat)
    requires n <= |ch| == |rows|
    ensures shown + Letters(rows[..n], ch[..n]) + Letters(rows[n..], ch[n..]) == shown + Letters(rows, ch)
  {
    assert Letters(rows[..n], ch[..n]) + Letters(rows[n..], ch[n..]) == Letters(rows, ch);
  }

  lemma RestCarried(u: Setup, s: Side, rows: seq<Row>, ch: seq<Packet>, n: nat)
    requires Carried(u, s, rows, ch) && n <= |rows|
    ensures Carried(u, s, rows[n..], ch[n..])
  {
    forall i | 0 <= i < |rows[n..]| ensures Carries(u, s, rows[n..][i].blob, ch[n..][i]) {
      assert Carries(u, s, rows[n + i].blob, ch[n + i]);
    }
  }

  lemma ReceivedFiles(u: Setup, x: Net, w: World, to: Side, x': Net, w': World, n: nat)
    requires Sim(u, x, w) && ReadUpTo(w, to, n, w') && ReceiveEffect(u, x, x', w, w', to, n)
    ensures FileOk(u, x', Initiator, w'.parties.initiator)
    ensures FileOk(u, x', Responder, w'.parties.responder) || FirstWaits(u, x', w'.parties.responder)
  {
    assert to.Initiator? && !Met(u, x, Responder) ==> n == 0;
    if n == 0 {
      assert x'.shown.Of(to) == x.shown.Of(to) + [] == x.shown.Of(to);
    }
  }

  /** Reading a page into an inbox and acknowledging it has the effect of receiving. */
  lemma InboxEffect(u: Setup, x: Net, w: World, to: Side, n: nat, w': World, inbox: Inbox)
    requires Proper(u) && ServerOk(u, x.db) && n <= |w.channels.Of(to.Other())| == |Live(u, x, to.Other())| && n <= 2000
    requires PageRead(u, to, w, Inbox(x.disks.Of(to), map[], [], []), ShownAll(Live(u, x, to.Other())[..n]), w', inbox)
    ensures ReceiveEffect(u, x, WithInbox(u, x, to, x.clock, inbox), w, w', to, n)
  {
    var live := Live(u, x, to.Other());
    assert inbox.msgIds == Ids(ShownAll(live[..n]));
    assert inbox.shown == Opened(ShownAll(live[..n]), w.channels.Of(to.Other()))
      == Letters(live[..n], w.channels.Of(to.Other())[..n]);
    if n > 0 {
      AckDeletes(u, x, to, n);
    }
  }

  /**
   * Every envelope on the page is decrypted, in page order, to the text it was written with, and
   * acknowledged, which deletes exactly those rows.
   */
  ghost predicate AllRead(u: Setup, x: Net, to: Side, messages: seq<PollMsg>, inbox: Inbox) {
    && inbox.msgIds == Ids(messages) && |inbox.shown| == |messages| <= |Live(u, x, to.Other())|
    && (forall i | 0 <= i < |messages| ::
          inbox.shown[i].blob == messages[i].blob && inbox.shown[i] in x.sent.Of(to.Other()))
    && (messages != [] ==> AckOutcome(u, x, to, x.clock, inbox.msgIds).1.Acked?)
    && Live(u, WithInbox(u, x, to, x.clock, inbox), to.Other()) == Live(u, x, to.Other())[|messages|..]
  }

  /** What is carried was sent. */
  lemma OpenedWereSent(u: Setup, x: Net, w: World, s: Side, n: nat, messages: seq<PollMsg>, letters: seq<Letter>)
    requires ChannelSim(u, x, w, s) && n <= |Live(u, x, s)| && messages == ShownAll(Live(u, x, s)[..n])
    requires letters == [] + Opened(messages, w.channels.Of(s))
    ensures |letters| == n
    ensures forall i | 0 <= i < n :: letters[i].blob == messages[i].blob && letters[i] in x.sent.Of(s)
  {
    var rows, ch, shown := Live(u, x, s), w.channels.Of(s), x.shown.Of(s.Other());
    var f: seq<nat> :| Places(shown + Letters(rows, ch), x.sent.Of(s), f);
    forall i | 0 <= i < n ensures letters[i].blob == messages[i].blob && letters[i] in x.sent.Of(s) {
      assert (shown + Letters(rows, ch))[|shown| + i] == letters[i];
      assert x.sent.Of(s)[f[|shown| + i]] == letters[i];
    }
  }

  lemma ReceiveKeepsSim(u: Setup, x: Net, w: World, to: Side) returns (w': World)
    requires Proper(u) && Sim(u, x, w)
    ensures Sim(u, AfterReceive(u, x, to, x.clock), w')
    ensures var page := PageFor(u, x, to, x.clock);
      page.Page? && AllRead(u, x, to, page.messages, ReadPage(u, x, to, x.clock, page.messages))
  {
    PageOf(u, x, to);
    var inbox;
    w', inbox := PageKeepsSim(u, x, w, to, PageFor(u, x, to, x.clock).messages);
  }

  lemma PageAcked(u: Setup, x: Net, to: Side, n: nat, ids: seq<string>)
    requires Proper(u) && ServerOk(u, x.db) && 0 < n <= |Live(u, x, to.Other())| && n <= 2000
    requires ids == [] + Ids(ShownAll(Live(u, x, to.Other())[..n]))
    ensures ids == Ids(ShownAll(Live(u, x, to.Other())[..n])) && AckOutcome(u, x, to, x.clock, ids).1.Acked?
  {
    AckDeletes(u, x, to, n);
  }

  /** A page read is all read. */
  lemma PageAllRead(u: Setup, x: Net, w: World, to: Side, n: nat, w': World, inbox: Inbox)
    requires Proper(u) && ServerOk(u, x.db) && ChannelSim(u, x, w, to.Other()) && n <= |Live(u, x, to.Other())|
    requires n <= 2000
    requires PageRead(u, to, w, Inbox(x.disks.Of(to), map[], [], []), ShownAll(Live(u, x, to.Other())[..n]), w', inbox)
    requires Live(u, WithInbox(u, x, to, x.clock, inbox), to.Other()) == Live(u, x, to.Other())[n..]
    ensures AllRead(u, x, to, ShownAll(Live(u, x, to.Other())[..n]), inbox)
  {
    OpenedWereSent(u, x, w, to.Other(), n, ShownAll(Live(u, x, to.Other())[..n]), inbox.shown);
    if n > 0 {
      PageAcked(u, x, to, n, inbox.msgIds);
    }
  }

  lemma PageReads(u: Setup, x: Net, w: World, to: Side, n: nat) returns (w': World, inbox: Inbox)
    requires Proper(u) && Sim(u, x, w) && n <= |Live(u, x, to.Other())|
    ensures inbox == ReadPage(u, x, to, x.clock, ShownAll(Live(u, x, to.Other())[..n])) && Inv(u.env.p, w')
    ensures PageRead(u, to, w, Inbox(x.disks.Of(to), map[], [], []), ShownAll(Live(u, x, to.Other())[..n]), w', inbox)
  {
    var from := to.Other();
    assert ChannelSim(u, x, w, from);
    PageCarries(u, from, Live(u, x, from), w.channels.Of(from), n);
    if n > 0 {
      StartsReady(u, x, w, to);
    }
    w', inbox := ReadAll(u, to, w, Inbox(x.disks.Of(to), map[], [], []), ShownAll(Live(u, x, from)[..n]), x.clock);
  }

  lemma PageKeepsSim(u: Setup, x: Net, w: World, to: Side, messages: seq<PollMsg>) returns (w': World, inbox: Inbox)
    requires Proper(u) && Sim(u, x, w) && |messages| <= |Live(u, x, to.Other())| && |messages| <= 2000
    requires messages == ShownAll(Live(u, x, to.Other())[..|messages|])
    ensures inbox == ReadPage(u, x, to, x.clock, messages)
    ensures Sim(u, WithInbox(u, x, to, x.clock, inbox), w') && AllRead(u, x, to, messages, inbox)
  {
    var n := |messages|;
    assert ChannelSim(u, x, w, to.Other());
    w', inbox := PageReads(u, x, w, to, n);
    InboxEffect(u, x, w, to, n, w', inbox);
    ReceivesTogether(u, x, w, to, WithInbox(u, x, to, x.clock, inbox), w', n);
    PageAllRead(u, x, w, to, n, w', inbox);
  }
}
