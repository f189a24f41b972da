/**
 * The end-to-end results speak of something: a setup and a start from which the first envelope can
 * arrive and can be lost.
 */
module ScriptsCanRun {
  import opened Data
  import opened Json
  import opened Mailbox
  import opened MailboxAnswers
  import opened Ratchet
  import opened Protocol
  import opened KeyUse
  import opened Envelopes
  import opened Scripts
  import opened ScriptRuns
  import opened Invariant
  import opened EndToEnd
  import opened EndToEndTheorems

  // ---------------------------------------------------------------- text as bytes

  function High(n: int): byte { (n / 65536 % 256) as byte }

  function Middle(n: int): byte { (n / 256 % 256) as byte }

  function Low(n: int): byte { (n % 256) as byte }

  lemma ThreeBytes(n: nat)
    requires n < 0x100_0000
    ensures n == High(n) as int * 65536 + Middle(n) as int * 256 + Low(n) as int
  {
  }

  /** Three bytes a character. */
  function Wide(s: string): Bytes {
    if s == "" then [] else [High(s[0] as int), Middle(s[0] as int), Low(s[0] as int)] + Wide(s[1..])
  }

  lemma {:induction false} WideInjective(s: string, t: string)
    requires Wide(s) == Wide(t)
    ensures s == t
  {
    if s == "" || t == "" {
    } else {
      var a, b := Wide(s), Wide(t);
      assert a[0] == b[0] && a[1] == b[1] && a[2] == b[2];
      assert a[3..] == Wide(s[1..]) && b[3..] == Wide(t[1..]);
      WideInjective(s[1..], t[1..]);
      ThreeBytes(s[0] as int);
      ThreeBytes(t[0] as int);
      assert s == [s[0]] + s[1..] && t == [t[0]] + t[1..];
    }
  }

  function Render(j: Json): Bytes {
    Wide(Text(j))
  }

  ghost function Rendered(b: Bytes): Json
    requires exists j: Json :: Render(j) == b
  {
    var j: Json :| Render(j) == b;
    j
  }

  ghost function Parse(b: Bytes): Option<Json> {
    if exists j: Json :: Render(j) == b then Some(Rendered(b)) else None
  }

  lemma ParseRender(j: Json)
    ensures Parse(Render(j)) == Some(j)
  {
    assert Render(j) == Render(j);
    var k := Parse(Render(j)).value;
    WideInjective(Text(j), Text(k));
    TextInjective(j, k);
  }

  // ---------------------------------------------------------------- a setup

  function Zeros(n: nat): (b: Bytes)
    ensures |b| == n
  {
    seq(n, i => 0)
  }

  function Token(): string {
    Base64Url.Encode(Zeros(32))
  }

  function User(name: string, n: byte): Account {
    Account(name, KeyPair([0, n], [n]), [], [n], Token(), Token())
  }

  ghost function World0(): Env {
    Env(Tagged(), text => [7], Render, b => Parse(b), (text, key) => [], (text, signature, key) => true,
        name => Some(Card([], if name == "a" then [0, 1] else [0, 2])))
  }

  function Limits(size: nat): Config {
    Config((key, data) => Zeros(32), [], 7, 7, size, size, 20, 50)
  }

  ghost function TheSetup(size: nat): Setup {
    Setup(World0(), Limits(size), Both(User("a", 1), User("b", 2)))
  }

  function TheStart(): Net {
    Net(Db(map[[1] := Zeros(32), [2] := Zeros(32)], map[([2], Zeros(32)) := false], [], 0), 0,
        Both(map[], map[]), Both([], []), Both([], []), {[0, 2]})
  }

  function DrawOf(n: byte): Draw {
    Draw(KeyPair([0, 3], [3]), KeyPair([0, n], [n]), Zeros(24), 0)
  }

  lemma TheToken(size: nat)
    ensures TokenHash(Limits(size), Some("Bearer " + Token())) == Ok(Zeros(32))
  {
    TokenHashOf(Limits(size), Zeros(32));
  }

  // ---------------------------------------------------------------- the start and the first run

  lemma TheSetupIsProper(size: nat)
    ensures Proper(TheSetup(size))
  {
    var u := TheSetup(size);
    TaggedIsCollisionFree();
    forall e ensures u.env.parse(u.env.render(EnvelopeJson(e))) == Some(EnvelopeJson(e)) {
      ParseRender(EnvelopeJson(e));
    }
    assert [0] + [1 as byte] == [0, 1] && [0] + [2 as byte] == [0, 2];
    assert [1 as byte][0] != [2 as byte][0];
  }

  lemma TheStartIsStart(size: nat)
    ensures StartNet(TheSetup(size), TheStart())
  {
    TheToken(size);
  }

  lemma FirstMsgId()
    ensures MsgIdHeader(Some(Base64Url.Encode(Zeros(24)))) == Some(Zeros(24))
  {
    Base64Url.DecodeEncode(Zeros(24));
  }

  lemma FirstCheck(size: nat, blob: Bytes)
    requires |blob| == size
    ensures DepositCheck(Limits(size), TheStart().db, 0, [2], Some("Bearer " + Token()),
      Some(Base64Url.Encode(Zeros(24))), None, blob).Ok?
  {
    var c, db := Limits(size), TheStart().db;
    TheToken(size);
    FirstMsgId();
    assert [2] in db.mailboxes && ([2], Zeros(32)) in db.tokens && !db.tokens[([2], Zeros(32))];
    assert Queue(db, [2]) == [] && TotalBytes([]) == 0;
    assert DepositExpiry(c, 0, None) == 604_800;
  }

  /** The first deposit to reach the server is taken if it has the size the limits allow. */
  lemma FirstDepositIsTaken(size: nat, x: Net, blob: Bytes)
    requires |blob| == size && x.db == TheStart().db
    ensures DepositOutcome(TheSetup(size), x, Initiator, 0, Zeros(24), blob).1.Deposited?
  {
    FirstCheck(size, blob);
    var db := TheStart().db;
    assert Queue(db, [2]) == [] && db.lastId == 0;
  }

  lemma PairsAreValid(n: byte)
    requires n > 2
    ensures ValidPair(Tagged(), DrawOf(n).generated) && ValidPair(Tagged(), DrawOf(n).ephemeral)
    ensures DrawOf(n).generated.publicKey !in TheStart().keys
  {
    assert [0] + [3 as byte] == [0, 3] && [0] + [n] == [0, n];
    assert [0, n][1] != [0, 2 as byte][1];
  }

  // ---------------------------------------------------------------- two runs of the send script

  /** What the send script does depends neither on the server nor on its limits. */
  lemma SameSend(u: Setup, v: Setup, x: Net, plaintext: Bytes, draw: Draw)
    requires u.env == v.env && u.users == v.users
    ensures SendOutcome(u, x, Initiator, plaintext, draw) == SendOutcome(v, x, Initiator, plaintext, draw)
    ensures AfterSend(u, x, Initiator, 0, plaintext, draw, false)
      == AfterSend(v, x, Initiator, 0, plaintext, draw, false)
  {
  }

  /** The first run of the send script stores a session with which a second run encrypts. */
  lemma SecondRunEncrypts(u: Setup, x: Net, draw: Draw, draw': Draw)
    requires Proper(u) && Quiet(u, x) && x.clock == 0
    requires ValidPair(u.env.p, draw.generated) && ValidPair(u.env.p, draw.ephemeral)
    requires draw.generated.publicKey !in x.keys
    ensures SendOutcome(u, AfterSend(u, x, Initiator, 0, [], draw, false), Initiator, [], draw').1.Some?
  {
    var x1 := AfterSend(u, x, Initiator, 0, [], draw, false);
    var me', pk, disk, blob := FirstSendResult(u, x, [], draw);
    var w := FirstSendWorld(u, x.keys, [], draw, me', pk);
    SavedFile(u.env.p, w, Initiator, u.users.initiator.name, u.users.responder.name, draw.at);
    assert FileOk(u, x1, Initiator, w.parties.initiator);
    assert SideOk(u.env.p, w, Initiator);
    me', pk, disk, blob := SendResult(u, x1, Initiator, w.history, w.parties.initiator, [], draw');
  }

  lemma StartIsReachable(u: Setup, x: Net)
    requires StartNet(u, x)
    ensures ReachableNet(u, x)
  {
    assert LegalSteps(u, x, []) && x == RunNet(u, x, []);
  }

  lemma {:induction false} OneMoreStep(u: Setup, x: Net, steps: seq<Step>, st: Step)
    requires LegalSteps(u, x, steps) && Allowed(u, RunNet(u, x, steps), st)
    ensures LegalSteps(u, x, steps + [st]) && RunNet(u, x, steps + [st]) == ScriptRuns.After(u, RunNet(u, x, steps), st)
    decreases |steps|
  {
    if steps == [] {
      OneStep(u, x, st);
      assert steps + [st] == [st];
    } else {
      OneMoreStep(u, ScriptRuns.After(u, x, steps[0]), steps[1..], st);
      assert (steps + [st])[1..] == steps[1..] + [st];
    }
  }

  lemma ReachedBy(u: Setup, x0: Net, steps: seq<Step>)
    requires StartNet(u, x0) && LegalSteps(u, x0, steps)
    ensures ReachableNet(u, RunNet(u, x0, steps))
  {
  }

  lemma StepIsReachable(u: Setup, x: Net, st: Step)
    requires ReachableNet(u, x) && Allowed(u, x, st)
    ensures ReachableNet(u, ScriptRuns.After(u, x, st))
  {
    var x0: Net, steps: seq<Step> :| StartNet(u, x0) && LegalSteps(u, x0, steps) && x == RunNet(u, x0, steps);
    OneMoreStep(u, x0, steps, st);
    ReachedBy(u, x0, steps + [st]);
  }

  lemma SendIsAllowed(u: Setup, x: Net, draw: Draw, arrives: bool)
    requires x.clock <= 0 && ValidPair(u.env.p, draw.generated) && ValidPair(u.env.p, draw.ephemeral)
    requires draw.generated.publicKey !in x.keys
    ensures Allowed(u, x, SendRun(Initiator, 0, [], draw, arrives))
    ensures ScriptRuns.After(u, x, SendRun(Initiator, 0, [], draw, arrives))
      == AfterSend(u, x, Initiator, 0, [], draw, arrives)
  {
  }

  lemma SendIsReachable(u: Setup, x: Net, draw: Draw, arrives: bool)
    requires ReachableNet(u, x) && x.clock <= 0
    requires ValidPair(u.env.p, draw.generated) && ValidPair(u.env.p, draw.ephemeral)
    requires draw.generated.publicKey !in x.keys
    ensures ReachableNet(u, AfterSend(u, x, Initiator, 0, [], draw, arrives))
  {
    SendIsAllowed(u, x, draw, arrives);
    StepIsReachable(u, x, SendRun(Initiator, 0, [], draw, arrives));
  }

  // ---------------------------------------------------------------- both fates of the first envelope

  lemma StoredFirstIsThere(u: Setup, x: Net, draw: Draw) returns (w: World)
    requires Proper(u) && Quiet(u, x) && x.clock == 0
    requires ValidPair(u.env.p, draw.generated) && ValidPair(u.env.p, draw.ephemeral)
    requires draw.generated.publicKey !in x.keys
    requires var blob := SendOutcome(u, x, Initiator, [], draw).1;
      blob.Some? ==> DepositOutcome(u, x, Initiator, 0, draw.msgId, blob.value).1.Deposited?
    ensures var x' := AfterSend(u, x, Initiator, 0, [], draw, true);
      FirstIsThere(u, x') && Met(u, x', Initiator) && !Met(u, x', Responder) && Sim(u, x', w)
    ensures w.history == FirstWorld(u, draw).history
  {
    var x' := AfterSend(u, x, Initiator, 0, [], draw, true);
    w := FirstSendStarts(u, x, [], draw);
    assert !Met(u, x, Responder);
    assert FirstWaits(u, x', w.parties.responder);
  }

  /** A start, and key pairs for two runs of the send script, for a server that takes one deposit of a size. */
  ghost predicate Fit(u: Setup, start: Net, draw: Draw, draw': Draw, size: nat) {
    && Proper(u) && StartNet(u, start) && start.clock == 0
    && ValidPair(u.env.p, draw.generated) && ValidPair(u.env.p, draw.ephemeral)
      && draw.generated.publicKey !in start.keys
    && ValidPair(u.env.p, draw'.generated) && ValidPair(u.env.p, draw'.ephemeral)
    && draw'.generated.publicKey !in start.keys + {draw.generated.publicKey}
    && Takes(u, start.db, draw.msgId, size) && draw'.msgId == draw.msgId && FreeKeys(u)
  }

  /** No derivation collides, and no agreed root key comes out of a ratchet step. */
  ghost predicate FreeKeys(u: Setup) {
    CollisionFree(u.env.p) && forall text :: Underived(u.env.p, u.env.sha256(text))
  }

  lemma FirstRoot(u: Setup, draw: Draw)
    requires FreeKeys(u)
    ensures FirstWorld(u, draw).history != [] && Underived(u.env.p, FirstWorld(u, draw).history[0].rootKey)
  {
  }

  lemma TheKeysAreFree(size: nat)
    ensures FreeKeys(TheSetup(size))
  {
    TaggedIsCollisionFree();
    forall r: Bytes, d: Bytes ensures Tagged().rootStep(r, d).rootKey != [7] {
      assert Tagged().rootStep(r, d).rootKey[0] == 1;
    }
  }

  ghost predicate Takes(u: Setup, db: Db, msgId: Bytes, size: nat) {
    forall x: Net, blob: Bytes | x.db == db && |blob| == size ::
      DepositOutcome(u, x, Initiator, 0, msgId, blob).1.Deposited?
  }

  lemma TheSetupFits(size: nat)
    ensures Fit(TheSetup(size), TheStart(), DrawOf(4), DrawOf(5), size)
  {
    TheSetupIsProper(size);
    TheStartIsStart(size);
    TheKeysAreFree(size);
    PairsAreValid(4);
    PairsAreValid(5);
    assert [0, 5 as byte][1] != [0, 4 as byte][1];
    forall x: Net, blob: Bytes | x.db == TheStart().db && |blob| == size
      ensures DepositOutcome(TheSetup(size), x, Initiator, 0, Zeros(24), blob).1.Deposited?
    {
      FirstDepositIsTaken(size, x, blob);
    }
  }

  /** The parts of the setup that do not depend on the size. */
  lemma Parts() returns (v: Setup, start: Net, draw: Draw, draw': Draw)
    ensures forall size: nat :: Fit(v.(server := Limits(size)), start, draw, draw', size)
  {
    v, start, draw, draw' := TheSetup(0), TheStart(), DrawOf(4), DrawOf(5);
    forall size: nat ensures Fit(v.(server := Limits(size)), start, draw, draw', size) {
      TheSetupFits(size);
      assert v.(server := Limits(size)) == TheSetup(size);
    }
  }

  lemma StartIsQuiet(u: Setup, x: Net)
    requires StartNet(u, x)
    ensures Quiet(u, x)
  {
  }

  lemma FirstArrives(u: Setup, start: Net, draw: Draw) returns (x: Net, w: World)
    requires Proper(u) && StartNet(u, start) && start.clock == 0
    requires ValidPair(u.env.p, draw.generated) && ValidPair(u.env.p, draw.ephemeral)
    requires draw.generated.publicKey !in start.keys
    requires var blob := SendOutcome(u, start, Initiator, [], draw).1;
      blob.Some? ==> DepositOutcome(u, start, Initiator, 0, draw.msgId, blob.value).1.Deposited?
    ensures ReachableNet(u, x) && FirstIsThere(u, x) && Met(u, x, Initiator) && !Met(u, x, Responder)
    ensures Sim(u, x, w) && w.history == FirstWorld(u, draw).history && x.clock == 0
  {
    x := AfterSend(u, start, Initiator, 0, [], draw, true);
    StartIsQuiet(u, start);
    w := StoredFirstIsThere(u, start, draw);
    StartIsReachable(u, start);
    SendIsReachable(u, start, draw, true);
  }

  /** A reachable state in which the first envelope waits for the responder, with the state of the system it is at. */
  lemma FirstWaiting() returns (u: Setup, x: Net, w: World)
    ensures Proper(u) && ReachableNet(u, x) && Met(u, x, Initiator) && !Met(u, x, Responder)
    ensures FirstIsThere(u, x) && Sim(u, x, w) && x.clock == 0
    ensures CollisionFree(u.env.p) && w.history != [] && Underived(u.env.p, w.history[0].rootKey)
  {
    var v, start, draw, draw' := Parts();
    var blob := SendOutcome(v, start, Initiator, [], draw).1;
    var size := if blob.Some? then |blob.value| else 0;
    u := v.(server := Limits(size));
    assert Fit(u, start, draw, draw', size);
    SameSend(u, v, start, [], draw);
    x, w := FirstArrives(u, start, draw);
    FirstRoot(u, draw);
  }

  /** A reachable state in which the first envelope waits for the responder, who will be shown it. */
  lemma FirstCanArrive() returns (u: Setup, x: Net)
    ensures Proper(u) && ReachableNet(u, x) && Met(u, x, Initiator) && !Met(u, x, Responder)
    ensures FirstIsThere(u, x) && CanBeShown(u, x)
  {
    var w;
    u, x, w := FirstWaiting();
    FateOfTheFirst(u, x);
  }

  lemma LaterOnlyIsThere(u: Setup, x: Net, draw: Draw)
    requires Proper(u) && Stranded(u, x) && x.clock == 0 && Queue(x.db, u.users.responder.mailbox) == []
    requires var blob := SendOutcome(u, x, Initiator, [], draw).1;
      blob.Some? && DepositOutcome(u, x, Initiator, 0, draw.msgId, blob.value).1.Deposited?
    ensures var x' := AfterSend(u, x, Initiator, 0, [], draw, true);
      Stranded(u, x') && Polled(u, x', Responder, 0) != []
  {
    var x' := AfterSend(u, x, Initiator, 0, [], draw, true);
    var blob := SendOutcome(u, x, Initiator, [], draw).1.value;
    StrandedSend(u, x, [], draw, true);
    var row := DepositAddsRow(u.server, x.db, 0, u.users.responder, draw.msgId, blob, u.users.initiator.mailbox);
    MoreLive([], row, 0);
    assert [] + [row] == [row];
    PageOf(u, x', Responder);
  }

  /** The first deposit is lost on the way. */
  lemma FirstRunLost(u: Setup, start: Net, draw: Draw, draw': Draw)
    requires Proper(u) && ReachableNet(u, start) && Quiet(u, start) && start.clock == 0
    requires ValidPair(u.env.p, draw.generated) && ValidPair(u.env.p, draw.ephemeral)
    requires draw.generated.publicKey !in start.keys
    requires draw'.generated.publicKey !in start.keys + {draw.generated.publicKey}
    ensures var lost := AfterSend(u, start, Initiator, 0, [], draw, false);
      && ReachableNet(u, lost) && Stranded(u, lost) && lost.clock == 0 && lost.db == start.db
      && draw'.generated.publicKey !in lost.keys && SendOutcome(u, lost, Initiator, [], draw').1.Some?
  {
    FirstIsLost(u, start, [], draw, false);
    SecondRunEncrypts(u, start, draw, draw');
    SendIsReachable(u, start, draw, false);
  }

  /** The second one arrives. */
  lemma SecondRunArrives(u: Setup, lost: Net, draw': Draw) returns (x: Net)
    requires Proper(u) && ReachableNet(u, lost) && Stranded(u, lost) && lost.clock == 0
    requires Queue(lost.db, u.users.responder.mailbox) == []
    requires ValidPair(u.env.p, draw'.generated) && ValidPair(u.env.p, draw'.ephemeral)
    requires draw'.generated.publicKey !in lost.keys
    requires var blob := SendOutcome(u, lost, Initiator, [], draw').1;
      blob.Some? && DepositOutcome(u, lost, Initiator, 0, draw'.msgId, blob.value).1.Deposited?
    ensures ReachableNet(u, x) && Stranded(u, x) && x.clock == 0 && Polled(u, x, Responder, 0) != []
  {
    x := AfterSend(u, lost, Initiator, 0, [], draw', true);
    LaterOnlyIsThere(u, lost, draw');
    SendIsReachable(u, lost, draw', true);
  }

  lemma LostThenAnother(u: Setup, start: Net, draw: Draw, draw': Draw, size: nat) returns (x: Net)
    requires Fit(u, start, draw, draw', size)
    requires var blob := SendOutcome(u, AfterSend(u, start, Initiator, 0, [], draw, false), Initiator, [], draw').1;
      blob.Some? ==> |blob.value| == size
    ensures ReachableNet(u, x) && Stranded(u, x) && x.clock == 0 && Polled(u, x, Responder, 0) != []
  {
    StartIsQuiet(u, start);
    StartIsReachable(u, start);
    FirstRunLost(u, start, draw, draw');
    var lost := AfterSend(u, start, Initiator, 0, [], draw, false);
    assert Queue(start.db, u.users.Of(Responder).mailbox) == [];
    x := SecondRunArrives(u, lost, draw');
  }

  /** A reachable state in which envelopes wait for the responder and none of them will ever be read. */
  lemma FirstCanBeLost() returns (u: Setup, x: Net)
    ensures Proper(u) && ReachableNet(u, x) && Met(u, x, Initiator) && !Met(u, x, Responder)
    ensures Polled(u, x, Responder, x.clock) != [] && !CanBeShown(u, x)
  {
    var v, start, draw, draw' := Parts();
    var lost := AfterSend(v, start, Initiator, 0, [], draw, false);
    var blob := SendOutcome(v, lost, Initiator, [], draw').1;
    var size := if blob.Some? then |blob.value| else 0;
    u := v.(server := Limits(size));
    assert Fit(u, start, draw, draw', size);
    SameSend(u, v, start, [], draw);
    SameSend(u, v, lost, [], draw');
    x := LostThenAnother(u, start, draw, draw', size);
    StrandedIsNotShown(u, x);
  }
}
