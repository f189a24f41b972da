/** What two users of the scripts can rely on, over every run the environment allows. */
module EndToEndTheorems {
  import opened Data
  import opened Mailbox
  import opened MailboxRuns
  import opened Ratchet
  import opened Persistence
  import opened Protocol
  import opened Scripts
  import opened Subsequences
  import opened ScriptRuns
  import opened EndToEnd

  /** The net is quiet, or at a state of the two-party system, or the first envelope is lost. */
  ghost predicate Tracked(u: Setup, x: Net) {
    Quiet(u, x) || Stranded(u, x) || exists w: World :: Sim(u, x, w)
  }

  // ---------------------------------------------------------------- before the first message

  lemma QuietPage(u: Setup, x: Net, s: Side)
    requires Proper(u) && Quiet(u, x)
    ensures var page := PageFor(u, x, s, x.clock); page.Page? && page.messages == []
  {
    PageOf(u, x, s);
    assert Queue(x.db, u.users.Of(s).mailbox) == [];
  }

  lemma QuietReceive(u: Setup, x: Net, s: Side)
    requires Proper(u) && Quiet(u, x)
    ensures AfterReceive(u, x, s, x.clock) == x
  {
    QuietPage(u, x, s);
    assert x.shown.Of(s) + [] == x.shown.Of(s);
  }

  lemma QuietElsewhere(u: Setup, x: Net, a: Action)
    requires Quiet(u, x) && (a.Serve? ==> !OfUsers(u, a.request.mailbox) || !(a.request.Deposit? || a.request.Ack?))
    ensures Quiet(u, x.(db := Apply(u.server, x.db, a)))
  {
    ElsewhereServerOk(u, x.db, a);
    forall s: Side ensures Queue(Apply(u.server, x.db, a), u.users.Of(s).mailbox) == [] {
      ElsewhereRows(u, x.db, a, u.users.Of(s).mailbox);
    }
  }

  /** The initiator's first run starts the system when its deposit is stored, and strands it otherwise. */
  lemma QuietSend(u: Setup, x: Net, plaintext: Bytes, draw: Draw, arrives: bool)
    requires Proper(u) && Quiet(u, x)
    requires ValidPair(u.env.p, draw.generated) && ValidPair(u.env.p, draw.ephemeral)
    requires draw.generated.publicKey !in x.keys
    ensures Tracked(u, AfterSend(u, x, Initiator, x.clock, plaintext, draw, arrives))
  {
    var me', pk, disk, blob := FirstSendResult(u, x, plaintext, draw);
    if arrives && DepositOutcome(u, x, Initiator, x.clock, draw.msgId, blob).1.Deposited? {
      var w := FirstSendStarts(u, x, plaintext, draw);
    } else {
      FirstIsLost(u, x, plaintext, draw, arrives);
    }
  }

  lemma FirstIsLost(u: Setup, x: Net, plaintext: Bytes, draw: Draw, arrives: bool)
    requires Proper(u) && Quiet(u, x)
    requires var blob := SendOutcome(u, x, Initiator, plaintext, draw).1;
      arrives && blob.Some? ==> !DepositOutcome(u, x, Initiator, x.clock, draw.msgId, blob.value).1.Deposited?
    ensures Stranded(u, AfterSend(u, x, Initiator, x.clock, plaintext, draw, arrives))
  {
    var me', pk, disk, blob := FirstSendResult(u, x, plaintext, draw);
    var x' := AfterSend(u, x, Initiator, x.clock, plaintext, draw, arrives);
    var row := DepositAddsRow(u.server, x.db, x.clock, u.users.responder, draw.msgId, blob, u.users.initiator.mailbox);
    assert x'.db == x.db;
    forall s: Side ensures Live(u, x', s) == [] {
      assert Queue(x.db, u.users.Of(s.Other()).mailbox) == [];
    }
    QuietIsSilent(u, x, x');
    assert x.sent.Of(Initiator) == [];
  }

  lemma QuietStep(u: Setup, x: Net, st: Step)
    requires Proper(u) && Quiet(u, x) && Allowed(u, x, st) && x.clock == Time(st)
    ensures Tracked(u, ScriptRuns.After(u, x, st))
  {
    match st
    case SendRun(s, now, plaintext, draw, arrives) =>
      assert !Met(u, x, s);
      QuietSend(u, x, plaintext, draw, arrives);
    case ReceiveRun(s, _) => QuietReceive(u, x, s);
    case Elsewhere(a) => QuietElsewhere(u, x, a);
  }

  // ---------------------------------------------------------------- after the first envelope is lost

  /** Only the run that makes the session puts the key into its envelope. */
  lemma LaterEnvelopesHaveNoKey(u: Setup, x: Net, s: Side, plaintext: Bytes, draw: Draw)
    requires Proper(u)
    ensures var blob := SendOutcome(u, x, s, plaintext, draw).1;
      blob.Some? ==>
        && ReadBlob(u.env, blob.value).Some? && ReadBlob(u.env, blob.value).value.from == u.users.Of(s).name
        && (HasKey(u, blob.value) <==> !Met(u, x, s))
  {
    var a, b := u.users.Of(s), u.users.Of(s.Other());
    var you := u.env.card(b.name);
    var session := if Met(u, x, s) then LoadFile(x.disks.Of(s)[Name(u, s)])
      else FirstSession(u.env, a, you.value, draw);
    if Sound(session) {
      var r := Encrypt(u.env.p, session, plaintext, [], draw.generated).1;
      if r.Ok? {
        SignedIsGenuine(u, s, draw.at, r.value, if Met(u, x, s) then None else Some(draw.ephemeral.publicKey));
      }
    }
  }

  /** A session file is never removed by a run of the send script. */
  lemma SendKeepsFile(u: Setup, x: Net, s: Side, plaintext: Bytes, draw: Draw)
    requires Met(u, x, s)
    ensures Name(u, s) in SendOutcome(u, x, s, plaintext, draw).0
  {
  }

  lemma StrandedOneMore(u: Setup, x: Net, x': Net, letter: Letter, row: Row, stored: bool)
    requires Stranded(u, x) && Keyless(u, letter.blob) && row.blob == letter.blob && ServerOk(u, x'.db)
    requires x'.shown == x.shown && Met(u, x', Initiator) && x'.disks.Of(Responder) == x.disks.Of(Responder)
    requires x'.sent == x.sent.With(Initiator, x.sent.Of(Initiator) + [letter])
    requires Live(u, x', Initiator) == if stored then Live(u, x, Initiator) + [row] else Live(u, x, Initiator)
    requires Live(u, x', Responder) == Live(u, x, Responder)
    ensures Stranded(u, x')
  {
  }

  lemma StrandedDeposit(u: Setup, x: Net, x': Net, blob: Bytes, text: Bytes, msgId: Bytes, arrives: bool)
    requires Proper(u) && Stranded(u, x) && Keyless(u, blob)
    requires x'.clock == x.clock && x'.shown == x.shown && Met(u, x', Initiator)
    requires x'.disks.Of(Responder) == x.disks.Of(Responder)
    requires x'.sent == x.sent.With(Initiator, x.sent.Of(Initiator) + [Letter(blob, text)])
    requires x'.db == if arrives then DepositOutcome(u, x, Initiator, x.clock, msgId, blob).0 else x.db
    ensures Stranded(u, x')
  {
    var stored := arrives && DepositOutcome(u, x, Initiator, x.clock, msgId, blob).1.Deposited?;
    var row := DepositAddsRow(u.server, x.db, x.clock, u.users.responder, msgId, blob, u.users.initiator.mailbox);
    ElsewhereServerOk(u, x.db, Serve(x.clock, DepositRequest(u.users.responder, msgId, blob)));
    if stored {
      MoreLive(Queue(x.db, u.users.responder.mailbox), row, x.clock);
    } else {
      row := Row(0, [], [], blob, 0, 0);
    }
    StrandedOneMore(u, x, x', Letter(blob, text), row, stored);
  }

  lemma StrandedSend(u: Setup, x: Net, plaintext: Bytes, draw: Draw, arrives: bool)
    requires Proper(u) && Stranded(u, x)
    ensures Stranded(u, AfterSend(u, x, Initiator, x.clock, plaintext, draw, arrives))
  {
    var blob := SendOutcome(u, x, Initiator, plaintext, draw).1;
    var x' := AfterSend(u, x, Initiator, x.clock, plaintext, draw, arrives);
    LaterEnvelopesHaveNoKey(u, x, Initiator, plaintext, draw);
    SendKeepsFile(u, x, Initiator, plaintext, draw);
    if blob.Some? {
      StrandedDeposit(u, x, x', blob.value, plaintext, draw.msgId, arrives);
    } else {
      assert Live(u, x', Initiator) == Live(u, x, Initiator) && Live(u, x', Responder) == Live(u, x, Responder);
    }
  }

  /** Without a session the loop makes nothing of later envelopes. */
  lemma {:induction false} KeylessUnread(u: Setup, st: Inbox, messages: seq<PollMsg>, at: int)
    requires forall i | 0 <= i < |messages| :: Keyless(u, messages[i].blob)
    requires Name(u, Responder) !in st.cache && Name(u, Responder) !in st.disk
    ensures ReceiveLoop(u.env, u.users.responder, st, messages, at) == st
    decreases |messages|
  {
    if messages == [] {
    } else {
      assert Keyless(u, messages[0].blob);
      assert ReceiveOne(u.env, u.users.responder, st, messages[0], at) == st;
      forall i | 0 <= i < |messages[1..]| ensures Keyless(u, messages[1..][i].blob) {
        assert Keyless(u, messages[i + 1].blob);
      }
      KeylessUnread(u, st, messages[1..], at);
    }
  }

  lemma StrandedPage(u: Setup, x: Net, s: Side)
    requires Proper(u) && Stranded(u, x)
    ensures var messages := Polled(u, x, s, x.clock);
      && PageFor(u, x, s, x.clock).Page? && |messages| <= |Live(u, x, s.Other())|
      && ReadPage(u, x, s, x.clock, messages) == Inbox(x.disks.Of(s), map[], [], [])
      && (messages != [] ==> s == Responder && !HasKey(u, messages[0].blob))
  {
    PageOf(u, x, s);
    var messages, live := PageFor(u, x, s, x.clock).messages, Live(u, x, s.Other());
    if s == Responder {
      forall i | 0 <= i < |messages| ensures Keyless(u, messages[i].blob) {
        assert Keyless(u, live[i].blob);
      }
      KeylessUnread(u, Inbox(x.disks.Of(s), map[], [], []), messages, x.clock);
    }
  }

  /** A run of the receive script then changes nothing, on disk or on the server. */
  lemma StrandedReceive(u: Setup, x: Net, s: Side)
    requires Proper(u) && Stranded(u, x)
    ensures AfterReceive(u, x, s, x.clock) == x
  {
    StrandedPage(u, x, s);
    assert x.shown.Of(s) + [] == x.shown.Of(s);
  }

  lemma StrandedElsewhere(u: Setup, x: Net, a: Action)
    requires Stranded(u, x) && x.clock == a.now
    requires a.Serve? ==> !OfUsers(u, a.request.mailbox) || !(a.request.Deposit? || a.request.Ack?)
    ensures Stranded(u, x.(db := Apply(u.server, x.db, a)))
  {
    var x' := x.(db := Apply(u.server, x.db, a));
    ElsewhereServerOk(u, x.db, a);
    ElsewhereRows(u, x.db, a, u.users.responder.mailbox);
    ElsewhereRows(u, x.db, a, u.users.initiator.mailbox);
    assert Live(u, x', Initiator) == Live(u, x, Initiator) && Live(u, x', Responder) == Live(u, x, Responder);
  }

  lemma StrandedLater(u: Setup, x: Net, now: int)
    requires Stranded(u, x) && x.clock <= now
    ensures Stranded(u, x.(clock := now))
  {
    SilentLater(u, x, now);
    LaterLive(u, x, Initiator, now);
    KeptKeyless(u, Live(u, x, Initiator), Unexpired(now));
    KeepAtMost(Live(u, x, Initiator), Unexpired(now));
  }

  lemma StrandedStep(u: Setup, x: Net, st: Step)
    requires Proper(u) && Stranded(u, x) && Allowed(u, x, st)
    ensures Stranded(u, ScriptRuns.After(u, x, st))
  {
    TimeFirst(u, x, st);
    StrandedLater(u, x, Time(st));
    var x1 := x.(clock := Time(st));
    match st
    case SendRun(s, _, plaintext, draw, arrives) =>
      assert Met(u, x1, s) || s == Initiator;
      StrandedSend(u, x1, plaintext, draw, arrives);
    case ReceiveRun(s, _) => StrandedReceive(u, x1, s);
    case Elsewhere(a) => StrandedElsewhere(u, x1, a);
  }

  lemma {:induction false} StrandedRun(u: Setup, x: Net, steps: seq<Step>)
    requires Proper(u) && Stranded(u, x) && LegalSteps(u, x, steps)
    ensures Stranded(u, RunNet(u, x, steps))
    decreases |steps|
  {
    if steps == [] {
    } else {
      StrandedStep(u, x, steps[0]);
      StrandedRun(u, ScriptRuns.After(u, x, steps[0]), steps[1..]);
    }
  }

  // ---------------------------------------------------------------- every run

  lemma SimStep(u: Setup, x: Net, w: World, st: Step) returns (w': World)
    requires Proper(u) && Sim(u, x, w) && Allowed(u, x, st) && x.clock == Time(st)
    ensures Sim(u, ScriptRuns.After(u, x, st), w')
  {
    match st
    case SendRun(s, _, plaintext, draw, arrives) =>
      assert Met(u, x, Initiator);
      w' := SendKeepsSim(u, x, w, s, plaintext, draw, arrives);
    case ReceiveRun(s, _) => w' := ReceiveKeepsSim(u, x, w, s);
    case Elsewhere(a) =>
      ElsewhereKeepsSim(u, x, w, a);
      w' := w;
  }

  /** A step at its time is the passing of time and then the step. */
  lemma TimeFirst(u: Setup, x: Net, st: Step)
    requires Allowed(u, x, st)
    ensures Allowed(u, x.(clock := Time(st)), st)
    ensures ScriptRuns.After(u, x, st) == ScriptRuns.After(u, x.(clock := Time(st)), st)
  {
  }

  lemma TimeKeepsTracked(u: Setup, x: Net, now: int)
    requires Tracked(u, x) && x.clock <= now
    ensures Tracked(u, x.(clock := now))
  {
    if Quiet(u, x) {
      assert Quiet(u, x.(clock := now));
    } else if Stranded(u, x) {
      StrandedLater(u, x, now);
    } else {
      var w: World :| Sim(u, x, w);
      var w' := Later(u, x, w, now);
    }
  }

  lemma StepInTime(u: Setup, x: Net, st: Step)
    requires Proper(u) && Tracked(u, x) && Allowed(u, x, st) && x.clock == Time(st)
    ensures Tracked(u, ScriptRuns.After(u, x, st))
  {
    if Quiet(u, x) {
      QuietStep(u, x, st);
    } else if Stranded(u, x) {
      StrandedStep(u, x, st);
    } else {
      var w: World :| Sim(u, x, w);
      var w' := SimStep(u, x, w, st);
    }
  }

  lemma StepKeepsTracked(u: Setup, x: Net, st: Step)
    requires Proper(u) && Tracked(u, x) && Allowed(u, x, st)
    ensures Tracked(u, ScriptRuns.After(u, x, st))
  {
    TimeFirst(u, x, st);
    TimeKeepsTracked(u, x, Time(st));
    StepInTime(u, x.(clock := Time(st)), st);
  }

  lemma {:induction false} RunKeepsTracked(u: Setup, x: Net, steps: seq<Step>)
    requires Proper(u) && Tracked(u, x) && LegalSteps(u, x, steps)
    ensures Tracked(u, RunNet(u, x, steps))
    decreases |steps|
  {
    if steps == [] {
    } else {
      StepKeepsTracked(u, x, steps[0]);
      RunKeepsTracked(u, ScriptRuns.After(u, x, steps[0]), steps[1..]);
    }
  }

  lemma ReachableIsTracked(u: Setup, x: Net)
    requires Proper(u) && ReachableNet(u, x)
    ensures Tracked(u, x)
  {
    var x0: Net, steps: seq<Step> :| StartNet(u, x0) && LegalSteps(u, x0, steps) && x == RunNet(u, x0, steps);
    assert Quiet(u, x0);
    RunKeepsTracked(u, x0, steps);
  }

  // ---------------------------------------------------------------- what is read

  /** A page can be read by a user who has a session file, or whose oldest envelope has the key for one. */
  predicate Readable(u: Setup, x: Net, s: Side, messages: seq<PollMsg>) {
    messages == [] || Met(u, x, s) || HasKey(u, messages[0].blob)
  }

  /** Nothing on the page is read, and nothing changes but the clock. */
  predicate NoneRead(u: Setup, x: Net, s: Side, now: int, inbox: Inbox) {
    inbox == Inbox(x.disks.Of(s), map[], [], []) && AfterReceive(u, x, s, now) == x.(clock := now)
  }

  lemma QuietAllRead(u: Setup, x: Net, s: Side)
    requires Proper(u) && Quiet(u, x)
    ensures AllRead(u, x, s, [], ReadPage(u, x, s, x.clock, []))
  {
    var live := Live(u, x, s.Other());
    assert live[0..] == live;
  }

  lemma StrandedAllRead(u: Setup, x: Net, s: Side)
    requires Proper(u) && Stranded(u, x)
    ensures var messages := Polled(u, x, s, x.clock); var inbox := ReadPage(u, x, s, x.clock, messages);
      && (AllRead(u, x, s, messages, inbox) <==> messages == [])
      && (Readable(u, x, s, messages) <==> messages == [])
      && NoneRead(u, x, s, x.clock, inbox)
  {
    StrandedPage(u, x, s);
    StrandedReceive(u, x, s);
    var messages, live := Polled(u, x, s, x.clock), Live(u, x, s.Other());
    if messages == [] {
      assert live[0..] == live;
    } else {
      assert Ids(messages) != [];
    }
  }

  lemma SimReadable(u: Setup, x: Net, w: World, s: Side)
    requires Proper(u) && Sim(u, x, w)
    ensures Readable(u, x, s, Polled(u, x, s, x.clock))
  {
    PageOf(u, x, s);
    if !Met(u, x, s) {
      assert FirstWaits(u, x, w.parties.responder);
    }
  }

  /** What a run of the receive script makes of the page it polls. */
  ghost predicate Reading(u: Setup, x: Net, s: Side) {
    var messages := Polled(u, x, s, x.clock);
    var inbox := ReadPage(u, x, s, x.clock, messages);
    && PageFor(u, x, s, x.clock).Page?
    && (AllRead(u, x, s, messages, inbox) <==> Readable(u, x, s, messages))
    && (!Readable(u, x, s, messages) ==> NoneRead(u, x, s, x.clock, inbox))
  }

  lemma SimReading(u: Setup, x: Net, w: World, s: Side)
    requires Proper(u) && Sim(u, x, w)
    ensures Reading(u, x, s)
  {
    SimReadable(u, x, w, s);
    var w' := ReceiveKeepsSim(u, x, w, s);
  }

  lemma QuietReading(u: Setup, x: Net, s: Side)
    requires Proper(u) && Quiet(u, x)
    ensures Reading(u, x, s)
  {
    QuietPage(u, x, s);
    QuietAllRead(u, x, s);
  }

  lemma StrandedReading(u: Setup, x: Net, s: Side)
    requires Proper(u) && Stranded(u, x)
    ensures Reading(u, x, s)
  {
    StrandedPage(u, x, s);
    StrandedAllRead(u, x, s);
  }

  lemma TrackedReading(u: Setup, x: Net, s: Side)
    requires Proper(u) && Tracked(u, x)
    ensures Reading(u, x, s)
  {
    if Quiet(u, x) {
      QuietReading(u, x, s);
    } else if Stranded(u, x) {
      StrandedReading(u, x, s);
    } else {
      var w: World :| Sim(u, x, w);
      SimReading(u, x, w, s);
    }
  }

  /**
   * In every reachable state a run of the receive script polls a page. It decrypts every envelope on
   * it, in page order and each to the text that was written into it, has all of them acknowledged,
   * and so deletes exactly the rows shown, if and only if the user has a session file or the oldest
   * envelope on the page has the key for one. Otherwise it reads none and changes nothing.
   */
  lemma EveryPolledEnvelopeIsRead(u: Setup, x: Net, s: Side, now: int)
    requires Proper(u) && ReachableNet(u, x) && Allowed(u, x, ReceiveRun(s, now))
    ensures var y := x.(clock := now);
      var messages := Polled(u, y, s, now); var inbox := ReadPage(u, y, s, now, messages);
      && PageFor(u, y, s, now).Page?
      && (AllRead(u, y, s, messages, inbox) <==> Readable(u, y, s, messages))
      && (!Readable(u, y, s, messages) ==> NoneRead(u, y, s, now, inbox))
  {
    ReachableIsTracked(u, x);
    TimeKeepsTracked(u, x, now);
    TrackedReading(u, x.(clock := now), s);
  }

  // ---------------------------------------------------------------- what is shown

  /**
   * What a user is shown is, in order and each letter once, part of what the other wrote, whatever was
   * lost on the way.
   */
  lemma ShownIsPartOfSent(u: Setup, x: Net, s: Side)
    requires Proper(u) && ReachableNet(u, x)
    ensures Subsequence(x.shown.Of(s), x.sent.Of(s.Other()))
  {
    ReachableIsTracked(u, x);
    TrackedShown(u, x, s);
  }

  lemma TrackedShown(u: Setup, x: Net, s: Side)
    requires Tracked(u, x)
    ensures Subsequence(x.shown.Of(s), x.sent.Of(s.Other()))
  {
    if Quiet(u, x) {
      assert x.shown.Of(s) == [];
      NothingIsPart(x.sent.Of(s.Other()));
    } else if Stranded(u, x) {
      NothingIsPart(x.sent.Of(s.Other()));
    } else {
      var w: World :| Sim(u, x, w);
      ShownInSim(u, x, w, s);
    }
  }

  lemma NothingIsPart(sent: seq<Letter>)
    ensures Subsequence([], sent)
  {
    SubsequenceSelf(sent);
    assert [] + sent == sent;
    SubsequencePrefix([], sent, sent);
  }

  lemma ShownInSim(u: Setup, x: Net, w: World, s: Side)
    requires ChannelSim(u, x, w, s.Other())
    ensures Subsequence(x.shown.Of(s), x.sent.Of(s.Other()))
  {
    SubsequencePrefix(x.shown.Of(s), Letters(Live(u, x, s.Other()), w.channels.Of(s.Other())), x.sent.Of(s.Other()));
  }

  lemma TrackedServerOk(u: Setup, x: Net)
    requires Tracked(u, x)
    ensures ServerOk(u, x.db)
  {
    if !Quiet(u, x) && !Stranded(u, x) {
      var w: World :| Sim(u, x, w);
    }
  }

  /** When the page holds all that is live, all of it is shown. */
  lemma PageShown(u: Setup, x: Net, s: Side)
    requires Proper(u) && Tracked(u, x) && |Live(u, x, s.Other())| <= Limit(u.server, None)
    requires Readable(u, x, s, Polled(u, x, s, x.clock))
    ensures |AfterReceive(u, x, s, x.clock).shown.Of(s)| == |x.shown.Of(s)| + |Live(u, x, s.Other())|
  {
    TrackedServerOk(u, x);
    PageOf(u, x, s);
    TrackedReading(u, x, s);
  }

  lemma ReceiveLeavesSent(u: Setup, x: Net, s: Side, now: int)
    ensures AfterReceive(u, x, s, now).sent == x.sent
    ensures AfterReceive(u, x.(clock := now), s, now) == AfterReceive(u, x, s, now)
  {
  }

  /** When nothing is missing, the page can be read. */
  lemma NothingLostReadable(u: Setup, x: Net, s: Side)
    requires Proper(u) && Tracked(u, x) && |x.shown.Of(s)| + |Live(u, x, s.Other())| == |x.sent.Of(s.Other())|
    ensures Readable(u, x, s, Polled(u, x, s, x.clock))
  {
    if Quiet(u, x) {
      QuietPage(u, x, s);
    } else if Stranded(u, x) {
      StrandedPage(u, x, s);
    } else {
      var w: World :| Sim(u, x, w);
      SimReadable(u, x, w, s);
    }
  }

  lemma AllShown(u: Setup, x: Net, s: Side)
    requires Proper(u) && Tracked(u, x) && Tracked(u, AfterReceive(u, x, s, x.clock))
    requires |Live(u, x, s.Other())| <= Limit(u.server, None)
    requires |x.shown.Of(s)| + |Live(u, x, s.Other())| == |x.sent.Of(s.Other())|
    ensures AfterReceive(u, x, s, x.clock).shown.Of(s) == x.sent.Of(s.Other())
  {
    NothingLostReadable(u, x, s);
    PageShown(u, x, s);
    ReceiveLeavesSent(u, x, s, x.clock);
    var x' := AfterReceive(u, x, s, x.clock);
    TrackedShown(u, x', s);
    SubsequenceFull(x'.shown.Of(s), x.sent.Of(s.Other()));
  }

  /**
   * Nothing is missing unless it was lost: when as many letters are shown or still live as were
   * written, a run of the receive script that can show them all shows exactly all of them, in order.
   */
  lemma NothingLostNothingMissing(u: Setup, x: Net, s: Side, now: int)
    requires Proper(u) && ReachableNet(u, x) && Allowed(u, x, ReceiveRun(s, now))
    requires var live := Live(u, x.(clock := now), s.Other());
      |live| <= Limit(u.server, None) && |x.shown.Of(s)| + |live| == |x.sent.Of(s.Other())|
    ensures AfterReceive(u, x, s, now).shown.Of(s) == x.sent.Of(s.Other())
  {
    ReachableIsTracked(u, x);
    TimeKeepsTracked(u, x, now);
    StepKeepsTracked(u, x, ReceiveRun(s, now));
    ReceiveLeavesSent(u, x, s, now);
    AllShown(u, x.(clock := now), s);
  }

  // ---------------------------------------------------------------- the fate of the first envelope

  /** Does the first envelope still wait for the responder? */
  predicate FirstIsThere(u: Setup, x: Net) {
    var live := Live(u, x, Initiator);
    live != [] && HasKey(u, live[0].blob)
  }

  /** Between the two session files being made, either the first envelope waits or it is lost. */
  lemma FirstThereOrStranded(u: Setup, x: Net)
    requires Tracked(u, x) && Met(u, x, Initiator) && !Met(u, x, Responder)
    ensures FirstIsThere(u, x) <==> !Stranded(u, x)
  {
    assert !Quiet(u, x);
    if Stranded(u, x) {
      var live := Live(u, x, Initiator);
      assert live != [] ==> Keyless(u, live[0].blob);
    } else {
      var w: World :| Sim(u, x, w);
      assert FirstWaits(u, x, w.parties.responder);
    }
  }

  /** Some run goes on to show the responder something. */
  ghost predicate CanBeShown(u: Setup, x: Net) {
    exists steps: seq<Step> :: LegalSteps(u, x, steps) && RunNet(u, x, steps).shown.Of(Responder) != []
  }

  lemma FirstIsShown(u: Setup, x: Net)
    requires Proper(u) && Tracked(u, x) && FirstIsThere(u, x)
    ensures AfterReceive(u, x, Responder, x.clock).shown.Of(Responder) != []
  {
    TrackedServerOk(u, x);
    PageOf(u, x, Responder);
    TrackedReading(u, x, Responder);
  }

  lemma ShownBy(u: Setup, x: Net, steps: seq<Step>)
    requires LegalSteps(u, x, steps) && RunNet(u, x, steps).shown.Of(Responder) != []
    ensures CanBeShown(u, x)
  {
  }

  lemma FirstCanBeShown(u: Setup, x: Net)
    requires Proper(u) && Tracked(u, x) && FirstIsThere(u, x)
    ensures CanBeShown(u, x)
  {
    FirstIsShown(u, x);
    OneReceive(u, x, Responder);
    ShownBy(u, x, [ReceiveRun(Responder, x.clock)]);
  }

  lemma OneReceive(u: Setup, x: Net, s: Side)
    ensures LegalSteps(u, x, [ReceiveRun(s, x.clock)])
    ensures RunNet(u, x, [ReceiveRun(s, x.clock)]) == AfterReceive(u, x, s, x.clock)
  {
    OneStep(u, x, ReceiveRun(s, x.clock));
  }

  lemma OneStep(u: Setup, x: Net, st: Step)
    requires Allowed(u, x, st)
    ensures LegalSteps(u, x, [st]) && RunNet(u, x, [st]) == ScriptRuns.After(u, x, st)
  {
    assert LegalSteps(u, ScriptRuns.After(u, x, st), []) && [st][1..] == [];
    assert RunNet(u, ScriptRuns.After(u, x, st), []) == ScriptRuns.After(u, x, st);
  }

  lemma StrandedIsNotShown(u: Setup, x: Net)
    requires Proper(u) && Stranded(u, x)
    ensures !CanBeShown(u, x)
  {
    forall steps: seq<Step> | LegalSteps(u, x, steps) ensures RunNet(u, x, steps).shown.Of(Responder) == [] {
      StrandedRun(u, x, steps);
    }
  }

  /**
   * When the initiator has a session and the responder has none, something can still be shown to the
   * responder exactly when the envelope with the key is still live.
   */
  lemma FateOfTheFirst(u: Setup, x: Net)
    requires Proper(u) && ReachableNet(u, x) && Met(u, x, Initiator) && !Met(u, x, Responder)
    ensures CanBeShown(u, x) <==> FirstIsThere(u, x)
  {
    ReachableIsTracked(u, x);
    FirstThereOrStranded(u, x);
    if FirstIsThere(u, x) {
      FirstCanBeShown(u, x);
    } else {
      StrandedIsNotShown(u, x);
    }
  }

  /**
   * Once the first envelope is lost, nothing is ever read or acknowledged again by either user,
   * however the run goes on.
   */
  lemma WithoutFirstEnvelopeNothingIsRead(u: Setup, x: Net, steps: seq<Step>, s: Side)
    requires Proper(u) && ReachableNet(u, x) && Met(u, x, Initiator) && !Met(u, x, Responder) && !FirstIsThere(u, x)
    requires LegalSteps(u, x, steps)
    ensures var y := RunNet(u, x, steps);
      && y.shown == Both([], []) && y.sent.Of(Responder) == [] && !Met(u, y, Responder)
      && AfterReceive(u, y, s, y.clock) == y
  {
    ReachableIsTracked(u, x);
    FirstThereOrStranded(u, x);
    StrandedRun(u, x, steps);
    StrandedReceive(u, RunNet(u, x, steps), s);
  }
}
