/**
 * Two users who run the send and receive scripts against one mailbox server, each run as one step,
 * while the server serves others and purges what has expired.
 */
module ScriptRuns {
  import opened Data
  import opened Mailbox
  import opened MailboxRuns
  import opened Ratchet
  import opened SessionManager
  import opened Protocol
  import Envelopes
  import opened Scripts

  datatype Setup = Setup(env: Env, server: Config, users: Both<Account>)

  /**
   * The tables, the clock, both users' session files, the letters each wrote and each was shown, and the
   * public keys in use.
   */
  datatype Net = Net(
    db: Db,
    clock: int,
    disks: Both<Disk>,
    sent: Both<seq<Letter>>,
    shown: Both<seq<Letter>>,
    keys: set<Bytes>)

  datatype Step =
    | SendRun(side: Side, now: int, plaintext: Bytes, draw: Draw, arrives: bool)   // does the deposit reach the server?
    | ReceiveRun(side: Side, now: int)
    | Elsewhere(action: Action)

  function Name(u: Setup, s: Side): string {
    GetSessionKey(u.users.Of(s).name, u.users.Of(s.Other()).name)
  }

  /** Does the user have a session file for the other? */
  predicate Met(u: Setup, x: Net, s: Side) {
    Name(u, s) in x.disks.Of(s)
  }

  function PollAuth(a: Account): Option<string> {
    Some("Bearer " + a.pollToken)
  }

  function Time(st: Step): int {
    match st
    case SendRun(_, now, _, _, _) => now
    case ReceiveRun(_, now) => now
    case Elsewhere(a) => a.now
  }

  // ---------------------------------------------------------------- steps

  function SendOutcome(u: Setup, x: Net, s: Side, plaintext: Bytes, draw: Draw): (Disk, Option<Bytes>) {
    SendMessage(u.env, u.users.Of(s), u.users.Of(s.Other()).name, x.disks.Of(s), plaintext, draw)
  }

  function DepositOutcome(u: Setup, x: Net, s: Side, now: int, msgId: Bytes, blob: Bytes): (Db, Response) {
    Handle(u.server, x.db, now, DepositRequest(u.users.Of(s.Other()), msgId, blob))
  }

  /** The net after a run that left these files and deposited this blob, if any. */
  function WithDeposit(u: Setup, x: Net, s: Side, now: int, plaintext: Bytes, draw: Draw, arrives: bool, disk: Disk,
                       blob: Option<Bytes>): Net {
    var x1 := x.(clock := now, disks := x.disks.With(s, disk));
    if blob.None? then x1
    else
      x1.(db := if arrives then DepositOutcome(u, x, s, now, draw.msgId, blob.value).0 else x.db,
          sent := x.sent.With(s, x.sent.Of(s) + [Letter(blob.value, plaintext)]),
          keys := x.keys + {draw.generated.publicKey})
  }

  function AfterSend(u: Setup, x: Net, s: Side, now: int, plaintext: Bytes, draw: Draw, arrives: bool): Net {
    var (disk, blob) := SendOutcome(u, x, s, plaintext, draw);
    WithDeposit(u, x, s, now, plaintext, draw, arrives, disk, blob)
  }

  function PageFor(u: Setup, x: Net, s: Side, now: int): Response {
    var me := u.users.Of(s);
    HandlePoll(u.server, x.db, now, me.mailbox, PollAuth(me), None, None)
  }

  function Polled(u: Setup, x: Net, s: Side, now: int): seq<PollMsg> {
    var page := PageFor(u, x, s, now);
    if page.Page? then page.messages else []
  }

  /** What the receive script makes of a page. */
  function ReadPage(u: Setup, x: Net, s: Side, now: int, messages: seq<PollMsg>): Inbox {
    ReceiveLoop(u.env, u.users.Of(s), Inbox(x.disks.Of(s), map[], [], []), messages, now)
  }

  function AckOutcome(u: Setup, x: Net, s: Side, now: int, msgIds: seq<string>): (Db, Response) {
    var me := u.users.Of(s);
    Handle(u.server, x.db, now, Ack(me.mailbox, PollAuth(me), msgIds))
  }

  /** The net after the script has read a page into an inbox and acknowledged what it decrypted, if anything. */
  function WithInbox(u: Setup, x: Net, s: Side, now: int, inbox: Inbox): Net {
    x.(clock := now,
       disks := x.disks.With(s, inbox.disk),
       shown := x.shown.With(s, x.shown.Of(s) + inbox.shown),
       db := if inbox.msgIds == [] then x.db else AckOutcome(u, x, s, now, inbox.msgIds).0)
  }

  function AfterReceive(u: Setup, x: Net, s: Side, now: int): Net {
    var page := PageFor(u, x, s, now);
    if !page.Page? then x.(clock := now) else WithInbox(u, x, s, now, ReadPage(u, x, s, now, page.messages))
  }

  function After(u: Setup, x: Net, st: Step): Net {
    match st
    case SendRun(s, now, plaintext, draw, arrives) => AfterSend(u, x, s, now, plaintext, draw, arrives)
    case ReceiveRun(s, now) => AfterReceive(u, x, s, now)
    case Elsewhere(a) => x.(db := Apply(u.server, x.db, a), clock := a.now)
  }

  // ---------------------------------------------------------------- the environment

  predicate OfUsers(u: Setup, mailbox: Bytes) {
    mailbox == u.users.initiator.mailbox || mailbox == u.users.responder.mailbox
  }

  /**
   * The clock does not go back; key pairs are new; the responder writes only when it has a session;
   * nobody else deposits to or acknowledges for the two users. Any deposit may be lost or refused,
   * any envelope may expire before it is read, and the first one too.
   */
  ghost predicate Allowed(u: Setup, x: Net, st: Step) {
    && x.clock <= Time(st)
    && match st
       case SendRun(s, now, plaintext, draw, arrives) =>
         && ValidPair(u.env.p, draw.generated) && ValidPair(u.env.p, draw.ephemeral)
           && draw.generated.publicKey !in x.keys
         && (s.Responder? ==> Met(u, x, s))
       case ReceiveRun(_, _) => true
       case Elsewhere(a) =>
         a.Serve? ==> !OfUsers(u, a.request.mailbox) || !(a.request.Deposit? || a.request.Ack?)
  }

  /**
   * Lawful cryptography and JSON, a server that can show a page and acknowledge it, and two users known
   * to each other.
   */
  ghost predicate Proper(u: Setup) {
    && Lawful(u.env.p) && (forall text :: u.env.sha256(text) != [])
    && (forall e :: u.env.parse(u.env.render(Envelopes.EnvelopeJson(e))) == Some(Envelopes.EnvelopeJson(e)))
    && Sane(u.server) && Limit(u.server, None) <= 2000
    && u.users.initiator.mailbox != u.users.responder.mailbox
    && (forall s: Side ::
          var a := u.users.Of(s);
          && ValidPair(u.env.p, a.identity)
          && u.env.card(a.name).Some? && u.env.card(a.name).value.identity == a.identity.publicKey
          && forall text :: u.env.verify(text, u.env.sign(text, a.signingKey), u.env.card(a.name).value.signing))
  }

  /** Before anything was sent: no session files, empty mailboxes that their owners may poll. */
  ghost predicate StartNet(u: Setup, x: Net) {
    && DbOk(u.server, x.db) && u.users.responder.identity.publicKey in x.keys
    && forall s: Side ::
        var a := u.users.Of(s);
        && !Met(u, x, s) && Queue(x.db, a.mailbox) == [] && OwnerError(u.server, x.db, a.mailbox, PollAuth(a)).None?
        && x.sent.Of(s) == [] && x.shown.Of(s) == []
  }

  ghost predicate LegalSteps(u: Setup, x: Net, steps: seq<Step>)
    decreases |steps|
  {
    steps == [] || (Allowed(u, x, steps[0]) && LegalSteps(u, After(u, x, steps[0]), steps[1..]))
  }

  function RunNet(u: Setup, x: Net, steps: seq<Step>): Net
    decreases |steps|
  {
    if steps == [] then x else RunNet(u, After(u, x, steps[0]), steps[1..])
  }

  ghost predicate ReachableNet(u: Setup, x: Net) {
    exists x0: Net, steps: seq<Step> :: StartNet(u, x0) && LegalSteps(u, x0, steps) && x == RunNet(u, x0, steps)
  }
}
