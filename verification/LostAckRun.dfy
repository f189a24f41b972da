/** Acknowledgements that are lost in a run: the next run over the same page shows nothing more. */
module LostAckRun {
  import opened Mailbox
  import opened Ratchet
  import opened Protocol
  import opened Invariant
  import opened AgreementTheorems
  import opened KeyUse
  import opened AnyOrder
  import opened AnyOrderTheorems
  import opened Scripts
  import opened ScriptRuns
  import opened EndToEnd
  import opened LostAcks
  import opened LostAckTheorems
  import opened ScriptsCanRun

  /** The net after a run of the receive script whose acknowledgement does not reach the server. */
  function Unacked(u: Setup, x: Net, s: Side, now: int): Net {
    AfterReceive(u, x, s, now).(db := x.db)
  }

  // ---------------------------------------------------------------- what was read was passed

  lemma HasReadIsPassed(p: Primitives, h: seq<Epoch>, s: Side, pt: Party, pk: Packet)
    requires PartyOk(p, h, s, pt) && PartyBookOk(p, h, s, pt) && HasRead(pt, pk)
    ensures !Reads(s, StandingOf(pt), pk)
  {
    assert (pk.epoch, pk.number) in pt.decrypted;
  }

  /** Messages all passed are all refused. */
  lemma PassedReadsNothing(p: Primitives, h: seq<Epoch>, s: Side, st: State, r: Standing, pks: seq<Packet>)
    requires Lawful(p) && HistoryOk(p, h) && RootsApart(h) && StandsAt(p, h, s, st, r) && AllHandable(p, h, s, pks)
    requires st.Valid() && InHistory(h, r) && AllInHistory(h, pks) && AllApart(p, h, s, st, r, pks)
    requires AllPassed(s, r, pks)
    ensures true !in Read(p, h, s, st, r, pks)
  {
    var read := Read(p, h, s, st, r, pks);
    TakenInOrder(p, h, s, st, r, Saved(st, r), pks);
    forall i | 0 <= i < |pks| ensures !read[i] {
      PickedHas(pks, read, i);
    }
  }

  lemma BookKeysKept(p: Primitives, h: seq<Epoch>, s: Side, pt: Party)
    requires Lawful(p) && HistoryOk(p, h) && PartyOk(p, h, s, pt) && PartyBookOk(p, h, s, pt)
    ensures KeysKept(pt.state.skipped)
  {
    PartyStorable(p, h, s, pt);
  }

  // ---------------------------------------------------------------- the next run over the same page

  /** The session after the first run, with its file. */
  lemma ReadAndSaved(u: Setup, to: Side, w': World, inbox: Inbox)
    requires Proper(u) && Inv(u.env.p, w') && InboxHolds(u, to, inbox, w'.parties.Of(to))
    ensures var saved := SavedOf(w', to);
      InFile(u, to, inbox.disk, saved) && SavedOk(u.env.p, w'.history, to, saved) && SavedInHistory(w'.history, saved)
  {
    assert SideOk(u.env.p, w', to);
    PartyStands(u.env.p, w', to);
    BookKeysKept(u.env.p, w'.history, to, w'.parties.Of(to));
  }

  function SavedOf(w: World, to: Side): Saved {
    Saved(w.parties.Of(to).state, StandingOf(w.parties.Of(to)))
  }

  /** Reading what is in the channel again meets no collision. */
  ghost predicate AgainApart(u: Setup, w': World, to: Side, pks: seq<Packet>) {
    && RootsApart(w'.history) && SavedInHistory(w'.history, SavedOf(w', to)) && AllInHistory(w'.history, pks)
    && AllApart(u.env.p, w'.history, to, SavedOf(w', to).state, SavedOf(w', to).standing, pks)
  }

  lemma ChannelHandable(p: Primitives, w: World, to: Side, w': World, n: nat)
    requires Inv(p, w) && Inv(p, w') && ReadUpTo(w, to, n, w')
    ensures AllHandable(p, w'.history, to, w.channels.Of(to.Other())[..n])
    ensures AllInHistory(w'.history, w.channels.Of(to.Other())[..n])
    ensures AllPassed(to, StandingOf(w'.parties.Of(to)), w.channels.Of(to.Other())[..n])
  {
    var ch := w.channels.Of(to.Other());
    assert SideOk(p, w, to.Other()) && SideOk(p, w', to);
    assert SentTo(w', to, ch[..n]) by {
      forall i | 0 <= i < n ensures ch[..n][i] in w'.sent && ch[..n][i].from == to.Other() {
        assert ch[i] in w.sent;
      }
    }
    SentIsHandable(p, w', to, ch[..n]);
    forall i | 0 <= i < n ensures !Reads(to, StandingOf(w'.parties.Of(to)), ch[..n][i]) {
      assert HasRead(w'.parties.Of(to), ch[..n][i]);
      HasReadIsPassed(p, w'.history, to, w'.parties.Of(to), ch[..n][i]);
    }
  }

  /** Where the first run of the receive script leaves the files, its acknowledgement lost. */
  lemma UnackedIs(u: Setup, x: Net, to: Side, now: int)
    requires PageFor(u, x, to, now).Page?
    ensures var y, inbox := Unacked(u, x, to, now), ReadPage(u, x, to, now, Polled(u, x, to, now));
      && y.db == x.db && y.clock == now && y.disks == x.disks.With(to, inbox.disk)
      && y.shown == x.shown.With(to, x.shown.Of(to) + inbox.shown)
      && Polled(u, y, to, now) == Polled(u, x, to, now) && PageFor(u, y, to, now).Page?
  {
  }

  /** The messages of the page, as those the second run meets. */
  lemma PageHasChannel(u: Setup, to: Side, messages: seq<PollMsg>, ch: seq<Packet>)
    requires PageCarried(u, to.Other(), messages, ch)
    ensures PageHas(u, to, messages, ch[..|messages|])
  {
    forall i {:trigger messages[i]} | 0 <= i < |messages|
      ensures Carries(u, to.Other(), messages[i].blob, ch[..|messages|][i]) {
      assert Carries(u, to.Other(), messages[i].blob, ch[i]);
    }
  }

  /** The second run meets what the first has read. */
  lemma AgainPolls(u: Setup, x: Net, w: World, to: Side, messages: seq<PollMsg>, inbox: Inbox, w': World,
                   pks: seq<Packet>)
    requires Proper(u) && Inv(u.env.p, w) && Inv(u.env.p, w') && PageFor(u, x, to, x.clock).Page?
    requires messages == Polled(u, x, to, x.clock) && inbox == ReadPage(u, x, to, x.clock, messages)
    requires ReadUpTo(w, to, |messages|, w') && InboxHolds(u, to, inbox, w'.parties.Of(to))
    requires pks == w.channels.Of(to.Other())[..|messages|] && PageHas(u, to, messages, pks)
    requires AgainApart(u, w', to, pks)
    ensures Polls(u, Unacked(u, x, to, x.clock), to, x.clock, w'.history, SavedOf(w', to), pks)
  {
    UnackedIs(u, x, to, x.clock);
    ReadAndSaved(u, to, w', inbox);
    ChannelHandable(u.env.p, w, to, w', |messages|);
  }

  /** The first run reads the page. */
  lemma FirstReads(u: Setup, x: Net, w: World, to: Side) returns (w': World, inbox: Inbox)
    requires Proper(u) && Sim(u, x, w)
    ensures PageFor(u, x, to, x.clock).Page? && Inv(u.env.p, w) && Inv(u.env.p, w')
    ensures var messages, ch := Polled(u, x, to, x.clock), w.channels.Of(to.Other());
      && inbox == ReadPage(u, x, to, x.clock, messages) && ReadUpTo(w, to, |messages|, w')
      && PageCarried(u, to.Other(), messages, ch) && |inbox.shown| == |messages|
      && (messages != [] ==> InboxHolds(u, to, inbox, w'.parties.Of(to)))
      && (Live(u, x, to.Other()) != [] ==> messages != [])
  {
    assert ChannelSim(u, x, w, to.Other());
    EndToEnd.PageOf(u, x, to);
    w', inbox := PageReads(u, x, w, to, |Polled(u, x, to, x.clock)|);
    PageCarries(u, to.Other(), Live(u, x, to.Other()), w.channels.Of(to.Other()), |Polled(u, x, to, x.clock)|);
  }

  /** What a lost acknowledgement leads to: the messages are shown, polled again, and not shown again. */
  ghost predicate ShownOnce(u: Setup, x: Net, w: World, to: Side, w': World)
    requires PageFor(u, x, to, x.clock).Page?
    requires |Polled(u, x, to, x.clock)| <= |w.channels.Of(to.Other())|
  {
    var messages, y := Polled(u, x, to, x.clock), Unacked(u, x, to, x.clock);
    && Polled(u, y, to, x.clock) == messages && |y.shown.Of(to)| == |x.shown.Of(to)| + |messages|
    && (messages != [] && AgainApart(u, w', to, w.channels.Of(to.Other())[..|messages|]) ==>
          NothingHappens(u, y, to, x.clock))
  }

  /**
   * In every state of the system: when the acknowledgement of a run of the receive script is lost, the
   * next run over the page shows nothing, saves nothing and deletes nothing, if reading the messages
   * again meets no collision.
   */
  lemma ReadAgainShowsNothing(u: Setup, x: Net, w: World, to: Side) returns (w': World)
    requires Proper(u) && Sim(u, x, w)
    ensures PageFor(u, x, to, x.clock).Page? && Inv(u.env.p, w) && Inv(u.env.p, w')
    ensures ReadUpTo(w, to, |Polled(u, x, to, x.clock)|, w') && ShownOnce(u, x, w, to, w')
    ensures Live(u, x, to.Other()) != [] ==> Polled(u, x, to, x.clock) != []
  {
    var inbox;
    w', inbox := FirstReads(u, x, w, to);
    UnackedIs(u, x, to, x.clock);
    var messages, ch := Polled(u, x, to, x.clock), w.channels.Of(to.Other());
    if messages != [] && AgainApart(u, w', to, ch[..|messages|]) {
      PageHasChannel(u, to, messages, ch);
      AgainPolls(u, x, w, to, messages, inbox, w', ch[..|messages|]);
      AgainNothing(u, x, w, to, w', |messages|);
    }
  }

  lemma AgainNothing(u: Setup, x: Net, w: World, to: Side, w': World, n: nat)
    requires Proper(u) && Inv(u.env.p, w) && Inv(u.env.p, w') && ReadUpTo(w, to, n, w')
    requires var y, pks := Unacked(u, x, to, x.clock), w.channels.Of(to.Other())[..n];
      Polls(u, y, to, x.clock, w'.history, SavedOf(w', to), pks)
    ensures NothingHappens(u, Unacked(u, x, to, x.clock), to, x.clock)
  {
    var y, pks, saved := Unacked(u, x, to, x.clock), w.channels.Of(to.Other())[..n], SavedOf(w', to);
    ChannelHandable(u.env.p, w, to, w', n);
    PassedReadsNothing(u.env.p, w'.history, to, saved.state, saved.standing, pks);
    NothingHappensExactlyWhen(u, y, to, x.clock, w'.history, saved, pks);
  }

  // ---------------------------------------------------------------- a run in which it happens

  lemma FreeAgainApart(u: Setup, w: World, to: Side, n: nat, w': World)
    requires Proper(u) && Inv(u.env.p, w) && Inv(u.env.p, w') && ReadUpTo(w, to, n, w')
    requires CollisionFree(u.env.p) && w'.history != [] && Underived(u.env.p, w'.history[0].rootKey)
    ensures AgainApart(u, w', to, w.channels.Of(to.Other())[..n])
  {
    var p, h, me, pks := u.env.p, w'.history, w'.parties.Of(to), w.channels.Of(to.Other())[..n];
    PartyStands(p, w', to);
    ChannelHandable(p, w, to, w', n);
    FreeRootsApart(p, h);
    StandsInHistory(p, h, to, me.state, StandingOf(me));
    FreeAllApart(p, h, to, me.state, StandingOf(me), pks);
  }

  /**
   * With free derivations: what waits is shown, and with the acknowledgement lost it is polled again and
   * nothing happens.
   */
  lemma FreeReadAgain(u: Setup, x: Net, w: World, to: Side)
    requires Proper(u) && Sim(u, x, w) && Live(u, x, to.Other()) != []
    requires CollisionFree(u.env.p) && w.history != [] && Underived(u.env.p, w.history[0].rootKey)
    ensures var y := Unacked(u, x, to, x.clock);
      && |y.shown.Of(to)| > |x.shown.Of(to)| && Polled(u, y, to, x.clock) != [] && NothingHappens(u, y, to, x.clock)
  {
    var w' := ReadAgainShowsNothing(u, x, w, to);
    FreeAgainApart(u, w, to, |Polled(u, x, to, x.clock)|, w');
  }

  /**
   * A reachable state in which a run of the receive script shows a message and, its acknowledgement lost,
   * the next run polls the message again and changes nothing.
   */
  lemma AcksCanBeLost() returns (u: Setup, x: Net)
    ensures Proper(u) && ReachableNet(u, x)
    ensures var y := Unacked(u, x, Responder, x.clock);
      && |y.shown.Of(Responder)| > |x.shown.Of(Responder)|
      && Polled(u, y, Responder, x.clock) != [] && NothingHappens(u, y, Responder, x.clock)
  {
    var w;
    u, x, w := FirstWaiting();
    FreeReadAgain(u, x, w, Responder);
  }
}
