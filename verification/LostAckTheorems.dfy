/** What the receive script shows of pages on which envelopes stand that it has read before. */
module LostAckTheorems {
  import opened Mailbox
  import opened Ratchet
  import opened Protocol
  import opened Invariant
  import opened KeyUse
  import opened AnyOrder
  import opened Scripts
  import opened ScriptRuns
  import opened EndToEnd
  import opened LostAcks

  // ---------------------------------------------------------------- the order of what is read

  /** Whatever is ahead of the one standing is ahead of the other. */
  ghost predicate Beyond(p: Primitives, h: seq<Epoch>, s: Side, r': Standing, r: Standing) {
    forall pk | Handable(p, h, s, pk) && Reads(s, r', pk) :: Reads(s, r, pk)
  }

  ghost predicate InOrder(pks: seq<Packet>) {
    forall i, j | 0 <= i < j < |pks| :: Earlier(pks[i], pks[j])
  }

  ghost predicate AllAhead(s: Side, r: Standing, pks: seq<Packet>) {
    forall i | 0 <= i < |pks| :: Reads(s, r, pks[i])
  }

  ghost predicate AllPassed(s: Side, r: Standing, pks: seq<Packet>) {
    forall i | 0 <= i < |pks| :: !Reads(s, r, pks[i])
  }

  lemma TurnedIsBeyond(p: Primitives, h: seq<Epoch>, s: Side, st: State, r: Standing, pk: Packet)
    requires StandsAt(p, h, s, st, r) && InHistory(h, r) && Handable(p, h, s, pk)
    ensures Beyond(p, h, s, Turned(p, h, s, st, r, pk), r)
  {
    forall a | Handable(p, h, s, a) && Reads(s, Turned(p, h, s, st, r, pk), a) ensures Reads(s, r, a) {
      if !Reads(s, r, a) {
        PassedOn(p, h, s, st, r, pk, a);
      }
    }
  }

  /** What is still ahead comes after what was passed. */
  lemma AheadComesLater(p: Primitives, h: seq<Epoch>, s: Side, r: Standing, a: Packet, b: Packet)
    requires (r.On? ==> |h| <= r.epoch + 2) && Handable(p, h, s, a) && Handable(p, h, s, b)
    requires !Reads(s, r, a) && Reads(s, r, b)
    ensures Earlier(a, b)
  {
    if !Earlier(a, b) {
      PassedDown(p, h, s, r, a, b);
    }
  }

  /** Messages passed, then messages ahead of where that left the session. */
  lemma JoinInOrder(p: Primitives, h: seq<Epoch>, s: Side, r: Standing, before: seq<Packet>, more: seq<Packet>)
    requires r.On? ==> |h| <= r.epoch + 2
    requires AllHandable(p, h, s, before) && AllHandable(p, h, s, more)
    requires InOrder(before) && InOrder(more) && AllPassed(s, r, before) && AllAhead(s, r, more)
    ensures InOrder(before + more)
  {
    var all := before + more;
    forall i, j | 0 <= i < j < |all| ensures Earlier(all[i], all[j]) {
      if i < |before| <= j {
        assert Handable(p, h, s, before[i]) && Handable(p, h, s, more[j - |before|]);
        AheadComesLater(p, h, s, r, before[i], more[j - |before|]);
      }
    }
  }

  lemma BeyondAhead(p: Primitives, h: seq<Epoch>, s: Side, r': Standing, r: Standing, pks: seq<Packet>)
    requires Beyond(p, h, s, r', r) && AllHandable(p, h, s, pks)
    ensures AllAhead(s, r', pks) ==> AllAhead(s, r, pks)
    ensures AllPassed(s, r, pks) ==> AllPassed(s, r', pks)
  {
    forall i | 0 <= i < |pks| ensures Reads(s, r', pks[i]) ==> Reads(s, r, pks[i]) {
      assert Handable(p, h, s, pks[i]);
    }
  }

  lemma {:induction false} PickedFrom<T>(xs: seq<T>, marks: seq<bool>)
    requires |xs| == |marks|
    ensures forall x | x in Picked(xs, marks) :: x in xs
    decreases |xs|
  {
    if xs == [] {
    } else {
      PickedFrom(xs[1..], marks[1..]);
    }
  }

  lemma {:induction false} PickedHas<T>(xs: seq<T>, marks: seq<bool>, i: nat)
    requires |xs| == |marks| && i < |xs|
    ensures marks[i] ==> xs[i] in Picked(xs, marks)
    decreases |xs|
  {
    if i == 0 {
    } else {
      PickedHas(xs[1..], marks[1..], i - 1);
    }
  }

  lemma PickedHandable(p: Primitives, h: seq<Epoch>, s: Side, pks: seq<Packet>, marks: seq<bool>)
    requires |pks| == |marks| && AllHandable(p, h, s, pks)
    ensures AllHandable(p, h, s, Picked(pks, marks))
  {
    PickedFrom(pks, marks);
    var picked := Picked(pks, marks);
    forall i | 0 <= i < |picked| ensures Handable(p, h, s, picked[i]) {
      assert picked[i] in pks;
    }
  }

  // ---------------------------------------------------------------- one page

  /** What is read of a page is ahead of the session, in order, and passed by what is saved. */
  ghost predicate PageInOrder(p: Primitives, h: seq<Epoch>, s: Side, r: Standing, saved: Saved, saved': Saved,
                              taken: seq<Packet>) {
    && InOrder(taken) && AllAhead(s, r, taken) && AllPassed(s, saved'.standing, taken)
    && Beyond(p, h, s, saved'.standing, saved.standing)
  }

  function Taken(p: Primitives, h: seq<Epoch>, s: Side, st: State, r: Standing, pks: seq<Packet>): seq<Packet>
    requires st.Valid() && InHistory(h, r) && AllInHistory(h, pks)
  {
    Picked(pks, Read(p, h, s, st, r, pks))
  }

  lemma TakenFirst(p: Primitives, h: seq<Epoch>, s: Side, st: State, r: Standing, pks: seq<Packet>)
    requires pks != [] && st.Valid() && InHistory(h, r) && AllInHistory(h, pks)
    ensures Taken(p, h, s, st, r, pks)
      == (if Reads(s, r, pks[0]) then [pks[0]] else [])
         + Taken(p, h, s, Handed(p, st, pks[0]), Turned(p, h, s, st, r, pks[0]), pks[1..])
  {
    var read := Read(p, h, s, st, r, pks);
    assert read[1..] == Read(p, h, s, Handed(p, st, pks[0]), Turned(p, h, s, st, r, pks[0]), pks[1..]);
  }

  lemma {:induction false} TakenInOrder(p: Primitives, h: seq<Epoch>, s: Side, st: State, r: Standing, saved: Saved,
                                        pks: seq<Packet>)
    requires Lawful(p) && HistoryOk(p, h) && RootsApart(h) && StandsAt(p, h, s, st, r) && AllHandable(p, h, s, pks)
    requires st.Valid() && InHistory(h, r) && AllInHistory(h, pks) && AllApart(p, h, s, st, r, pks)
    requires Beyond(p, h, s, r, saved.standing)
    ensures PageInOrder(p, h, s, r, saved, SavedAfter(p, h, s, st, r, saved, pks), Taken(p, h, s, st, r, pks))
    decreases |pks|
  {
    if pks == [] {
    } else {
      var st1, r1 := Handed(p, st, pks[0]), Turned(p, h, s, st, r, pks[0]);
      var saved1 := SavedNext(p, h, s, st, r, saved, pks[0]);
      HandableTail(p, h, s, pks);
      OneDecided(p, h, s, st, r, pks[0]);
      TurnedIsBeyond(p, h, s, st, r, pks[0]);
      TakenInOrder(p, h, s, st1, r1, saved1, pks[1..]);
      TakenFirst(p, h, s, st, r, pks);
      var rest := Taken(p, h, s, st1, r1, pks[1..]);
      PickedHandable(p, h, s, pks[1..], Read(p, h, s, st1, r1, pks[1..]));
      OneMoreInOrder(p, h, s, st, r, saved, pks[0], rest, SavedAfter(p, h, s, st, r, saved, pks));
    }
  }

  lemma OneMoreInOrder(p: Primitives, h: seq<Epoch>, s: Side, st: State, r: Standing, saved: Saved, pk: Packet,
                       rest: seq<Packet>, saved': Saved)
    requires StandsAt(p, h, s, st, r) && InHistory(h, r) && st.Valid() && Handable(p, h, s, pk)
    requires AllHandable(p, h, s, rest)
    requires Turned(p, h, s, st, r, pk).On? ==> |h| <= Turned(p, h, s, st, r, pk).epoch + 2
    requires Beyond(p, h, s, Turned(p, h, s, st, r, pk), r) && Beyond(p, h, s, r, saved.standing)
    requires PageInOrder(p, h, s, Turned(p, h, s, st, r, pk), SavedNext(p, h, s, st, r, saved, pk), saved', rest)
    ensures PageInOrder(p, h, s, r, saved, saved', (if Reads(s, r, pk) then [pk] else []) + rest)
  {
    var r1 := Turned(p, h, s, st, r, pk);
    BeyondAhead(p, h, s, r1, r, rest);
    if Reads(s, r, pk) {
      ReadIsPassed(p, h, s, st, r, pk);
      JoinInOrder(p, h, s, r1, [pk], rest);
      assert Beyond(p, h, s, saved'.standing, r1);
      BeyondAhead(p, h, s, saved'.standing, r1, [pk]);
    } else {
      assert [] + rest == rest;
    }
  }

  // ---------------------------------------------------------------- many runs of the receive script

  /** One run: the page it polls, the packets the page carries, and the time. */
  datatype Visit = Visit(messages: seq<PollMsg>, pks: seq<Packet>, at: int)

  function Visited(u: Setup, to: Side, disk: Disk, v: Visit): Inbox {
    ReceiveLoop(u.env, u.users.Of(to), Inbox(disk, map[], [], []), v.messages, v.at)
  }

  /** What run after run shows, each starting from the files the one before it left. */
  function ShownOver(u: Setup, to: Side, disk: Disk, visits: seq<Visit>): seq<Letter>
    decreases |visits|
  {
    if visits == [] then []
    else Visited(u, to, disk, visits[0]).shown + ShownOver(u, to, Visited(u, to, disk, visits[0]).disk, visits[1..])
  }

  ghost predicate VisitOk(u: Setup, to: Side, h: seq<Epoch>, v: Visit) {
    PageHas(u, to, v.messages, v.pks) && AllHandable(u.env.p, h, to, v.pks)
  }

  ghost predicate VisitsOk(u: Setup, to: Side, h: seq<Epoch>, visits: seq<Visit>) {
    forall i | 0 <= i < |visits| :: VisitOk(u, to, h, visits[i])
  }

  /** Reading the page of each run meets no collision. */
  ghost predicate VisitsApart(u: Setup, to: Side, h: seq<Epoch>, saved: Saved, visits: seq<Visit>)
    decreases |visits|
  {
    visits == [] || (
      && SavedInHistory(h, saved) && AllInHistory(h, visits[0].pks)
      && AllApart(u.env.p, h, to, saved.state, saved.standing, visits[0].pks)
      && VisitsApart(u, to, h, SavedBy(u, to, h, saved, visits[0]), visits[1..]))
  }

  function SavedBy(u: Setup, to: Side, h: seq<Epoch>, saved: Saved, v: Visit): Saved
    requires SavedInHistory(h, saved) && AllInHistory(h, v.pks)
  {
    SavedAfter(u.env.p, h, to, saved.state, saved.standing, saved, v.pks)
  }

  /** The plaintext of the packet, in an envelope that carries it. */
  predicate LetterOf(u: Setup, to: Side, letter: Letter, pk: Packet) {
    letter.text == pk.plaintext && Carries(u, to.Other(), letter.blob, pk)
  }

  ghost predicate LettersOf(u: Setup, to: Side, letters: seq<Letter>, pks: seq<Packet>) {
    && |letters| == |pks|
    && forall i {:trigger LetterOf(u, to, letters[i], pks[i])} | 0 <= i < |letters| ::
      LetterOf(u, to, letters[i], pks[i])
  }

  lemma LettersJoin(u: Setup, to: Side, a: seq<Letter>, pks: seq<Packet>, b: seq<Letter>, more: seq<Packet>)
    requires LettersOf(u, to, a, pks) && LettersOf(u, to, b, more)
    ensures LettersOf(u, to, a + b, pks + more)
  {
    var letters, packets := a + b, pks + more;
    forall i {:trigger LetterOf(u, to, letters[i], packets[i])} | 0 <= i < |letters|
      ensures LetterOf(u, to, letters[i], packets[i])
    {
      if i < |a| {
        assert letters[i] == a[i] && packets[i] == pks[i];
        assert LetterOf(u, to, a[i], pks[i]);
      } else {
        var j := i - |a|;
        assert letters[i] == b[j] && packets[i] == more[j];
        assert LetterOf(u, to, b[j], more[j]);
      }
    }
  }

  lemma PickedLettersMore(u: Setup, to: Side, letter: Letter, letters: seq<Letter>, pk: Packet, pks: seq<Packet>,
                          m: bool,
                          marks: seq<bool>)
    requires |letters| == |pks| == |marks| && LetterOf(u, to, letter, pk)
    requires LettersOf(u, to, Picked(letters, marks), Picked(pks, marks))
    ensures LettersOf(u, to, Picked([letter] + letters, [m] + marks), Picked([pk] + pks, [m] + marks))
  {
    PickedFirst(letter, letters, m, marks);
    PickedFirst(pk, pks, m, marks);
    LettersJoin(u, to, if m then [letter] else [], if m then [pk] else [], Picked(letters, marks), Picked(pks, marks));
  }

  lemma {:induction false} PickedLetters(u: Setup, to: Side, messages: seq<PollMsg>, pks: seq<Packet>, marks: seq<bool>)
    requires PageHas(u, to, messages, pks) && |marks| == |pks|
    ensures LettersOf(u, to, Picked(EndToEnd.Opened(messages, pks), marks), Picked(pks, marks))
    decreases |pks|
  {
    if pks == [] {
    } else {
      var letter := Letter(messages[0].blob, pks[0].plaintext);
      var letters := EndToEnd.Opened(messages[1..], pks[1..]);
      PageTail(u, to, messages, pks);
      PickedLetters(u, to, messages[1..], pks[1..], marks[1..]);
      assert Carries(u, to.Other(), messages[0].blob, pks[0]);
      PickedLettersMore(u, to, letter, letters, pks[0], pks[1..], marks[0], marks[1..]);
      assert EndToEnd.Opened(messages, pks) == [letter] + letters;
      assert [marks[0]] + marks[1..] == marks && [pks[0]] + pks[1..] == pks;
    }
  }

  /** The first run, by itself. */
  lemma OneVisit(u: Setup, to: Side, h: seq<Epoch>, saved: Saved, disk: Disk, v: Visit) returns (taken: seq<Packet>)
    requires Lawful(u.env.p) && HistoryOk(u.env.p, h) && RootsApart(h) && VisitOk(u, to, h, v)
    requires InFile(u, to, disk, saved) && SavedOk(u.env.p, h, to, saved)
    requires SavedInHistory(h, saved) && AllInHistory(h, v.pks)
    requires AllApart(u.env.p, h, to, saved.state, saved.standing, v.pks)
    ensures LettersOf(u, to, Visited(u, to, disk, v).shown, taken) && AllHandable(u.env.p, h, to, taken)
    ensures PageInOrder(u.env.p, h, to, saved.standing, saved, SavedBy(u, to, h, saved, v), taken)
    ensures InFile(u, to, Visited(u, to, disk, v).disk, SavedBy(u, to, h, saved, v))
    ensures SavedOk(u.env.p, h, to, SavedBy(u, to, h, saved, v)) && SavedInHistory(h, SavedBy(u, to, h, saved, v))
  {
    var p, st, r, none := u.env.p, saved.state, saved.standing, Inbox(disk, map[], [], []);
    LoopReads(u, to, h, none, st, r, saved, v.messages, v.pks, v.at);
    TakenInOrder(p, h, to, st, r, saved, v.pks);
    var read := Read(p, h, to, st, r, v.pks);
    taken := Picked(v.pks, read);
    PickedLetters(u, to, v.messages, v.pks, read);
    PickedHandable(p, h, to, v.pks, read);
    assert [] + Picked(EndToEnd.Opened(v.messages, v.pks), read) == Picked(EndToEnd.Opened(v.messages, v.pks), read);
  }

  lemma VisitsTail(u: Setup, to: Side, h: seq<Epoch>, visits: seq<Visit>)
    requires VisitsOk(u, to, h, visits) && visits != []
    ensures VisitOk(u, to, h, visits[0]) && VisitsOk(u, to, h, visits[1..])
  {
    forall i | 0 <= i < |visits[1..]| ensures VisitOk(u, to, h, visits[1..][i]) {
      assert VisitOk(u, to, h, visits[i + 1]);
    }
  }

  /**
   * Over any number of runs of the receive script, on whatever pages of messages of the other side,
   * deleted or not and in whatever order, what is shown are the texts of different messages in the order
   * in which they were sent, all of them ahead of the session saved at the start: nothing is shown twice,
   * and nothing that was passed over is shown any more.
   */
  lemma {:induction false} NothingTwiceAndInOrder(u: Setup, to: Side, h: seq<Epoch>, saved: Saved, disk: Disk,
      visits: seq<Visit>)
    returns (taken: seq<Packet>)
    requires Lawful(u.env.p) && HistoryOk(u.env.p, h) && RootsApart(h) && VisitsOk(u, to, h, visits)
    requires InFile(u, to, disk, saved) && SavedOk(u.env.p, h, to, saved) && VisitsApart(u, to, h, saved, visits)
    ensures LettersOf(u, to, ShownOver(u, to, disk, visits), taken) && AllHandable(u.env.p, h, to, taken)
    ensures InOrder(taken) && AllAhead(to, saved.standing, taken)
    decreases |visits|
  {
    if visits == [] {
      taken := [];
    } else {
      var saved', disk' := SavedBy(u, to, h, saved, visits[0]), Visited(u, to, disk, visits[0]).disk;
      VisitsTail(u, to, h, visits);
      var first := OneVisit(u, to, h, saved, disk, visits[0]);
      var more := NothingTwiceAndInOrder(u, to, h, saved', disk', visits[1..]);
      taken := first + more;
      LettersJoin(u, to, Visited(u, to, disk, visits[0]).shown, first, ShownOver(u, to, disk', visits[1..]), more);
      VisitsJoin(u.env.p, h, to, saved, saved', first, more);
    }
  }

  lemma VisitsJoin(p: Primitives, h: seq<Epoch>, s: Side, saved: Saved, saved': Saved, first: seq<Packet>,
                   more: seq<Packet>)
    requires PageInOrder(p, h, s, saved.standing, saved, saved', first) && InOrder(more)
    requires AllAhead(s, saved'.standing, more)
    requires AllHandable(p, h, s, first) && AllHandable(p, h, s, more)
    requires saved'.standing.On? ==> |h| <= saved'.standing.epoch + 2
    ensures InOrder(first + more) && AllAhead(s, saved.standing, first + more) && AllHandable(p, h, s, first + more)
  {
    JoinInOrder(p, h, s, saved'.standing, first, more);
    BeyondAhead(p, h, s, saved'.standing, saved.standing, more);
  }

  /** Whatever a run reads, nothing sent before it, and not the message itself, is shown in any run after that. */
  lemma PassedOverIsNeverShown(u: Setup, to: Side, h: seq<Epoch>, saved: Saved, disk: Disk, v: Visit,
                               visits: seq<Visit>)
    returns (first: seq<Packet>, later: seq<Packet>)
    requires Lawful(u.env.p) && HistoryOk(u.env.p, h) && RootsApart(h) && VisitOk(u, to, h, v)
    requires VisitsOk(u, to, h, visits)
    requires InFile(u, to, disk, saved) && SavedOk(u.env.p, h, to, saved)
    requires SavedInHistory(h, saved) && AllInHistory(h, v.pks)
    requires AllApart(u.env.p, h, to, saved.state, saved.standing, v.pks)
    requires VisitsApart(u, to, h, SavedBy(u, to, h, saved, v), visits)
    ensures LettersOf(u, to, Visited(u, to, disk, v).shown, first)
    ensures LettersOf(u, to, ShownOver(u, to, Visited(u, to, disk, v).disk, visits), later)
    ensures forall a, b | a in first && b in later :: Earlier(a, b)
  {
    var saved' := SavedBy(u, to, h, saved, v);
    first := OneVisit(u, to, h, saved, disk, v);
    later := NothingTwiceAndInOrder(u, to, h, saved', Visited(u, to, disk, v).disk, visits);
    AllComeLater(u.env.p, h, to, saved'.standing, first, later);
  }

  lemma AllComeLater(p: Primitives, h: seq<Epoch>, s: Side, r: Standing, first: seq<Packet>, later: seq<Packet>)
    requires r.On? ==> |h| <= r.epoch + 2
    requires AllHandable(p, h, s, first) && AllHandable(p, h, s, later) && AllPassed(s, r, first)
    requires AllAhead(s, r, later)
    ensures forall a, b | a in first && b in later :: Earlier(a, b)
  {
    forall a, b | a in first && b in later ensures Earlier(a, b) {
      var i :| 0 <= i < |first| && first[i] == a;
      var j :| 0 <= j < |later| && later[j] == b;
      assert Handable(p, h, s, first[i]) && Handable(p, h, s, later[j]);
      AheadComesLater(p, h, s, r, a, b);
    }
  }

  // ---------------------------------------------------------------- one run on the net

  /** A user with a session file, and a page of messages of the other side that meets no collision. */
  ghost predicate Polls(u: Setup, x: Net, to: Side, now: int, h: seq<Epoch>, saved: Saved, pks: seq<Packet>) {
    && Lawful(u.env.p) && HistoryOk(u.env.p, h) && RootsApart(h) && PageFor(u, x, to, now).Page?
    && InFile(u, to, x.disks.Of(to), saved) && SavedOk(u.env.p, h, to, saved)
    && PageHas(u, to, Polled(u, x, to, now), pks) && AllHandable(u.env.p, h, to, pks)
    && SavedInHistory(h, saved) && AllInHistory(h, pks)
    && AllApart(u.env.p, h, to, saved.state, saved.standing, pks)
  }

  /** Which messages of the page are read. */
  function ReadOf(u: Setup, to: Side, h: seq<Epoch>, saved: Saved, pks: seq<Packet>): (read: seq<bool>)
    requires SavedInHistory(h, saved) && AllInHistory(h, pks)
    ensures |read| == |pks|
  {
    Read(u.env.p, h, to, saved.state, saved.standing, pks)
  }

  /** A run of the receive script shows exactly the messages that are read, and asks to delete exactly those. */
  lemma RunShows(u: Setup, x: Net, to: Side, now: int, h: seq<Epoch>, saved: Saved, pks: seq<Packet>)
    requires Polls(u, x, to, now, h, saved, pks)
    ensures SavedInHistory(h, saved) && AllInHistory(h, pks) && |Polled(u, x, to, now)| == |pks|
    ensures var messages := Polled(u, x, to, now); var inbox := ReadPage(u, x, to, now, messages);
      && inbox.shown == Picked(EndToEnd.Opened(messages, pks), ReadOf(u, to, h, saved, pks))
      && inbox.msgIds == Picked(Ids(messages), ReadOf(u, to, h, saved, pks))
      && (true !in ReadOf(u, to, h, saved, pks) ==> inbox.disk == x.disks.Of(to))
  {
    var messages, none := Polled(u, x, to, now), Inbox(x.disks.Of(to), map[], [], []);
    LoopReads(u, to, h, none, saved.state, saved.standing, saved, messages, pks, now);
    var read := ReadOf(u, to, h, saved, pks);
    assert [] + Picked(EndToEnd.Opened(messages, pks), read) == Picked(EndToEnd.Opened(messages, pks), read);
    assert [] + Picked(Ids(messages), read) == Picked(Ids(messages), read);
  }

  lemma {:induction false} PickedNone<T>(xs: seq<T>, marks: seq<bool>)
    requires |xs| == |marks|
    ensures Picked(xs, marks) == [] <==> true !in marks
    decreases |xs|
  {
    if xs == [] {
    } else {
      PickedNone(xs[1..], marks[1..]);
      assert marks == [marks[0]] + marks[1..];
    }
  }

  /** Nothing is shown, saved or deleted. */
  predicate NothingHappens(u: Setup, x: Net, to: Side, now: int) {
    AfterReceive(u, x, to, now) == x.(clock := now)
  }

  lemma EmptyInbox(u: Setup, x: Net, to: Side, now: int, inbox: Inbox)
    requires inbox.disk == x.disks.Of(to) && inbox.msgIds == [] && inbox.shown == []
    ensures WithInbox(u, x, to, now, inbox) == x.(clock := now)
  {
    assert x.shown.Of(to) + [] == x.shown.Of(to);
  }

  lemma ShowsSomething(u: Setup, x: Net, to: Side, now: int, inbox: Inbox)
    requires inbox.shown != []
    ensures WithInbox(u, x, to, now, inbox) != x.(clock := now)
  {
    assert |x.shown.Of(to) + inbox.shown| > |x.shown.Of(to)|;
  }

  /**
   * A run on any page changes nothing at all, and so meets the page again, exactly when it reads none of
   * the messages.
   */
  lemma NothingHappensExactlyWhen(u: Setup, x: Net, to: Side, now: int, h: seq<Epoch>, saved: Saved, pks: seq<Packet>)
    requires Polls(u, x, to, now, h, saved, pks)
    ensures SavedInHistory(h, saved) && AllInHistory(h, pks)
    ensures NothingHappens(u, x, to, now) <==> true !in ReadOf(u, to, h, saved, pks)
  {
    var messages := Polled(u, x, to, now);
    var inbox, read := ReadPage(u, x, to, now, messages), ReadOf(u, to, h, saved, pks);
    RunShows(u, x, to, now, h, saved, pks);
    PickedNone(EndToEnd.Opened(messages, pks), read);
    PickedNone(Ids(messages), read);
    if true !in read {
      EmptyInbox(u, x, to, now, inbox);
    } else {
      ShowsSomething(u, x, to, now, inbox);
    }
  }

  // ---------------------------------------------------------------- pages of one chain

  /** All messages of the page are of the chain the saved session reads. */
  ghost predicate OfOneChain(to: Side, saved: Saved, pks: seq<Packet>) {
    saved.standing.On? && AllOfEpoch(pks, Reading(to, saved.standing.epoch))
  }

  lemma OneChainRead(u: Setup, x: Net, to: Side, now: int, h: seq<Epoch>, saved: Saved, pks: seq<Packet>)
    requires Polls(u, x, to, now, h, saved, pks) && OfOneChain(to, saved, pks)
    ensures SavedInHistory(h, saved) && AllInHistory(h, pks)
    ensures InPlace(ReadOf(u, to, h, saved, pks), Numbers(pks), saved.standing.place)
  {
    OneChain(u.env.p, h, to, saved.state, saved.standing, pks);
  }

  /** Which of them are read, in sending order: those at least as many places ahead as messages stand before them. */
  lemma WhichAreRead(u: Setup, x: Net, to: Side, now: int, h: seq<Epoch>, saved: Saved, pks: seq<Packet>)
    requires Polls(u, x, to, now, h, saved, pks) && OfOneChain(to, saved, pks) && Climbing(Numbers(pks))
    ensures SavedInHistory(h, saved) && AllInHistory(h, pks)
    ensures forall i | 0 <= i < |pks| ::
      ReadOf(u, to, h, saved, pks)[i] <==> Numbers(pks)[i] >= saved.standing.place + i
  {
    OneChainRead(u, x, to, now, h, saved, pks);
    ClimbingInPlace(ReadOf(u, to, h, saved, pks), Numbers(pks), saved.standing.place);
  }

  lemma ClimbingInPlace(read: seq<bool>, ns: seq<nat>, q: nat)
    requires InPlace(read, ns, q) && Climbing(ns)
    ensures forall i | 0 <= i < |ns| :: read[i] <==> ns[i] >= q + i
  {
    forall i | 0 <= i < |ns| ensures read[i] <==> ns[i] >= q + i {
      ClimbingRead(ns, q, i);
    }
  }

  /**
   * Every new message of the page is read if and only if there is none, or the first of them is at least
   * as many places ahead of the saved session as messages read before stand in front of it.
   */
  lemma AllNewAreReadExactlyWhen(u: Setup, x: Net, to: Side, now: int, h: seq<Epoch>, saved: Saved, pks: seq<Packet>)
    requires Polls(u, x, to, now, h, saved, pks) && OfOneChain(to, saved, pks) && Climbing(Numbers(pks))
    ensures SavedInHistory(h, saved) && AllInHistory(h, pks)
    ensures var ns, q := Numbers(pks), saved.standing.place; var b := Behind(ns, q);
      (forall i | 0 <= i < |ns| && ns[i] >= q :: ReadOf(u, to, h, saved, pks)[i]) <==> b == |ns| || ns[b] >= q + b
  {
    OneChainRead(u, x, to, now, h, saved, pks);
    NewInPlace(ReadOf(u, to, h, saved, pks), Numbers(pks), saved.standing.place);
  }

  lemma NewInPlace(read: seq<bool>, ns: seq<nat>, q: nat)
    requires InPlace(read, ns, q) && Climbing(ns)
    ensures var b := Behind(ns, q);
      (forall i | 0 <= i < |ns| && ns[i] >= q :: read[i]) <==> b == |ns| || ns[b] >= q + b
  {
    AllNewReadExactlyWhen(ns, q);
  }

  /** In any order, the run changes nothing exactly when message i is fewer than i places ahead, for every i. */
  lemma StuckExactlyWhen(u: Setup, x: Net, to: Side, now: int, h: seq<Epoch>, saved: Saved, pks: seq<Packet>)
    requires Polls(u, x, to, now, h, saved, pks) && OfOneChain(to, saved, pks)
    ensures var ns, q := Numbers(pks), saved.standing.place;
      NothingHappens(u, x, to, now) <==> forall i | 0 <= i < |ns| :: ns[i] < q + i
  {
    NothingHappensExactlyWhen(u, x, to, now, h, saved, pks);
    OneChainRead(u, x, to, now, h, saved, pks);
    NoneInPlace(ReadOf(u, to, h, saved, pks), Numbers(pks), saved.standing.place);
  }

  lemma NoneInPlace(read: seq<bool>, ns: seq<nat>, q: nat)
    requires InPlace(read, ns, q)
    ensures true !in read <==> forall i | 0 <= i < |ns| :: ns[i] < q + i
  {
    CameWhenAllBehind(ns, q);
    if true in read {
      var i :| 0 <= i < |read| && read[i];
      assert ns[i] >= Came(ns[..i], q);
    }
  }

  /** Messages that are all refused take the session one place on each. */
  lemma CameWhenAllBehind(ns: seq<nat>, q: nat)
    ensures (forall i | 0 <= i < |ns| :: ns[i] < Came(ns[..i], q)) <==> (forall i | 0 <= i < |ns| :: ns[i] < q + i)
  {
    if forall i | 0 <= i < |ns| :: ns[i] < Came(ns[..i], q) {
      forall i | 0 <= i < |ns| ensures ns[i] < q + i {
        CameBehind(ns, q, i);
      }
    }
    if forall i | 0 <= i < |ns| :: ns[i] < q + i {
      forall i | 0 <= i < |ns| ensures ns[i] < Came(ns[..i], q) {
        CameNoLess(ns[..i], q);
      }
    }
  }

  lemma {:induction false} CameBehind(ns: seq<nat>, q: nat, i: nat)
    requires i <= |ns| && forall j | 0 <= j < i :: ns[j] < Came(ns[..j], q)
    ensures Came(ns[..i], q) == q + i
    decreases i
  {
    if i == 0 {
    } else {
      CameBehind(ns, q, i - 1);
      CameSnoc(ns[..i - 1], q, ns[i - 1]);
      assert ns[..i] == ns[..i - 1] + [ns[i - 1]];
    }
  }

  lemma {:induction false} CameNoLess(ns: seq<nat>, q: nat)
    ensures Came(ns, q) >= q + |ns|
    decreases |ns|
  {
    if ns == [] {
    } else {
      CameNoLess(ns[1..], Max(q, ns[0]) + 1);
    }
  }

  lemma ConsecutiveBehind(ns: seq<nat>, first: nat, q: nat)
    requires ns != [] && forall i | 0 <= i < |ns| :: ns[i] == first + i
    ensures (forall i | 0 <= i < |ns| :: ns[i] < q + i) <==> first < q
  {
    assert ns[0] == first;
  }

  /** Of consecutive messages nothing is read exactly when the first is one that was read before. */
  lemma OneReadBeforeBlocksAll(u: Setup, x: Net, to: Side, now: int, h: seq<Epoch>, saved: Saved, pks: seq<Packet>,
                               first: nat)
    requires Polls(u, x, to, now, h, saved, pks) && OfOneChain(to, saved, pks) && pks != []
    requires forall i | 0 <= i < |pks| :: Numbers(pks)[i] == first + i
    ensures NothingHappens(u, x, to, now) <==> first < saved.standing.place
  {
    StuckExactlyWhen(u, x, to, now, h, saved, pks);
    ConsecutiveBehind(Numbers(pks), first, saved.standing.place);
  }

  /** A message of an older epoch on the page ends the reading: nothing from it on is shown. */
  lemma NothingBehindAnOlder(u: Setup, x: Net, to: Side, now: int, h: seq<Epoch>, saved: Saved, pks: seq<Packet>,
                             i: nat)
    requires Polls(u, x, to, now, h, saved, pks) && i < |pks| && saved.standing.On?
    requires pks[i].epoch < Reading(to, saved.standing.epoch)
    ensures SavedInHistory(h, saved) && AllInHistory(h, pks)
    ensures forall j | i <= j < |pks| :: !ReadOf(u, to, h, saved, pks)[j]
  {
    OlderFromThere(u.env.p, h, to, saved.state, saved.standing, pks, i);
  }

  // ---------------------------------------------------------------- until the page changes

  /** A page of consecutive messages of the chain being read, the first of them read before. */
  ghost predicate Blocked(u: Setup, to: Side, h: seq<Epoch>, saved: Saved, v: Visit) {
    && VisitOk(u, to, h, v) && SavedInHistory(h, saved) && AllInHistory(h, v.pks)
    && AllApart(u.env.p, h, to, saved.state, saved.standing, v.pks) && OfOneChain(to, saved, v.pks)
    && v.pks != [] && v.pks[0].number < saved.standing.place
    && forall i | 0 <= i < |v.pks| :: Numbers(v.pks)[i] == v.pks[0].number + i
  }

  lemma BlockedVisit(u: Setup, to: Side, h: seq<Epoch>, saved: Saved, disk: Disk, v: Visit)
    requires Lawful(u.env.p) && HistoryOk(u.env.p, h) && RootsApart(h) && Blocked(u, to, h, saved, v)
    requires InFile(u, to, disk, saved) && SavedOk(u.env.p, h, to, saved)
    ensures Visited(u, to, disk, v).shown == [] && Visited(u, to, disk, v).disk == disk
  {
    var none, read := Inbox(disk, map[], [], []), ReadOf(u, to, h, saved, v.pks);
    LoopReads(u, to, h, none, saved.state, saved.standing, saved, v.messages, v.pks, v.at);
    BlockedReadsNone(u, to, h, saved, v);
    PickedNone(EndToEnd.Opened(v.messages, v.pks), read);
  }

  lemma BlockedReadsNone(u: Setup, to: Side, h: seq<Epoch>, saved: Saved, v: Visit)
    requires Lawful(u.env.p) && HistoryOk(u.env.p, h) && RootsApart(h) && Blocked(u, to, h, saved, v)
    requires SavedOk(u.env.p, h, to, saved)
    ensures SavedInHistory(h, saved) && AllInHistory(h, v.pks) && true !in ReadOf(u, to, h, saved, v.pks)
  {
    OneChain(u.env.p, h, to, saved.state, saved.standing, v.pks);
    NoneInPlace(ReadOf(u, to, h, saved, v.pks), Numbers(v.pks), saved.standing.place);
    ConsecutiveBehind(Numbers(v.pks), v.pks[0].number, saved.standing.place);
  }

  /**
   * As long as a message that was read before stands at the front of the consecutive messages on the
   * page, run after run shows nothing, whatever is deposited behind it.
   */
  lemma {:induction false} BlockedRuns(u: Setup, to: Side, h: seq<Epoch>, saved: Saved, disk: Disk, visits: seq<Visit>)
    requires Lawful(u.env.p) && HistoryOk(u.env.p, h) && RootsApart(h)
    requires InFile(u, to, disk, saved) && SavedOk(u.env.p, h, to, saved)
    requires forall i | 0 <= i < |visits| :: Blocked(u, to, h, saved, visits[i])
    ensures ShownOver(u, to, disk, visits) == []
    decreases |visits|
  {
    if visits == [] {
    } else {
      assert Blocked(u, to, h, saved, visits[0]);
      BlockedVisit(u, to, h, saved, disk, visits[0]);
      forall i | 0 <= i < |visits[1..]| ensures Blocked(u, to, h, saved, visits[1..][i]) {
        assert Blocked(u, to, h, saved, visits[i + 1]);
      }
      BlockedRuns(u, to, h, saved, disk, visits[1..]);
    }
  }
}
