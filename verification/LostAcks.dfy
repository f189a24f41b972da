/**
 * Envelopes that were read but not deleted, because their acknowledgement was lost, and pages on which
 * they stand: which envelopes the receive script then reads, which it never reads any more, and that
 * it shows nothing twice.
 */
module LostAcks {
  import opened Data
  import opened Mailbox
  import opened Ratchet
  import opened Persistence
  import opened Protocol
  import opened Invariant
  import opened AgreementTheorems
  import opened KeyUse
  import opened AnyOrder
  import opened Scripts
  import opened ScriptRuns
  import opened EndToEnd

  // ---------------------------------------------------------------- sessions that are saved

  /** One entry a name, and no empty key. */
  predicate KeysKept(entries: seq<Entry>) {
    UniqueNames(entries) && forall i | 0 <= i < |entries| :: entries[i].messageKey != []
  }

  lemma {:induction false} SetKeepsNames(entries: seq<Entry>, name: string, key: Bytes, i: nat)
    requires i < |SetEntry(entries, name, key)|
    ensures var e := SetEntry(entries, name, key)[i]; (e.name == name && e.messageKey == key) || e in entries
    decreases |entries|
  {
    if entries == [] || entries[0].name == name || i == 0 {
    } else {
      SetKeepsNames(entries[1..], name, key, i - 1);
    }
  }

  lemma {:induction false} SetKeeps(entries: seq<Entry>, name: string, key: Bytes)
    requires KeysKept(entries) && key != []
    ensures KeysKept(SetEntry(entries, name, key))
    decreases |entries|
  {
    if entries == [] || entries[0].name == name {
    } else {
      var rest := SetEntry(entries[1..], name, key);
      SetKeeps(entries[1..], name, key);
      forall i | 0 <= i < |rest| ensures rest[i].name != entries[0].name {
        SetKeepsNames(entries[1..], name, key, i);
      }
    }
  }

  lemma {:induction false} SkipKeeps(p: Primitives, st: State, until: nat)
    requires Lawful(p) && st.Valid() && KeysKept(st.skipped)
    ensures KeysKept(Skip(p, st, until).skipped)
    decreases if st.receivingChain.Some? then until - st.receivingChain.value.number else 0
  {
    if st.receivingChain.None? || st.receivingChain.value.number >= until {
    } else {
      var c := st.receivingChain.value;
      SetKeeps(st.skipped, Label(st.remotePublicKey.value, c.number), p.chainStep(c.key).messageKey);
      SkipKeeps(p, SkipOne(p, st), until);
    }
  }

  lemma AfterKeeps(p: Primitives, st: State, pk: Packet)
    requires Lawful(p) && st.Valid() && KeysKept(st.skipped)
    ensures KeysKept(Handed(p, st, pk).skipped)
  {
    var hd := pk.message.header;
    SkipKeeps(p, st, hd.previousChainLength);
    var st1 := if NeedsRatchet(st, hd.dhPublicKey)
      then RatchetReceive(p, Skip(p, st, hd.previousChainLength), hd.dhPublicKey) else st;
    SkipKeeps(p, st1, hd.messageNumber);
  }

  /** A session in step can be stored. */
  lemma OnIsStorable(p: Primitives, h: seq<Epoch>, s: Side, st: State, r: Standing)
    requires Lawful(p) && HistoryOk(p, h) && StandsAt(p, h, s, st, r) && r.On? && KeysKept(st.skipped)
    ensures Storable(st)
  {
    forall e | 1 <= e < |h| ensures h[e].rootKey != [] && h[e].chainKey != [] {
      assert StepOk(p, h, e);
    }
    if st.sendingChain.Some? {
      ChainKeyNotEmpty(p, h[r.epoch].chainKey, st.sendingChain.value.number);
    }
    if st.receivingChain.Some? {
      ChainKeyNotEmpty(p, h[Reading(s, r.epoch)].chainKey, st.receivingChain.value.number);
    }
    assert ValidPair(p, h[if r.epoch == 0 || Mine(s, r.epoch) then r.epoch else r.epoch - 1].pair);
  }

  // ---------------------------------------------------------------- one envelope

  /** The session the loop would use. */
  predicate Holds(u: Setup, to: Side, st: Inbox, session: State) {
    var name := Name(u, to);
    if name in st.cache then st.cache[name] == session else name in st.disk && LoadFile(st.disk[name]) == session
  }

  /** The inbox after a message that left the session so, refused or read. */
  function Went(u: Setup, to: Side, st: Inbox, msg: PollMsg, at: int, after: State,
                outcome: Result<Bytes, Error>): Inbox
  {
    var name, cache := Name(u, to), st.cache[Name(u, to) := after];
    if outcome.Err? then st.(cache := cache)
    else Inbox(st.disk[name := SessionFile(u.users.Of(to).name, u.users.Of(to.Other()).name, at, after)], cache,
               st.msgIds + [msg.msgId], st.shown + [Letter(msg.blob, outcome.value)])
  }

  lemma Round(u: Setup, to: Side, st: Inbox, session: State, msg: PollMsg, pk: Packet, at: int)
    requires Carries(u, to.Other(), msg.blob, pk) && Holds(u, to, st, session) && Sound(session)
    ensures var (after, outcome) := Decrypt(u.env.p, session, pk.message, pk.associatedData);
      ReceiveOne(u.env, u.users.Of(to), st, msg, at) == Went(u, to, st, msg, at, after, outcome)
  {
    var name := Name(u, to);
    var after := Decrypt(u.env.p, session, pk.message, []).0;
    assert st.cache[name := session][name := after] == st.cache[name := after];
  }

  // ---------------------------------------------------------------- a page

  /** The elements that are marked. */
  function Picked<T>(xs: seq<T>, marks: seq<bool>): seq<T>
    requires |xs| == |marks|
  {
    if xs == [] then [] else (if marks[0] then [xs[0]] else []) + Picked(xs[1..], marks[1..])
  }

  /** What is in the session file: the session as the last message read has left it. */
  datatype Saved = Saved(state: State, standing: Standing)

  predicate SavedInHistory(h: seq<Epoch>, saved: Saved) {
    saved.state.Valid() && InHistory(h, saved.standing)
  }

  function SavedNext(p: Primitives, h: seq<Epoch>, s: Side, st: State, r: Standing, saved: Saved,
                     pk: Packet): (next: Saved)
    requires st.Valid() && InHistory(h, r)
    ensures SavedInHistory(h, saved) && pk.epoch < |h| ==> SavedInHistory(h, next)
  {
    if Reads(s, r, pk) then Saved(Handed(p, st, pk), Turned(p, h, s, st, r, pk)) else saved
  }

  function SavedAfter(p: Primitives, h: seq<Epoch>, s: Side, st: State, r: Standing, saved: Saved, pks: seq<Packet>)
    : (saved': Saved)
    requires st.Valid() && InHistory(h, r) && AllInHistory(h, pks)
    ensures SavedInHistory(h, saved) ==> SavedInHistory(h, saved')
    decreases |pks|
  {
    if pks == [] then saved
    else
      SavedAfter(p, h, s, Handed(p, st, pks[0]), Turned(p, h, s, st, r, pks[0]),
                 SavedNext(p, h, s, st, r, saved, pks[0]), pks[1..])
  }

  ghost predicate SavedOk(p: Primitives, h: seq<Epoch>, s: Side, saved: Saved) {
    StandsAt(p, h, s, saved.state, saved.standing) && saved.standing.On? && KeysKept(saved.state.skipped)
  }

  ghost predicate InFile(u: Setup, to: Side, disk: Disk, saved: Saved) {
    Name(u, to) in disk && LoadFile(disk[Name(u, to)]) == saved.state
  }

  /** The messages of a page carry these packets. */
  ghost predicate PageHas(u: Setup, to: Side, messages: seq<PollMsg>, pks: seq<Packet>) {
    && |messages| == |pks|
    && forall i {:trigger messages[i]} | 0 <= i < |pks| :: Carries(u, to.Other(), messages[i].blob, pks[i])
  }

  /** The session, what is saved of it and the messages to come are as the loop finds them. */
  ghost predicate Before(u: Setup, to: Side, h: seq<Epoch>, st: Inbox, session: State, r: Standing, saved: Saved,
                         messages: seq<PollMsg>, pks: seq<Packet>)
  {
    && Holds(u, to, st, session) && StandsAt(u.env.p, h, to, session, r) && KeysKept(session.skipped)
    && InFile(u, to, st.disk, saved) && SavedOk(u.env.p, h, to, saved)
    && PageHas(u, to, messages, pks) && AllHandable(u.env.p, h, to, pks)
    && session.Valid() && InHistory(h, r) && AllInHistory(h, pks) && AllApart(u.env.p, h, to, session, r, pks)
  }

  /** The messages read are shown and acknowledged; if there is none, the files are as they were. */
  ghost predicate LoopShows(u: Setup, to: Side, h: seq<Epoch>, st: Inbox, session: State, r: Standing,
                            messages: seq<PollMsg>, pks: seq<Packet>, end: Inbox)
    requires |messages| == |pks| && session.Valid() && InHistory(h, r) && AllInHistory(h, pks)
  {
    var read := Read(u.env.p, h, to, session, r, pks);
    && end.shown == st.shown + Picked(EndToEnd.Opened(messages, pks), read)
    && end.msgIds == st.msgIds + Picked(Ids(messages), read)
    && (true !in read ==> end.disk == st.disk)
  }

  /** The last of them leaves the file. */
  ghost predicate LoopSaves(u: Setup, to: Side, h: seq<Epoch>, session: State, r: Standing, saved: Saved,
                            pks: seq<Packet>,
                            end: Inbox)
    requires session.Valid() && InHistory(h, r) && AllInHistory(h, pks)
  {
    var saved' := SavedAfter(u.env.p, h, to, session, r, saved, pks);
    InFile(u, to, end.disk, saved') && SavedOk(u.env.p, h, to, saved')
  }

  /** After one message, read or not, the file holds the session of the last message read. */
  lemma FileNext(u: Setup, to: Side, h: seq<Epoch>, st: Inbox, session: State, r: Standing, saved: Saved, msg: PollMsg,
                 pk: Packet, at: int)
    requires Lawful(u.env.p) && HistoryOk(u.env.p, h) && StandsAt(u.env.p, h, to, session, r)
    requires KeysKept(session.skipped)
    requires session.Valid() && InHistory(h, r) && Decided(u.env.p, h, to, session, r, pk)
    requires InFile(u, to, st.disk, saved) && SavedOk(u.env.p, h, to, saved) && (Reads(to, r, pk) ==> pk.epoch < |h|)
    ensures KeysKept(Handed(u.env.p, session, pk).skipped)
    ensures var (after, outcome) := Decrypt(u.env.p, session, pk.message, pk.associatedData);
      var st1, saved1 := Went(u, to, st, msg, at, after, outcome), SavedNext(u.env.p, h, to, session, r, saved, pk);
      Holds(u, to, st1, after) && InFile(u, to, st1.disk, saved1) && SavedOk(u.env.p, h, to, saved1)
  {
    var after := Handed(u.env.p, session, pk);
    AfterKeeps(u.env.p, session, pk);
    if Reads(to, r, pk) {
      OnIsStorable(u.env.p, h, to, after, Turned(u.env.p, h, to, session, r, pk));
      SaveLoad(u.users.Of(to).name, u.users.Of(to.Other()).name, at, after);
    }
  }

  lemma BeforeFirst(u: Setup, to: Side, h: seq<Epoch>, st: Inbox, session: State, r: Standing, saved: Saved,
                    messages: seq<PollMsg>, pks: seq<Packet>)
    requires Before(u, to, h, st, session, r, saved, messages, pks) && pks != []
    ensures session.Valid() && InHistory(h, r) && 1 <= pks[0].epoch < |h| && Sound(session)
    ensures Carries(u, to.Other(), messages[0].blob, pks[0]) && Handable(u.env.p, h, to, pks[0])
    ensures Apart(u.env.p, h, to, session, r, pks[0])
    ensures PageHas(u, to, messages[1..], pks[1..]) && AllHandable(u.env.p, h, to, pks[1..])
    ensures AllInHistory(h, pks[1..])
    ensures AllApart(u.env.p, h, to, Handed(u.env.p, session, pks[0]), Turned(u.env.p, h, to, session, r, pks[0]),
      pks[1..])
  {
    HandableTail(u.env.p, h, to, pks);
    assert Carries(u, to.Other(), messages[0].blob, pks[0]);
    PageTail(u, to, messages, pks);
  }

  /** The first message, by itself. */
  lemma RoundDecided(u: Setup, to: Side, h: seq<Epoch>, st: Inbox, session: State, r: Standing, saved: Saved,
                     msg: PollMsg, pk: Packet, at: int) returns (st1: Inbox)
    requires Lawful(u.env.p) && HistoryOk(u.env.p, h) && RootsApart(h) && StandsAt(u.env.p, h, to, session, r)
    requires session.Valid() && InHistory(h, r) && Handable(u.env.p, h, to, pk) && Apart(u.env.p, h, to, session, r, pk)
    requires Carries(u, to.Other(), msg.blob, pk) && Holds(u, to, st, session) && Sound(session)
    requires KeysKept(session.skipped) && InFile(u, to, st.disk, saved) && SavedOk(u.env.p, h, to, saved)
    ensures st1 == ReceiveOne(u.env, u.users.Of(to), st, msg, at) && Took(st, st1, msg, pk, Reads(to, r, pk))
    ensures var session1 := Handed(u.env.p, session, pk);
      && Holds(u, to, st1, session1) && KeysKept(session1.skipped)
      && StandsAt(u.env.p, h, to, session1, Turned(u.env.p, h, to, session, r, pk))
    ensures var saved1 := SavedNext(u.env.p, h, to, session, r, saved, pk);
      InFile(u, to, st1.disk, saved1) && SavedOk(u.env.p, h, to, saved1)
  {
    OneDecided(u.env.p, h, to, session, r, pk);
    var (after, outcome) := Decrypt(u.env.p, session, pk.message, pk.associatedData);
    st1 := Went(u, to, st, msg, at, after, outcome);
    Round(u, to, st, session, msg, pk, at);
    FileNext(u, to, h, st, session, r, saved, msg, pk, at);
    WentTook(u, to, st, msg, pk, at, after, outcome, Reads(to, r, pk));
  }

  lemma WentTook(u: Setup, to: Side, st: Inbox, msg: PollMsg, pk: Packet, at: int, after: State,
                 outcome: Result<Bytes, Error>, read: bool)
    requires outcome == if read then Ok(pk.plaintext) else Err(MacFailed)
    ensures Took(st, Went(u, to, st, msg, at, after, outcome), msg, pk, read)
  {
  }

  /** One message further. */
  lemma BeforeNext(u: Setup, to: Side, h: seq<Epoch>, st: Inbox, session: State, r: Standing, saved: Saved,
                   messages: seq<PollMsg>, pks: seq<Packet>, at: int) returns (st1: Inbox)
    requires Lawful(u.env.p) && HistoryOk(u.env.p, h) && RootsApart(h)
    requires Before(u, to, h, st, session, r, saved, messages, pks) && pks != []
    ensures session.Valid() && InHistory(h, r) && pks[0].epoch < |h|
    ensures st1 == ReceiveOne(u.env, u.users.Of(to), st, messages[0], at)
    ensures Before(u, to, h, st1, Handed(u.env.p, session, pks[0]), Turned(u.env.p, h, to, session, r, pks[0]),
                   SavedNext(u.env.p, h, to, session, r, saved, pks[0]), messages[1..], pks[1..])
    ensures Took(st, st1, messages[0], pks[0], Reads(to, r, pks[0]))
  {
    BeforeFirst(u, to, h, st, session, r, saved, messages, pks);
    st1 := RoundDecided(u, to, h, st, session, r, saved, messages[0], pks[0], at);
  }

  /** What one message adds. */
  predicate Took(st: Inbox, st1: Inbox, msg: PollMsg, pk: Packet, read: bool) {
    && st1.shown == st.shown + (if read then [Letter(msg.blob, pk.plaintext)] else [])
    && st1.msgIds == st.msgIds + (if read then [msg.msgId] else [])
    && (!read ==> st1.disk == st.disk)
  }

  lemma PageTail(u: Setup, to: Side, messages: seq<PollMsg>, pks: seq<Packet>)
    requires PageHas(u, to, messages, pks) && pks != []
    ensures PageHas(u, to, messages[1..], pks[1..])
  {
    forall i {:trigger messages[1..][i]} | 0 <= i < |pks[1..]|
      ensures Carries(u, to.Other(), messages[1..][i].blob, pks[1..][i]) {
      assert messages[1..][i] == messages[i + 1] && pks[1..][i] == pks[i + 1];
    }
  }

  lemma PickedFirst<T>(x: T, xs: seq<T>, m: bool, marks: seq<bool>)
    requires |xs| == |marks|
    ensures Picked([x] + xs, [m] + marks) == (if m then [x] else []) + Picked(xs, marks)
  {
    assert ([x] + xs)[1..] == xs && ([m] + marks)[1..] == marks;
  }

  lemma PickedMore<T>(before: seq<T>, between: seq<T>, x: T, xs: seq<T>, m: bool, marks: seq<bool>, end: seq<T>)
    requires |xs| == |marks| && between == before + (if m then [x] else []) && end == between + Picked(xs, marks)
    ensures end == before + Picked([x] + xs, [m] + marks)
  {
    PickedFirst(x, xs, m, marks);
    Regroup(before, if m then [x] else [], Picked(xs, marks));
  }

  lemma Regroup<T>(a: seq<T>, b: seq<T>, c: seq<T>)
    ensures (a + b) + c == a + (b + c)
  {
  }

  lemma LoopMore(u: Setup, to: Side, h: seq<Epoch>, st: Inbox, session: State, r: Standing,
                 messages: seq<PollMsg>, pks: seq<Packet>, st1: Inbox, end: Inbox)
    requires |messages| == |pks| > 0 && session.Valid() && InHistory(h, r) && AllInHistory(h, pks)
    requires Took(st, st1, messages[0], pks[0], Reads(to, r, pks[0]))
    requires LoopShows(u, to, h, st1, Handed(u.env.p, session, pks[0]), Turned(u.env.p, h, to, session, r, pks[0]),
                       messages[1..], pks[1..], end)
    ensures LoopShows(u, to, h, st, session, r, messages, pks, end)
  {
    var p := u.env.p;
    var read := Read(p, h, to, session, r, pks);
    var first, rest := Reads(to, r, pks[0]), read[1..];
    assert read == [first] + rest;
    var letter, letters := Letter(messages[0].blob, pks[0].plaintext), EndToEnd.Opened(messages[1..], pks[1..]);
    PickedMore(st.shown, st1.shown, letter, letters, first, rest, end.shown);
    assert EndToEnd.Opened(messages, pks) == [letter] + letters;
    PickedMore(st.msgIds, st1.msgIds, messages[0].msgId, Ids(messages[1..]), first, rest, end.msgIds);
    assert Ids(messages) == [messages[0].msgId] + Ids(messages[1..]);
    if true !in read {
      assert !read[0] && true !in rest;
    }
  }

  lemma SavesMore(u: Setup, to: Side, h: seq<Epoch>, session: State, r: Standing, saved: Saved, pks: seq<Packet>,
                  end: Inbox)
    requires pks != [] && session.Valid() && InHistory(h, r) && AllInHistory(h, pks)
    requires LoopSaves(u, to, h, Handed(u.env.p, session, pks[0]), Turned(u.env.p, h, to, session, r, pks[0]),
                       SavedNext(u.env.p, h, to, session, r, saved, pks[0]), pks[1..], end)
    ensures LoopSaves(u, to, h, session, r, saved, pks, end)
  {
  }

  lemma LoopNothing(u: Setup, to: Side, h: seq<Epoch>, st: Inbox, session: State, r: Standing, saved: Saved,
                    messages: seq<PollMsg>, pks: seq<Packet>)
    requires messages == [] && pks == [] && session.Valid() && InHistory(h, r)
    requires InFile(u, to, st.disk, saved) && SavedOk(u.env.p, h, to, saved)
    ensures LoopShows(u, to, h, st, session, r, messages, pks, st) && LoopSaves(u, to, h, session, r, saved, pks, st)
  {
  }

  /**
   * The loop over any page of messages of the other side, new or shown before, in any order: exactly
   * the messages that the standing of the session decides are shown and acknowledged.
   */
  lemma {:induction false} LoopReads(u: Setup, to: Side, h: seq<Epoch>, st: Inbox, session: State, r: Standing,
                                     saved: Saved,
                                     messages: seq<PollMsg>, pks: seq<Packet>, at: int)
    requires Lawful(u.env.p) && HistoryOk(u.env.p, h) && RootsApart(h)
    requires Before(u, to, h, st, session, r, saved, messages, pks)
    ensures session.Valid() && InHistory(h, r) && AllInHistory(h, pks) && |messages| == |pks|
    ensures var end := ReceiveLoop(u.env, u.users.Of(to), st, messages, at);
      LoopShows(u, to, h, st, session, r, messages, pks, end) && LoopSaves(u, to, h, session, r, saved, pks, end)
    decreases |messages|
  {
    if messages == [] {
      LoopNothing(u, to, h, st, session, r, saved, messages, pks);
    } else {
      var st1 := BeforeNext(u, to, h, st, session, r, saved, messages, pks, at);
      LoopReads(u, to, h, st1, Handed(u.env.p, session, pks[0]), Turned(u.env.p, h, to, session, r, pks[0]),
                SavedNext(u.env.p, h, to, session, r, saved, pks[0]), messages[1..], pks[1..], at);
      var end := ReceiveLoop(u.env, u.users.Of(to), st1, messages[1..], at);
      LoopMore(u, to, h, st, session, r, messages, pks, st1, end);
      SavesMore(u, to, h, session, r, saved, pks, end);
    }
  }
}
