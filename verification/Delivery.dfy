/** The delivery manager: providers held in order of priority, and one message a hash out of what they return. */
module Delivery {
  import opened Data
  import opened Rows

  datatype Provider = Provider(name: string, priority: int)

  /** The parts of a message its hash is taken over; missing parts are empty. */
  datatype Content = Content(from: string, to: string, timestamp: int, ciphertext: string, mac: string)

  /** A message and the provider that tagged it, if one did. */
  datatype Message = Message(content: Content, provider: Option<string>)

  type Hash = Content -> string

  // ---------------------------------------------------------------- addProvider

  predicate Ascending(ps: seq<Provider>) {
    forall i, j | 0 <= i < j < |ps| :: ps[i].priority <= ps[j].priority
  }

  /** Puts a provider behind all of its own and lower priority numbers. */
  function Insert(ps: seq<Provider>, p: Provider): seq<Provider> {
    if ps == [] || p.priority < ps[0].priority then [p] + ps else [ps[0]] + Insert(ps[1..], p)
  }

  /** The stable sort by priority. */
  function SortByPriority(ps: seq<Provider>): seq<Provider> {
    if ps == [] then [] else Insert(SortByPriority(ps[..|ps| - 1]), ps[|ps| - 1])
  }

  function WithPriority(n: int): Provider -> bool {
    (p: Provider) => p.priority == n
  }

  lemma {:induction false} InsertContents(ps: seq<Provider>, p: Provider)
    ensures multiset(Insert(ps, p)) == multiset(ps) + multiset{p}
  {
    if ps == [] || p.priority < ps[0].priority {
    } else {
      InsertContents(ps[1..], p);
      assert ps == [ps[0]] + ps[1..];
    }
  }

  lemma {:induction false} InsertAscends(ps: seq<Provider>, p: Provider)
    requires Ascending(ps)
    ensures Ascending(Insert(ps, p))
  {
    if ps == [] || p.priority < ps[0].priority {
    } else {
      var rest := ps[1..];
      InsertAscends(rest, p);
      InsertContents(rest, p);
      AboveFirst(ps);
      InsertedAscends(ps[0], Insert(rest, p));
    }
  }

  lemma AboveFirst(ps: seq<Provider>)
    requires ps != [] && Ascending(ps)
    ensures forall q | q in multiset(ps[1..]) :: ps[0].priority <= q.priority
  {
    forall q | q in multiset(ps[1..]) ensures ps[0].priority <= q.priority {
      assert q in ps[1..];
    }
  }

  /** A provider put before all those of higher numbers. */
  lemma InsertedFirst(ps: seq<Provider>, p: Provider, n: int)
    requires Ascending(ps) && (ps == [] || p.priority < ps[0].priority)
    ensures Keep([p] + ps, WithPriority(n)) == Keep(ps, WithPriority(n)) + Keep([p], WithPriority(n))
  {
    var f := WithPriority(n);
    KeepCons(p, ps, f);
    KeepCons(p, [], f);
    assert [p] + [] == [p];
    if p.priority == n {
      NoneHas(ps, n);
    }
  }

  lemma KeptBehind(first: Provider, rest: seq<Provider>, longer: seq<Provider>, p: Provider, n: int)
    requires Keep(longer, WithPriority(n)) == Keep(rest, WithPriority(n)) + Keep([p], WithPriority(n))
    ensures Keep([first] + longer, WithPriority(n))
      == Keep([first] + rest, WithPriority(n)) + Keep([p], WithPriority(n))
  {
    KeepCons(first, longer, WithPriority(n));
    KeepCons(first, rest, WithPriority(n));
  }

  /** The new provider comes last among those of its priority. */
  lemma {:induction false} InsertKeeps(ps: seq<Provider>, p: Provider, n: int)
    requires Ascending(ps)
    ensures Keep(Insert(ps, p), WithPriority(n)) == Keep(ps, WithPriority(n)) + Keep([p], WithPriority(n))
  {
    if ps == [] || p.priority < ps[0].priority {
      InsertedFirst(ps, p, n);
    } else {
      InsertKeeps(ps[1..], p, n);
      KeptBehind(ps[0], ps[1..], Insert(ps[1..], p), p, n);
      assert ps == [ps[0]] + ps[1..];
    }
  }

  lemma InsertedAscends(first: Provider, ps: seq<Provider>)
    requires Ascending(ps) && forall q | q in multiset(ps) :: first.priority <= q.priority
    ensures Ascending([first] + ps)
  {
    forall j | 0 <= j < |ps| ensures first.priority <= ps[j].priority {
      assert ps[j] in multiset(ps);
    }
  }

  lemma {:induction false} NoneHas(ps: seq<Provider>, n: int)
    requires forall i | 0 <= i < |ps| :: ps[i].priority != n
    ensures Keep(ps, WithPriority(n)) == []
  {
    if ps == [] {
    } else {
      assert ps[0].priority != n;
      NoneHas(ps[1..], n);
    }
  }

  lemma {:induction false} SortAscends(ps: seq<Provider>)
    ensures Ascending(SortByPriority(ps)) && multiset(SortByPriority(ps)) == multiset(ps)
  {
    if ps == [] {
    } else {
      var most, last := ps[..|ps| - 1], ps[|ps| - 1];
      var sorted := SortByPriority(most);
      SortAscends(most);
      InsertAscends(sorted, last);
      InsertContents(sorted, last);
      assert SortByPriority(ps) == Insert(sorted, last) && ps == most + [last];
    }
  }

  lemma {:induction false} SortKeeps(ps: seq<Provider>, n: int)
    ensures Keep(SortByPriority(ps), WithPriority(n)) == Keep(ps, WithPriority(n))
  {
    if ps == [] {
    } else {
      var most, last := ps[..|ps| - 1], ps[|ps| - 1];
      SortKeeps(most, n);
      SortAscends(most);
      InsertKeeps(SortByPriority(most), last, n);
      KeepAppend(most, [last], WithPriority(n));
      assert ps == most + [last];
    }
  }

  /** The sort orders by priority, loses nothing, and leaves providers of one priority in the order they came. */
  lemma SortIsStable(ps: seq<Provider>)
    ensures Ascending(SortByPriority(ps)) && multiset(SortByPriority(ps)) == multiset(ps)
    ensures forall n :: Keep(SortByPriority(ps), WithPriority(n)) == Keep(ps, WithPriority(n))
  {
    SortAscends(ps);
    forall n ensures Keep(SortByPriority(ps), WithPriority(n)) == Keep(ps, WithPriority(n)) {
      SortKeeps(ps, n);
    }
  }

  /** Whatever sorts like that is this sort: order and stability leave no choice. */
  lemma {:induction false} StableSortIsUnique(a: seq<Provider>, b: seq<Provider>)
    requires Ascending(a) && Ascending(b) && forall n :: Keep(a, WithPriority(n)) == Keep(b, WithPriority(n))
    ensures a == b
    decreases |a| + |b|
  {
    if a == [] {
    } else {
      SomeToo(a, b);
    }
    if b != [] {
      SomeToo(b, a);
    }
    if a != [] {
      FirstIsLeast(a, b);
      FirstIsLeast(b, a);
      var n := a[0].priority;
      assert Keep(a, WithPriority(n))[0] == a[0] && Keep(b, WithPriority(n))[0] == b[0];
      forall m ensures Keep(a[1..], WithPriority(m)) == Keep(b[1..], WithPriority(m)) {
        RestKeeps(a, m);
        RestKeeps(b, m);
        assert Keep(a, WithPriority(m)) == Keep(b, WithPriority(m));
      }
      StableSortIsUnique(a[1..], b[1..]);
    }
  }

  lemma SomeToo(a: seq<Provider>, b: seq<Provider>)
    requires a != [] && Keep(a, WithPriority(a[0].priority)) == Keep(b, WithPriority(a[0].priority))
    ensures b != []
  {
    assert Keep(a, WithPriority(a[0].priority)) != [];
  }

  /** Adding providers one at a time and sorting each time is sorting all of them once. */
  lemma SortAgain(added: seq<Provider>, p: Provider)
    ensures SortByPriority(SortByPriority(added) + [p]) == SortByPriority(added + [p])
  {
    var sorted := SortByPriority(added);
    SortIsStable(added);
    SortIsStable(sorted + [p]);
    SortIsStable(added + [p]);
    forall n ensures Keep(SortByPriority(sorted + [p]), WithPriority(n))
      == Keep(SortByPriority(added + [p]), WithPriority(n)) {
      KeepAppend(sorted, [p], WithPriority(n));
      KeepAppend(added, [p], WithPriority(n));
    }
    StableSortIsUnique(SortByPriority(sorted + [p]), SortByPriority(added + [p]));
  }

  lemma RestKeeps(ps: seq<Provider>, n: int)
    requires ps != []
    ensures Keep(ps[1..], WithPriority(n))
      == if ps[0].priority == n then Keep(ps, WithPriority(n))[1..] else Keep(ps, WithPriority(n))
  {
  }

  lemma FirstIsLeast(a: seq<Provider>, b: seq<Provider>)
    requires a != [] && b != [] && Ascending(b)
    requires Keep(a, WithPriority(a[0].priority)) == Keep(b, WithPriority(a[0].priority))
    ensures b[0].priority <= a[0].priority
  {
    var n := a[0].priority;
    assert Keep(a, WithPriority(n)) != [];
    var i := Place(b, WithPriority(n), 0);
    assert b[i].priority == n;
  }

  // ---------------------------------------------------------------- priorities

  /** The first provider of a name. */
  function Find(ps: seq<Provider>, name: string): Option<Provider> {
    if ps == [] then None else if ps[0].name == name then Some(ps[0]) else Find(ps[1..], name)
  }

  /** provider?.priority || 999: an unknown provider counts as 999, and so does priority 0. */
  function Effective(priority: int): int {
    if priority == 0 then 999 else priority
  }

  function PriorityOf(ps: seq<Provider>, name: Option<string>): int {
    if name.None? || Find(ps, name.value).None? then 999 else Effective(Find(ps, name.value).value.priority)
  }

  /** The priority of the first provider of that name; without one, or with priority 0, it is 999. */
  lemma {:induction false} PriorityIs(ps: seq<Provider>, name: string, i: nat)
    requires i <= |ps| && forall j | 0 <= j < i :: ps[j].name != name
    ensures i == |ps| ==> PriorityOf(ps, Some(name)) == 999
    ensures i < |ps| && ps[i].name == name && ps[i].priority == 0 ==> PriorityOf(ps, Some(name)) == 999
    ensures i < |ps| && ps[i].name == name && ps[i].priority != 0 ==> PriorityOf(ps, Some(name)) == ps[i].priority
    ensures PriorityOf(ps, None) == 999
  {
    if i > 0 {
      assert ps[0].name != name;
      PriorityIs(ps[1..], name, i - 1);
    }
  }

  // ---------------------------------------------------------------- what deduplication means

  function Hashes(hash: Hash, ms: seq<Message>): (r: seq<string>)
    ensures |r| == |ms|
  {
    seq(|ms|, i requires 0 <= i < |ms| => hash(ms[i].content))
  }

  /** The messages whose hash has not occurred before. */
  function KeepFirst(hash: Hash, ms: seq<Message>): seq<Message> {
    if ms == [] then []
    else
      var most, last := ms[..|ms| - 1], ms[|ms| - 1];
      KeepFirst(hash, most) + if hash(last.content) in Hashes(hash, KeepFirst(hash, most)) then [] else [last]
  }

  /** Nothing before this place has its hash. */
  predicate FirstOfHash(hash: Hash, ms: seq<Message>, i: nat)
    requires i < |ms|
  {
    forall j | 0 <= j < i :: hash(ms[j].content) != hash(ms[i].content)
  }

  lemma FirstInFront(hash: Hash, most: seq<Message>, last: Message, i: nat)
    requires i < |most|
    ensures FirstOfHash(hash, most + [last], i) <==> FirstOfHash(hash, most, i)
  {
    var ms := most + [last];
    assert forall j | 0 <= j <= i :: ms[j] == most[j];
  }

  predicate Occurs(hash: Hash, ms: seq<Message>, key: string) {
    exists j | 0 <= j < |ms| :: hash(ms[j].content) == key
  }

  lemma OccursMore(hash: Hash, most: seq<Message>, last: Message, key: string)
    ensures Occurs(hash, most + [last], key) <==> Occurs(hash, most, key) || hash(last.content) == key
  {
    var ms := most + [last];
    assert ms[|most|] == last;
    if Occurs(hash, most, key) {
      var j :| 0 <= j < |most| && hash(most[j].content) == key;
      assert ms[j] == most[j];
    }
  }

  lemma HashesMore(hash: Hash, kept: seq<Message>, last: Message)
    ensures Hashes(hash, kept + [last]) == Hashes(hash, kept) + [hash(last.content)]
  {
  }

  lemma {:induction false} HashIsKept(hash: Hash, ms: seq<Message>, key: string)
    ensures key in Hashes(hash, KeepFirst(hash, ms)) <==> Occurs(hash, ms, key)
  {
    if ms == [] {
    } else {
      var most, last := ms[..|ms| - 1], ms[|ms| - 1];
      HashIsKept(hash, most, key);
      OccursMore(hash, most, last, key);
      HashesMore(hash, KeepFirst(hash, most), last);
      assert ms == most + [last];
      assert KeepFirst(hash, most) + [] == KeepFirst(hash, most);
    }
  }

  /** The messages at these places, which ascend and are those where a hash occurs for the first time. */
  ghost predicate FirstPlaces(hash: Hash, ms: seq<Message>, kept: seq<Message>, places: seq<nat>) {
    && |places| == |kept|
    && (forall k | 0 <= k < |places| :: places[k] < |ms| && kept[k] == ms[places[k]])
    && (forall k, l | 0 <= k < l < |places| :: places[k] < places[l])
    && (forall i | 0 <= i < |ms| :: i in places <==> FirstOfHash(hash, ms, i))
  }

  lemma NewHash(hash: Hash, most: seq<Message>, last: Message)
    ensures FirstOfHash(hash, most + [last], |most|) <==> !Occurs(hash, most, hash(last.content))
  {
    var ms := most + [last];
    assert forall j | 0 <= j < |most| :: ms[j] == most[j];
  }

  lemma PlacesMore(hash: Hash, most: seq<Message>, last: Message, kept: seq<Message>, places: seq<nat>)
    requires FirstPlaces(hash, most, kept, places)
    ensures FirstOfHash(hash, most + [last], |most|)
      ==> FirstPlaces(hash, most + [last], kept + [last], places + [|most|])
    ensures !FirstOfHash(hash, most + [last], |most|) ==> FirstPlaces(hash, most + [last], kept, places)
  {
    forall i | 0 <= i < |most| ensures FirstOfHash(hash, most + [last], i) <==> i in places {
      FirstInFront(hash, most, last, i);
    }
  }

  /** Keeping the first of each hash keeps exactly the messages whose hash has not occurred before, in order. */
  lemma {:induction false} KeepFirstPlaces(hash: Hash, ms: seq<Message>) returns (places: seq<nat>)
    ensures FirstPlaces(hash, ms, KeepFirst(hash, ms), places)
  {
    if ms == [] {
      places := [];
    } else {
      var most, last := ms[..|ms| - 1], ms[|ms| - 1];
      var before := KeepFirstPlaces(hash, most);
      assert ms == most + [last];
      HashIsKept(hash, most, hash(last.content));
      NewHash(hash, most, last);
      PlacesMore(hash, most, last, KeepFirst(hash, most), before);
      places := if FirstOfHash(hash, ms, |most|) then before + [|most|] else before;
    }
  }

  /** The message at a place beats every other of its hash: by priority, and among equals by coming first. */
  predicate BestAt(hash: Hash, ps: seq<Provider>, ms: seq<Message>, at: nat)
    requires at < |ms|
  {
    forall j | 0 <= j < |ms| && hash(ms[j].content) == hash(ms[at].content) ::
      var best, other := PriorityOf(ps, ms[at].provider), PriorityOf(ps, ms[j].provider);
      best < other || (best == other && at <= j)
  }

  ghost predicate Best(hash: Hash, ps: seq<Provider>, ms: seq<Message>, m: Message) {
    exists at: nat | at < |ms| :: ms[at] == m && BestAt(hash, ps, ms, at)
  }

  /** One message a hash, where the hash first occurred, and of its hash the best. */
  ghost predicate Deduplicates(hash: Hash, ps: seq<Provider>, ms: seq<Message>, r: seq<Message>) {
    && Hashes(hash, r) == Hashes(hash, KeepFirst(hash, ms))
    && forall k | 0 <= k < |r| :: Best(hash, ps, ms, r[k])
  }

  /** There is only one such list. */
  lemma DeduplicationIsUnique(hash: Hash, ps: seq<Provider>, ms: seq<Message>, r: seq<Message>, s: seq<Message>)
    requires Deduplicates(hash, ps, ms, r) && Deduplicates(hash, ps, ms, s)
    ensures r == s
  {
    assert |r| == |Hashes(hash, r)| == |s|;
    forall k | 0 <= k < |r| ensures r[k] == s[k] {
      assert Hashes(hash, r)[k] == Hashes(hash, s)[k];
      var i: nat :| i < |ms| && ms[i] == r[k] && BestAt(hash, ps, ms, i);
      var j: nat :| j < |ms| && ms[j] == s[k] && BestAt(hash, ps, ms, j);
      assert hash(ms[i].content) == hash(ms[j].content);
    }
  }

  // ---------------------------------------------------------------- deduplicate

  /** A place in the map of messages seen, which keeps the order in which hashes were first set. */
  datatype Slot = Slot(key: string, msg: Message)

  predicate HasKey(seen: seq<Slot>, key: string) {
    exists i | 0 <= i < |seen| :: seen[i].key == key
  }

  function IndexOf(seen: seq<Slot>, key: string): (i: nat)
    requires HasKey(seen, key)
    ensures i < |seen| && seen[i].key == key
  {
    if seen[0].key == key then 0
    else
      assert HasKey(seen[1..], key) by {
        var i :| 0 <= i < |seen| && seen[i].key == key;
        assert seen[1..][i - 1].key == key;
      }
      1 + IndexOf(seen[1..], key)
  }

  /** What the loop has seen of a list: its first occurrences, each replaced by the best of its hash. */
  ghost predicate SeenOk(hash: Hash, ps: seq<Provider>, ms: seq<Message>, seen: seq<Slot>) {
    && |seen| == |KeepFirst(hash, ms)|
    && forall k | 0 <= k < |seen| ::
        && seen[k].key == hash(seen[k].msg.content) == hash(KeepFirst(hash, ms)[k].content)
        && Best(hash, ps, ms, seen[k].msg)
  }

  /** The best of a list stays the best when a message of another hash, or one that is no better, is added. */
  lemma BestStays(hash: Hash, ps: seq<Provider>, ms: seq<Message>, m: Message, added: Message)
    requires Best(hash, ps, ms, m)
    requires hash(m.content) != hash(added.content) || PriorityOf(ps, m.provider) <= PriorityOf(ps, added.provider)
    ensures Best(hash, ps, ms + [added], m)
  {
    var at: nat :| at < |ms| && ms[at] == m && BestAt(hash, ps, ms, at);
    var more := ms + [added];
    forall j | 0 <= j < |more| && hash(more[j].content) == hash(more[at].content)
      ensures var best, other := PriorityOf(ps, more[at].provider), PriorityOf(ps, more[j].provider);
        best < other || (best == other && at <= j)
    {
      if j < |ms| {
        assert more[j] == ms[j];
      }
    }
    assert more[at] == m && BestAt(hash, ps, more, at);
  }

  /** A message that beats the best so far is the best. */
  lemma BetterIsBest(hash: Hash, ps: seq<Provider>, ms: seq<Message>, m: Message, added: Message)
    requires Best(hash, ps, ms, m) && hash(m.content) == hash(added.content)
    requires PriorityOf(ps, added.provider) < PriorityOf(ps, m.provider)
    ensures Best(hash, ps, ms + [added], added)
  {
    var at: nat :| at < |ms| && ms[at] == m && BestAt(hash, ps, ms, at);
    var more := ms + [added];
    forall j | 0 <= j < |more| && hash(more[j].content) == hash(added.content)
      ensures PriorityOf(ps, added.provider) < PriorityOf(ps, more[j].provider) || j == |ms|
    {
      if j < |ms| {
        assert more[j] == ms[j];
      }
    }
    assert more[|ms|] == added && BestAt(hash, ps, more, |ms|);
  }

  /** A message whose hash is new is the best of its hash. */
  lemma NewIsBest(hash: Hash, ps: seq<Provider>, ms: seq<Message>, added: Message)
    requires hash(added.content) !in Hashes(hash, KeepFirst(hash, ms))
    ensures Best(hash, ps, ms + [added], added)
  {
    var more := ms + [added];
    forall j | 0 <= j < |more| && hash(more[j].content) == hash(added.content) ensures j == |ms| {
      if j < |ms| {
        EveryHashIsKept(hash, ms, j);
      }
    }
    assert more[|ms|] == added && BestAt(hash, ps, more, |ms|);
  }

  lemma {:induction false} EveryHashIsKept(hash: Hash, ms: seq<Message>, j: nat)
    requires j < |ms|
    ensures hash(ms[j].content) in Hashes(hash, KeepFirst(hash, ms))
  {
    var most, last := ms[..|ms| - 1], ms[|ms| - 1];
    var kept := KeepFirst(hash, most);
    var hs := Hashes(hash, KeepFirst(hash, ms));
    assert Hashes(hash, kept) <= hs;
    if j < |most| {
      EveryHashIsKept(hash, most, j);
      var k :| 0 <= k < |kept| && Hashes(hash, kept)[k] == hash(ms[j].content);
      assert hs[k] == hash(ms[j].content);
    } else if hash(last.content) !in Hashes(hash, kept) {
      assert hs[|kept|] == hash(last.content);
    } else {
      var k :| 0 <= k < |kept| && Hashes(hash, kept)[k] == hash(last.content);
      assert hs[k] == hash(last.content);
    }
  }

  lemma KeepFirstNext(hash: Hash, ms: seq<Message>, added: Message)
    ensures KeepFirst(hash, ms + [added])
      == KeepFirst(hash, ms) + if hash(added.content) in Hashes(hash, KeepFirst(hash, ms)) then [] else [added]
  {
    assert (ms + [added])[..|ms|] == ms;
  }

  predicate AllDifferent(hs: seq<string>) {
    forall i, j | 0 <= i < j < |hs| :: hs[i] != hs[j]
  }

  lemma {:induction false} KeptHashesDiffer(hash: Hash, ms: seq<Message>)
    ensures AllDifferent(Hashes(hash, KeepFirst(hash, ms)))
  {
    if ms == [] {
    } else {
      var most, last := ms[..|ms| - 1], ms[|ms| - 1];
      KeptHashesDiffer(hash, most);
      var kept := KeepFirst(hash, most);
      if hash(last.content) !in Hashes(hash, kept) {
        assert Hashes(hash, KeepFirst(hash, ms)) == Hashes(hash, kept) + [hash(last.content)];
      } else {
        assert KeepFirst(hash, ms) == kept;
      }
    }
  }

  lemma SeenKeys(hash: Hash, ps: seq<Provider>, ms: seq<Message>, seen: seq<Slot>, key: string)
    requires SeenOk(hash, ps, ms, seen)
    ensures HasKey(seen, key) <==> key in Hashes(hash, KeepFirst(hash, ms))
    ensures forall i, j | 0 <= i < j < |seen| :: seen[i].key != seen[j].key
  {
    var hs := Hashes(hash, KeepFirst(hash, ms));
    assert forall k | 0 <= k < |seen| :: seen[k].key == hs[k];
    KeptHashesDiffer(hash, ms);
    assert AllDifferent(hs);
  }

  lemma SeenNew(hash: Hash, ps: seq<Provider>, ms: seq<Message>, seen: seq<Slot>, msg: Message)
    requires SeenOk(hash, ps, ms, seen) && !HasKey(seen, hash(msg.content))
    ensures SeenOk(hash, ps, ms + [msg], seen + [Slot(hash(msg.content), msg)])
  {
    SeenKeys(hash, ps, ms, seen, hash(msg.content));
    KeepFirstNext(hash, ms, msg);
    NewIsBest(hash, ps, ms, msg);
    forall k | 0 <= k < |seen| ensures Best(hash, ps, ms + [msg], seen[k].msg) {
      assert seen[k].key != hash(msg.content);
      BestStays(hash, ps, ms, seen[k].msg, msg);
    }
  }

  /** A message of a hash seen before changes at most the slot of that hash. */
  lemma SeenAgain(hash: Hash, ps: seq<Provider>, ms: seq<Message>, seen: seq<Slot>, msg: Message, at: nat)
    requires SeenOk(hash, ps, ms, seen) && at < |seen| && seen[at].key == hash(msg.content)
    ensures var better := PriorityOf(ps, msg.provider) < PriorityOf(ps, seen[at].msg.provider);
      SeenOk(hash, ps, ms + [msg], if better then seen[at := Slot(seen[at].key, msg)] else seen)
  {
    SeenKeys(hash, ps, ms, seen, hash(msg.content));
    KeepFirstNext(hash, ms, msg);
    var better := PriorityOf(ps, msg.provider) < PriorityOf(ps, seen[at].msg.provider);
    var seen' := if better then seen[at := Slot(seen[at].key, msg)] else seen;
    forall k | 0 <= k < |seen'| ensures Best(hash, ps, ms + [msg], seen'[k].msg) {
      if k == at && better {
        BetterIsBest(hash, ps, ms, seen[at].msg, msg);
      } else {
        assert k != at ==> seen[k].key != seen[at].key;
        BestStays(hash, ps, ms, seen[k].msg, msg);
      }
    }
  }

  function Messages(seen: seq<Slot>): (r: seq<Message>)
    ensures |r| == |seen|
  {
    seq(|seen|, i requires 0 <= i < |seen| => seen[i].msg)
  }

  lemma SeenDeduplicates(hash: Hash, ps: seq<Provider>, ms: seq<Message>, seen: seq<Slot>)
    requires SeenOk(hash, ps, ms, seen)
    ensures Deduplicates(hash, ps, ms, Messages(seen))
  {
  }

  // ---------------------------------------------------------------- receive

  function Flat(lists: seq<seq<Message>>): seq<Message> {
    if lists == [] then [] else Flat(lists[..|lists| - 1]) + lists[|lists| - 1]
  }

  /** Each provider tags what it returns with its name. */
  predicate Tagged(ps: seq<Provider>, lists: seq<seq<Message>>) {
    |lists| == |ps|
    && forall i, k | 0 <= i < |ps| && 0 <= k < |lists[i]| :: lists[i][k].provider == Some(ps[i].name)
  }

  predicate UniqueNames(ps: seq<Provider>) {
    forall i, j | 0 <= i < j < |ps| :: ps[i].name != ps[j].name
  }

  /** Which list an element of the flattened lists comes from. */
  function Origin(lists: seq<seq<Message>>, at: nat): (i: nat)
    requires at < |Flat(lists)|
    ensures i < |lists| && Flat(lists)[at] in lists[i]
  {
    var most := lists[..|lists| - 1];
    if at < |Flat(most)| then Origin(most, at) else |lists| - 1
  }

  lemma {:induction false} OriginAscends(lists: seq<seq<Message>>, at: nat, later: nat)
    requires at <= later < |Flat(lists)|
    ensures Origin(lists, at) <= Origin(lists, later)
  {
    var most := lists[..|lists| - 1];
    if later < |Flat(most)| {
      OriginAscends(most, at, later);
    }
  }

  lemma {:induction false} FoundByName(ps: seq<Provider>, i: nat)
    requires i < |ps| && UniqueNames(ps)
    ensures Find(ps, ps[i].name) == Some(ps[i])
  {
    if i == 0 {
    } else {
      assert ps[0].name != ps[i].name;
      assert UniqueNames(ps[1..]) by {
        assert forall k | 0 <= k < |ps[1..]| :: ps[1..][k] == ps[k + 1];
      }
      FoundByName(ps[1..], i - 1);
    }
  }

  /** A message has the priority of the provider whose list it is from. */
  lemma PriorityOfOrigin(ps: seq<Provider>, lists: seq<seq<Message>>, at: nat)
    requires Tagged(ps, lists) && UniqueNames(ps) && at < |Flat(lists)|
    ensures PriorityOf(ps, Flat(lists)[at].provider) == Effective(ps[Origin(lists, at)].priority)
  {
    var i := Origin(lists, at);
    var k :| 0 <= k < |lists[i]| && lists[i][k] == Flat(lists)[at];
    FoundByName(ps, i);
  }

  /** Where the k-th message kept stands: before every other of its hash. */
  lemma {:induction false} KeptIsEarliest(hash: Hash, ms: seq<Message>, k: nat) returns (at: nat)
    requires k < |KeepFirst(hash, ms)|
    ensures at < |ms| && ms[at] == KeepFirst(hash, ms)[k]
    ensures forall j | 0 <= j < |ms| && hash(ms[j].content) == hash(ms[at].content) :: at <= j
  {
    var most, last := ms[..|ms| - 1], ms[|ms| - 1];
    if k < |KeepFirst(hash, most)| {
      at := KeptIsEarliest(hash, most, k);
      assert forall j | 0 <= j < |most| :: ms[j] == most[j];
    } else {
      at := |most|;
      forall j | 0 <= j < |ms| && hash(ms[j].content) == hash(last.content) ensures at <= j {
        if j < |most| {
          EveryHashIsKept(hash, most, j);
        }
      }
    }
  }

  predicate EffectivelyAscending(ps: seq<Provider>) {
    forall i, j | 0 <= i < j < |ps| :: Effective(ps[i].priority) <= Effective(ps[j].priority)
  }

  lemma KeepFirstIsBest(hash: Hash, ps: seq<Provider>, lists: seq<seq<Message>>)
    requires Tagged(ps, lists) && UniqueNames(ps) && EffectivelyAscending(ps)
    ensures Deduplicates(hash, ps, Flat(lists), KeepFirst(hash, Flat(lists)))
  {
    var ms := Flat(lists);
    var kept := KeepFirst(hash, ms);
    forall k | 0 <= k < |kept| ensures Best(hash, ps, ms, kept[k]) {
      var at := KeptIsEarliest(hash, ms, k);
      forall j | 0 <= j < |ms| && hash(ms[j].content) == hash(ms[at].content)
        ensures var best, other := PriorityOf(ps, ms[at].provider), PriorityOf(ps, ms[j].provider);
          best < other || (best == other && at <= j)
      {
        OriginAscends(lists, at, j);
        PriorityOfOrigin(ps, lists, at);
        PriorityOfOrigin(ps, lists, j);
      }
      assert ms[at] == kept[k] && BestAt(hash, ps, ms, at);
    }
  }

  // Two providers that return one message each, of the same content.

  function Single(ps: seq<Provider>, i: nat, j: nat, content: Content): (lists: seq<seq<Message>>)
    requires i < j < |ps|
    ensures Tagged(ps, lists)
  {
    seq(|ps|, k requires 0 <= k < |ps| => if k == i || k == j then [Message(content, Some(ps[k].name))] else [])
  }

  lemma {:induction false} FlatEmpty(lists: seq<seq<Message>>)
    requires forall k | 0 <= k < |lists| :: lists[k] == []
    ensures Flat(lists) == []
  {
    if lists == [] {
    } else {
      FlatEmpty(lists[..|lists| - 1]);
    }
  }

  lemma {:induction false} FlatOne(lists: seq<seq<Message>>, i: nat)
    requires i < |lists| && forall k | 0 <= k < |lists| && k != i :: lists[k] == []
    ensures Flat(lists) == lists[i]
  {
    var most := lists[..|lists| - 1];
    if i == |lists| - 1 {
      FlatEmpty(most);
    } else {
      FlatOne(most, i);
    }
  }

  lemma {:induction false} FlatTwo(lists: seq<seq<Message>>, i: nat, j: nat)
    requires i < j < |lists| && forall k | 0 <= k < |lists| && k != i && k != j :: lists[k] == []
    ensures Flat(lists) == lists[i] + lists[j]
  {
    var most := lists[..|lists| - 1];
    if j == |lists| - 1 {
      FlatOne(most, i);
    } else {
      FlatTwo(most, i, j);
    }
  }

  lemma KeepFirstOfTwo(hash: Hash, a: Message, b: Message)
    requires a.content == b.content
    ensures KeepFirst(hash, [a, b]) == [a]
  {
    assert [a][..0] == [] && [a, b][..1] == [a];
    assert KeepFirst(hash, [a]) == [a];
    assert Hashes(hash, [a])[0] == hash(b.content);
  }

  /** A provider held earlier whose effective priority is worse loses to one held later. */
  lemma LaterWins(hash: Hash, ps: seq<Provider>, i: nat, j: nat, content: Content)
    requires i < j < |ps| && UniqueNames(ps) && Effective(ps[i].priority) > Effective(ps[j].priority)
    ensures var ms := Flat(Single(ps, i, j, content)); !Deduplicates(hash, ps, ms, KeepFirst(hash, ms))
  {
    var a, b := Message(content, Some(ps[i].name)), Message(content, Some(ps[j].name));
    FlatTwo(Single(ps, i, j, content), i, j);
    assert Flat(Single(ps, i, j, content)) == [a, b];
    FoundByName(ps, i);
    FoundByName(ps, j);
    KeepFirstOfTwo(hash, a, b);
    FirstLoses(hash, ps, a, b);
  }

  lemma FirstLoses(hash: Hash, ps: seq<Provider>, a: Message, b: Message)
    requires a.content == b.content && PriorityOf(ps, b.provider) < PriorityOf(ps, a.provider)
    ensures !Deduplicates(hash, ps, [a, b], [a])
  {
    assert a != b && [a, b][1] == b;
    assert [a][0] == a;
  }

  /** A provider of priority 0 is held before one of a priority that counts for less than 999. */
  predicate ZeroBeforeOther(ps: seq<Provider>) {
    exists i, j | 0 <= i < j < |ps| :: ps[i].priority == 0 && 0 < ps[j].priority < 999
  }

  lemma SortedEffectively(ps: seq<Provider>)
    requires Ascending(ps)
    ensures EffectivelyAscending(ps) <==> !ZeroBeforeOther(ps)
  {
    if ZeroBeforeOther(ps) {
      var i, j :| 0 <= i < j < |ps| && ps[i].priority == 0 && 0 < ps[j].priority < 999;
      assert Effective(ps[i].priority) > Effective(ps[j].priority);
    }
  }

  /**
   * Through receive, with uniquely named providers held in order, deduplication is keeping the first
   * of each hash, for whatever the providers return, exactly when no provider has priority 0 before
   * one below 999: priority 0 is taken for no priority.
   */
  lemma ReceiveKeepsFirst(hash: Hash, ps: seq<Provider>)
    requires UniqueNames(ps) && Ascending(ps)
    ensures !ZeroBeforeOther(ps)
      <==> forall lists | Tagged(ps, lists) :: Deduplicates(hash, ps, Flat(lists), KeepFirst(hash, Flat(lists)))
  {
    SortedEffectively(ps);
    if ZeroBeforeOther(ps) {
      var i, j :| 0 <= i < j < |ps| && ps[i].priority == 0 && 0 < ps[j].priority < 999;
      LaterWins(hash, ps, i, j, Content("", "", 0, "", ""));
      assert Tagged(ps, Single(ps, i, j, Content("", "", 0, "", "")));
    } else {
      forall lists | Tagged(ps, lists) ensures Deduplicates(hash, ps, Flat(lists), KeepFirst(hash, Flat(lists))) {
        KeepFirstIsBest(hash, ps, lists);
      }
    }
  }

  class DeliveryManager {
    var providers: seq<Provider>
    const messageHash: Hash

    constructor (messageHash: Hash)
      ensures providers == [] && this.messageHash == messageHash
    {
      providers, this.messageHash := [], messageHash;
    }

    /** The new provider is pushed and the list sorted again. */
    method AddProvider(provider: Provider)
      modifies this
      ensures providers == SortByPriority(old(providers) + [provider])
      ensures Ascending(providers) && multiset(providers) == multiset(old(providers)) + multiset{provider}
      ensures forall n :: Keep(providers, WithPriority(n)) == Keep(old(providers) + [provider], WithPriority(n))
    {
      providers := providers + [provider];
      SortIsStable(providers);
      providers := SortByPriority(providers);
    }

    method Deduplicate(messages: seq<Message>) returns (r: seq<Message>)
      ensures Deduplicates(messageHash, providers, messages, r)
    {
      var seen: seq<Slot> := [];
      for i := 0 to |messages|
        invariant SeenOk(messageHash, providers, messages[..i], seen)
      {
        var msg := messages[i];
        var hash := messageHash(msg.content);
        assert messages[..i + 1] == messages[..i] + [msg];
        if !HasKey(seen, hash) {
          SeenNew(messageHash, providers, messages[..i], seen, msg);
          seen := seen + [Slot(hash, msg)];
        } else {
          var at := IndexOf(seen, hash);
          SeenAgain(messageHash, providers, messages[..i], seen, msg, at);
          var existingPriority := PriorityOf(providers, seen[at].msg.provider);
          var newPriority := PriorityOf(providers, msg.provider);
          if newPriority < existingPriority {
            seen := seen[at := Slot(hash, msg)];
          }
        }
      }
      assert messages[..|messages|] == messages;
      SeenDeduplicates(messageHash, providers, messages, seen);
      r := Messages(seen);
    }

    /** What each provider returned is flattened in the order the providers are held. */
    method Receive(results: seq<seq<Message>>) returns (r: seq<Message>)
      ensures Deduplicates(messageHash, providers, Flat(results), r)
    {
      r := Deduplicate(Flat(results));
    }
  }
}
