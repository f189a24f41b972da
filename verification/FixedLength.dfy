/**
 * Derivations of fixed length meet the condition of the key-use results: a run over HKDF with a
 * counting stand-in for HMAC-SHA256, 32 octets long, that meets no collision.
 */
module FixedLength {
  import opened Data
  import opened Kdf
  import opened Ratchet
  import opened Protocol
  import opened AgreementTheorems
  import opened PreviousLength
  import opened KeyUse
  import opened WhisperPrimitives

  /** 32 octets: the last octet of the text, and one more than the second octet of the key. */
  function Counting(): Hmac {
    (key, text) => Key(Last(text), Successor(key))
  }

  function Last(text: Bytes): byte {
    if text == [] then 0 else text[|text| - 1]
  }

  function Successor(key: Bytes): byte {
    if |key| < 2 || key[1] == 255 then 0 else key[1] + 1
  }

  lemma CountingIsSized()
    ensures Sized(Counting())
  {
  }

  function Fixed(): Primitives {
    CountingIsSized();
    Whisper(Counting(), Curve(s => [0] + s, (a, b) => []), Cipher((k, iv, text) => text, (k, iv, text) => Some(text)))
  }

  lemma FixedIsLawful()
    ensures Lawful(Fixed())
  {
    CountingIsSized();
    WhisperIsLawful(Counting(), Curve(s => [0] + s, (a, b) => []),
      Cipher((k, iv, text) => text, (k, iv, text) => Some(text)));
  }

  /** A key as the counting derivation makes it. */
  function Key(tag: byte, count: byte): Bytes {
    [tag, count] + seq(30, _ => 0)
  }

  lemma KeysDiffer(a: byte, m: byte, b: byte, n: byte)
    ensures Key(a, m) == Key(b, n) <==> a == b && m == n
  {
    assert Key(a, m)[0] == a && Key(a, m)[1] == m && Key(b, n)[0] == b && Key(b, n)[1] == n;
  }

  lemma ChainStepCounts(tag: byte, count: byte)
    requires count < 255
    ensures Fixed().chainStep(Key(tag, count)) == ChainStep(Key(2, count + 1), Key(1, count + 1))
  {
    var hmac, key := Counting(), Key(tag, count);
    assert key[1] == count && |key| == 32;
    assert hmac(key, [2]) == Key(2, count + 1) && hmac(key, [1]) == Key(1, count + 1);
    assert KdfChainKey(hmac, key) == ChainStep(Key(2, count + 1), Key(1, count + 1));
  }

  lemma RootStepCounts(tag: byte, count: byte, dh: Bytes)
    requires count < 254
    ensures Fixed().rootStep(Key(tag, count), dh) == RootStep(Key(1, count + 2), Key(2, count + 2))
  {
    CountingIsSized();
    var hmac := Counting();
    var prk := hmac(Key(tag, count), dh);
    RootSplit(hmac, Key(tag, count), dh);
    assert Key(tag, count)[1] == count && prk[1] == count + 1;
    assert Last(T(hmac, prk, ROOT_INFO, 0) + ROOT_INFO + [1]) == 1;
    assert Last(T(hmac, prk, ROOT_INFO, 1) + ROOT_INFO + [2]) == 2;
  }

  /** A chain that starts with a counted key goes on counting. */
  lemma {:induction false} ChainCounts(count: byte, n: nat)
    requires count as int + n < 256
    ensures ChainKeyAt(Fixed(), Key(2, count), n) == Key(2, (count as int + n) as byte)
  {
    if n == 0 {
    } else {
      ChainCounts(count, n - 1);
      ChainStepCounts(2, (count as int + n - 1) as byte);
    }
  }

  lemma CountedStepsApart(m: byte, n: byte)
    requires m < 255 && n < 255
    ensures StepsApart(Fixed(), Key(2, m), Key(2, n))
  {
    ChainStepCounts(2, m);
    ChainStepCounts(2, n);
    KeysDiffer(2, m + 1, 2, n + 1);
    KeysDiffer(1, m + 1, 1, n + 1);
  }

  /** One counted chain meets no collision as long as its counter does not wrap. */
  lemma CountedChainApart(count: byte, m: nat, n: nat)
    requires count as int + m < 255 && count as int + n < 255
    ensures ChainsApart(Fixed(), Key(2, count), m, Key(2, count), n)
  {
    var p, a := Fixed(), Key(2, count);
    forall i, j | 0 <= i <= m && 0 <= j <= n ensures StepsApart(p, ChainKeyAt(p, a, i), ChainKeyAt(p, a, j)) {
      ChainCounts(count, i);
      ChainCounts(count, j);
      CountedStepsApart((count as int + i) as byte, (count as int + j) as byte);
    }
    forall i | 0 < i <= m ensures ChainKeyAt(p, a, i) != a {
      ChainCounts(count, i);
      KeysDiffer(2, (count as int + i) as byte, 2, count);
    }
    forall j | 0 < j <= n ensures ChainKeyAt(p, a, j) != a {
      ChainCounts(count, j);
      KeysDiffer(2, (count as int + j) as byte, 2, count);
    }
  }

  function FirstPair(): KeyPair {
    KeyPair([0, 1], [1])
  }

  function SecondPair(): KeyPair {
    KeyPair([0, 2], [2])
  }

  /** Two messages sent from a start. */
  lemma TwoFromStart(p: Primitives, w0: World, rootKey: Bytes, first: KeyPair, second: KeyPair, identity: Bytes)
      returns (w: World)
    requires Lawful(p) && Start(p, w0, rootKey, first, first, second, identity)
    ensures Reachable(p, w) && w.history == w0.history && |w.sent| == 2
    ensures forall i | 0 <= i < 2 :: w.sent[i].epoch == 1 && w.sent[i].number == i
  {
    StartNumbers(p, w0, rootKey, first, first, second, identity);
    w := TwoSent(p, w0, first);
    FollowsStart(p, w0, rootKey, first, first, second, identity, w);
  }

  /** Two messages sent with 32-octet derivations, and not a single collision. */
  lemma FixedLengthRun() returns (w: World)
    ensures Lawful(Fixed()) && Reachable(Fixed(), w) && |w.sent| == 2 && NoCollision(Fixed(), w)
    ensures forall r, d :: |Fixed().rootStep(r, d).rootKey| == |Fixed().rootStep(r, d).chainKey| == 32
    ensures forall k :: |Fixed().chainStep(k).chainKey| == |Fixed().chainStep(k).messageKey| == 32
  {
    FixedIsLawful();
    var w0 := FixedStart();
    w := TwoFromStart(Fixed(), w0, Key(9, 0), FirstPair(), SecondPair(), [0, 3]);
    FixedRoots(w.history);
    FixedSent(w.history, w.sent);
    AllOfLength32();
  }

  lemma FixedStart() returns (w: World)
    ensures Start(Fixed(), w, Key(9, 0), FirstPair(), FirstPair(), SecondPair(), [0, 3])
    ensures |w.history| == 2 && w.history[0].rootKey == Key(9, 0)
    ensures w.history[1].rootKey == Key(1, 2) && w.history[1].chainKey == Key(2, 2)
  {
    var p, root := Fixed(), Key(9, 0);
    var a := NewSession(p, root, FirstPair(), Some(SecondPair().publicKey), true, FirstPair()).value;
    var b := NewSession(p, root, SecondPair(), Some([0, 3]), false, FirstPair()).value;
    w := World(Both(Party(a, 1, {}), Party(b, 0, {})), Both([], []),
               [Epoch(root, [], SecondPair()), Epoch(a.rootKey, a.sendingChain.value.key, FirstPair())], [], []);
    assert [0] + [1 as byte] == [0, 1] && [0] + [2 as byte] == [0, 2];
    assert FirstPair().publicKey[1] != SecondPair().publicKey[1];
    RootStepCounts(9, 0, p.sharedKey(FirstPair().secretKey, SecondPair().publicKey));
  }

  lemma FixedRoots(h: seq<Epoch>)
    requires |h| == 2 && h[0].rootKey == Key(9, 0) && h[1].rootKey == Key(1, 2)
    ensures RootsApart(h)
  {
    KeysDiffer(9, 0, 1, 2);
    forall i: nat, j: nat ensures RootStepsApart(h, i, j) {
    }
  }

  lemma FixedSent(h: seq<Epoch>, sent: seq<Packet>)
    requires |h| == 2 && h[1].chainKey == Key(2, 2) && |sent| == 2
    requires forall i | 0 <= i < 2 :: sent[i].epoch == 1 && sent[i].number == i
    ensures SentApart(Fixed(), h, sent)
  {
    forall i, j | 0 <= i < |sent| && 0 <= j < |sent| ensures PlacesApart(Fixed(), h, sent[i], sent[j]) {
      CountedChainApart(2, i, j);
    }
  }

  lemma AllOfLength32()
    ensures forall r, d :: |Fixed().rootStep(r, d).rootKey| == |Fixed().rootStep(r, d).chainKey| == 32
    ensures forall k :: |Fixed().chainStep(k).chainKey| == |Fixed().chainStep(k).messageKey| == 32
  {
    CountingIsSized();
    forall r, d ensures |Fixed().rootStep(r, d).rootKey| == |Fixed().rootStep(r, d).chainKey| == 32 {
      RootSplit(Counting(), r, d);
    }
  }
}
