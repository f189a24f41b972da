/** Which hour buckets the DHT provider queries for a stretch of time, and which messages it so misses. */
module DhtWindow {
  import opened Data
  import opened Json

  const HOUR := 3_600_000   // milliseconds

  /** The hour a time stamp falls into. */
  function Bucket(ts: int): int {
    ts / 3_600_000
  }

  function BucketText(recipient: string, bucket: int): string {
    "whisper-v3:" + recipient + ":" + Integer(bucket * HOUR)
  }

  /** The text hashed into a DHT key; messages are stored under the key of their time stamp. */
  function KeyText(recipient: string, ts: int): string {
    BucketText(recipient, Bucket(ts))
  }

  /** The hour is the one the time stamp falls into, in milliseconds. */
  lemma KeyTextSpelled(recipient: string, ts: int)
    ensures exists hour: int ::
      && hour * 3_600_000 <= ts < (hour + 1) * 3_600_000
      && KeyText(recipient, ts) == "whisper-v3:" + recipient + ":" + Integer(hour * 3_600_000)
  {
    var hour := Bucket(ts);
    assert hour * 3_600_000 <= ts < (hour + 1) * 3_600_000;
    assert KeyText(recipient, ts) == "whisper-v3:" + recipient + ":" + Integer(hour * 3_600_000);
  }

  /** options.since || Date.now() - 48 hours: a missing start counts as 48 hours ago, and so does 0. */
  function Since(since: Option<int>, now: int): int {
    if since.None? || since.value == 0 then now - 48 * 3_600_000 else since.value
  }

  /** The smallest whole number of hours that is at least the stretch. */
  function HoursBetween(since: int, now: int): nat {
    if now <= since then 0 else (now - since + 3_599_999) / 3_600_000
  }

  lemma HoursBetweenIsCeiling(since: int, now: int)
    requires since < now
    ensures var n := HoursBetween(since, now); (n - 1) * 3_600_000 < now - since <= n * 3_600_000
  {
  }

  /** The keys of n buckets from the first on. */
  function Buckets(recipient: string, first: int, n: nat): (keys: seq<string>)
    ensures |keys| == n && forall i | 0 <= i < n :: keys[i] == BucketText(recipient, first + i)
  {
    seq(n, i requires 0 <= i < n => BucketText(recipient, first + i))
  }

  lemma OneMoreBucket(recipient: string, since: int, n: nat)
    ensures Buckets(recipient, Bucket(since), n) + [KeyText(recipient, since + n * 3_600_000)]
      == Buckets(recipient, Bucket(since), n + 1)
  {
    BucketsFollow(since, n);
  }

  /** The loop: one query an hour, starting at the given time itself and not at the full hour. */
  method QueriedKeys(recipient: string, optionsSince: Option<int>, now: int) returns (keys: seq<string>)
    ensures var since := Since(optionsSince, now); keys == Buckets(recipient, Bucket(since), HoursBetween(since, now))
  {
    var since := Since(optionsSince, now);
    keys := [];
    var ts := since;
    while ts < now
      invariant ts == since + |keys| * 3_600_000 && |keys| <= HoursBetween(since, now)
      invariant keys == Buckets(recipient, Bucket(since), |keys|)
    {
      OneMoreBucket(recipient, since, |keys|);
      OneMoreHour(since, now, |keys|);
      keys := keys + [KeyText(recipient, ts)];
      ts := ts + HOUR;
    }
    NoMoreHours(since, now, |keys|);
  }

  /** Where the stretch starts: 48 hours ago, unless a start other than 0 was given. */
  lemma SinceIs(optionsSince: Option<int>, now: int)
    ensures optionsSince.None? || optionsSince == Some(0) ==> Since(optionsSince, now) + 48 * 60 * 60 * 1000 == now
    ensures optionsSince.Some? && optionsSince != Some(0) ==> optionsSince == Some(Since(optionsSince, now))
  {
  }

  lemma KeyOfHour(recipient: string, since: int, i: int)
    ensures BucketText(recipient, Bucket(since) + i) == KeyText(recipient, since + i * 3_600_000)
  {
    assert Bucket(since + i * 3_600_000) == Bucket(since) + i;
  }

  /** One key an hour from the start on, until the hours cover the stretch. */
  lemma QueriesSpelled(recipient: string, since: int, now: int)
    ensures var keys := Buckets(recipient, Bucket(since), HoursBetween(since, now));
      && (now <= since ==> keys == [])
      && (since < now ==> (|keys| - 1) * 3_600_000 < now - since <= |keys| * 3_600_000)
      && forall i | 0 <= i < |keys| :: keys[i] == KeyText(recipient, since + i * 3_600_000)
  {
    var keys := Buckets(recipient, Bucket(since), HoursBetween(since, now));
    if since < now {
      HoursBetweenIsCeiling(since, now);
    }
    forall i | 0 <= i < |keys| ensures keys[i] == KeyText(recipient, since + i * 3_600_000) {
      KeyOfHour(recipient, since, i);
    }
  }

  lemma OneMoreHour(since: int, now: int, n: nat)
    requires since + n * 3_600_000 < now
    ensures n + 1 <= HoursBetween(since, now)
  {
  }

  lemma NoMoreHours(since: int, now: int, n: nat)
    requires now <= since + n * 3_600_000
    ensures HoursBetween(since, now) <= n
  {
  }

  lemma BucketsFollow(since: int, i: nat)
    ensures Bucket(since + i * 3_600_000) == Bucket(since) + i
  {
  }

  /** Is the bucket among those queried? */
  predicate Queried(since: int, now: int, bucket: int) {
    Bucket(since) <= bucket < Bucket(since) + HoursBetween(since, now)
  }

  /** A message is missed exactly when it is of the current hour and the current hour is not reached. */
  lemma MissedIsRecent(since: int, now: int, ts: int)
    requires since <= ts < now
    ensures Queried(since, now, Bucket(ts)) <==> Bucket(ts) < Bucket(now) || now % HOUR > since % HOUR
  {
    LastQueried(since, now);
  }

  lemma LastQueried(since: int, now: int)
    requires since < now
    ensures Bucket(since) + HoursBetween(since, now) == Bucket(now) + if now % HOUR > since % HOUR then 1 else 0
  {
    var a, r, b, s := since / HOUR, since % HOUR, now / HOUR, now % HOUR;
    assert since == a * HOUR + r && now == b * HOUR + s;
    assert now - since + 3_599_999 == (b - a) * HOUR + (s - r + 3_599_999);
  }

  /** Every time of the stretch is covered exactly when it ends on the hour or later within the hour than it began. */
  lemma CoversExactly(since: int, now: int)
    requires since < now
    ensures (forall ts | since <= ts < now :: Queried(since, now, Bucket(ts)))
      <==> now % HOUR == 0 || now % HOUR > since % HOUR
  {
    forall ts | since <= ts < now
      ensures Queried(since, now, Bucket(ts)) <==> Bucket(ts) < Bucket(now) || now % HOUR > since % HOUR
    {
      MissedIsRecent(since, now, ts);
    }
    if now % HOUR != 0 && now % HOUR <= since % HOUR {
      assert Bucket(now - 1) == Bucket(now) && since <= now - 1;
      assert !Queried(since, now, Bucket(now - 1));
    }
  }

  /**
   * The default stretch, which is also that of a start of 0, is 48 queries and misses the current hour
   * unless it has just begun.
   */
  lemma DefaultMissesCurrentHour(optionsSince: Option<int>, now: int)
    requires optionsSince.None? || optionsSince.value == 0
    ensures var since := Since(optionsSince, now);
      && HoursBetween(since, now) == 48
      && ((forall ts | since <= ts < now :: Queried(since, now, Bucket(ts))) <==> now % HOUR == 0)
      && forall ts | since <= ts < now :: Queried(since, now, Bucket(ts)) <==> Bucket(ts) < Bucket(now)
  {
    var since := Since(optionsSince, now);
    CoversExactly(since, now);
    forall ts | since <= ts < now ensures Queried(since, now, Bucket(ts)) <==> Bucket(ts) < Bucket(now) {
      MissedIsRecent(since, now, ts);
    }
  }

  /** Time stamps in different hours, or different recipients, have different key texts. */
  lemma KeyTextsDiffer(a: string, ts: int, b: string, ts': int)
    ensures KeyText(a, ts) == KeyText(b, ts') <==> a == b && Bucket(ts) == Bucket(ts')
  {
    if KeyText(a, ts) == KeyText(b, ts') {
      var prefix := "whisper-v3:";
      var m, n := Integer(Bucket(ts) * HOUR), Integer(Bucket(ts') * HOUR);
      assert KeyText(a, ts) == prefix + (a + [':'] + m) && KeyText(b, ts') == prefix + (b + [':'] + n);
      Cancel(prefix, a + [':'] + m, b + [':'] + n);
      LastColon(a, m, b, n);
      IntegerInjective(Bucket(ts) * HOUR, Bucket(ts') * HOUR);
    }
  }

  /** Text up to the last colon is determined by the whole. */
  lemma LastColon(a: string, m: string, b: string, n: string)
    requires a + [':'] + m == b + [':'] + n && ':' !in m && ':' !in n
    ensures a == b && m == n
  {
    var s, t := a + [':'] + m, b + [':'] + n;
    assert s[|a|] == ':' && t[|b|] == ':';
    assert forall i | |a| < i < |s| :: s[i] == m[i - |a| - 1];
    assert forall i | |b| < i < |t| :: t[i] == n[i - |b| - 1];
    assert |a| == |b|;
    assert s[..|a|] == a && t[..|b|] == b && s[|a| + 1..] == m && t[|b| + 1..] == n;
  }

  lemma IntegerInjective(m: int, n: int)
    requires Integer(m) == Integer(n)
    ensures m == n
  {
    IntegerUnique(m, "", n, "");
  }
}
