/** The session manager: a cache of session objects over files. */
module SessionManager {
  import opened Json
  import opened Ratchet
  import opened Persistence
  import opened Session
  import CanonicalJson
  import CanonicalOrder

  /** The two identities in sorted order, so that both parties name the session alike. */
  function GetSessionKey(localIdentity: string, remoteIdentity: string): string {
    if CanonicalJson.Before(remoteIdentity, localIdentity) then remoteIdentity + "__" + localIdentity
    else localIdentity + "__" + remoteIdentity
  }

  lemma SessionKeySymmetric(a: string, b: string)
    ensures GetSessionKey(a, b) == GetSessionKey(b, a)
  {
    CanonicalJson.BeforeTotal(a, b);
  }

  // ---------------------------------------------------------------- names of sessions

  predicate SameTwo(a: string, b: string, c: string, d: string) {
    (a == c && b == d) || (a == d && b == c)
  }

  /** A name is the lesser identity in dictionary order, two underscores, and the other identity. */
  lemma SessionKeySpelled(a: string, b: string)
    ensures CanonicalOrder.DictionaryBefore(a, b) || a == b ==> GetSessionKey(a, b) == a + "__" + b
    ensures CanonicalOrder.DictionaryBefore(b, a) ==> GetSessionKey(a, b) == b + "__" + a
    ensures a == b || CanonicalOrder.DictionaryBefore(a, b) || CanonicalOrder.DictionaryBefore(b, a)
  {
    CanonicalJson.BeforeTotal(a, b);
    CanonicalOrder.BeforeIsDictionaryOrder(a, b);
    CanonicalOrder.BeforeIsDictionaryOrder(b, a);
  }

  function Lesser(a: string, b: string): string {
    if CanonicalJson.Before(b, a) then b else a
  }

  /** The text splits at k into two identities in sorted order. */
  predicate SplitsAt(name: string, k: nat) {
    && k + 2 <= |name| && name[k..k + 2] == "__"
    && !CanonicalJson.Before(name[k + 2..], name[..k])
  }

  /** The name of a pair splits at one place only. */
  predicate NameIsOwn(a: string, b: string) {
    forall k | 0 <= k < |GetSessionKey(a, b)| && SplitsAt(GetSessionKey(a, b), k) :: k == |Lesser(a, b)|
  }

  lemma KeySplits(a: string, b: string)
    ensures var name, k := GetSessionKey(a, b), |Lesser(a, b)|;
      && SplitsAt(name, k) && SameTwo(a, b, name[..k], name[k + 2..])
  {
    var lesser := Lesser(a, b);
    var greater := if lesser == a then b else a;
    var name := lesser + "__" + greater;
    CanonicalJson.BeforeTotal(a, b);
    assert name == GetSessionKey(a, b);
    assert name[..|lesser|] == lesser && name[|lesser|..|lesser| + 2] == "__" && name[|lesser| + 2..] == greater;
  }

  lemma SplitNames(name: string, k: nat)
    requires SplitsAt(name, k)
    ensures GetSessionKey(name[..k], name[k + 2..]) == name && |Lesser(name[..k], name[k + 2..])| == k
  {
    assert name == name[..k] + name[k..k + 2] + name[k + 2..];
  }

  lemma SameTwoSameKey(a: string, b: string, c: string, d: string)
    requires SameTwo(a, b, c, d)
    ensures GetSessionKey(a, b) == GetSessionKey(c, d)
  {
    SessionKeySymmetric(a, b);
  }

  lemma OwnNameIsNotShared(a: string, b: string, c: string, d: string)
    requires NameIsOwn(a, b) && GetSessionKey(c, d) == GetSessionKey(a, b)
    ensures SameTwo(a, b, c, d)
  {
    KeySplits(a, b);
    KeySplits(c, d);
  }

  lemma SharedWith(a: string, b: string) returns (c: string, d: string)
    requires !NameIsOwn(a, b)
    ensures GetSessionKey(c, d) == GetSessionKey(a, b) && !SameTwo(a, b, c, d)
  {
    var name := GetSessionKey(a, b);
    var k :| 0 <= k < |name| && SplitsAt(name, k) && k != |Lesser(a, b)|;
    c, d := name[..k], name[k + 2..];
    SplitNames(name, k);
    if SameTwo(a, b, c, d) {
      SessionKeySymmetric(a, b);
      CanonicalJson.BeforeTotal(a, b);
    }
  }

  /** Two identities share their name with no other pair exactly when it splits at one place only. */
  lemma NameIsOwnExactlyWhen(a: string, b: string)
    ensures NameIsOwn(a, b)
      <==> forall c, d :: GetSessionKey(a, b) == GetSessionKey(c, d) <==> SameTwo(a, b, c, d)
  {
    if NameIsOwn(a, b) {
      forall c, d ensures GetSessionKey(a, b) == GetSessionKey(c, d) <==> SameTwo(a, b, c, d) {
        if SameTwo(a, b, c, d) {
          SameTwoSameKey(a, b, c, d);
        } else if GetSessionKey(a, b) == GetSessionKey(c, d) {
          OwnNameIsNotShared(a, b, c, d);
        }
      }
    } else {
      var c, d := SharedWith(a, b);
    }
  }

  /** Identities without underscores share their name with no other pair, whatever identities those have. */
  lemma NoUnderscoreIsOwn(a: string, b: string)
    requires '_' !in a && '_' !in b
    ensures NameIsOwn(a, b)
    ensures forall c, d :: GetSessionKey(a, b) == GetSessionKey(c, d) <==> SameTwo(a, b, c, d)
  {
    var name, n := GetSessionKey(a, b), |Lesser(a, b)|;
    KeySplits(a, b);
    assert name == name[..n] + name[n..n + 2] + name[n + 2..];
    forall k | 0 <= k < |name| && SplitsAt(name, k) ensures k == n {
      assert name[k..k + 2][0] == '_' && name[k..k + 2][1] == '_';
      UnderscoreAt(name, n, k);
      UnderscoreAt(name, n, k + 1);
    }
    NameIsOwnExactlyWhen(a, b);
  }

  lemma UnderscoreAt(name: string, n: nat, i: nat)
    requires n + 2 <= |name| && '_' !in name[..n] && '_' !in name[n + 2..] && i < |name| && name[i] == '_'
    ensures i == n || i == n + 1
  {
    assert forall j | 0 <= j < n :: name[..n][j] == name[j];
    assert forall j | n + 2 <= j < |name| :: name[n + 2..][j - n - 2] == name[j];
  }

  /** With underscores in them two pairs may share a name. */
  lemma NamesCanBeShared()
    ensures GetSessionKey("a", "b__c") == GetSessionKey("a__b", "c") == "a__b__c"
    ensures !NameIsOwn("a", "b__c")
  {
    assert GetSessionKey("a", "b__c") == "a__b__c" && GetSessionKey("a__b", "c") == "a__b__c";
    NameIsOwnExactlyWhen("a", "b__c");
    assert !SameTwo("a", "b__c", "a__b", "c");
  }

  /** Different pairs have different names when one of the names is its pair's own. */
  lemma OtherName(a: string, b: string, c: string, d: string)
    requires !SameTwo(a, b, c, d) && (NameIsOwn(a, b) || NameIsOwn(c, d))
    ensures GetSessionKey(a, b) != GetSessionKey(c, d)
  {
    if GetSessionKey(a, b) == GetSessionKey(c, d) {
      if NameIsOwn(a, b) {
        OwnNameIsNotShared(a, b, c, d);
      } else {
        OwnNameIsNotShared(c, d, a, b);
      }
    }
  }

  /** entries.slice(-max) for max > 0; slice(-0) is slice(0), so 0 keeps everything. */
  function MostRecent(entries: seq<Entry>, max: nat): seq<Entry> {
    if max == 0 || |entries| <= max then entries else entries[|entries| - max..]
  }

  /**
   * What is kept are the last entries, as many as the limit or all there are. Cleaning up so bounds the
   * map for every positive limit, and for 0, which keeps all, exactly when there was nothing to clean.
   */
  lemma CleanupBound(entries: seq<Entry>, max: nat)
    ensures |MostRecent(entries, max)| == if 0 < max < |entries| then max else |entries|
    ensures MostRecent(entries, max) == entries[|entries| - |MostRecent(entries, max)|..]
    ensures |MostRecent(entries, max)| <= max <==> max > 0 || entries == []
  {
    assert entries == entries[0..];
  }

  class SessionManager {
    var sessions: map<string, DoubleRatchetSession>   // in-memory cache
    var disk: map<string, Json>                       // the files of the storage directory

    constructor (files: map<string, Json>)
      ensures sessions == map[] && disk == files
    {
      sessions, disk := map[], files;
    }

    method LoadSession(localIdentity: string, remoteIdentity: string) returns (session: DoubleRatchetSession?)
      modifies this`sessions
      ensures var key := GetSessionKey(localIdentity, remoteIdentity);
        if key in old(sessions) then session == old(sessions)[key] && sessions == old(sessions)
        else if key in disk then session != null && fresh(session) && fresh(session.Parts())
          && sessions == old(sessions)[key := session]
          && session.Separate() && session.View() == LoadFile(disk[key])
        else session == null && sessions == old(sessions)
    {
      var key := GetSessionKey(localIdentity, remoteIdentity);
      if key in sessions {
        return sessions[key];
      }
      if key in disk {
        session := new DoubleRatchetSession.FromState(LoadFile(disk[key]));
        sessions := sessions[key := session];
        return;
      }
      return null;
    }

    method SaveSession(localIdentity: string, remoteIdentity: string, session: DoubleRatchetSession, now: int)
      modifies this
      ensures var key := GetSessionKey(localIdentity, remoteIdentity);
        && sessions == old(sessions)[key := session]
        && disk == old(disk)[key := SessionFile(localIdentity, remoteIdentity, now, session.View())]
    {
      var key := GetSessionKey(localIdentity, remoteIdentity);
      sessions := sessions[key := session];
      var chains := session.GetState();
      disk := disk[key := SessionFile(localIdentity, remoteIdentity, now, chains)];
    }

    method DeleteSession(localIdentity: string, remoteIdentity: string)
      modifies this
      ensures var key := GetSessionKey(localIdentity, remoteIdentity);
        sessions == old(sessions) - {key} && disk == old(disk) - {key}
    {
      var key := GetSessionKey(localIdentity, remoteIdentity);
      sessions := sessions - {key};
      disk := disk - {key};
    }

    /** Nothing happens below the limit; above it the oldest entries go and the session is saved. */
    method CleanupSkippedKeys(localIdentity: string, remoteIdentity: string, maxSkippedKeys: nat, now: int)
      requires var key := GetSessionKey(localIdentity, remoteIdentity);
        key in sessions ==> (this as object) !in sessions[key].Parts()
      modifies this, (var key := GetSessionKey(localIdentity, remoteIdentity);
                      if key in sessions then {sessions[key]} else {})
      ensures var key := GetSessionKey(localIdentity, remoteIdentity);
        && (key !in old(sessions) && key !in old(disk) ==> sessions == old(sessions) && disk == old(disk))
        && (key in old(sessions) || key in old(disk)
            ==> key in sessions && sessions == old(sessions)[key := sessions[key]])
        && (key in old(sessions) ==> sessions[key] == old(sessions)[key])
      ensures var key := GetSessionKey(localIdentity, remoteIdentity);
        key in old(sessions) || key in old(disk) ==>
          var before := if key in old(sessions) then old(sessions[key].View()) else LoadFile(old(disk)[key]);
          var after := before.(skipped := MostRecent(before.skipped, maxSkippedKeys));
          && sessions[key].View() == after
          && disk == (if |before.skipped| > maxSkippedKeys
                      then old(disk)[key := SessionFile(localIdentity, remoteIdentity, now, sessions[key].View())]
                      else old(disk))
    {
      var session := LoadSession(localIdentity, remoteIdentity);
      if session == null {
        return;
      }
      var entries := session.skippedMessageKeys;
      if |entries| > maxSkippedKeys {
        session.skippedMessageKeys := MostRecent(entries, maxSkippedKeys);
        SaveSession(localIdentity, remoteIdentity, session, now);
      }
    }
  }

  /** A session saved by one manager and loaded by another that has only the file is the same session. */
  method SaveThenLoadElsewhere(saver: SessionManager, session: DoubleRatchetSession, localIdentity: string,
                               remoteIdentity: string, now: int)
    returns (loaded: DoubleRatchetSession?)
    requires Storable(session.View()) && (saver as object) !in session.Parts()
    modifies saver
    ensures loaded != null && loaded.View() == old(session.View()) && loaded.Separate()
  {
    saver.SaveSession(localIdentity, remoteIdentity, session, now);
    SaveLoad(localIdentity, remoteIdentity, now, session.View());
    var loader := new SessionManager(saver.disk);
    loaded := loader.LoadSession(localIdentity, remoteIdentity);
  }

  // ---------------------------------------------------------------- other pairs

  /** After saving for one pair, loading for another gives what it would have given before. */
  method LoadAfterSave(manager: SessionManager, a: string, b: string, session: DoubleRatchetSession, now: int,
                       c: string, d: string)
    returns (other: DoubleRatchetSession?)
    requires !SameTwo(a, b, c, d) && (NameIsOwn(a, b) || NameIsOwn(c, d))
    modifies manager
    ensures var name := GetSessionKey(c, d);
      if name in old(manager.sessions) then other == old(manager.sessions)[name]
      else if name in old(manager.disk) then other != null && other.View() == LoadFile(old(manager.disk)[name])
      else other == null
  {
    OtherName(a, b, c, d);
    manager.SaveSession(a, b, session, now);
    other := manager.LoadSession(c, d);
  }

  /** The same after deleting the session of a pair. */
  method LoadAfterDelete(manager: SessionManager, a: string, b: string, c: string, d: string)
    returns (other: DoubleRatchetSession?)
    requires !SameTwo(a, b, c, d) && (NameIsOwn(a, b) || NameIsOwn(c, d))
    modifies manager
    ensures var name := GetSessionKey(c, d);
      if name in old(manager.sessions) then other == old(manager.sessions)[name]
      else if name in old(manager.disk) then other != null && other.View() == LoadFile(old(manager.disk)[name])
      else other == null
  {
    OtherName(a, b, c, d);
    manager.DeleteSession(a, b);
    other := manager.LoadSession(c, d);
  }

  /** The same after cleaning up; the session of the pair itself is the only object that may change. */
  method LoadAfterCleanup(manager: SessionManager, a: string, b: string, maxSkippedKeys: nat, now: int,
                          c: string, d: string)
    returns (other: DoubleRatchetSession?)
    requires !SameTwo(a, b, c, d) && (NameIsOwn(a, b) || NameIsOwn(c, d))
    requires var key := GetSessionKey(a, b);
      key in manager.sessions ==> (manager as object) !in manager.sessions[key].Parts()
    modifies manager, (var key := GetSessionKey(a, b);
                       if key in manager.sessions then {manager.sessions[key]} else {})
    ensures var name := GetSessionKey(c, d);
      if name in old(manager.sessions) then other == old(manager.sessions)[name]
      else if name in old(manager.disk) then other != null && other.View() == LoadFile(old(manager.disk)[name])
      else other == null
  {
    OtherName(a, b, c, d);
    manager.CleanupSkippedKeys(a, b, maxSkippedKeys, now);
    other := manager.LoadSession(c, d);
  }
}
