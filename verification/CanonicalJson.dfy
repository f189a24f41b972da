/**
 * Deterministic JSON text: object members are sorted by key at every depth before printing, and
 * printed in the order in which JavaScript enumerates them.
 * The text is a normal form for values up to the order of object members.
 */
module CanonicalJson {
  import opened Data
  import opened Json

  /** Strict dictionary order on keys. */
  predicate Before(a: string, b: string) {
    b != "" && (a == "" || a[0] < b[0] || (a[0] == b[0] && Before(a[1..], b[1..])))
  }

  function Insert(f: Field, fs: seq<Field>): (r: seq<Field>)
    ensures multiset(r) == multiset{f} + multiset(fs)
  {
    if fs == [] || Before(f.key, fs[0].key) then
      [f] + fs
    else
      assert fs == [fs[0]] + fs[1..];
      [fs[0]] + Insert(f, fs[1..])
  }

  function SortByKey(fs: seq<Field>): (r: seq<Field>)
    ensures multiset(r) == multiset(fs)
  {
    if fs == [] then
      []
    else
      assert fs == [fs[0]] + fs[1..];
      Insert(fs[0], SortByKey(fs[1..]))
  }

  // ---------------------------------------------------------------- the order of enumeration

  /** Decimal digits without a leading zero, of a number below 2 to the 32nd, less one. */
  predicate IsArrayIndex(k: string) {
    && k != "" && (forall i | 0 <= i < |k| :: IsDigit(k[i]))
    && (k[0] == '0' ==> k == "0") && DecimalValue(k) < 0xFFFF_FFFF
  }

  function DecimalValue(k: string): nat
    requires forall i | 0 <= i < |k| :: IsDigit(k[i])
  {
    if k == "" then 0
    else
      assert IsDigit(k[|k| - 1]);
      10 * DecimalValue(k[..|k| - 1]) + (k[|k| - 1] as int - '0' as int)
  }

  function IndexOf(k: string): nat {
    if IsArrayIndex(k) then DecimalValue(k) else 0
  }

  function InsertIndex(f: Field, fs: seq<Field>): (r: seq<Field>)
    ensures multiset(r) == multiset{f} + multiset(fs)
  {
    if fs == [] || IndexOf(f.key) < IndexOf(fs[0].key) then
      [f] + fs
    else
      assert fs == [fs[0]] + fs[1..];
      [fs[0]] + InsertIndex(f, fs[1..])
  }

  /** The members with an array index for a key, by their number. */
  function Indices(fs: seq<Field>): seq<Field> {
    if fs == [] then []
    else if IsArrayIndex(fs[0].key) then InsertIndex(fs[0], Indices(fs[1..]))
    else Indices(fs[1..])
  }

  /** The other members, in the order in which they were set. */
  function Others(fs: seq<Field>): seq<Field> {
    if fs == [] then []
    else if IsArrayIndex(fs[0].key) then Others(fs[1..])
    else [fs[0]] + Others(fs[1..])
  }

  /** The order in which JavaScript enumerates members that were set in the order given. */
  function Enumerated(fs: seq<Field>): seq<Field> {
    Indices(fs) + Others(fs)
  }

  lemma {:induction false} EnumeratedMembers(fs: seq<Field>)
    ensures multiset(Enumerated(fs)) == multiset(fs)
  {
    if fs == [] {
    } else {
      EnumeratedMembers(fs[1..]);
      assert fs == [fs[0]] + fs[1..];
    }
  }

  /** Members set in the order of their keys. */
  function Arranged(fs: seq<Field>): (r: seq<Field>)
    ensures multiset(r) == multiset(fs)
  {
    EnumeratedMembers(SortByKey(fs));
    Enumerated(SortByKey(fs))
  }

  function SortRec(v: Json): Json
    decreases v, 1
  {
    match v
    case Arr(items) => Arr(SortItems(items))
    case Obj(fields) => Obj(Arranged(SortFields(fields)))
    case _ => v
  }

  function SortItems(vs: seq<Json>): (r: seq<Json>)
    ensures |r| == |vs| && forall i | 0 <= i < |vs| :: r[i] == SortRec(vs[i])
    decreases vs, 0
  {
    if vs == [] then [] else [SortRec(vs[0])] + SortItems(vs[1..])
  }

  function SortField(f: Field): Field
    decreases f, 2
  {
    Field(f.key, SortRec(f.value))
  }

  function SortFields(fs: seq<Field>): (r: seq<Field>)
    ensures |r| == |fs| && forall i | 0 <= i < |fs| :: r[i] == SortField(fs[i])
    decreases fs, 0
  {
    if fs == [] then [] else [SortField(fs[0])] + SortFields(fs[1..])
  }

  function CanonicalStringify(v: Json): string {
    Text(SortRec(v))
  }

  // ---------------------------------------------------------------- what is promised

  /** Keys that become own members when they are assigned to. */
  predicate OrdinaryKey(k: string) {
    k != "__proto__"
  }

  predicate Distinct(fs: seq<Field>) {
    forall i, j | 0 <= i < j < |fs| :: fs[i].key != fs[j].key
  }

  predicate WellFormed(v: Json)
    decreases v
  {
    match v
    case Arr(items) => forall i | 0 <= i < |items| :: WellFormed(items[i])
    case Obj(fields) =>
      && Distinct(fields)
      && forall i | 0 <= i < |fields| :: OrdinaryKey(fields[i].key) && WellFormed(fields[i].value)
    case _ => true
  }

  predicate HasKey(fs: seq<Field>, k: string) {
    exists i | 0 <= i < |fs| :: fs[i].key == k
  }

  /** Where a key stands in a member list. */
  function At(fs: seq<Field>, k: string): (i: nat)
    requires HasKey(fs, k)
    ensures i < |fs| && fs[i].key == k
  {
    if fs[0].key == k then 0 else 1 + At(fs[1..], k)
  }

  /** Equality up to the order of object members, at every depth. */
  ghost predicate Same(u: Json, v: Json)
    decreases u
  {
    match u
    case Arr(vs) => v.Arr? && |vs| == |v.items| && forall i | 0 <= i < |vs| :: Same(vs[i], v.items[i])
    case Obj(fs) =>
      && v.Obj?
      && (forall i | 0 <= i < |fs| ::
            HasKey(v.fields, fs[i].key) && Same(fs[i].value, v.fields[At(v.fields, fs[i].key)].value))
      && (forall j | 0 <= j < |v.fields| :: HasKey(fs, v.fields[j].key))
    case _ => u == v
  }

  // ---------------------------------------------------------------- sorting by key

  predicate Ascending(fs: seq<Field>) {
    forall i, j | 0 <= i < j < |fs| :: Before(fs[i].key, fs[j].key)
  }

  lemma {:induction false} BeforeIrreflexive(a: string)
    ensures !Before(a, a)
  {
    if a == "" {
    } else {
      BeforeIrreflexive(a[1..]);
    }
  }

  lemma {:induction false} BeforeTotal(a: string, b: string)
    ensures Before(a, b) ==> !Before(b, a)
    ensures a == b || Before(a, b) || Before(b, a)
    decreases |a| + |b|
  {
    if a == "" || b == "" {
    } else {
      BeforeTotal(a[1..], b[1..]);
      assert a == [a[0]] + a[1..] && b == [b[0]] + b[1..];
    }
  }

  lemma {:induction false} BeforeTransitive(a: string, b: string, c: string)
    requires Before(a, b) && Before(b, c)
    ensures Before(a, c)
  {
    if a != "" && a[0] == b[0] && b[0] == c[0] {
      BeforeTransitive(a[1..], b[1..], c[1..]);
    }
  }

  lemma {:induction false} InsertAscending(f: Field, fs: seq<Field>)
    requires Ascending(fs) && forall i | 0 <= i < |fs| :: fs[i].key != f.key
    ensures Ascending(Insert(f, fs))
  {
    if fs == [] {
    } else {
      BeforeTotal(f.key, fs[0].key);
      if Before(f.key, fs[0].key) {
        forall i | 0 < i < |fs| ensures Before(f.key, fs[i].key) {
          BeforeTransitive(f.key, fs[0].key, fs[i].key);
        }
      } else {
        InsertAscending(f, fs[1..]);
        var r := Insert(f, fs[1..]);
        forall i | 0 <= i < |r| ensures Before(fs[0].key, r[i].key) {
          assert r[i] in multiset(r);
        }
      }
    }
  }

  lemma {:induction false} SortAscending(fs: seq<Field>)
    requires Distinct(fs)
    ensures Ascending(SortByKey(fs))
  {
    if fs == [] {
    } else {
      SortAscending(fs[1..]);
      var r := SortByKey(fs[1..]);
      forall i | 0 <= i < |r| ensures r[i].key != fs[0].key {
        assert r[i] in multiset(fs[1..]);
      }
      InsertAscending(fs[0], r);
    }
  }

  lemma HasMember(fs: seq<Field>)
    requires fs != []
    ensures exists f :: f in fs
  {
    assert fs[0] in fs;
  }

  /** Ascending lists with the same members are the same list. */
  lemma {:induction false} AscendingUnique(fs: seq<Field>, gs: seq<Field>)
    requires Ascending(fs) && Ascending(gs)
    requires forall f :: f in fs <==> f in gs
    ensures fs == gs
  {
    if fs == [] {
      if gs != [] {
        HasMember(gs);
      }
    } else {
      assert fs[0] in fs;
      var f, g := fs[0], gs[0];
      assert g in gs;
      BeforeTotal(f.key, g.key);
      BeforeIrreflexive(f.key);
      assert f == g;
      forall h ensures h in fs[1..] <==> h in gs[1..] {
        assert h in fs <==> h == f || h in fs[1..];
        assert h in gs <==> h == f || h in gs[1..];
      }
      AscendingUnique(fs[1..], gs[1..]);
      assert fs == [f] + fs[1..] && gs == [f] + gs[1..];
    }
  }

  // ---------------------------------------------------------------- normal form

  /** Every member of one list has a counterpart in the other. */
  ghost predicate Covered(fs: seq<Field>, gs: seq<Field>) {
    forall i | 0 <= i < |fs| :: fs[i] in gs
  }

  /** Member lists that agree once every value is sorted, in whatever order, sort to one list. */
  lemma SortedMembersAgree(cs: seq<Field>, ds: seq<Field>)
    requires Distinct(cs) && Distinct(ds) && Covered(cs, ds) && Covered(ds, cs)
    ensures Arranged(cs) == Arranged(ds)
  {
    SortAscending(cs);
    SortAscending(ds);
    forall f ensures f in SortByKey(cs) <==> f in SortByKey(ds) {
      assert f in SortByKey(cs) <==> f in multiset(cs);
      assert f in SortByKey(ds) <==> f in multiset(ds);
    }
    AscendingUnique(SortByKey(cs), SortByKey(ds));
  }

  lemma SameMultisetCovers(cs: seq<Field>, ds: seq<Field>)
    requires multiset(cs) == multiset(ds)
    ensures Covered(cs, ds)
  {
    forall i | 0 <= i < |cs| ensures cs[i] in ds {
      assert cs[i] in multiset(cs);
    }
  }

  lemma {:induction false} SameGivesEqualSort(u: Json, v: Json)
    requires WellFormed(u) && WellFormed(v) && Same(u, v)
    ensures SortRec(u) == SortRec(v)
    decreases u
  {
    if u.Arr? {
      var vs, ws := u.items, v.items;
      forall i | 0 <= i < |vs| ensures SortRec(vs[i]) == SortRec(ws[i]) { SameGivesEqualSort(vs[i], ws[i]); }
      assert SortItems(vs) == SortItems(ws);
    } else if u.Obj? {
      var fs, gs := u.fields, v.fields;
      forall i | 0 <= i < |fs| ensures SortField(fs[i]) == SortField(gs[At(gs, fs[i].key)]) {
        SameGivesEqualSort(fs[i].value, gs[At(gs, fs[i].key)].value);
      }
      MatchedMembersSortAlike(fs, gs, SortFields(fs), SortFields(gs));
    }
  }

  /** The members of one list matched with those of another by their keys. */
  predicate Matched(fs: seq<Field>, gs: seq<Field>, cs: seq<Field>, ds: seq<Field>) {
    && |cs| == |fs| && |ds| == |gs| && Distinct(fs) && Distinct(gs)
    && (forall i | 0 <= i < |fs| :: cs[i].key == fs[i].key)
    && (forall j | 0 <= j < |gs| :: ds[j].key == gs[j].key)
    && (forall i | 0 <= i < |fs| :: HasKey(gs, fs[i].key) && cs[i] == ds[At(gs, fs[i].key)])
    && (forall j | 0 <= j < |gs| :: HasKey(fs, gs[j].key))
  }

  lemma MatchedCover(fs: seq<Field>, gs: seq<Field>, cs: seq<Field>, ds: seq<Field>)
    requires Matched(fs, gs, cs, ds)
    ensures Distinct(cs) && Distinct(ds) && Covered(cs, ds) && Covered(ds, cs)
  {
    forall j | 0 <= j < |gs| ensures ds[j] in cs {
      var i := At(fs, gs[j].key);
      assert At(gs, fs[i].key) == j;
      assert cs[i] == ds[j];
    }
  }

  lemma MatchedMembersSortAlike(fs: seq<Field>, gs: seq<Field>, cs: seq<Field>, ds: seq<Field>)
    requires Matched(fs, gs, cs, ds)
    ensures Arranged(cs) == Arranged(ds)
  {
    MatchedCover(fs, gs, cs, ds);
    SortedMembersAgree(cs, ds);
  }

  lemma {:induction false} EqualSortGivesSame(u: Json, v: Json)
    requires WellFormed(u) && WellFormed(v) && SortRec(u) == SortRec(v)
    ensures Same(u, v)
    decreases u
  {
    if u.Arr? {
      var vs, ws := u.items, v.items;
      assert SortItems(vs) == SortItems(ws);
      forall i | 0 <= i < |vs| ensures Same(vs[i], ws[i]) { EqualSortGivesSame(vs[i], ws[i]); }
    } else if u.Obj? {
      var fs, gs := u.fields, v.fields;
      EqualSortMatches(fs, gs, SortFields(fs), SortFields(gs));
      EqualSortMatches(gs, fs, SortFields(gs), SortFields(fs));
      forall i | 0 <= i < |fs| ensures Same(fs[i].value, gs[At(gs, fs[i].key)].value) {
        EqualSortGivesSame(fs[i].value, gs[At(gs, fs[i].key)].value);
      }
    }
  }

  lemma MemberMatches(fs: seq<Field>, gs: seq<Field>, cs: seq<Field>, ds: seq<Field>, i: nat)
    requires |cs| == |fs| && |ds| == |gs| && Distinct(gs) && i < |fs| && cs[i].key == fs[i].key && cs[i] in ds
    requires forall j | 0 <= j < |gs| :: ds[j].key == gs[j].key
    ensures HasKey(gs, fs[i].key) && cs[i] == ds[At(gs, fs[i].key)]
  {
    var j :| 0 <= j < |ds| && ds[j] == cs[i];
    assert gs[j].key == fs[i].key;
  }

  lemma EqualSortMatches(fs: seq<Field>, gs: seq<Field>, cs: seq<Field>, ds: seq<Field>)
    requires |cs| == |fs| && |ds| == |gs| && Distinct(gs)
    requires forall i | 0 <= i < |fs| :: cs[i].key == fs[i].key
    requires forall j | 0 <= j < |gs| :: ds[j].key == gs[j].key
    requires Arranged(cs) == Arranged(ds)
    ensures forall i | 0 <= i < |fs| :: HasKey(gs, fs[i].key) && cs[i] == ds[At(gs, fs[i].key)]
  {
    SameMultisetCovers(cs, ds);
    forall i | 0 <= i < |fs| ensures HasKey(gs, fs[i].key) && cs[i] == ds[At(gs, fs[i].key)] {
      MemberMatches(fs, gs, cs, ds, i);
    }
  }

  /** The canonical text identifies a value exactly up to the order of object members. */
  lemma NormalForm(u: Json, v: Json)
    requires WellFormed(u) && WellFormed(v)
    ensures CanonicalStringify(u) == CanonicalStringify(v) <==> Same(u, v)
  {
    if CanonicalStringify(u) == CanonicalStringify(v) {
      TextInjective(SortRec(u), SortRec(v));
      EqualSortGivesSame(u, v);
    }
    if Same(u, v) {
      SameGivesEqualSort(u, v);
    }
  }

  lemma {:induction false} SortKeepsValue(v: Json)
    requires WellFormed(v)
    ensures WellFormed(SortRec(v)) && Same(v, SortRec(v))
    decreases v
  {
    if v.Arr? {
      var vs := v.items;
      forall i | 0 <= i < |vs|
        ensures WellFormed(SortRec(vs[i])) && Same(vs[i], SortRec(vs[i])) { SortKeepsValue(vs[i]); }
    } else if v.Obj? {
      var fs := v.fields;
      var r := Arranged(SortFields(fs));
      SortKeepsMembers(fs, SortFields(fs), r);
      forall i | 0 <= i < |fs|
        ensures WellFormed(SortRec(fs[i].value)) && Same(fs[i].value, r[At(r, fs[i].key)].value)
      {
        SortKeepsValue(fs[i].value);
      }
      forall j | 0 <= j < |r| ensures OrdinaryKey(r[j].key) && WellFormed(r[j].value) {
        assert r[j] == SortFields(fs)[At(fs, r[j].key)];
      }
    }
  }

  lemma {:induction false} DistinctOnce(fs: seq<Field>, f: Field)
    requires Distinct(fs)
    ensures multiset(fs)[f] <= 1
  {
    if fs == [] {
    } else {
      DistinctOnce(fs[1..], f);
      assert fs == [fs[0]] + fs[1..];
      if f == fs[0] {
        assert f !in fs[1..];
      }
    }
  }

  lemma TwiceIn(r: seq<Field>, i: nat, j: nat)
    requires i < j < |r| && r[i] == r[j]
    ensures multiset(r)[r[i]] >= 2
  {
    assert r == r[..j] + r[j..];
    assert r[..j][i] == r[i] && r[j..][0] == r[j];
    assert r[i] in multiset(r[..j]) && r[i] in multiset(r[j..]);
  }

  /** Listing members in another order keeps their keys different. */
  lemma DistinctPermuted(cs: seq<Field>, r: seq<Field>)
    requires Distinct(cs) && multiset(r) == multiset(cs)
    ensures Distinct(r)
  {
    forall i, j | 0 <= i < j < |r| ensures r[i].key != r[j].key {
      if r[i] == r[j] {
        TwiceIn(r, i, j);
        DistinctOnce(cs, r[i]);
      } else {
        assert r[i] in multiset(cs) && r[j] in multiset(cs);
        var a :| 0 <= a < |cs| && cs[a] == r[i];
        var b :| 0 <= b < |cs| && cs[b] == r[j];
      }
    }
  }

  /** Sorting renumbers the members of a list. */
  lemma SortKeepsMembers(fs: seq<Field>, cs: seq<Field>, r: seq<Field>)
    requires |cs| == |fs| && Distinct(fs) && r == Arranged(cs)
    requires forall i | 0 <= i < |fs| :: cs[i].key == fs[i].key
    ensures Distinct(r)
    ensures forall i | 0 <= i < |fs| :: HasKey(r, fs[i].key) && r[At(r, fs[i].key)] == cs[i]
    ensures forall j | 0 <= j < |r| :: HasKey(fs, r[j].key) && r[j] == cs[At(fs, r[j].key)]
  {
    DistinctPermuted(cs, r);
    SameMultisetCovers(cs, r);
    SameMultisetCovers(r, cs);
    CoveredIsFound(cs, r);
    CoveredIsFound(r, cs);
    forall j | 0 <= j < |r| ensures HasKey(fs, r[j].key) && At(fs, r[j].key) == At(cs, r[j].key) {
      assert fs[At(cs, r[j].key)].key == r[j].key;
    }
  }

  lemma CoveredIsFound(cs: seq<Field>, ds: seq<Field>)
    requires Distinct(ds) && Covered(cs, ds)
    ensures forall i | 0 <= i < |cs| :: HasKey(ds, cs[i].key) && ds[At(ds, cs[i].key)] == cs[i]
  {
    forall i | 0 <= i < |cs| ensures HasKey(ds, cs[i].key) && ds[At(ds, cs[i].key)] == cs[i] {
      var j :| 0 <= j < |ds| && ds[j] == cs[i];
      assert ds[j].key == cs[i].key;
    }
  }

  // ---------------------------------------------------------------- the order of the text

  lemma {:induction false} InsertIndexAscends(f: Field, fs: seq<Field>)
    requires forall i, j | 0 <= i < j < |fs| :: IndexOf(fs[i].key) <= IndexOf(fs[j].key)
    ensures forall i, j | 0 <= i < j < |InsertIndex(f, fs)| ::
      IndexOf(InsertIndex(f, fs)[i].key) <= IndexOf(InsertIndex(f, fs)[j].key)
  {
    if fs == [] || IndexOf(f.key) < IndexOf(fs[0].key) {
    } else {
      var r := InsertIndex(f, fs[1..]);
      InsertIndexAscends(f, fs[1..]);
      forall i | 0 <= i < |r| ensures IndexOf(fs[0].key) <= IndexOf(r[i].key) {
        assert r[i] in multiset{f} + multiset(fs[1..]);
      }
    }
  }

  lemma {:induction false} IndicesAscend(fs: seq<Field>)
    ensures forall i | 0 <= i < |Indices(fs)| :: IsArrayIndex(Indices(fs)[i].key)
    ensures forall i, j | 0 <= i < j < |Indices(fs)| :: IndexOf(Indices(fs)[i].key) <= IndexOf(Indices(fs)[j].key)
  {
    if fs == [] {
    } else {
      IndicesAscend(fs[1..]);
      if IsArrayIndex(fs[0].key) {
        var r := Indices(fs[1..]);
        InsertIndexAscends(fs[0], r);
        forall i | 0 <= i < |Indices(fs)| ensures IsArrayIndex(Indices(fs)[i].key) {
          assert Indices(fs)[i] in multiset{fs[0]} + multiset(r);
        }
      }
    }
  }

  lemma {:induction false} OthersAscend(fs: seq<Field>)
    requires Ascending(fs)
    ensures forall i | 0 <= i < |Others(fs)| :: !IsArrayIndex(Others(fs)[i].key) && Others(fs)[i] in fs
    ensures Ascending(Others(fs))
  {
    if fs == [] {
    } else {
      OthersAscend(fs[1..]);
      forall i | 0 <= i < |Others(fs[1..])| ensures Others(fs[1..])[i] in fs {
        assert Others(fs[1..])[i] in fs[1..];
      }
    }
  }

  predicate ByIndex(fs: seq<Field>) {
    && (forall i | 0 <= i < |fs| :: IsArrayIndex(fs[i].key))
    && (forall i, j | 0 <= i < j < |fs| :: IndexOf(fs[i].key) <= IndexOf(fs[j].key))
  }

  /** Array indices first, by their number, and then the other keys in dictionary order. */
  predicate InTextOrder(fs: seq<Field>, n: nat) {
    && n <= |fs| && ByIndex(fs[..n]) && Ascending(fs[n..])
    && (forall i | n <= i < |fs| :: !IsArrayIndex(fs[i].key))
  }

  /** Where the members of an object are put. */
  lemma ArrangedOrder(fs: seq<Field>) returns (n: nat)
    requires Distinct(fs)
    ensures InTextOrder(Arranged(fs), n)
  {
    var sorted := SortByKey(fs);
    SortAscending(fs);
    IndicesAscend(sorted);
    OthersAscend(sorted);
    n := |Indices(sorted)|;
    assert Arranged(fs)[..n] == Indices(sorted) && Arranged(fs)[n..] == Others(sorted);
    JoinedInOrder(Indices(sorted), Others(sorted));
  }

  lemma JoinedInOrder(first: seq<Field>, others: seq<Field>)
    requires ByIndex(first) && Ascending(others) && forall i | 0 <= i < |others| :: !IsArrayIndex(others[i].key)
    ensures InTextOrder(first + others, |first|)
  {
    var r, n := first + others, |first|;
    assert r[..n] == first && r[n..] == others;
    forall i | n <= i < |r| ensures !IsArrayIndex(r[i].key) {
      assert r[i] == others[i - n];
    }
  }

  /** Canonicalising what is already canonical changes nothing, and the canonical value is the value given. */
  lemma CanonicalIdempotent(v: Json)
    requires WellFormed(v)
    ensures SortRec(SortRec(v)) == SortRec(v)
    ensures CanonicalStringify(SortRec(v)) == CanonicalStringify(v)
  {
    SortKeepsValue(v);
    SameGivesEqualSort(v, SortRec(v));
  }
}
