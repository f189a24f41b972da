/** The order of object members in canonical text, in the words of the language that enumerates them. */
module CanonicalOrder {
  import opened Data
  import opened Json
  import opened CanonicalJson

  // ---------------------------------------------------------------- comparing keys

  /** At the first place where they differ a has the lesser character, or a ends there. */
  ghost predicate DictionaryBefore(a: string, b: string) {
    exists k: nat | k <= |a| && k < |b| :: a[..k] == b[..k] && (k == |a| || a[k] < b[k])
  }

  lemma {:induction false} BeforeIsDictionaryOrder(a: string, b: string)
    ensures Before(a, b) <==> DictionaryBefore(a, b)
  {
    if a == "" || b == "" || a[0] != b[0] {
      assert a[..0] == b[..0];
      if DictionaryBefore(a, b) {
        var k: nat :| k <= |a| && k < |b| && a[..k] == b[..k] && (k == |a| || a[k] < b[k]);
        SameFirst(a, b, k);
      }
    } else {
      BeforeIsDictionaryOrder(a[1..], b[1..]);
      if DictionaryBefore(a, b) {
        OneLessAlike(a, b);
      }
      if DictionaryBefore(a[1..], b[1..]) {
        OneMoreAlike(a, b);
      }
    }
  }

  lemma SameFirst(a: string, b: string, k: nat)
    requires k <= |a| && k <= |b| && a[..k] == b[..k]
    ensures k > 0 ==> a != "" && b != "" && a[0] == b[0]
  {
    if k > 0 {
      assert a[..k][0] == b[..k][0];
    }
  }

  lemma OneLessAlike(a: string, b: string)
    requires a != "" && b != "" && a[0] == b[0] && DictionaryBefore(a, b)
    ensures DictionaryBefore(a[1..], b[1..])
  {
    var k: nat :| k <= |a| && k < |b| && a[..k] == b[..k] && (k == |a| || a[k] < b[k]);
    assert a[1..][..k - 1] == a[..k][1..] && b[1..][..k - 1] == b[..k][1..];
  }

  lemma OneMoreAlike(a: string, b: string)
    requires a != "" && b != "" && a[0] == b[0] && DictionaryBefore(a[1..], b[1..])
    ensures DictionaryBefore(a, b)
  {
    var x, y := a[1..], b[1..];
    var k: nat :| k <= |x| && k < |y| && x[..k] == y[..k] && (k == |x| || x[k] < y[k]);
    assert a[..k + 1] == [a[0]] + x[..k] && b[..k + 1] == [b[0]] + y[..k];
  }

  /** The number written out, of those an array index may have. */
  ghost predicate Index(k: string, n: nat) {
    n < 0xFFFF_FFFF && k == Decimal(n)
  }

  lemma {:induction false} ValueOfDecimal(n: nat)
    ensures DecimalValue(Decimal(n)) == n
  {
    var s := Decimal(n);
    if n < 10 {
      assert s[..|s| - 1] == "";
    } else {
      ValueOfDecimal(n / 10);
      assert s[..|s| - 1] == Decimal(n / 10);
    }
  }

  lemma DecimalPush(v: nat, last: char)
    requires IsDigit(last)
    ensures var n := 10 * v + (last as int - '0' as int);
      Decimal(n) == (if v == 0 then [last] else Decimal(v) + [last]) && (n == 0 ==> last == '0')
  {
    var n := 10 * v + (last as int - '0' as int);
    assert n / 10 == v && n % 10 == last as int - '0' as int;
  }

  lemma DigitsPush(front: string, last: char)
    requires forall i | 0 <= i < |front + [last]| :: IsDigit((front + [last])[i])
    ensures (forall i | 0 <= i < |front| :: IsDigit(front[i])) && IsDigit(last)
    ensures DecimalValue(front + [last]) == 10 * DecimalValue(front) + (last as int - '0' as int)
  {
    var k := front + [last];
    assert k[..|k| - 1] == front && k[|k| - 1] == last;
    assert forall i | 0 <= i < |front| :: front[i] == k[i];
  }

  /** Digits without a zero in front are the decimal text of their value. */
  predicate NoZeroInFront(k: string) {
    k != "" && (forall i | 0 <= i < |k| :: IsDigit(k[i])) && (k[0] == '0' ==> k == "0")
  }

  lemma {:induction false} DecimalOfValue(k: string)
    requires NoZeroInFront(k)
    ensures Decimal(DecimalValue(k)) == k
  {
    var front, last := k[..|k| - 1], k[|k| - 1];
    assert k == front + [last];
    DigitsPush(front, last);
    DecimalPush(DecimalValue(front), last);
    if front != "" {
      assert front[0] == k[0];
      assert NoZeroInFront(front);
      DecimalOfValue(front);
      NotOnlyZero(front);
    }
  }

  lemma NotOnlyZero(k: string)
    requires k != "" && (forall i | 0 <= i < |k| :: IsDigit(k[i])) && Decimal(DecimalValue(k)) == k && k[0] != '0'
    ensures DecimalValue(k) > 0
  {
  }

  lemma IndexIs(k: string)
    ensures IsArrayIndex(k) <==> exists n: nat :: Index(k, n)
    ensures IsArrayIndex(k) ==> Index(k, DecimalValue(k))
  {
    if IsArrayIndex(k) {
      DecimalOfValue(k);
      assert Index(k, DecimalValue(k));
    }
    forall n: nat | Index(k, n) ensures IsArrayIndex(k) {
      ValueOfDecimal(n);
      DecimalDigits(n);
      ZeroAlone(n);
    }
  }

  lemma ZeroAlone(n: nat)
    ensures Decimal(n)[0] == '0' ==> Decimal(n) == "0"
  {
    DecimalDigits(n);
    assert |Decimal(n)| == 1 ==> Decimal(n) == [Decimal(n)[0]];
  }

  lemma IndexHasOneNumber(k: string, n: nat)
    requires Index(k, n)
    ensures IsArrayIndex(k) && DecimalValue(k) == n
  {
    IndexIs(k);
    ValueOfDecimal(n);
  }

  // ---------------------------------------------------------------- the order

  /** Array indices by their number, before all other keys, and those in dictionary order. */
  ghost predicate Precedes(a: string, b: string) {
    || (exists m: nat, n: nat | m < n :: Index(a, m) && Index(b, n))
    || ((exists m: nat :: Index(a, m)) && !exists n: nat :: Index(b, n))
    || ((!exists m: nat :: Index(a, m)) && (!exists n: nat :: Index(b, n)) && DictionaryBefore(a, b))
  }

  /** The same, as the sort computes it. */
  predicate Ahead(a: string, b: string) {
    if IsArrayIndex(a) then IsArrayIndex(b) ==> DecimalValue(a) < DecimalValue(b)
    else !IsArrayIndex(b) && Before(a, b)
  }

  lemma PrecedesIsAhead(a: string, b: string)
    ensures Precedes(a, b) <==> Ahead(a, b)
  {
    IndexIs(a);
    IndexIs(b);
    BeforeIsDictionaryOrder(a, b);
    forall m: nat, n: nat | m < n && Index(a, m) && Index(b, n) ensures Ahead(a, b) {
      IndexHasOneNumber(a, m);
      IndexHasOneNumber(b, n);
    }
  }

  lemma AheadOneWay(a: string, b: string)
    ensures Ahead(a, b) ==> !Ahead(b, a) && a != b
  {
    BeforeTotal(a, b);
    BeforeIrreflexive(a);
  }

  ghost predicate InKeyOrder(fs: seq<Field>) {
    forall i, j | 0 <= i < j < |fs| :: Precedes(fs[i].key, fs[j].key)
  }

  /** Every object of the value, at every depth, has its members in order. */
  ghost predicate InOrder(v: Json)
    decreases v
  {
    match v
    case Arr(items) => forall i | 0 <= i < |items| :: InOrder(items[i])
    case Obj(fields) => InKeyOrder(fields) && forall i | 0 <= i < |fields| :: InOrder(fields[i].value)
    case _ => true
  }

  lemma OrderedOneWay(fs: seq<Field>, i: nat, j: nat)
    requires InKeyOrder(fs) && i < |fs| && j < |fs| && Precedes(fs[i].key, fs[j].key)
    ensures i < j
  {
    PrecedesIsAhead(fs[i].key, fs[j].key);
    PrecedesIsAhead(fs[j].key, fs[i].key);
    AheadOneWay(fs[i].key, fs[j].key);
  }

  lemma SameFirstMember(fs: seq<Field>, gs: seq<Field>)
    requires InKeyOrder(fs) && InKeyOrder(gs) && fs != [] && gs != [] && fs[0] in gs && gs[0] in fs
    ensures fs[0] == gs[0]
  {
    var i: nat :| i < |gs| && gs[i] == fs[0];
    var j: nat :| j < |fs| && fs[j] == gs[0];
    if i > 0 {
      assert Precedes(gs[0].key, gs[i].key);
      OrderedOneWay(fs, j, 0);
    }
  }

  /** Members in order are the same list when they are the same members. */
  lemma {:induction false} OrderedUnique(fs: seq<Field>, gs: seq<Field>)
    requires InKeyOrder(fs) && InKeyOrder(gs) && forall f :: f in fs <==> f in gs
    ensures fs == gs
  {
    if fs == [] {
      if gs != [] {
        HasMember(gs);
      }
    } else {
      assert fs[0] in fs && fs[0] in gs && gs[0] in gs;
      SameFirstMember(fs, gs);
      TailMembers(fs, gs);
      OrderedUnique(fs[1..], gs[1..]);
      assert fs == [fs[0]] + fs[1..] && gs == [gs[0]] + gs[1..];
    }
  }

  lemma OnlyFirst(fs: seq<Field>, f: Field)
    requires fs != [] && InKeyOrder(fs)
    ensures f in fs[1..] <==> f in fs && f != fs[0]
  {
    if f in fs[1..] {
      var i: nat :| i < |fs[1..]| && fs[1..][i] == f;
      assert Precedes(fs[0].key, fs[i + 1].key);
      PrecedesIsAhead(fs[0].key, f.key);
      AheadOneWay(fs[0].key, f.key);
    }
  }

  lemma TailMembers(fs: seq<Field>, gs: seq<Field>)
    requires fs != [] && gs != [] && fs[0] == gs[0] && InKeyOrder(fs) && InKeyOrder(gs)
    requires forall f :: f in fs <==> f in gs
    ensures InKeyOrder(fs[1..]) && InKeyOrder(gs[1..]) && forall f :: f in fs[1..] <==> f in gs[1..]
  {
    forall f ensures f in fs[1..] <==> f in gs[1..] {
      OnlyFirst(fs, f);
      OnlyFirst(gs, f);
    }
  }

  // ---------------------------------------------------------------- canonical values are in order

  lemma DifferentNumbers(a: string, b: string)
    requires IsArrayIndex(a) && IsArrayIndex(b) && a != b
    ensures DecimalValue(a) != DecimalValue(b)
  {
    IndexIs(a);
    IndexIs(b);
  }

  lemma PairInOrder(r: seq<Field>, n: nat, i: nat, j: nat)
    requires Distinct(r) && InTextOrder(r, n) && i < j < |r|
    ensures Ahead(r[i].key, r[j].key)
  {
    if j < n {
      assert r[i] == r[..n][i] && r[j] == r[..n][j];
      DifferentNumbers(r[i].key, r[j].key);
    } else if i < n {
      assert r[i] == r[..n][i];
    } else {
      assert r[i] == r[n..][i - n] && r[j] == r[n..][j - n];
    }
  }

  lemma ArrangedInKeyOrder(fs: seq<Field>)
    requires Distinct(fs)
    ensures InKeyOrder(Arranged(fs))
  {
    var n := ArrangedOrder(fs);
    var r := Arranged(fs);
    DistinctPermuted(fs, r);
    forall i, j | 0 <= i < j < |r| ensures Precedes(r[i].key, r[j].key) {
      PairInOrder(r, n, i, j);
      PrecedesIsAhead(r[i].key, r[j].key);
    }
  }

  lemma SortedKeysDistinct(fs: seq<Field>)
    requires Distinct(fs)
    ensures Distinct(SortFields(fs))
  {
  }

  lemma {:induction false} SortRecInOrder(v: Json)
    requires WellFormed(v)
    ensures InOrder(SortRec(v))
    decreases v
  {
    match v
    case Arr(items) =>
      forall i | 0 <= i < |items| ensures InOrder(SortRec(items[i])) { SortRecInOrder(items[i]); }
    case Obj(fields) =>
      var r := Arranged(SortFields(fields));
      SortedKeysDistinct(fields);
      ArrangedInKeyOrder(SortFields(fields));
      forall i | 0 <= i < |fields| ensures InOrder(SortRec(fields[i].value)) { SortRecInOrder(fields[i].value); }
      SortKeepsMembers(fields, SortFields(fields), r);
      forall j | 0 <= j < |r| ensures InOrder(r[j].value) {
        assert r[j] == SortFields(fields)[At(fields, r[j].key)];
      }
    case _ =>
  }

  /** A value in order that is the same up to the order of members is the canonical one. */
  lemma {:induction false} OrderedIsSortRec(v: Json, w: Json)
    requires WellFormed(v) && Same(v, w) && InOrder(w)
    ensures w == SortRec(v)
    decreases v
  {
    match v
    case Arr(items) =>
      forall i | 0 <= i < |items| ensures w.items[i] == SortRec(items[i]) { OrderedIsSortRec(items[i], w.items[i]); }
      assert w.items == SortItems(items);
    case Obj(fields) =>
      var gs, cs := w.fields, SortFields(fields);
      forall i | 0 <= i < |fields| ensures HasKey(gs, fields[i].key) && cs[i] == gs[At(gs, fields[i].key)] {
        OrderedIsSortRec(fields[i].value, gs[At(gs, fields[i].key)].value);
      }
      KeysDiffer(gs);
      assert Matched(fields, gs, cs, gs);
      MatchedCover(fields, gs, cs, gs);
      ArrangedInKeyOrder(cs);
      forall f ensures f in gs <==> f in Arranged(cs) {
        assert f in Arranged(cs) <==> f in multiset(cs);
      }
      OrderedUnique(gs, Arranged(cs));
    case _ =>
  }

  lemma KeysDiffer(fs: seq<Field>)
    requires InKeyOrder(fs)
    ensures Distinct(fs)
  {
    forall i, j | 0 <= i < j < |fs| ensures fs[i].key != fs[j].key {
      PrecedesIsAhead(fs[i].key, fs[j].key);
      AheadOneWay(fs[i].key, fs[j].key);
    }
  }

  /**
   * The canonical text is the text of the one value that is the same up to the order of members and has
   * the members of every object in order: array indices by their number, then the others in dictionary order.
   */
  lemma CanonicalOrder(v: Json, w: Json)
    requires WellFormed(v)
    ensures CanonicalStringify(v) == Text(w) <==> Same(v, w) && InOrder(w)
  {
    SortRecInOrder(v);
    SortKeepsValue(v);
    if CanonicalStringify(v) == Text(w) {
      TextInjective(SortRec(v), w);
    }
    if Same(v, w) && InOrder(w) {
      OrderedIsSortRec(v, w);
    }
  }
}
