/** Filtering sequences of rows, as a WHERE clause does, and what filters have in common. */
module Rows {

  function Keep<T>(s: seq<T>, f: T -> bool): (r: seq<T>)
    ensures |r| <= |s|
  {
    if s == [] then [] else (if f(s[0]) then [s[0]] else []) + Keep(s[1..], f)
  }

  lemma {:induction false} KeepMember<T>(s: seq<T>, f: T -> bool, x: T)
    ensures x in Keep(s, f) <==> x in s && f(x)
  {
    if s == [] {
    } else {
      KeepMember(s[1..], f, x);
      assert x in s <==> x == s[0] || x in s[1..];
    }
  }

  lemma KeepCons<T>(x: T, s: seq<T>, f: T -> bool)
    ensures Keep([x] + s, f) == (if f(x) then [x] else []) + Keep(s, f)
  {
    assert ([x] + s)[1..] == s;
  }

  lemma {:induction false} KeepAppend<T>(s: seq<T>, t: seq<T>, f: T -> bool)
    ensures Keep(s + t, f) == Keep(s, f) + Keep(t, f)
  {
    if s == [] {
      assert s + t == t;
    } else {
      assert s + t == [s[0]] + (s[1..] + t) && s == [s[0]] + s[1..];
      KeepCons(s[0], s[1..] + t, f);
      KeepCons(s[0], s[1..], f);
      KeepAppend(s[1..], t, f);
    }
  }

  /** Filters commute. */
  lemma {:induction false} KeepCommutes<T>(s: seq<T>, f: T -> bool, g: T -> bool)
    ensures Keep(Keep(s, f), g) == Keep(Keep(s, g), f)
  {
    if s == [] {
    } else {
      KeepCommutes(s[1..], f, g);
      KeepAppend(if f(s[0]) then [s[0]] else [], Keep(s[1..], f), g);
      KeepAppend(if g(s[0]) then [s[0]] else [], Keep(s[1..], g), f);
    }
  }

  /** A filter that every element passes does nothing. */
  lemma {:induction false} KeepAll<T>(s: seq<T>, f: T -> bool)
    requires forall x | x in s :: f(x)
    ensures Keep(s, f) == s
  {
    if s == [] {
    } else {
      assert forall x | x in s[1..] :: x in s;
      KeepAll(s[1..], f);
      assert s == [s[0]] + s[1..];
    }
  }

  /** A filter implied by a later one may be left out. */
  lemma {:induction false} KeepStronger<T>(s: seq<T>, f: T -> bool, g: T -> bool)
    requires forall x | x in s && g(x) :: f(x)
    ensures Keep(Keep(s, f), g) == Keep(s, g)
  {
    if s == [] {
    } else {
      assert forall x | x in s[1..] :: x in s;
      KeepStronger(s[1..], f, g);
      KeepAppend(if f(s[0]) then [s[0]] else [], Keep(s[1..], f), g);
    }
  }

  /** Filters that agree on a sequence keep the same of it. */
  lemma {:induction false} KeepAgrees<T>(s: seq<T>, f: T -> bool, g: T -> bool)
    requires forall x | x in s :: f(x) == g(x)
    ensures Keep(s, f) == Keep(s, g)
  {
    if s == [] {
    } else {
      assert forall x | x in s[1..] :: x in s;
      KeepAgrees(s[1..], f, g);
    }
  }

  /** Where the m-th element kept stands. */
  function Place<T>(s: seq<T>, f: T -> bool, m: nat): (i: nat)
    requires m < |Keep(s, f)|
    ensures i < |s| && Keep(s, f)[m] == s[i] && f(s[i])
  {
    if f(s[0]) && m == 0 then 0
    else 1 + Place(s[1..], f, if f(s[0]) then m - 1 else m)
  }

  /** What is kept stands in the order it stood in. */
  lemma {:induction false} PlacesAscend<T>(s: seq<T>, f: T -> bool, m: nat, n: nat)
    requires m < n < |Keep(s, f)|
    ensures Place(s, f, m) < Place(s, f, n)
  {
    if f(s[0]) {
      if m > 0 {
        PlacesAscend(s[1..], f, m - 1, n - 1);
      }
    } else {
      PlacesAscend(s[1..], f, m, n);
    }
  }

  function Not<T>(f: T -> bool): T -> bool {
    (x: T) => !f(x)
  }

  /** What is kept and what is left out make up the whole. */
  lemma {:induction false} KeepSplits<T>(s: seq<T>, f: T -> bool)
    ensures |s| == |Keep(s, f)| + |Keep(s, Not(f))|
  {
    if s == [] {
    } else {
      KeepSplits(s[1..], f);
    }
  }
}
