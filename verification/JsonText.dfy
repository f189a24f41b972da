/** The text of a JSON value in the words of RFC 8259 (sections 3 to 7) and of JSON.stringify's escapes. */
module JsonText {
  import opened Data
  import opened Json

  /** Texts with commas between them. */
  function Join(parts: seq<string>): string {
    if parts == [] then ""
    else if |parts| == 1 then parts[0]
    else Join(parts[..|parts| - 1]) + "," + parts[|parts| - 1]
  }

  lemma JoinMore(parts: seq<string>, last: string)
    requires parts != []
    ensures Join(parts + [last]) == Join(parts) + "," + last
  {
    assert (parts + [last])[..|parts|] == parts;
  }

  /** The text before the other parts may be put together from the front as well. */
  lemma {:induction false} JoinFirst(first: string, parts: seq<string>)
    ensures Join([first] + parts) == first + Commas(parts)
    decreases |parts|
  {
    if parts == [] {
      assert [first] + [] == [first];
    } else {
      var most, last := parts[..|parts| - 1], parts[|parts| - 1];
      JoinFirst(first, most);
      assert [first] + parts == ([first] + most) + [last];
      JoinMore([first] + most, last);
      CommasMore(most, last);
      assert most + [last] == parts;
      Associate(first, Commas(most), "," + last);
      assert first + Commas(most) + "," + last == first + Commas(most) + ("," + last);
    }
  }

  /** Each part with a comma before it. */
  function Commas(parts: seq<string>): string {
    if parts == [] then "" else "," + parts[0] + Commas(parts[1..])
  }

  lemma {:induction false} CommasMore(parts: seq<string>, last: string)
    ensures Commas(parts + [last]) == Commas(parts) + ("," + last)
  {
    if parts == [] {
      assert [] + [last] == [last];
      assert Commas([]) == "";
      assert Commas([last]) == "," + last + Commas([]);
      assert Commas([last]) == "," + last;
    } else {
      assert (parts + [last])[1..] == parts[1..] + [last];
      CommasMore(parts[1..], last);
      Associate("," + parts[0], Commas(parts[1..]), "," + last);
    }
  }

  function Texts(vs: seq<Json>): (r: seq<string>)
    ensures |r| == |vs| && forall i | 0 <= i < |vs| :: r[i] == Text(vs[i])
  {
    seq(|vs|, i requires 0 <= i < |vs| => Text(vs[i]))
  }

  /** Quoted key, colon, value. */
  function MemberTexts(fs: seq<Field>): (r: seq<string>)
    ensures |r| == |fs| && forall i | 0 <= i < |fs| :: r[i] == Text(Str(fs[i].key)) + ":" + Text(fs[i].value)
  {
    seq(|fs|, i requires 0 <= i < |fs| => Text(Str(fs[i].key)) + ":" + Text(fs[i].value))
  }

  lemma {:induction false} MoreItemsAreCommas(vs: seq<Json>)
    ensures MoreItems(vs) == Commas(Texts(vs))
  {
    if vs == [] {
    } else {
      MoreItemsAreCommas(vs[1..]);
      assert Texts(vs)[1..] == Texts(vs[1..]);
    }
  }

  lemma {:induction false} MoreMembersAreCommas(fs: seq<Field>)
    ensures MoreMembers(fs) == Commas(MemberTexts(fs))
  {
    if fs == [] {
    } else {
      MoreMembersAreCommas(fs[1..]);
      assert MemberTexts(fs)[1..] == MemberTexts(fs[1..]);
    }
  }

  lemma JoinSplit(parts: seq<string>, first: string, rest: seq<string>)
    requires |parts| == |rest| + 1 && parts[0] == first && forall i | 0 <= i < |rest| :: parts[i + 1] == rest[i]
    ensures Join(parts) == first + Commas(rest)
  {
    assert parts == [first] + rest;
    JoinFirst(first, rest);
  }

  lemma ItemsJoin(vs: seq<Json>)
    ensures Items(vs) == Join(Texts(vs))
  {
    if vs != [] {
      MoreItemsAreCommas(vs[1..]);
      JoinSplit(Texts(vs), Text(vs[0]), Texts(vs[1..]));
    }
  }

  lemma MemberIs(f: Field)
    ensures Member(f) == Text(Str(f.key)) + ":" + Text(f.value)
  {
  }

  lemma MembersJoin(fs: seq<Field>)
    ensures Members(fs) == Join(MemberTexts(fs))
  {
    if fs != [] {
      MoreMembersAreCommas(fs[1..]);
      MemberIs(fs[0]);
      JoinSplit(MemberTexts(fs), Member(fs[0]), MemberTexts(fs[1..]));
    }
  }

  /**
   * How a character stands in a string: itself, or for the quote, the backslash and everything below
   * the space a backslash with a letter, or with u and four lower-case hexadecimal digits.
   */
  lemma EscapeSpelled(c: char)
    ensures c == '"' || c == '\\' ==> Escape(c) == ['\\', c]
    ensures c as int in {8, 9, 10, 12, 13} ==> Escape(c) == ['\\', "btn.fr"[c as int - 8]]
    ensures c as int < 32 && c as int !in {8, 9, 10, 12, 13}
      ==> Escape(c) == "\\u00" + [if c as int < 16 then '0' else '1', "0123456789abcdef"[c as int % 16]]
    ensures c as int >= 32 && c != '"' && c != '\\' ==> Escape(c) == [c]
  {
    if c as int < 16 {
      assert Hex(c as int / 16) == '0';
    } else if c as int < 32 {
      assert c as int / 16 == 1;
      assert Hex(1) == '1';
    }
  }

  /** The characters of a string, each as it stands in the text. */
  function Characters(s: string): (r: string) {
    if s == "" then "" else Characters(s[..|s| - 1]) + Escape(s[|s| - 1])
  }

  lemma {:induction false} EscapesAre(s: string)
    ensures Escapes(s) == Characters(s)
  {
    if s == "" {
    } else {
      EscapesAre(s[..|s| - 1]);
      EscapesMore(s[..|s| - 1], s[|s| - 1]);
      assert s[..|s| - 1] + [s[|s| - 1]] == s;
    }
  }

  lemma {:induction false} EscapesMore(s: string, c: char)
    ensures Escapes(s + [c]) == Escapes(s) + Escape(c)
  {
    if s == "" {
      assert "" + [c] == [c] && [c][1..] == "";
      assert Escapes([c]) == Escape(c) + Escapes("");
    } else {
      EscapesMore(s[1..], c);
      assert (s + [c])[1..] == s[1..] + [c];
      Associate(Escape(s[0]), Escapes(s[1..]), Escape(c));
    }
  }

  /** What JSON.stringify writes for each kind of value. */
  lemma TextSpelled(v: Json)
    ensures v.Null? ==> Text(v) == "null"
    ensures v.Bool? ==> Text(v) == if v.b then "true" else "false"
    ensures v.Num? ==> Text(v) == if v.n < 0 then "-" + Decimal(-v.n) else Decimal(v.n)
    ensures v.Str? ==> Text(v) == "\"" + Characters(v.s) + "\""
    ensures v.Arr? ==> Text(v) == "[" + Join(Texts(v.items)) + "]"
    ensures v.Obj? ==> Text(v) == "{" + Join(MemberTexts(v.fields)) + "}"
  {
    match v
    case Str(s) => EscapesAre(s);
    case Arr(items) => ItemsJoin(items);
    case Obj(fields) => MembersJoin(fields);
    case _ =>
  }
}
