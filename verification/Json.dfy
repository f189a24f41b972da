/**
 * JSON values and the text JSON.stringify gives them when no indentation is asked for.
 * The text is unambiguous: it determines the value, also when more text follows.
 */
module Json {
  import opened Data

  datatype Json =
    | Null
    | Bool(b: bool)
    | Num(n: int)
    | Str(s: string)
    | Arr(items: seq<Json>)
    | Obj(fields: seq<Field>)

  /** An object member; an object lists its members in enumeration order. */
  datatype Field = Field(key: string, value: Json)

  function Hex(d: nat): char
    requires d < 16
  {
    "0123456789abcdef"[d]
  }

  function Escape(c: char): (e: string)
    ensures |e| > 0 && e[0] != '"'
  {
    if c == '"' then "\\\""
    else if c == '\\' then "\\\\"
    else if c as int == 8 then "\\b"
    else if c as int == 9 then "\\t"
    else if c as int == 10 then "\\n"
    else if c as int == 12 then "\\f"
    else if c as int == 13 then "\\r"
    else if c as int < 32 then "\\u00" + [Hex(c as int / 16), Hex(c as int % 16)]
    else [c]
  }

  function Escapes(s: string): string {
    if s == "" then "" else Escape(s[0]) + Escapes(s[1..])
  }

  function Quote(s: string): string {
    "\"" + Escapes(s) + "\""
  }

  function Text(v: Json): (t: string)
    ensures |t| > 0 && t[0] != ']' && t[0] != '}'
    decreases v, 2
  {
    match v
    case Null => "null"
    case Bool(b) => if b then "true" else "false"
    case Num(n) => Integer(n)
    case Str(s) => Quote(s)
    case Arr(items) => "[" + Items(items) + "]"
    case Obj(fields) => "{" + Members(fields) + "}"
  }

  function Items(vs: seq<Json>): string
    decreases vs, 1
  {
    if vs == [] then "" else Text(vs[0]) + MoreItems(vs[1..])
  }

  function MoreItems(vs: seq<Json>): string
    decreases vs, 1
  {
    if vs == [] then "" else "," + Text(vs[0]) + MoreItems(vs[1..])
  }

  function Member(f: Field): string
    decreases f, 3
  {
    Quote(f.key) + ":" + Text(f.value)
  }

  function Members(fs: seq<Field>): string
    decreases fs, 1
  {
    if fs == [] then "" else Member(fs[0]) + MoreMembers(fs[1..])
  }

  function MoreMembers(fs: seq<Field>): string
    decreases fs, 1
  {
    if fs == [] then "" else "," + Member(fs[0]) + MoreMembers(fs[1..])
  }

  // ---------------------------------------------------------------- the text determines the value

  /** What may follow a value inside a larger text. */
  predicate Delimited(rest: string) {
    rest == "" || rest[0] in ",]}"
  }

  lemma Cancel(a: string, x: string, y: string)
    requires a + x == a + y
    ensures x == y
  {
    assert (a + x)[|a|..] == x && (a + y)[|a|..] == y;
  }

  lemma Associate(a: string, b: string, c: string)
    ensures (a + b) + c == a + (b + c)
  {
  }

  lemma Tail(c: char, s: string, x: string)
    ensures ([c] + s) + x == [c] + (s + x)
    ensures (([c] + s) + x)[1..] == s + x
  {
  }

  /** Characters that stand for themselves. */
  predicate Plain(c: char) {
    c != '"' && c != '\\' && c as int >= 32
  }

  lemma EscapeShape(c: char)
    ensures Plain(c) ==> Escape(c) == [c]
    ensures !Plain(c) ==> Escape(c)[0] == '\\' && |Escape(c)| in {2, 6} && (|Escape(c)| == 6 <==> Escape(c)[1] == 'u')
  {
  }

  lemma ShortEscapeUnique(a: char, b: char)
    requires |Escape(a)| == 2 && |Escape(b)| == 2 && Escape(a)[1] == Escape(b)[1]
    ensures a == b
  {
  }

  lemma HexUnique(d: nat, e: nat)
    requires d < 16 && e < 16 && Hex(d) == Hex(e)
    ensures d == e
  {
  }

  lemma LongEscapeIs(c: char)
    requires |Escape(c)| == 6
    ensures c as int < 32 && Escape(c)[4] == Hex(c as int / 16) && Escape(c)[5] == Hex(c as int % 16)
  {
  }

  lemma LongEscapeUnique(a: char, b: char)
    requires |Escape(a)| == 6 && |Escape(b)| == 6 && Escape(a)[4] == Escape(b)[4] && Escape(a)[5] == Escape(b)[5]
    ensures a == b
  {
    LongEscapeIs(a);
    LongEscapeIs(b);
    HexUnique(a as int / 16, b as int / 16);
    HexUnique(a as int % 16, b as int % 16);
  }

  /** No escape sequence is the beginning of another one. */
  lemma EscapePrefixFree(a: char, b: char)
    requires forall i | 0 <= i < |Escape(a)| && i < |Escape(b)| :: Escape(a)[i] == Escape(b)[i]
    ensures a == b
  {
    EscapeShape(a);
    EscapeShape(b);
    assert Escape(a)[0] == Escape(b)[0];
    if !Plain(a) && !Plain(b) {
      assert Escape(a)[1] == Escape(b)[1];
      if |Escape(a)| == 2 {
        ShortEscapeUnique(a, b);
      } else {
        assert Escape(a)[4] == Escape(b)[4] && Escape(a)[5] == Escape(b)[5];
        LongEscapeUnique(a, b);
      }
    }
  }

  lemma EscapeUnique(a: char, x: string, b: char, y: string)
    requires Escape(a) + x == Escape(b) + y
    ensures a == b && x == y
  {
    var e, f := Escape(a), Escape(b);
    forall i | 0 <= i < |e| && i < |f| ensures e[i] == f[i] {
      assert (e + x)[i] == (f + y)[i];
    }
    EscapePrefixFree(a, b);
    Cancel(e, x, y);
  }

  lemma EscapesCons(s: string, x: string)
    requires s != ""
    ensures Escapes(s) + "\"" + x == Escape(s[0]) + (Escapes(s[1..]) + "\"" + x)
  {
    Associate(Escape(s[0]), Escapes(s[1..]), "\"");
    Associate(Escape(s[0]), Escapes(s[1..]) + "\"", x);
  }

  lemma {:induction false} EscapesUnique(s: string, x: string, t: string, y: string)
    requires Escapes(s) + "\"" + x == Escapes(t) + "\"" + y
    ensures s == t && x == y
  {
    var l, r := Escapes(s) + "\"" + x, Escapes(t) + "\"" + y;
    assert l[0] == r[0];
    assert l[0] == (if s == "" then '"' else Escape(s[0])[0]);
    assert r[0] == (if t == "" then '"' else Escape(t[0])[0]);
    if s == "" {
      assert l[1..] == x && r[1..] == y;
    } else {
      var p, q := Escapes(s[1..]) + "\"" + x, Escapes(t[1..]) + "\"" + y;
      EscapesCons(s, x);
      EscapesCons(t, y);
      EscapeUnique(s[0], p, t[0], q);
      EscapesUnique(s[1..], x, t[1..], y);
    }
  }

  lemma QuoteUnique(s: string, x: string, t: string, y: string)
    requires Quote(s) + x == Quote(t) + y
    ensures s == t && x == y
  {
    var l, r := Quote(s) + x, Quote(t) + y;
    assert l[1..] == Escapes(s) + "\"" + x && r[1..] == Escapes(t) + "\"" + y;
    EscapesUnique(s, x, t, y);
  }

  lemma DecimalUnique(m: nat, x: string, n: nat, y: string)
    requires Decimal(m) + x == Decimal(n) + y
    requires x == "" || !IsDigit(x[0])
    requires y == "" || !IsDigit(y[0])
    ensures m == n && x == y
  {
    var a, b := Decimal(m), Decimal(n);
    var s, t := a + x, b + y;
    assert forall i | 0 <= i < |a| :: s[i] == a[i];
    assert forall i | 0 <= i < |b| :: t[i] == b[i];
    assert |a| < |s| ==> s[|a|] == x[0];
    assert |b| < |t| ==> t[|b|] == y[0];
    assert |a| == |b|;
    assert a == s[..|a|] == b;
    DecimalInjective(m, n);
    Cancel(a, x, y);
  }

  lemma IntegerUnique(m: int, x: string, n: int, y: string)
    requires Integer(m) + x == Integer(n) + y && Delimited(x) && Delimited(y)
    ensures m == n && x == y
  {
    var l, r := Integer(m) + x, Integer(n) + y;
    assert l[0] == r[0];
    assert l[0] == Integer(m)[0] && r[0] == Integer(n)[0];
    if m < 0 {
      assert n < 0;
      Tail('-', Decimal(-m), x);
      Tail('-', Decimal(-n), y);
      DecimalUnique(-m, x, -n, y);
    } else {
      DecimalUnique(m, x, n, y);
    }
  }

  /** The character a value's text starts with, up to the sign and digits of a number. */
  function Lead(v: Json): char {
    match v
    case Null => 'n'
    case Bool(b) => if b then 't' else 'f'
    case Num(_) => '0'
    case Str(_) => '"'
    case Arr(_) => '['
    case Obj(_) => '{'
  }

  lemma TextLead(v: Json, x: string)
    ensures var c := (Text(v) + x)[0]; (if IsDigit(c) || c == '-' then '0' else c) == Lead(v)
  {
    assert (Text(v) + x)[0] == Text(v)[0];
  }

  lemma {:induction false} TextUnique(u: Json, x: string, v: Json, y: string)
    requires Text(u) + x == Text(v) + y && Delimited(x) && Delimited(y)
    ensures u == v && x == y
    decreases u, 2
  {
    TextLead(u, x);
    TextLead(v, y);
    match u
    case Null => Cancel("null", x, y);
    case Bool(_) => Cancel(Text(u), x, y);
    case Num(m) => IntegerUnique(m, x, v.n, y);
    case Str(s) => QuoteUnique(s, x, v.s, y);
    case Arr(vs) =>
      BracketSplit('[', Items(vs), ']', x);
      BracketSplit('[', Items(v.items), ']', y);
      ItemsUnique(vs, x, v.items, y);
    case Obj(fs) =>
      BracketSplit('{', Members(fs), '}', x);
      BracketSplit('{', Members(v.fields), '}', y);
      MembersUnique(fs, x, v.fields, y);
  }

  lemma BracketSplit(open: char, s: string, close: char, x: string)
    ensures ([open] + s + [close] + x)[1..] == s + [close] + x
  {
  }

  lemma ItemsSplit(vs: seq<Json>, x: string)
    requires vs != []
    ensures Items(vs) + "]" + x == Text(vs[0]) + (MoreItems(vs[1..]) + "]" + x)
    ensures MoreItems(vs) + "]" + x == "," + (Text(vs[0]) + (MoreItems(vs[1..]) + "]" + x))
  {
    var m, r := Text(vs[0]), MoreItems(vs[1..]);
    Associate(m, r, "]");
    Associate(m, r + "]", x);
    Associate(",", m, r);
    Associate(",", m + r, "]");
    Associate(",", m + r + "]", x);
  }

  lemma {:induction false} ItemsUnique(vs: seq<Json>, x: string, ws: seq<Json>, y: string)
    requires Items(vs) + "]" + x == Items(ws) + "]" + y
    ensures vs == ws && x == y
    decreases vs, 1
  {
    var l, r := Items(vs) + "]" + x, Items(ws) + "]" + y;
    assert l[0] == (if vs == [] then ']' else Text(vs[0])[0]);
    assert r[0] == (if ws == [] then ']' else Text(ws[0])[0]);
    if vs == [] {
      assert l[1..] == x && r[1..] == y;
    } else {
      ItemsSplit(vs, x);
      ItemsSplit(ws, y);
      ItemsTail(vs, x, ws, y);
    }
  }

  lemma {:induction false} ItemsTail(vs: seq<Json>, x: string, ws: seq<Json>, y: string)
    requires vs != [] && ws != []
    requires Text(vs[0]) + (MoreItems(vs[1..]) + "]" + x) == Text(ws[0]) + (MoreItems(ws[1..]) + "]" + y)
    ensures vs == ws && x == y
    decreases vs, 0
  {
    TextUnique(vs[0], MoreItems(vs[1..]) + "]" + x, ws[0], MoreItems(ws[1..]) + "]" + y);
    MoreItemsUnique(vs[1..], x, ws[1..], y);
    assert vs == [vs[0]] + vs[1..] && ws == [ws[0]] + ws[1..];
  }

  lemma {:induction false} MoreItemsUnique(vs: seq<Json>, x: string, ws: seq<Json>, y: string)
    requires MoreItems(vs) + "]" + x == MoreItems(ws) + "]" + y
    ensures vs == ws && x == y
    decreases vs, 1
  {
    var l, r := MoreItems(vs) + "]" + x, MoreItems(ws) + "]" + y;
    assert l[0] == (if vs == [] then ']' else ',');
    assert r[0] == (if ws == [] then ']' else ',');
    if vs == [] {
      assert l[1..] == x && r[1..] == y;
    } else {
      ItemsSplit(vs, x);
      ItemsSplit(ws, y);
      Cancel(",", Text(vs[0]) + (MoreItems(vs[1..]) + "]" + x), Text(ws[0]) + (MoreItems(ws[1..]) + "]" + y));
      ItemsTail(vs, x, ws, y);
    }
  }

  lemma MemberSplit(f: Field, x: string)
    ensures Member(f) + x == Quote(f.key) + (":" + (Text(f.value) + x))
  {
    Associate(Quote(f.key) + ":", Text(f.value), x);
    Associate(Quote(f.key), ":", Text(f.value) + x);
  }

  lemma {:induction false} MemberUnique(f: Field, x: string, g: Field, y: string)
    requires Member(f) + x == Member(g) + y && Delimited(x) && Delimited(y)
    ensures f == g && x == y
    decreases f, 3
  {
    var s, t := Text(f.value) + x, Text(g.value) + y;
    MemberSplit(f, x);
    MemberSplit(g, y);
    QuoteUnique(f.key, ":" + s, g.key, ":" + t);
    Cancel(":", s, t);
    TextUnique(f.value, x, g.value, y);
  }

  lemma MembersSplit(fs: seq<Field>, x: string)
    requires fs != []
    ensures Members(fs) + "}" + x == Member(fs[0]) + (MoreMembers(fs[1..]) + "}" + x)
    ensures MoreMembers(fs) + "}" + x == "," + (Member(fs[0]) + (MoreMembers(fs[1..]) + "}" + x))
  {
    var m, r := Member(fs[0]), MoreMembers(fs[1..]);
    Associate(m, r, "}");
    Associate(m, r + "}", x);
    Associate(",", m, r);
    Associate(",", m + r, "}");
    Associate(",", m + r + "}", x);
  }

  lemma {:induction false} MembersUnique(fs: seq<Field>, x: string, gs: seq<Field>, y: string)
    requires Members(fs) + "}" + x == Members(gs) + "}" + y
    ensures fs == gs && x == y
    decreases fs, 1
  {
    var l, r := Members(fs) + "}" + x, Members(gs) + "}" + y;
    assert l[0] == (if fs == [] then '}' else '"');
    assert r[0] == (if gs == [] then '}' else '"');
    if fs == [] {
      assert l[1..] == x && r[1..] == y;
    } else {
      MembersSplit(fs, x);
      MembersSplit(gs, y);
      MembersTail(fs, x, gs, y);
    }
  }

  lemma {:induction false} MembersTail(fs: seq<Field>, x: string, gs: seq<Field>, y: string)
    requires fs != [] && gs != []
    requires Member(fs[0]) + (MoreMembers(fs[1..]) + "}" + x) == Member(gs[0]) + (MoreMembers(gs[1..]) + "}" + y)
    ensures fs == gs && x == y
    decreases fs, 0
  {
    MemberUnique(fs[0], MoreMembers(fs[1..]) + "}" + x, gs[0], MoreMembers(gs[1..]) + "}" + y);
    MoreMembersUnique(fs[1..], x, gs[1..], y);
    assert fs == [fs[0]] + fs[1..] && gs == [gs[0]] + gs[1..];
  }

  lemma {:induction false} MoreMembersUnique(fs: seq<Field>, x: string, gs: seq<Field>, y: string)
    requires MoreMembers(fs) + "}" + x == MoreMembers(gs) + "}" + y
    ensures fs == gs && x == y
    decreases fs, 1
  {
    var l, r := MoreMembers(fs) + "}" + x, MoreMembers(gs) + "}" + y;
    assert l[0] == (if fs == [] then '}' else ',');
    assert r[0] == (if gs == [] then '}' else ',');
    if fs == [] {
      assert l[1..] == x && r[1..] == y;
    } else {
      MembersSplit(fs, x);
      MembersSplit(gs, y);
      Cancel(",", Member(fs[0]) + (MoreMembers(fs[1..]) + "}" + x), Member(gs[0]) + (MoreMembers(gs[1..]) + "}" + y));
      MembersTail(fs, x, gs, y);
    }
  }

  /** Two values with the same text are the same value, so JSON.parse can undo JSON.stringify. */
  lemma TextInjective(u: Json, v: Json)
    requires Text(u) == Text(v)
    ensures u == v
  {
    assert Text(u) + "" == Text(v) + "";
    TextUnique(u, "", v, "");
  }
}
