/** Unpadded base64url (section 5 of RFC 4648), decoding strictly: no padding, no stray trailing bits. */
module Base64Url {
  import opened Data

  type sextet = n: int | 0 <= n < 64

  function Symbol(n: sextet): char {
    if n < 26 then 'A' + n as char
    else if n < 52 then 'a' + (n - 26) as char
    else if n < 62 then '0' + (n - 52) as char
    else if n == 62 then '-'
    else '_'
  }

  function Value(c: char): Option<sextet> {
    if 'A' <= c <= 'Z' then Some((c - 'A') as int)
    else if 'a' <= c <= 'z' then Some((c - 'a') as int + 26)
    else if '0' <= c <= '9' then Some((c - '0') as int + 52)
    else if c == '-' then Some(62)
    else if c == '_' then Some(63)
    else None
  }

  // Three bytes x, y, z are the four sextets High(x), Middle(x, y), Low(y, z), Final(z).

  function High(x: byte): sextet { x as int / 4 }

  function Middle(x: byte, y: byte): sextet { x as int % 4 * 16 + y as int / 16 }

  function Low(y: byte, z: byte): sextet { y as int % 16 * 4 + z as int / 64 }

  function Final(z: byte): sextet { z as int % 64 }

  function First(p: sextet, q: sextet): byte { (p * 4 + q / 16) as byte }

  function Second(q: sextet, r: sextet): byte { (q % 16 * 16 + r / 4) as byte }

  function Third(r: sextet, t: sextet): byte { (r % 4 * 64 + t) as byte }

  lemma FirstOfHigh(x: byte, y: byte)
    ensures First(High(x), Middle(x, y)) == x
    ensures y < 16 ==> Middle(x, y) % 16 == 0
  {
  }

  lemma BytesThroughSextets(x: byte, y: byte, z: byte)
    ensures First(High(x), Middle(x, y)) == x
    ensures Second(Middle(x, y), Low(y, z)) == y
    ensures Third(Low(y, z), Final(z)) == z
    ensures Middle(x, 0) % 16 == 0 && Low(y, 0) % 4 == 0
  {
  }

  lemma SextetsThroughBytes(p: sextet, q: sextet, r: sextet, t: sextet)
    ensures High(First(p, q)) == p
    ensures Middle(First(p, q), Second(q, r)) == q
    ensures Low(Second(q, r), Third(r, t)) == r
    ensures Final(Third(r, t)) == t
    ensures q % 16 == 0 ==> Middle(First(p, q), 0) == q
    ensures r % 4 == 0 ==> Low(Second(q, r), 0) == r
  {
  }

  function Encode(b: Bytes): string {
    if |b| == 0 then ""
    else if |b| == 1 then [Symbol(High(b[0])), Symbol(Middle(b[0], 0))]
    else if |b| == 2 then [Symbol(High(b[0])), Symbol(Middle(b[0], b[1])), Symbol(Low(b[1], 0))]
    else [Symbol(High(b[0])), Symbol(Middle(b[0], b[1])), Symbol(Low(b[1], b[2])), Symbol(Final(b[2]))] + Encode(b[3..])
  }

  function Decode(s: string): Option<Bytes> {
    if |s| == 0 then Some([])
    else if |s| == 1 || Value(s[0]).None? || Value(s[1]).None? then None
    else
      var p, q := Value(s[0]).value, Value(s[1]).value;
      if |s| == 2 then
        if q % 16 != 0 then None else Some([First(p, q)])
      else if Value(s[2]).None? then None
      else
        var r := Value(s[2]).value;
        if |s| == 3 then
          if r % 4 != 0 then None else Some([First(p, q), Second(q, r)])
        else if Value(s[3]).None? || Decode(s[4..]).None? then None
        else Some([First(p, q), Second(q, r), Third(r, Value(s[3]).value)] + Decode(s[4..]).value)
  }

  lemma SymbolValue(n: sextet, c: char)
    ensures Value(c) == Some(n) <==> c == Symbol(n)
  {
    if c == '-' || c == '_' {
    } else if n < 26 {
    } else if n < 52 {
    }
  }

  function Four(p: sextet, q: sextet, r: sextet, t: sextet): string {
    [Symbol(p), Symbol(q), Symbol(r), Symbol(t)]
  }

  lemma DecodeGroup(p: sextet, q: sextet, r: sextet, t: sextet, rest: string)
    ensures Decode(Four(p, q, r, t) + rest)
      == if Decode(rest).None? then None else Some([First(p, q), Second(q, r), Third(r, t)] + Decode(rest).value)
  {
    var s := Four(p, q, r, t) + rest;
    assert s[4..] == rest && s[0] == Symbol(p) && s[1] == Symbol(q) && s[2] == Symbol(r) && s[3] == Symbol(t);
    SymbolValue(p, s[0]);
    SymbolValue(q, s[1]);
    SymbolValue(r, s[2]);
    SymbolValue(t, s[3]);
  }

  lemma DecodeTwo(p: sextet, q: sextet)
    ensures Decode([Symbol(p), Symbol(q)]) == if q % 16 != 0 then None else Some([First(p, q)])
  {
    SymbolValue(p, Symbol(p));
    SymbolValue(q, Symbol(q));
  }

  lemma DecodeThree(p: sextet, q: sextet, r: sextet)
    ensures Decode([Symbol(p), Symbol(q), Symbol(r)]) == if r % 4 != 0 then None else Some([First(p, q), Second(q, r)])
  {
    SymbolValue(p, Symbol(p));
    SymbolValue(q, Symbol(q));
    SymbolValue(r, Symbol(r));
  }

  lemma EncodeGroup(x: byte, y: byte, z: byte, rest: Bytes)
    ensures Encode([x, y, z] + rest) == Four(High(x), Middle(x, y), Low(y, z), Final(z)) + Encode(rest)
  {
    assert ([x, y, z] + rest)[3..] == rest;
  }

  lemma {:induction false} DecodeEncode(b: Bytes)
    ensures Decode(Encode(b)) == Some(b)
  {
    if |b| >= 3 {
      var x, y, z, rest := b[0], b[1], b[2], b[3..];
      assert b == [x, y, z] + rest;
      DecodeEncode(rest);
      EncodeGroup(x, y, z, rest);
      DecodeGroup(High(x), Middle(x, y), Low(y, z), Final(z), Encode(rest));
      BytesThroughSextets(x, y, z);
    } else if |b| == 2 {
      assert b == [b[0], b[1]];
      TwoBytes(b[0], b[1]);
    } else if |b| == 1 {
      assert b == [b[0]];
      OneByte(b[0]);
    }
  }

  lemma TwoBytes(x: byte, y: byte)
    ensures Decode(Encode([x, y])) == Some([x, y])
  {
    BytesThroughSextets(x, y, 0);
    DecodeThree(High(x), Middle(x, y), Low(y, 0));
  }

  lemma OneByte(x: byte)
    ensures Decode(Encode([x])) == Some([x])
  {
    FirstOfHigh(x, 0);
    OneByteSpelled(x, High(x), Middle(x, 0));
  }

  lemma OneByteSpelled(x: byte, p: sextet, q: sextet)
    requires First(p, q) == x && q % 16 == 0
    requires Encode([x]) == [Symbol(p), Symbol(q)]
    ensures Decode(Encode([x])) == Some([x])
  {
    DecodeTwo(p, q);
  }

  lemma {:induction false} EncodeDecode(s: string)
    requires Decode(s).Some?
    ensures Encode(Decode(s).value) == s
  {
    if |s| >= 4 {
      var p, q, r, t, rest := Value(s[0]).value, Value(s[1]).value, Value(s[2]).value, Value(s[3]).value, s[4..];
      Spelled(s, 4);
      assert s == Four(p, q, r, t) + rest;
      EncodeDecode(rest);
      DecodeGroup(p, q, r, t, rest);
      EncodeGroup(First(p, q), Second(q, r), Third(r, t), Decode(rest).value);
      SextetsThroughBytes(p, q, r, t);
    } else if |s| == 3 {
      var p, q, r := Value(s[0]).value, Value(s[1]).value, Value(s[2]).value;
      Spelled(s, 3);
      assert s == [Symbol(p), Symbol(q), Symbol(r)];
      DecodeThree(p, q, r);
      SextetsThroughBytes(p, q, r, 0);
    } else if |s| == 2 {
      var p, q := Value(s[0]).value, Value(s[1]).value;
      Spelled(s, 2);
      assert s == [Symbol(p), Symbol(q)];
      DecodeTwo(p, q);
      SextetsThroughBytes(p, q, 0, 0);
    }
  }

  /** The first n characters of a text that decodes are symbols. */
  lemma Spelled(s: string, n: nat)
    requires Decode(s).Some? && n <= |s| && n <= 4
    ensures forall i | 0 <= i < n :: Value(s[i]).Some? && s[i] == Symbol(Value(s[i]).value)
  {
    forall i | 0 <= i < n ensures Value(s[i]).Some? && s[i] == Symbol(Value(s[i]).value) {
      assert Value(s[i]).Some?;
      SymbolValue(Value(s[i]).value, s[i]);
    }
  }

  /** Each byte string has exactly one text, and each text that decodes is the text of its bytes. */
  lemma DecodeInverts(s: string, b: Bytes)
    ensures Decode(s) == Some(b) <==> s == Encode(b)
  {
    DecodeEncode(b);
    if Decode(s) == Some(b) {
      EncodeDecode(s);
    }
  }

  // ---------------------------------------------------------------- the text, symbol by symbol

  /** The symbols in their order: capitals, small letters, digits, hyphen and underscore. */
  lemma Alphabet(n: sextet)
    ensures Symbol(0) == 'A' && Symbol(25) == 'Z' && Symbol(26) == 'a' && Symbol(51) == 'z'
    ensures Symbol(52) == '0' && Symbol(61) == '9' && Symbol(62) == '-' && Symbol(63) == '_'
    ensures n < 61 && n != 25 && n != 51 ==> Symbol(n + 1) as int == Symbol(n) as int + 1
  {
  }

  /** The byte at a place, zero behind the end. */
  function ByteAt(b: Bytes, i: nat): (x: nat)
    ensures x < 256
  {
    if i < |b| then b[i] as nat else 0
  }

  /** Six bits of two bytes: the first six, the next six, the six after those, or the last six of the first byte. */
  function SixOf(k: nat, x: nat, y: nat): sextet
    requires x < 256 && y < 256
  {
    match k
    case 0 => x / 4
    case 1 => x % 4 * 16 + y / 16
    case 2 => x % 16 * 4 + y / 64
    case _ => x % 64
  }

  /** The six bits that start at bit 6 i of the bytes, the highest bit of a byte being its first. */
  function SixBits(b: Bytes, i: nat): sextet {
    SixOf(i % 4, ByteAt(b, 6 * i / 8), ByteAt(b, 6 * i / 8 + 1))
  }

  lemma SixOfBytes(x: byte, y: byte)
    ensures SixOf(0, x as nat, y as nat) == High(x) && SixOf(1, x as nat, y as nat) == Middle(x, y)
    ensures SixOf(2, x as nat, y as nat) == Low(x, y) && SixOf(3, x as nat, y as nat) == Final(x)
  {
  }

  lemma FirstFour(b: Bytes)
    ensures SixBits(b, 0) == SixOf(0, ByteAt(b, 0), ByteAt(b, 1))
    ensures SixBits(b, 1) == SixOf(1, ByteAt(b, 0), ByteAt(b, 1))
    ensures SixBits(b, 2) == SixOf(2, ByteAt(b, 1), ByteAt(b, 2))
    ensures SixBits(b, 3) == SixOf(3, ByteAt(b, 2), ByteAt(b, 3))
  {
  }

  lemma ThreeFurther(b: Bytes, i: nat)
    requires |b| >= 3 && i >= 4
    ensures SixBits(b, i) == SixBits(b[3..], i - 4)
  {
    assert 6 * i / 8 == 6 * (i - 4) / 8 + 3;
    assert i % 4 == (i - 4) % 4;
  }

  lemma EncodeFirst(b: Bytes)
    ensures |b| < 3 ==> |Encode(b)| == (8 * |b| + 5) / 6
    ensures |b| >= 3 ==> |Encode(b)| == 4 + |Encode(b[3..])|
    ensures forall i | 0 <= i < 4 && i < |Encode(b)| :: Encode(b)[i] == Symbol(SixBits(b, i))
  {
    FirstFour(b);
    if |b| == 1 {
      SixOfBytes(b[0], 0);
    } else if |b| == 2 {
      SixOfBytes(b[0], b[1]);
      SixOfBytes(b[1], 0);
    } else if |b| >= 3 {
      SixOfBytes(b[0], b[1]);
      SixOfBytes(b[1], b[2]);
      SixOfBytes(b[2], if |b| > 3 then b[3] else 0);
    }
  }

  /** Every six bits, zeros filling up the last, are one symbol, and nothing is added. */
  lemma {:induction false} EncodeSpelled(b: Bytes)
    ensures |Encode(b)| == (8 * |b| + 5) / 6
    ensures forall i | 0 <= i < |Encode(b)| :: Encode(b)[i] == Symbol(SixBits(b, i))
    decreases |b|
  {
    EncodeFirst(b);
    if |b| >= 3 {
      EncodeSpelled(b[3..]);
      forall i | 4 <= i < |Encode(b)| ensures Encode(b)[i] == Symbol(SixBits(b, i)) {
        assert Encode(b)[i] == Encode(b[3..])[i - 4];
        ThreeFurther(b, i);
      }
    }
  }
}
