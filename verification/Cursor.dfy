/** The poll cursor: the last row id and a tag over it and the mailbox, in base64url. */
module Cursor {
  import opened Data
  import opened Kdf
  import opened Base64Url

  const TWO63 := 0x8000_0000_0000_0000
  const TWO64 := 0x1_0000_0000_0000_0000

  type i64 = n: int | -TWO63 <= n < TWO63

  // ---------------------------------------------------------------- little-endian two's complement

  function LittleEndian(n: nat, size: nat): (b: Bytes)
    ensures |b| == size
  {
    if size == 0 then [] else [(n % 256) as byte] + LittleEndian(n / 256, size - 1)
  }

  function FromLittleEndian(b: Bytes): nat {
    if b == [] then 0 else b[0] as int + 256 * FromLittleEndian(b[1..])
  }

  function Pow256(size: nat): (p: nat)
    ensures p > 0
  {
    if size == 0 then 1 else 256 * Pow256(size - 1)
  }

  lemma {:induction false} FromToLittleEndian(n: nat, size: nat)
    requires n < Pow256(size)
    ensures FromLittleEndian(LittleEndian(n, size)) == n
  {
    if size == 0 {
    } else {
      FromToLittleEndian(n / 256, size - 1);
      assert LittleEndian(n, size)[1..] == LittleEndian(n / 256, size - 1);
    }
  }

  lemma {:induction false} ToFromLittleEndian(b: Bytes)
    ensures FromLittleEndian(b) < Pow256(|b|)
    ensures LittleEndian(FromLittleEndian(b), |b|) == b
  {
    if b == [] {
    } else {
      ToFromLittleEndian(b[1..]);
      var n := FromLittleEndian(b);
      assert n % 256 == b[0] as int && n / 256 == FromLittleEndian(b[1..]);
      assert b == [b[0]] + b[1..];
    }
  }

  /** Digit k of a number written in base 256. */
  function Octet(n: nat, k: nat): nat {
    n / Pow256(k) % 256
  }

  lemma {:induction false} LittleEndianByte(n: nat, size: nat, k: nat)
    requires k < size
    ensures LittleEndian(n, size)[k] as int == Octet(n, k)
  {
    if k == 0 {
      assert Pow256(0) == 1;
    } else {
      LittleEndianByte(n / 256, size - 1, k - 1);
      QuotientTwice(n, Pow256(k - 1));
    }
  }

  lemma QuotientTwice(n: nat, p: nat)
    requires p > 0
    ensures n / (256 * p) == n / 256 / p
  {
    var q, r := n / 256 / p, n / 256 % p;
    assert n / 256 == q * p + r;
    assert n == q * (256 * p) + (256 * r + n % 256);
    QuotientIs(n, 256 * p, q, 256 * r + n % 256);
  }

  lemma Pow256Eight()
    ensures Pow256(8) == TWO64
  {
    assert Pow256(4) == 0x1_0000_0000;
  }

  /** (last_id as u64).to_le_bytes() */
  function IdBytes(id: i64): (b: Bytes)
    ensures |b| == 8
  {
    LittleEndian(if id < 0 then id + TWO64 else id, 8)
  }

  /** u64::from_le_bytes(arr) as i64 */
  function BytesId(b: Bytes): i64
    requires |b| == 8
  {
    ToFromLittleEndian(b);
    Pow256Eight();
    var u := FromLittleEndian(b);
    if u >= TWO63 then u - TWO64 else u
  }

  lemma IdRoundTrip(id: i64)
    ensures BytesId(IdBytes(id)) == id
  {
    Pow256Eight();
    FromToLittleEndian(if id < 0 then id + TWO64 else id, 8);
  }

  lemma BytesRoundTrip(b: Bytes)
    requires |b| == 8
    ensures IdBytes(BytesId(b)) == b
  {
    ToFromLittleEndian(b);
    Pow256Eight();
  }

  // ---------------------------------------------------------------- cursors

  const CURSOR: Bytes := TextBytes("cursor")

  function MacInput(mailbox: Bytes, last: Bytes): Bytes {
    CURSOR + mailbox + last
  }

  function CursorEncode(hmac: Hmac, secret: Bytes, mailbox: Bytes, lastId: i64): string {
    var last := IdBytes(lastId);
    Encode(last + hmac(secret, MacInput(mailbox, last)))
  }

  /** None is the invalid-input error. */
  function CursorDecode(hmac: Hmac, secret: Bytes, mailbox: Bytes, cursor: string): Option<i64> {
    var raw := Decode(cursor);
    if raw.None? || |raw.value| != 40 then None
    else
      var last, tag := raw.value[..8], raw.value[8..];
      if tag != hmac(secret, MacInput(mailbox, last)) then None
      else Some(BytesId(last))
  }

  /** A cursor decodes to an id for a mailbox exactly when it is the cursor issued for that id and mailbox. */
  lemma CursorDecodesExactlyIssued(hmac: Hmac, secret: Bytes, mailbox: Bytes, cursor: string, id: i64)
    requires Sized(hmac)
    ensures CursorDecode(hmac, secret, mailbox, cursor) == Some(id)
      <==> cursor == CursorEncode(hmac, secret, mailbox, id)
  {
    var last := IdBytes(id);
    var tag := hmac(secret, MacInput(mailbox, last));
    if cursor == CursorEncode(hmac, secret, mailbox, id) {
      DecodeInverts(cursor, last + tag);
      assert (last + tag)[..8] == last && (last + tag)[8..] == tag;
      IdRoundTrip(id);
    }
    if CursorDecode(hmac, secret, mailbox, cursor) == Some(id) {
      var raw := Decode(cursor).value;
      BytesRoundTrip(raw[..8]);
      assert raw == raw[..8] + raw[8..];
      DecodeInverts(cursor, raw);
    }
  }

  /** The tagged text determines mailbox and id. */
  lemma MacInputInjective(mailbox: Bytes, id: i64, mailbox': Bytes, id': i64)
    requires MacInput(mailbox, IdBytes(id)) == MacInput(mailbox', IdBytes(id'))
    ensures mailbox == mailbox' && id == id'
  {
    var s, t := MacInput(mailbox, IdBytes(id)), MacInput(mailbox', IdBytes(id'));
    assert |mailbox| == |mailbox'|;
    assert s[|CURSOR|..|CURSOR| + |mailbox|] == mailbox && t[|CURSOR|..|CURSOR| + |mailbox|] == mailbox';
    assert s[|CURSOR| + |mailbox|..] == IdBytes(id) && t[|CURSOR| + |mailbox|..] == IdBytes(id');
    IdRoundTrip(id);
    IdRoundTrip(id');
  }

  /** A cursor of one mailbox passes for another exactly when two different tagged texts share their tag. */
  lemma ForeignCursorNeedsTagCollision(hmac: Hmac, secret: Bytes, mailbox: Bytes, other: Bytes, id: i64)
    requires Sized(hmac) && mailbox != other
    ensures MacInput(mailbox, IdBytes(id)) != MacInput(other, IdBytes(id))
    ensures CursorDecode(hmac, secret, other, CursorEncode(hmac, secret, mailbox, id)).Some?
      <==> hmac(secret, MacInput(mailbox, IdBytes(id))) == hmac(secret, MacInput(other, IdBytes(id)))
  {
    if MacInput(mailbox, IdBytes(id)) == MacInput(other, IdBytes(id)) {
      MacInputInjective(mailbox, id, other, id);
    }
    var last, tag := IdBytes(id), hmac(secret, MacInput(mailbox, IdBytes(id)));
    DecodeInverts(CursorEncode(hmac, secret, mailbox, id), last + tag);
    assert (last + tag)[..8] == last && (last + tag)[8..] == tag;
  }

  /** The eight bytes of an id: those of its value modulo 2 to the 64th, the least first. */
  lemma IdBytesSpelled(id: i64, k: nat)
    requires k < 8
    ensures IdBytes(id)[k] as int == Octet(if id < 0 then id + TWO64 else id, k)
  {
    LittleEndianByte(if id < 0 then id + TWO64 else id, 8, k);
  }

  /**
   * A cursor is the base64url text of the id's eight bytes and of a tag over the six letters of "cursor",
   * the mailbox and those eight bytes.
   */
  lemma CursorSpelled(hmac: Hmac, secret: Bytes, mailbox: Bytes, id: i64)
    ensures Decode(CursorEncode(hmac, secret, mailbox, id))
      == Some(IdBytes(id) + hmac(secret, [99, 117, 114, 115, 111, 114] + mailbox + IdBytes(id)))
  {
    assert CURSOR == [99, 117, 114, 115, 111, 114];
    DecodeEncode(IdBytes(id) + hmac(secret, MacInput(mailbox, IdBytes(id))));
  }
}
