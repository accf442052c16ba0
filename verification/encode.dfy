/**
 * The frame encoder: `encode` takes the payload vector by mutable reference,
 * pushes the length header into a new vector one byte at a time, then moves
 * the payload in behind it, leaving the caller's vector empty.
 *
 * Shifts right by k bits are written as division by 2^k, masks with 0x7F as
 * `% 0x80`, and `| 0x80` on a value below 0x80 as `+ 0x80`. Under the length
 * bound none of the source's `as u8`, `as u16` or `as u32` casts truncates.
 */
module Encoder {
  import opened Framing

  /** A growable byte vector, updated in place. */
  class ByteVec {
    var data: seq<byte>

    constructor (bytes: seq<byte>)
      ensures data == bytes
    {
      data := bytes;
    }

    /** Adds one byte at the end. */
    method Push(b: byte)
      modifies this
      ensures data == old(data) + [b]
    {
      data := data + [b];
    }

    /** Moves every byte of `other` to the end of this vector, leaving `other` empty. */
    method Append(other: ByteVec)
      requires other != this
      modifies this, other
      ensures data == old(data) + old(other.data)
      ensures other.data == []
    {
      data := data + other.data;
      other.data := [];
    }
  }

  /** Shifting right by two multiples of 7 bits in turn is shifting by their sum. */
  lemma ShiftTwice(x: nat, a: nat, b: nat)
    requires a == 0x80 || a == 0x4000
    requires b == 0x80 || b == 0x4000
    ensures x / a / b == x / (a * b)
  {
    var q, r := x / a, x % a;
    var q2, r2 := q / b, q % b;
    assert x == a * q + r;
    assert q == b * q2 + r2;
    assert x == (a * b) * q2 + (a * r2 + r);
    assert 0 <= a * r2 + r < a * b;
  }

  lemma TwoGroups(v: nat)
    ensures Groups(v, 2) == [v / 0x80 % 0x80, v % 0x80]
  {
    assert Groups(v / 0x80, 1) == [v / 0x80 % 0x80];
  }

  lemma ThreeGroups(v: nat)
    ensures Groups(v, 3) == [v / 0x4000 % 0x80, v / 0x80 % 0x80, v % 0x80]
  {
    TwoGroups(v / 0x80);
    ShiftTwice(v, 0x80, 0x80);
    assert Groups(v, 3) == Groups(v / 0x80, 2) + [v % 0x80];
  }

  lemma FourGroups(v: nat)
    ensures Groups(v, 4) == [v / 0x20_0000 % 0x80, v / 0x4000 % 0x80, v / 0x80 % 0x80, v % 0x80]
  {
    ThreeGroups(v / 0x80);
    ShiftTwice(v, 0x80, 0x80);
    ShiftTwice(v, 0x80, 0x4000);
    assert Groups(v, 4) == Groups(v / 0x80, 3) + [v % 0x80];
  }

  /**
   * The header bytes the four branches of `encode` push, worked out from the
   * shifts and masks, are the base-128 header of the reference definition.
   */
  lemma HeaderByBranch(len: nat)
    requires len < MaxLen
    ensures len < 0x80 ==>
      Header(len) == [len as byte]
    ensures 0x80 <= len < 0x4000 ==>
      Header(len) == [(len / 0x80 + 0x80) as byte, (len % 0x80) as byte]
    ensures 0x4000 <= len < 0x20_0000 ==>
      Header(len) == [(len / 0x4000 % 0x80 + 0x80) as byte,
                      (len / 0x80 % 0x80 + 0x80) as byte,
                      (len % 0x80) as byte]
    ensures 0x20_0000 <= len ==>
      Header(len) == [(len / 0x20_0000 % 0x80 + 0x80) as byte,
                      (len / 0x4000 % 0x80 + 0x80) as byte,
                      (len / 0x80 % 0x80 + 0x80) as byte,
                      (len % 0x80) as byte]
  {
    if len < 0x80 {
      assert Groups(len, 1) == [len];
    } else if len < 0x4000 {
      TwoGroups(len);
    } else if len < 0x20_0000 {
      ThreeGroups(len);
    } else {
      FourGroups(len);
    }
  }

  // The header bytes of the unit tests of `encode`, by size class.

  lemma OneByteHeaders()
    ensures Header(0) == [0x00]
    ensures Header(2) == [0x02]
    ensures Header(127) == [0x7F]
  {
    assert Header(0) == [0x00] by { HeaderByBranch(0); }
    assert Header(2) == [0x02] by { HeaderByBranch(2); }
    assert Header(127) == [0x7F] by { HeaderByBranch(127); }
  }

  lemma TwoByteHeaders()
    ensures Header(128) == [0x81, 0x00]
    ensures Header(129) == [0x81, 0x01]
    ensures Header(16383) == [0xFF, 0x7F]
  {
    assert Header(128) == [0x81, 0x00] by { HeaderByBranch(128); }
    assert Header(129) == [0x81, 0x01] by { HeaderByBranch(129); }
    assert Header(16383) == [0xFF, 0x7F] by { HeaderByBranch(16383); }
  }

  lemma ThreeByteHeaders()
    ensures Header(16384) == [0x81, 0x80, 0x00]
    ensures Header(16385) == [0x81, 0x80, 0x01]
    ensures Header(2097151) == [0xFF, 0xFF, 0x7F]
  {
    assert Header(16384) == [0x81, 0x80, 0x00] by { HeaderByBranch(16384); }
    assert Header(16385) == [0x81, 0x80, 0x01] by { HeaderByBranch(16385); }
    assert Header(2097151) == [0xFF, 0xFF, 0x7F] by { HeaderByBranch(2097151); }
  }

  lemma FourByteHeaders()
    ensures Header(2097152) == [0x81, 0x80, 0x80, 0x00]
    ensures Header(2097153) == [0x81, 0x80, 0x80, 0x01]
    ensures Header(268435455) == [0xFF, 0xFF, 0xFF, 0x7F]
  {
    assert Header(2097152) == [0x81, 0x80, 0x80, 0x00] by { HeaderByBranch(2097152); }
    assert Header(2097153) == [0x81, 0x80, 0x80, 0x01] by { HeaderByBranch(2097153); }
    assert Header(268435455) == [0xFF, 0xFF, 0xFF, 0x7F] by { HeaderByBranch(268435455); }
  }

  /**
   * Frames the payload held in `val`: the result is the length header
   * followed by the payload, and `val` is left empty. The payload must be
   * shorter than 2^28 bytes; the source panics otherwise.
   */
  method Encode(val: ByteVec) returns (res: ByteVec)
    requires |val.data| < MaxLen
    modifies val
    ensures fresh(res)
    ensures res.data == Frame(old(val.data))
    ensures val.data == []
  {
    var len := |val.data|;
    HeaderByBranch(len);
    res := new ByteVec([]);
    if len < 128 {
      res.Push(len as byte);
    } else if len < 16384 {
      res.Push((len / 0x80 + 0x80) as byte);               // (len >> 7) | 0x80
      res.Push((len % 0x80) as byte);                      // len & 0x7F
    } else if len < 2097152 {
      res.Push((len / 0x4000 % 0x80 + 0x80) as byte);      // ((len >> 14) & 0x7F) | 0x80
      res.Push((len / 0x80 % 0x80 + 0x80) as byte);        // ((len >> 7) & 0x7F) | 0x80
      res.Push((len % 0x80) as byte);                      // len & 0x7F
    } else {
      res.Push((len / 0x20_0000 % 0x80 + 0x80) as byte);   // ((len >> 21) & 0x7F) | 0x80
      res.Push((len / 0x4000 % 0x80 + 0x80) as byte);      // ((len >> 14) & 0x7F) | 0x80
      res.Push((len / 0x80 % 0x80 + 0x80) as byte);        // ((len >> 7) & 0x7F) | 0x80
      res.Push((len % 0x80) as byte);                      // len & 0x7F
    }
    res.Append(val);
  }

  /** The unit tests of `encode`, replayed against its contract. */
  method EncodeTests()
  {
    OneByteHeaders();
    TwoByteHeaders();
    ThreeByteHeaders();
    FourByteHeaders();

    // encode_len_eq_0
    var v := new ByteVec([]);
    var r := Encode(v);
    assert r.data == [0x00] && v.data == [];

    // encode_len_lt_128
    v := new ByteVec([0x01, 0x02]);
    r := Encode(v);
    assert r.data == [0x02, 0x01, 0x02] && v.data == [];

    var ff := seq(127, _ => 0xFF);
    v := new ByteVec(ff);
    r := Encode(v);
    assert r.data == [0x7F] + ff;

    // encode_len_eq_128
    ff := seq(128, _ => 0xFF);
    v := new ByteVec(ff);
    r := Encode(v);
    assert r.data == [0x81, 0x00] + ff;

    // encode_len_lt_16384
    ff := seq(129, _ => 0xFF);
    v := new ByteVec(ff);
    r := Encode(v);
    assert r.data == [0x81, 0x01] + ff;

    ff := seq(16383, _ => 0xFF);
    v := new ByteVec(ff);
    r := Encode(v);
    assert r.data == [0xFF, 0x7F] + ff;

    // encode_len_eq_16384
    ff := seq(16384, _ => 0xFF);
    v := new ByteVec(ff);
    r := Encode(v);
    assert r.data == [0x81, 0x80, 0x00] + ff;

    // encode_len_lt_2097152
    ff := seq(16385, _ => 0xFF);
    v := new ByteVec(ff);
    r := Encode(v);
    assert r.data == [0x81, 0x80, 0x01] + ff;

    ff := seq(2097151, _ => 0xFF);
    v := new ByteVec(ff);
    r := Encode(v);
    assert r.data == [0xFF, 0xFF, 0x7F] + ff;

    // encode_len_eq_2097152
    ff := seq(2097152, _ => 0xFF);
    v := new ByteVec(ff);
    r := Encode(v);
    assert r.data == [0x81, 0x80, 0x80, 0x00] + ff;

    // encode_len_lt_268435456
    ff := seq(2097153, _ => 0xFF);
    v := new ByteVec(ff);
    r := Encode(v);
    assert r.data == [0x81, 0x80, 0x80, 0x01] + ff;

    ff := seq(268435455, _ => 0xFF);
    v := new ByteVec(ff);
    r := Encode(v);
    assert r.data == [0xFF, 0xFF, 0xFF, 0x7F] + ff && v.data == [];
  }
}
