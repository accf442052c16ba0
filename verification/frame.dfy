/**
 * The wire format of one frame of the byte message protocol: a length header
 * of one to four bytes followed by the payload, unchanged.
 *
 * The header holds the payload length in big-endian base 128, most
 * significant group of seven bits first. Every header byte except the last
 * has bit 7 set as a continuation marker; the last has it clear. The header
 * uses as few bytes as the length needs. It has at most four bytes, so
 * lengths stop below 2^28.
 *
 * Everything here is the reference definition the encoder is proved against.
 * The reading functions (HeaderValue, HeaderEnd) are specification devices
 * that say what the header means; the protocol code itself has no decoder.
 */
module Framing {

  newtype byte = x: int | 0 <= x < 256

  datatype Option<T> = None | Some(value: T)

  /** Payload lengths must stay below 2^28: four groups of seven bits. */
  const MaxLen: nat := 268435456

  function Pow128(k: nat): (p: nat)
    ensures p >= 1
  {
    if k == 0 then 1 else 128 * Pow128(k - 1)
  }

  /**
   * The number of header bytes for a payload of `len` bytes: the fewest
   * base-128 groups that hold `len` (one group even for zero).
   */
  function HeaderSize(len: nat): (n: nat)
    requires len < MaxLen
    ensures 1 <= n <= 4
    ensures len < Pow128(n)
    ensures n == 1 || Pow128(n - 1) <= len
  {
    if len < 128 then 1
    else if len < 16384 then 2
    else if len < 2097152 then 3
    else 4
  }

  /** Every element is a seven-bit group. */
  predicate IsDigits(g: seq<nat>) {
    forall i :: 0 <= i < |g| ==> g[i] < 128
  }

  /** The `n` lowest base-128 groups of `v`, most significant first. */
  function Groups(v: nat, n: nat): (g: seq<nat>)
    ensures |g| == n
    ensures IsDigits(g)
  {
    if n == 0 then [] else Groups(v / 128, n - 1) + [v % 128]
  }

  /** The number whose big-endian base-128 groups are `g`. */
  function Value(g: seq<nat>): (v: nat) {
    if g == [] then 0 else Value(g[..|g| - 1]) * 128 + g[|g| - 1]
  }

  /** A well-formed header: bit 7 set on every byte but the last, clear on the last. */
  predicate IsHeader(h: seq<byte>) {
    |h| >= 1 &&
    (forall i :: 0 <= i < |h| - 1 ==> h[i] >= 0x80) &&
    h[|h| - 1] < 0x80
  }

  /** The low seven bits of every byte of `h`. */
  function Low7s(h: seq<byte>): (g: seq<nat>)
    ensures |g| == |h|
    ensures IsDigits(g)
  {
    seq(|h|, i requires 0 <= i < |h| => (h[i] % 0x80) as nat)
  }

  /** Header bytes for the groups `g`: the continuation bit on all but the last. */
  function Mark(g: seq<nat>): (h: seq<byte>)
    requires |g| >= 1 && IsDigits(g)
    ensures IsHeader(h)
    ensures Low7s(h) == g
  {
    seq(|g|, i requires 0 <= i < |g| =>
      if i < |g| - 1 then (g[i] + 0x80) as byte else g[i] as byte)
  }

  /** The header the encoder puts in front of a payload of `len` bytes. */
  function Header(len: nat): (h: seq<byte>)
    requires len < MaxLen
    ensures |h| == HeaderSize(len)
    ensures IsHeader(h)
  {
    Mark(Groups(len, HeaderSize(len)))
  }

  /** A whole frame: the header, then the payload. */
  function Frame(payload: seq<byte>): (f: seq<byte>)
    requires |payload| < MaxLen
  {
    Header(|payload|) + payload
  }

  /** The length a header states: its low seven bits read big-endian in base 128. */
  ghost function HeaderValue(h: seq<byte>): (len: nat) {
    Value(Low7s(h))
  }

  /**
   * Where a header ends when a reader scans a stream from its start: the
   * count of bytes up to and including the first one with bit 7 clear.
   */
  ghost function HeaderEnd(s: seq<byte>): (k: Option<nat>) {
    if s == [] then None
    else if s[0] < 0x80 then Some(1)
    else match HeaderEnd(s[1..])
      case None => None
      case Some(k) => Some(k + 1)
  }

  // ---------------------------------------------------------------------
  // Base-128 arithmetic

  lemma {:induction false} Pow128Monotone(a: nat, b: nat)
    requires a <= b
    ensures Pow128(a) <= Pow128(b)
    decreases b
  {
    if a < b {
      Pow128Monotone(a, b - 1);
    }
  }

  /** Splitting a number into `n` groups and reading them back gives the number. */
  lemma {:induction false} GroupsValue(v: nat, n: nat)
    requires v < Pow128(n)
    ensures Value(Groups(v, n)) == v
  {
    if n > 0 {
      var g := Groups(v, n);
      assert g[..n - 1] == Groups(v / 128, n - 1);
      GroupsValue(v / 128, n - 1);
    }
  }

  /** Reading `n` groups gives a number below 128^n. */
  lemma {:induction false} ValueBound(g: seq<nat>)
    requires IsDigits(g)
    ensures Value(g) < Pow128(|g|)
  {
    if g != [] {
      ValueBound(g[..|g| - 1]);
    }
  }

  /** Reading groups and splitting the number again gives back the same groups. */
  lemma {:induction false} ValueGroups(g: seq<nat>)
    requires IsDigits(g)
    ensures Groups(Value(g), |g|) == g
  {
    if g != [] {
      var init := g[..|g| - 1];
      ValueGroups(init);
      assert g == init + [g[|g| - 1]];
    }
  }

  /** A zero leading group adds nothing to the value. */
  lemma {:induction false} LeadingZero(g: seq<nat>)
    requires |g| >= 1 && g[0] == 0
    ensures Value(g) == Value(g[1..])
  {
    if |g| > 1 {
      var n := |g|;
      LeadingZero(g[..n - 1]);
      assert g[..n - 1][1..] == g[1..][..n - 2];
    }
  }

  /** A non-zero leading group makes the value at least 128^(n-1). */
  lemma {:induction false} LeadingNonZero(g: seq<nat>)
    requires |g| >= 1 && g[0] >= 1
    ensures Value(g) >= Pow128(|g| - 1)
  {
    if |g| > 1 {
      LeadingNonZero(g[..|g| - 1]);
    }
  }

  /** A well-formed header is determined by its low seven bits. */
  lemma MarkLow7s(h: seq<byte>)
    requires IsHeader(h)
    ensures Mark(Low7s(h)) == h
  {
    var m := Mark(Low7s(h));
    forall i | 0 <= i < |h| ensures m[i] == h[i] {
      if i < |h| - 1 {
        assert h[i] >= 0x80;
      }
    }
  }

  /** A scan for the end of a header stops exactly after a well-formed header. */
  lemma {:induction false} HeaderEndAfter(h: seq<byte>, rest: seq<byte>)
    requires IsHeader(h)
    ensures HeaderEnd(h + rest) == Some(|h|)
  {
    if |h| > 1 {
      assert (h + rest)[1..] == h[1..] + rest;
      HeaderEndAfter(h[1..], rest);
    }
  }

  // ---------------------------------------------------------------------
  // What the header promises

  /** The header's low seven bits, read big-endian in base 128, give back the payload length. */
  lemma HeaderRoundTrip(len: nat)
    requires len < MaxLen
    ensures HeaderValue(Header(len)) == len
  {
    GroupsValue(len, HeaderSize(len));
  }

  /** A header of more than one byte never starts with 0x80: its leading group is not zero. */
  lemma HeaderCanonical(len: nat)
    requires len < MaxLen
    ensures |Header(len)| > 1 ==> Header(len)[0] > 0x80
  {
    var n := HeaderSize(len);
    var g := Groups(len, n);
    if n > 1 {
      GroupsValue(len, n);
      if g[0] == 0 {
        LeadingZero(g);
        ValueBound(g[1..]);
        assert false;
      }
    }
  }

  /** No well-formed header that states `len` is shorter than the encoder's. */
  lemma HeaderMinimal(len: nat, h: seq<byte>)
    requires len < MaxLen
    requires IsHeader(h) && HeaderValue(h) == len
    ensures |Header(len)| <= |h|
  {
    var n := HeaderSize(len);
    ValueBound(Low7s(h));
    if |h| < n {
      Pow128Monotone(|h|, n - 1);
      assert false;
    }
  }

  /**
   * The encoder's header is the only well-formed header without a leading
   * 0x80 that states `len`.
   */
  lemma HeaderUnique(len: nat, h: seq<byte>)
    requires len < MaxLen
    requires IsHeader(h) && HeaderValue(h) == len
    requires |h| > 1 ==> h[0] != 0x80
    ensures h == Header(len)
  {
    var n := HeaderSize(len);
    var d := Low7s(h);
    HeaderMinimal(len, h);
    if |h| > n {
      assert d[0] >= 1;
      LeadingNonZero(d);
      Pow128Monotone(n, |h| - 1);
      assert false;
    }
    ValueGroups(d);
    MarkLow7s(h);
  }

  /**
   * A frame followed by anything splits back apart: a reader finds the
   * header's end, the length it states, the payload unchanged right after
   * it, and then the rest of the stream untouched.
   */
  lemma FrameSplit(payload: seq<byte>, rest: seq<byte>)
    requires |payload| < MaxLen
    ensures var s, k := Frame(payload) + rest, HeaderSize(|payload|);
      HeaderEnd(s) == Some(k) &&
      HeaderValue(s[..k]) == |payload| &&
      s[k..k + |payload|] == payload &&
      s[k + |payload|..] == rest
  {
    var h := Header(|payload|);
    var s := Frame(payload) + rest;
    assert s == h + (payload + rest);
    HeaderEndAfter(h, payload + rest);
    assert s[..|h|] == h;
    HeaderRoundTrip(|payload|);
  }
}
