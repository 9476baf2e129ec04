/** The 26-byte frame header: version and compression in a byte each, then
    period, timestamp and post timestamp as 64-bit integers, all in network byte
    order and two's complement. */
module Frame {
  import opened Basics

  type byte = x: int | 0 <= x < 256
  type int8 = x: int | -128 <= x < 128
  type int64 = x: int | -0x8000_0000_0000_0000 <= x < 0x8000_0000_0000_0000

  datatype Header = Header(version: int8, compress: int8, period: int64, timestamp: int64, postTimestamp: int64)

  /** What a sender knows of a message. */
  datatype SendData = SendData(period: int64, ts: int64, data: seq<byte>)

  function Power256(n: nat): (p: int)
    ensures p > 0
  {
    if n == 0 then 1 else 256 * Power256(n - 1)
  }

  /** The `n` low bytes of `u`, most significant first. */
  function BigEndian(u: int, n: nat): (s: seq<byte>)
    requires 0 <= u < Power256(n)
    ensures |s| == n
  {
    if n == 0 then [] else BigEndian(u / 256, n - 1) + [u % 256]
  }

  /** The number that bytes denote, most significant first. */
  function Unsigned(s: seq<byte>): (u: int)
    ensures 0 <= u < Power256(|s|)
  {
    if s == [] then 0 else 256 * Unsigned(s[..|s| - 1]) + s[|s| - 1]
  }

  /** Two's complement in `n` bytes. */
  function Wrap(x: int, n: nat): int {
    if x < 0 then x + Power256(n) else x
  }

  function Unwrap(u: int, n: nat): int {
    if 2 * u >= Power256(n) then u - Power256(n) else u
  }

  ghost predicate Fits(x: int, n: nat) {
    -Power256(n) <= 2 * x < Power256(n)
  }

  function Encode(x: int, n: nat): (s: seq<byte>)
    requires Fits(x, n)
    ensures |s| == n
  {
    BigEndian(Wrap(x, n), n)
  }

  function Decode(s: seq<byte>): int {
    Unwrap(Unsigned(s), |s|)
  }

  lemma {:induction false} UnsignedBigEndian(u: int, n: nat)
    requires 0 <= u < Power256(n)
    ensures Unsigned(BigEndian(u, n)) == u
  {
    if n > 0 {
      UnsignedBigEndian(u / 256, n - 1);
      assert BigEndian(u, n)[..n - 1] == BigEndian(u / 256, n - 1);
    }
  }

  lemma {:induction false} BigEndianUnsigned(s: seq<byte>)
    ensures BigEndian(Unsigned(s), |s|) == s
  {
    if s != [] {
      var t := s[..|s| - 1];
      BigEndianUnsigned(t);
      assert Unsigned(s) / 256 == Unsigned(t) && Unsigned(s) % 256 == s[|s| - 1];
    }
  }

  /** Network byte order: the k-th byte from the end counts 256^k. */
  lemma {:induction false} ByteAt(u: int, n: nat, k: nat)
    requires 0 <= u < Power256(n) && k < n
    ensures BigEndian(u, n)[n - 1 - k] == u / Power256(k) % 256
  {
    if k > 0 {
      ByteAt(u / 256, n - 1, k - 1);
      DivTwice(u, Power256(k - 1));
    }
  }

  lemma DivTwice(u: int, p: int)
    requires u >= 0 && p > 0
    ensures u / 256 / p == u / (256 * p)
  {
    var q, r := u / 256, u % 256;
    var a, b := q / p, q % p;
    assert u == 256 * (a * p + b) + r == a * (256 * p) + (256 * b + r);
    assert 0 <= 256 * b + r < 256 * p;
    QuotientIs(u, 256 * p, a);
  }

  /** The bytes of a signed integer, each told by itself; a negative one has the
      bits of its two's complement. */
  lemma EncodedByte(x: int, n: nat, k: nat)
    requires Fits(x, n) && k < n
    ensures Encode(x, n)[n - 1 - k] == (if x < 0 then x + Power256(n) else x) / Power256(k) % 256
  {
    ByteAt(Wrap(x, n), n, k);
  }

  /** Signed integers survive the bytes, and bytes the integers. */
  lemma DecodeEncode(x: int, n: nat)
    requires Fits(x, n)
    ensures Decode(Encode(x, n)) == x
  {
    UnsignedBigEndian(Wrap(x, n), n);
  }

  lemma EncodeDecode(s: seq<byte>)
    requires s != []
    ensures Fits(Decode(s), |s|) && Encode(Decode(s), |s|) == s
  {
    BigEndianUnsigned(s);
    assert Wrap(Decode(s), |s|) == Unsigned(s);
  }

  lemma Widths()
    ensures Power256(1) == 0x100 && Power256(8) == 0x1_0000_0000_0000_0000
    ensures forall x: int8 :: Fits(x, 1)
    ensures forall x: int64 :: Fits(x, 8)
  {
    assert Power256(2) == 0x1_0000 && Power256(4) == 0x1_0000_0000 && Power256(6) == 0x1_0000_0000_0000;
  }

  const VERSION := 1
  const ZLIB := 1

  /** The bytes of a header, field after field. */
  ghost function HeaderBytes(h: Header): (s: seq<byte>)
    ensures |s| == 26
  {
    Widths();
    Encode(h.version, 1) + Encode(h.compress, 1) + Encode(h.period, 8) + Encode(h.timestamp, 8)
    + Encode(h.postTimestamp, 8)
  }

  /** `sendHdr`: writes the fields one after the other into a buffer. */
  method SendHdr(d: SendData, now: int64) returns (hdr: seq<byte>)
    ensures hdr == HeaderBytes(Header(VERSION, ZLIB, d.period, d.ts, now))
  {
    Widths();
    var buf: seq<byte> := [];
    buf := buf + Encode(VERSION, 1);
    buf := buf + Encode(ZLIB, 1);
    buf := buf + Encode(d.period, 8);
    buf := buf + Encode(d.ts, 8);
    buf := buf + Encode(now, 8);
    hdr := buf;
  }

  /** `send`, with the header if the server is so configured. */
  method Send(d: SendData, now: int64, withHeader: bool) returns (body: seq<byte>)
    ensures withHeader ==>
              && |body| == 26 + |d.data|
              && Decode(body[0..1]) == 1 && Decode(body[1..2]) == 1
              && Decode(body[2..10]) == d.period && Decode(body[10..18]) == d.ts
              && Decode(body[18..26]) == now && body[26..] == d.data
    ensures !withHeader ==> body == d.data
  {
    if withHeader {
      var hdr := SendHdr(d, now);
      FrameRoundTrip(Header(VERSION, ZLIB, d.period, d.ts, now), d.data);
      body := hdr + d.data;
    } else {
      body := d.data;
    }
  }

  /** Every header and payload can be read back from the frame; the client finds
      the post timestamp in bytes 18 to 26 and the payload after them. */
  lemma FrameRoundTrip(h: Header, data: seq<byte>)
    ensures var f := HeaderBytes(h) + data;
            && |f| == 26 + |data|
            && Decode(f[0..1]) == h.version && Decode(f[1..2]) == h.compress
            && Decode(f[2..10]) == h.period && Decode(f[10..18]) == h.timestamp
            && Decode(f[18..26]) == h.postTimestamp && f[26..] == data
  {
    Widths();
    var f := HeaderBytes(h) + data;
    DecodeEncode(h.version, 1);
    DecodeEncode(h.compress, 1);
    DecodeEncode(h.period, 8);
    DecodeEncode(h.timestamp, 8);
    DecodeEncode(h.postTimestamp, 8);
    assert f[0..1] == Encode(h.version, 1) && f[1..2] == Encode(h.compress, 1);
    assert f[2..10] == Encode(h.period, 8);
    assert f[10..18] == Encode(h.timestamp, 8);
    assert f[18..26] == Encode(h.postTimestamp, 8);
  }

  /** And every 26 bytes are the header of exactly one set of fields. */
  lemma HeaderBijective(s: seq<byte>) returns (h: Header)
    requires |s| == 26
    ensures HeaderBytes(h) == s
    ensures forall h': Header :: HeaderBytes(h') == s ==> h' == h
  {
    Widths();
    EncodeDecode(s[0..1]);
    EncodeDecode(s[1..2]);
    EncodeDecode(s[2..10]);
    EncodeDecode(s[10..18]);
    EncodeDecode(s[18..26]);
    h := Header(Decode(s[0..1]), Decode(s[1..2]), Decode(s[2..10]), Decode(s[10..18]), Decode(s[18..26]));
    assert s == s[0..1] + s[1..2] + s[2..10] + s[10..18] + s[18..26];
    forall h': Header | HeaderBytes(h') == s ensures h' == h {
      FrameRoundTrip(h', []);
      assert HeaderBytes(h') + [] == s;
    }
  }
}
