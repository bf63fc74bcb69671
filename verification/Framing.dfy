/** The byte layout of one native frame (src/iicp_tcp.ts): a 12-byte header
    `magic(4) version(1) type(1) flags(1) reserved(1) length(4, big endian)`
    followed by at most 16 MiB of payload. */
module Framing {
  import opened Optional

  type byte = b: int | 0 <= b < 256

  const MAGIC: seq<byte> := [0x49, 0x49, 0x43, 0x50]
  const FRAMING_VERSION: byte := 1
  const HEADER_LEN: nat := 12
  const MAX_PAYLOAD: nat := 16 * 1024 * 1024

  const INIT: byte := 0x01
  const CALL: byte := 0x05
  const RESPONSE: byte := 0x06
  const CLOSE: byte := 0x07

  datatype TypeError = InvalidType | ConflictedType | UnsupportedExtension | UnknownType

  /** The type bytes of the stable task profile. */
  const STABLE_TYPES: set<byte> :=
    {0x01, 0x02, 0x03, 0x04, 0x05, 0x06, 0x07, 0x08, 0x09, 0x0a, 0x0d, 0x0e}

  function StableTypeError(msgType: byte): (e: Option<TypeError>)
    ensures e.None? <==> msgType in STABLE_TYPES
  {
    if msgType in STABLE_TYPES then None
    else if msgType == 0x00 || msgType == 0xff then Some(InvalidType)
    else if msgType == 0x0b || msgType == 0x0c then Some(ConflictedType)
    else if 0xf0 <= msgType <= 0xfe then Some(UnsupportedExtension)
    else Some(UnknownType)
  }

  datatype Frame = Frame(msgType: byte, flags: byte, payload: seq<byte>) {
    predicate Fits() { |payload| <= MAX_PAYLOAD }
  }

  datatype FrameError = TooShort | BadMagic | BadVersion | TooLarge | Truncated

  datatype Decoded = Ok(frame: Frame, consumed: nat) | Err(error: FrameError)

  // ---- 32-bit big-endian lengths ----

  function U32(n: nat): (s: seq<byte>)
    requires n < 0x1_0000_0000
    ensures |s| == 4
  {
    [n / 0x100_0000, n / 0x1_0000 % 256, n / 256 % 256, n % 256]
  }

  function ReadU32(s: seq<byte>, i: nat): (n: nat)
    requires i + 4 <= |s|
    ensures n < 0x1_0000_0000
  {
    var (a: int, b: int, c: int, d: int) := (s[i], s[i + 1], s[i + 2], s[i + 3]);
    a * 0x100_0000 + b * 0x1_0000 + c * 256 + d
  }

  lemma U32RoundTrip(n: nat)
    requires n < 0x1_0000_0000
    ensures ReadU32(U32(n), 0) == n
  {
    assert n / 0x1_0000 == n / 0x100_0000 * 256 + n / 0x1_0000 % 256;
    assert n / 256 == n / 0x1_0000 * 256 + n / 256 % 256;
    assert n == n / 256 * 256 + n % 256;
  }

  lemma ReadU32Unique(s: seq<byte>, i: nat)
    requires i + 4 <= |s|
    ensures U32(ReadU32(s, i)) == s[i..i + 4]
  {
    var a: int, b: int, c: int, d: int := s[i], s[i + 1], s[i + 2], s[i + 3];
    var n := ReadU32(s, i);
    assert n / 256 == a * 0x1_0000 + b * 256 + c && n % 256 == d;
    assert n / 0x1_0000 == a * 256 + b;
    assert n / 0x100_0000 == a;
  }

  // ---- Encoding and decoding ----

  function Header(f: Frame): (h: seq<byte>)
    requires f.Fits()
    ensures |h| == HEADER_LEN
  {
    MAGIC + [FRAMING_VERSION, f.msgType, f.flags, 0] + U32(|f.payload|)
  }

  function Encoded(f: Frame): (s: seq<byte>)
    requires f.Fits()
    ensures |s| == HEADER_LEN + |f.payload|
  {
    Header(f) + f.payload
  }

  /** Fills a fresh header buffer byte by byte, as the source does; None is the
      thrown "payload too large". */
  method EncodeFrame(f: Frame) returns (r: Option<seq<byte>>)
    ensures r.Some? <==> f.Fits()
    ensures r.Some? ==> r.value == Encoded(f)
  {
    if |f.payload| > MAX_PAYLOAD {
      return None;
    }
    var header := new byte[HEADER_LEN];
    for i := 0 to 4
      invariant header[..i] == MAGIC[..i]
    {
      header[i] := MAGIC[i];
    }
    header[4], header[5], header[6], header[7] := FRAMING_VERSION, f.msgType, f.flags, 0;
    var len := U32(|f.payload|);
    header[8], header[9], header[10], header[11] := len[0], len[1], len[2], len[3];
    assert header[..] == Header(f);
    r := Some(header[..] + f.payload);
  }

  function Decode(data: seq<byte>): Decoded {
    if |data| < HEADER_LEN then Err(TooShort)
    else if data[..4] != MAGIC then Err(BadMagic)
    else if data[4] != FRAMING_VERSION then Err(BadVersion)
    else
      var n := ReadU32(data, 8);
      if n > MAX_PAYLOAD then Err(TooLarge)
      else if |data| < HEADER_LEN + n then Err(Truncated)
      else Ok(Frame(data[5], data[6], data[HEADER_LEN..HEADER_LEN + n]), HEADER_LEN + n)
  }

  /** What was encoded is decoded, whatever follows it. */
  lemma DecodeEncoded(f: Frame, rest: seq<byte>)
    requires f.Fits()
    ensures Decode(Encoded(f) + rest) == Ok(f, |Encoded(f)|)
  {
    var data := Encoded(f) + rest;
    U32RoundTrip(|f.payload|);
    assert data[..4] == MAGIC;
    assert data[8..12] == U32(|f.payload|);
    assert ReadU32(data, 8) == ReadU32(U32(|f.payload|), 0);
    assert data[HEADER_LEN..HEADER_LEN + |f.payload|] == f.payload;
  }

  /** Decoding accepts nothing but encoder output, except that the reserved
      byte is not looked at: replacing it by 0 gives back the encoding. */
  lemma DecodeOnlyEncoded(data: seq<byte>)
    ensures Decode(data).Ok? <==>
            exists f: Frame :: f.Fits() && |data| >= |Encoded(f)| && data[7 := 0][..|Encoded(f)|] == Encoded(f)
    ensures Decode(data).Ok? ==>
            var (f, n) := (Decode(data).frame, Decode(data).consumed);
            f.Fits() && |Encoded(f)| == n <= |data| && data[7 := 0][..n] == Encoded(f)
  {
    if Decode(data).Ok? {
      var (f, n) := (Decode(data).frame, Decode(data).consumed);
      ReadU32Unique(data, 8);
      var got, want := data[7 := 0][..n], Encoded(f);
      assert want[4..8] == [FRAMING_VERSION, f.msgType, f.flags, 0] == got[4..8];
      assert want[..4] == MAGIC == got[..4];
      assert want[8..12] == U32(|f.payload|) == got[8..12];
      assert got == got[..4] + got[4..8] + got[8..12] + got[12..];
      assert want == want[..4] + want[4..8] + want[8..12] + want[12..];
    }
    forall f: Frame | f.Fits() && |data| >= |Encoded(f)| && data[7 := 0][..|Encoded(f)|] == Encoded(f)
      ensures Decode(data).Ok?
    {
      var clean := data[7 := 0];
      DecodeEncoded(f, clean[|Encoded(f)|..]);
      assert clean == Encoded(f) + clean[|Encoded(f)|..];
      assert data[..4] == clean[..4];
    }
  }

  /** Byte by byte: what an encoded frame begins with, and its length. */
  lemma EncodedBytes(f: Frame)
    requires f.Fits()
    ensures var b: seq<int> := Encoded(f);
            && |b| == 12 + |f.payload| && b[12..] == f.payload
            && b[0] == 'I' as int && b[1] == 'I' as int && b[2] == 'C' as int && b[3] == 'P' as int
            && b[4] == 1 && b[5] == f.msgType && b[6] == f.flags && b[7] == 0
            && ((b[8] * 256 + b[9]) * 256 + b[10]) * 256 + b[11] == |f.payload| <= 16_777_216
  {
    U32RoundTrip(|f.payload|);
    assert ReadU32(U32(|f.payload|), 0) == |f.payload|;
  }

  /** Which objection is raised to which type byte. */
  lemma TypeErrors(t: byte)
    ensures var e := StableTypeError(t);
            && (e.None? <==> 1 <= t <= 10 || t in {13, 14})
            && (e == Some(InvalidType) <==> t in {0, 255})
            && (e == Some(ConflictedType) <==> t in {11, 12})
            && (e == Some(UnsupportedExtension) <==> 240 <= t < 255)
            && (e == Some(UnknownType) <==> 15 <= t < 240)
  {
  }
}
