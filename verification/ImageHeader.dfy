/** The header of an uploaded image (facade/image_validation.py). */
module ImageHeader {
  import opened Collections

  type byte = i: int | 0 <= i < 256

  datatype Header = Header(format: string, width: nat, height: nat)

  function Big16(d: seq<byte>, i: nat): nat
    requires i + 2 <= |d|
  {
    256 * (d[i] as int) + d[i + 1]
  }

  function Big32(d: seq<byte>, i: nat): nat
    requires i + 4 <= |d|
  {
    65536 * Big16(d, i) + Big16(d, i + 2)
  }

  function Little16(d: seq<byte>, i: nat): nat
    requires i + 2 <= |d|
  {
    d[i] + 256 * (d[i + 1] as int)
  }

  function Little24(d: seq<byte>, i: nat): nat
    requires i + 3 <= |d|
  {
    Little16(d, i) + 65536 * (d[i + 2] as int)
  }

  function Little32(d: seq<byte>, i: nat): nat
    requires i + 4 <= |d|
  {
    Little24(d, i) + 16777216 * (d[i + 3] as int)
  }

  const PNG_SIGNATURE: seq<byte> := [0x89, 0x50, 0x4E, 0x47, 0x0D, 0x0A, 0x1A, 0x0A]
  const RIFF: seq<byte> := [0x52, 0x49, 0x46, 0x46]
  const WEBP: seq<byte> := [0x57, 0x45, 0x42, 0x50]
  const VP8X: seq<byte> := [0x56, 0x50, 0x38, 0x58]
  const VP8: seq<byte> := [0x56, 0x50, 0x38, 0x20]
  const VP8L: seq<byte> := [0x56, 0x50, 0x38, 0x4C]

  /** The signatures as characters. */
  lemma Signatures()
    ensures RIFF == Bytes("RIFF") && WEBP == Bytes("WEBP") && VP8X == Bytes("VP8X") && VP8 == Bytes("VP8 ") && VP8L == Bytes("VP8L")
    ensures PNG_SIGNATURE == [0x89] + Bytes("PNG") + [13, 10, 26, 10]
  {}

  function Bytes(s: string): seq<byte>
    requires forall i :: 0 <= i < |s| ==> s[i] as int < 256
  {
    seq(|s|, i requires 0 <= i < |s| => s[i] as int)
  }

  predicate IsPng(d: seq<byte>) {
    |d| >= 24 && d[..8] == PNG_SIGNATURE
  }

  predicate IsJpeg(d: seq<byte>) {
    !IsPng(d) && |d| >= 4 && d[0] == 0xFF && d[1] == 0xD8
  }

  predicate IsWebp(d: seq<byte>) {
    !IsPng(d) && !IsJpeg(d) && |d| >= 30 && d[..4] == RIFF && d[8..12] == WEBP
  }

  /** A start of frame: C0 to CF but for DHT, JPG and DAC. */
  predicate IsSof(marker: byte) {
    0xC0 <= marker <= 0xCF && marker !in {0xC4, 0xC8, 0xCC}
  }

  /** C0 to CF, without C4, C8 and CC. */
  lemma SofAre(marker: byte)
    ensures IsSof(marker) <==> marker / 16 == 12 && marker % 16 in {0, 1, 2, 3, 5, 6, 7, 9, 10, 11, 13, 14, 15}
  {}

  function WebpHeader(d: seq<byte>): Option<Header>
    requires |d| >= 30
  {
    var kind := d[12..16];
    if kind == VP8X then Some(Header("webp", 1 + Little24(d, 24), 1 + Little24(d, 27)))
    else if kind == VP8 then Some(Header("webp", Little16(d, 26) % 0x4000, Little16(d, 28) % 0x4000))
    else if kind == VP8L then
      var bits := Little32(d, 21);
      Some(Header("webp", 1 + bits % 0x4000, 1 + bits / 0x4000 % 0x4000))
    else None
  }

  /** What the marker loop finds from an offset on. */
  function Scan(d: seq<byte>, offset: nat): Option<Header>
    decreases |d| - offset
  {
    if offset + 9 >= |d| || d[offset] != 0xFF then None
    else if IsSof(d[offset + 1]) then Some(Header("jpeg", Big16(d, offset + 7), Big16(d, offset + 5)))
    else Scan(d, offset + 2 + Big16(d, offset + 2))
  }

  function HeaderOf(d: seq<byte>): Option<Header> {
    if IsPng(d) then Some(Header("png", Big32(d, 16), Big32(d, 20)))
    else if IsJpeg(d) then Scan(d, 2)
    else if IsWebp(d) then WebpHeader(d)
    else None
  }

  /** image_header: it reads within the bytes and ends on every input. */
  method ImageHeaderOf(d: seq<byte>) returns (h: Option<Header>)
    ensures h == HeaderOf(d)
  {
    if IsPng(d) {
      return Some(Header("png", Big32(d, 16), Big32(d, 20)));
    }
    if IsJpeg(d) {
      var offset := 2;
      while offset + 9 < |d|
        invariant offset >= 2 && Scan(d, offset) == Scan(d, 2)
        decreases |d| - offset
      {
        if d[offset] != 0xFF {
          return None;
        }
        if IsSof(d[offset + 1]) {
          return Some(Header("jpeg", Big16(d, offset + 7), Big16(d, offset + 5)));
        }
        offset := offset + 2 + Big16(d, offset + 2);
      }
      return None;
    }
    if IsWebp(d) {
      return WebpHeader(d);
    }
    return None;
  }

  // ---------------------------------------------------------------- JPEG streams

  /** A marker segment of a JPEG stream: a marker, and its parameters after a length that counts itself. */
  datatype Segment = Segment(marker: byte, parameters: seq<byte>)

  predicate Writable(s: Segment) {
    |s.parameters| + 2 < 65536
  }

  function SegmentBytes(s: Segment): seq<byte>
    requires Writable(s)
  {
    [0xFF, s.marker, (|s.parameters| + 2) / 256, (|s.parameters| + 2) % 256] + s.parameters
  }

  function SegmentsBytes(ss: seq<Segment>): seq<byte>
    requires forall s :: s in ss ==> Writable(s)
  {
    if ss == [] then [] else SegmentBytes(ss[0]) + SegmentsBytes(ss[1..])
  }

  /** A frame header's parameters: precision, lines, samples a line, and the number of components. */
  predicate IsFrame(s: Segment) {
    IsSof(s.marker) && |s.parameters| >= 6
  }

  function FrameHeader(s: Segment): Header
    requires IsFrame(s)
  {
    Header("jpeg", Big16(s.parameters, 3), Big16(s.parameters, 1))
  }

  /** The bytes of a segment where it stands in a stream. */
  lemma SegmentAt(d: seq<byte>, before: seq<byte>, s: Segment, after: seq<byte>)
    requires Writable(s) && d == before + SegmentBytes(s) + after
    ensures var o := |before|;
      && |d| == o + 4 + |s.parameters| + |after|
      && d[o] == 0xFF && d[o + 1] == s.marker && Big16(d, o + 2) == |s.parameters| + 2
      && forall i :: 0 <= i < |s.parameters| ==> d[o + 4 + i] == s.parameters[i]
  {
    var x := SegmentBytes(s);
    forall i | 0 <= i < |x| ensures d[|before| + i] == x[i] {}
    assert x[0] == 0xFF && x[1] == s.marker;
    assert d[|before| + 2] == x[2] && d[|before| + 3] == x[3];
    forall i | 0 <= i < |s.parameters| ensures d[|before| + 4 + i] == s.parameters[i] {
      assert x[4 + i] == s.parameters[i] && d[|before| + (4 + i)] == x[4 + i];
    }
  }

  lemma ScanPast(before: seq<byte>, s: Segment, after: seq<byte>)
    requires Writable(s) && !IsSof(s.marker) && |after| >= 10
    ensures var d := before + SegmentBytes(s) + after;
      Scan(d, |before|) == Scan(d, |before + SegmentBytes(s)|)
  {
    SegmentAt(before + SegmentBytes(s) + after, before, s, after);
  }

  lemma ScanFrame(before: seq<byte>, frame: Segment, rest: seq<byte>)
    requires Writable(frame) && IsFrame(frame)
    ensures Scan(before + SegmentBytes(frame) + rest, |before|) == Some(FrameHeader(frame))
  {
    var d, o, p := before + SegmentBytes(frame) + rest, |before|, frame.parameters;
    SegmentAt(d, before, frame, rest);
    assert d[o + 4 + 1] == p[1] && d[o + 4 + 2] == p[2] && d[o + 4 + 3] == p[3] && d[o + 4 + 4] == p[4];
  }

  lemma FirstSegment(before: seq<byte>, ss: seq<Segment>, end: seq<byte>)
    requires ss != [] && forall s :: s in ss ==> Writable(s)
    ensures before + SegmentsBytes(ss) + end == before + SegmentBytes(ss[0]) + (SegmentsBytes(ss[1..]) + end)
    ensures before + SegmentBytes(ss[0]) + SegmentsBytes(ss[1..]) + end == before + SegmentsBytes(ss) + end
  {
    Regroup(before, SegmentBytes(ss[0]), SegmentsBytes(ss[1..]), end);
    assert SegmentsBytes(ss) == SegmentBytes(ss[0]) + SegmentsBytes(ss[1..]);
  }

  lemma Regroup(a: seq<byte>, b: seq<byte>, c: seq<byte>, d: seq<byte>)
    ensures a + (b + c) + d == a + b + (c + d) && a + b + c + d == a + (b + c) + d
  {
    assert a + b + c == a + (b + c);
  }

  lemma {:induction false} ScanSegments(before: seq<byte>, ss: seq<Segment>, frame: Segment, rest: seq<byte>)
    requires forall s :: s in ss ==> Writable(s) && !IsSof(s.marker)
    requires Writable(frame) && IsFrame(frame)
    ensures Scan(before + SegmentsBytes(ss) + (SegmentBytes(frame) + rest), |before|) == Some(FrameHeader(frame))
    decreases |ss|
  {
    var end := SegmentBytes(frame) + rest;
    if ss == [] {
      assert before + SegmentsBytes(ss) + end == before + SegmentBytes(frame) + rest;
      ScanFrame(before, frame, rest);
    } else {
      FirstSegment(before, ss, end);
      ScanPast(before, ss[0], SegmentsBytes(ss[1..]) + end);
      ScanSegments(before + SegmentBytes(ss[0]), ss[1..], frame, rest);
    }
  }

  lemma NotPng(d: seq<byte>)
    requires d != [] && d[0] != 0x89
    ensures !IsPng(d)
  {
    assert PNG_SIGNATURE[0] == 0x89;
  }

  /** Sections B.1.1.4 and B.2.2 of ITU-T T.81: of a stream of SOI, segments and a frame header, whatever
      follows, the first frame's dimensions are read. */
  lemma FirstFrameIsRead(ss: seq<Segment>, frame: Segment, rest: seq<byte>)
    requires forall s :: s in ss ==> Writable(s) && !IsSof(s.marker)
    requires Writable(frame) && IsFrame(frame)
    ensures HeaderOf([0xFF, 0xD8] + SegmentsBytes(ss) + SegmentBytes(frame) + rest) == Some(FrameHeader(frame))
  {
    ScanSegments([0xFF, 0xD8], ss, frame, rest);
    var d := [0xFF, 0xD8] + SegmentsBytes(ss) + SegmentBytes(frame) + rest;
    assert d == [0xFF, 0xD8] + SegmentsBytes(ss) + (SegmentBytes(frame) + rest);
    NotPng(d);
  }

  // ---------------------------------------------------------------- PNG and WebP headers

  function WriteBig32(n: nat): seq<byte>
    requires n < 0x1_0000_0000
  {
    [n / 0x100_0000, n / 0x1_0000 % 256, n / 256 % 256, n % 256]
  }

  function WriteLittle24(n: nat): seq<byte>
    requires n < 0x100_0000
  {
    [n % 256, n / 256 % 256, n / 0x1_0000]
  }

  function WriteLittle32(n: nat): seq<byte>
    requires n < 0x1_0000_0000
  {
    WriteLittle24(n % 0x100_0000) + [n / 0x100_0000]
  }

  lemma Big32ReadsBack(d: seq<byte>, i: nat, n: nat)
    requires i + 4 <= |d| && n < 0x1_0000_0000 && d[i..i + 4] == WriteBig32(n)
    ensures Big32(d, i) == n
  {
    var w := WriteBig32(n);
    assert d[i..i + 4][0] == w[0] && d[i..i + 4][1] == w[1] && d[i..i + 4][2] == w[2] && d[i..i + 4][3] == w[3];
    FourDigits(n);
  }

  lemma FourDigits(n: nat)
    requires n < 0x1_0000_0000
    ensures n / 0x100_0000 * 0x100_0000 + n / 0x1_0000 % 256 * 0x1_0000 + n / 256 % 256 * 256 + n % 256 == n
  {
    var a := n / 256;
    var b := a / 256;
    assert n / 0x1_0000 == b && n / 0x100_0000 == b / 256;
    assert a == 256 * b + a % 256 && b == 256 * (b / 256) + b % 256;
  }

  /** The IHDR chunk holds the dimensions as written. */
  lemma PngReadsBack(chunk: seq<byte>, width: nat, height: nat, rest: seq<byte>)
    requires |chunk| == 8 && width < 0x1_0000_0000 && height < 0x1_0000_0000
    ensures HeaderOf(PNG_SIGNATURE + chunk + WriteBig32(width) + WriteBig32(height) + rest) == Some(Header("png", width, height))
  {
    var d := PNG_SIGNATURE + chunk + WriteBig32(width) + WriteBig32(height) + rest;
    assert d[..8] == PNG_SIGNATURE;
    assert d[16..20] == WriteBig32(width) && d[20..24] == WriteBig32(height);
    Big32ReadsBack(d, 16, width);
    Big32ReadsBack(d, 20, height);
  }

  lemma IsWebpFile(size: seq<byte>, rest: seq<byte>)
    requires |size| == 4 && |rest| >= 18
    ensures IsWebp(RIFF + size + WEBP + rest) && (RIFF + size + WEBP + rest)[12..] == rest
  {
    var d := RIFF + size + WEBP + rest;
    assert d[0] == 0x52 && d[..4] == RIFF && d[8..12] == WEBP;
    NotPng(d);
  }

  /** Where a chunk's kind and the two sides after its head stand. */
  lemma ChunkAt(size: seq<byte>, kind: seq<byte>, head: seq<byte>, w: seq<byte>, h: seq<byte>, rest: seq<byte>)
    requires |size| == 4 && |kind| == 4
    ensures var d := RIFF + size + WEBP + (kind + head + w + h + rest);
      var k := 16 + |head|;
      d[12..16] == kind && d[k..k + |w|] == w && d[k + |w|..k + |w| + |h|] == h
  {
    var tail := kind + head + w + h + rest;
    var start := RIFF + size + WEBP;
    var k := 4 + |head|;
    assert tail[..4] == kind && tail[k..k + |w|] == w && tail[k + |w|..k + |w| + |h|] == h;
    Below(start, tail, 0, 4);
    Below(start, tail, k, k + |w|);
    Below(start, tail, k + |w|, k + |w| + |h|);
  }

  lemma Below(start: seq<byte>, tail: seq<byte>, i: nat, j: nat)
    requires i <= j <= |tail|
    ensures (start + tail)[|start| + i..|start| + j] == tail[i..j]
  {}

  lemma Little24ReadsBack(d: seq<byte>, i: nat, n: nat)
    requires i + 3 <= |d| && n < 0x100_0000 && d[i..i + 3] == WriteLittle24(n)
    ensures Little24(d, i) == n
  {
    var w := WriteLittle24(n);
    assert d[i] == d[i..i + 3][0] && d[i + 1] == d[i..i + 3][1] && d[i + 2] == d[i..i + 3][2];
    assert n / 0x1_0000 == n / 256 / 256;
  }

  /** An extended file's canvas is stored less one, in 24 bits a side. */
  lemma ExtendedReadsBack(size: seq<byte>, head: seq<byte>, width: nat, height: nat, rest: seq<byte>)
    requires |size| == 4 && |head| == 8 && 1 <= width <= 0x100_0000 && 1 <= height <= 0x100_0000
    ensures HeaderOf(RIFF + size + WEBP + (VP8X + head + WriteLittle24(width - 1) + WriteLittle24(height - 1) + rest))
      == Some(Header("webp", width, height))
  {
    var w, h := WriteLittle24(width - 1), WriteLittle24(height - 1);
    var tail := VP8X + head + w + h + rest;
    IsWebpFile(size, tail);
    ChunkAt(size, VP8X, head, w, h, rest);
    Little24ReadsBack(RIFF + size + WEBP + tail, 24, width - 1);
    Little24ReadsBack(RIFF + size + WEBP + tail, 27, height - 1);
  }

  lemma PackedSides(width: nat, height: nat, flags: nat)
    requires width < 0x4000 && height < 0x4000 && flags < 16
    ensures var bits := width + height * 0x4000 + flags * 0x1000_0000;
      bits < 0x1_0000_0000 && bits % 0x4000 == width && bits / 0x4000 % 0x4000 == height
  {
    var bits := width + height * 0x4000 + flags * 0x1000_0000;
    assert bits == width + 0x4000 * (height + 0x4000 * flags);
    assert bits / 0x4000 == height + 0x4000 * flags;
  }

  lemma Little32ReadsBack(d: seq<byte>, i: nat, n: nat)
    requires i + 4 <= |d| && n < 0x1_0000_0000 && d[i..i + 4] == WriteLittle32(n)
    ensures Little32(d, i) == n
  {
    var w := WriteLittle32(n);
    assert d[i] == d[i..i + 4][0] && d[i + 1] == d[i..i + 4][1] && d[i + 2] == d[i..i + 4][2] && d[i + 3] == d[i..i + 4][3];
  }

  /** A lossless file packs both sides, less one, in 14 bits each below its flags. */
  lemma LosslessReadsBack(size: seq<byte>, head: seq<byte>, width: nat, height: nat, flags: nat, rest: seq<byte>)
    requires |size| == 4 && |head| == 5 && 1 <= width <= 0x4000 && 1 <= height <= 0x4000 && flags < 16 && |rest| >= 5
    requires width - 1 + (height - 1) * 0x4000 + flags * 0x1000_0000 < 0x1_0000_0000
    ensures HeaderOf(RIFF + size + WEBP + (VP8L + head + WriteLittle32(width - 1 + (height - 1) * 0x4000 + flags * 0x1000_0000) + rest))
      == Some(Header("webp", width, height))
  {
    var bits := width - 1 + (height - 1) * 0x4000 + flags * 0x1000_0000;
    PackedSides(width - 1, height - 1, flags);
    LosslessBits(size, head, bits, rest);
  }

  lemma LosslessBits(size: seq<byte>, head: seq<byte>, bits: nat, rest: seq<byte>)
    requires |size| == 4 && |head| == 5 && bits < 0x1_0000_0000 && |rest| >= 5
    ensures HeaderOf(RIFF + size + WEBP + (VP8L + head + WriteLittle32(bits) + rest))
      == Some(Header("webp", 1 + bits % 0x4000, 1 + bits / 0x4000 % 0x4000))
  {
    var tail := VP8L + head + WriteLittle32(bits) + rest;
    var d := RIFF + size + WEBP + tail;
    IsWebpFile(size, tail);
    assert d[12..16] == tail[..4] == VP8L;
    assert VP8L[3] != VP8X[3] && VP8L[3] != VP8[3];
    assert d[21..25] == tail[9..13] == WriteLittle32(bits);
    Little32ReadsBack(d, 21, bits);
  }

  function WriteLittle16(n: nat): seq<byte>
    requires n < 0x1_0000
  {
    [n % 256, n / 256]
  }

  lemma Little16ReadsBack(d: seq<byte>, i: nat, n: nat)
    requires i + 2 <= |d| && n < 0x1_0000 && d[i..i + 2] == WriteLittle16(n)
    ensures Little16(d, i) == n
  {
    assert d[i] == d[i..i + 2][0] && d[i + 1] == d[i..i + 2][1];
  }

  lemma Below16(side: nat, scale: nat)
    requires side < 0x4000
    ensures (side + scale * 0x4000) % 0x4000 == side
  {}

  lemma LossyBits(size: seq<byte>, head: seq<byte>, first: nat, second: nat, rest: seq<byte>)
    requires |size| == 4 && |head| == 10 && first < 0x1_0000 && second < 0x1_0000
    ensures HeaderOf(RIFF + size + WEBP + (VP8 + head + WriteLittle16(first) + WriteLittle16(second) + rest))
      == Some(Header("webp", first % 0x4000, second % 0x4000))
  {
    var w, h := WriteLittle16(first), WriteLittle16(second);
    var tail := VP8 + head + w + h + rest;
    IsWebpFile(size, tail);
    ChunkAt(size, VP8, head, w, h, rest);
    assert VP8[3] != VP8X[3];
    Little16ReadsBack(RIFF + size + WEBP + tail, 26, first);
    Little16ReadsBack(RIFF + size + WEBP + tail, 28, second);
  }

  /** A lossy file has each side in 14 bits below two of scaling. */
  lemma LossyReadsBack(size: seq<byte>, head: seq<byte>, width: nat, height: nat, scaleX: nat, scaleY: nat, rest: seq<byte>)
    requires |size| == 4 && |head| == 10 && width < 0x4000 && height < 0x4000 && scaleX < 4 && scaleY < 4
    ensures HeaderOf(RIFF + size + WEBP + (VP8 + head + WriteLittle16(width + scaleX * 0x4000) + WriteLittle16(height + scaleY * 0x4000) + rest))
      == Some(Header("webp", width, height))
  {
    LossyBits(size, head, width + scaleX * 0x4000, height + scaleY * 0x4000, rest);
    Below16(width, scaleX);
    Below16(height, scaleY);
  }

  /** Nothing else has a header: one is found in files of these kinds only, and of the kind's format. */
  lemma FormatOf(d: seq<byte>)
    ensures HeaderOf(d).Some? && HeaderOf(d).value.format == "png" ==> PNG_SIGNATURE <= d
    ensures HeaderOf(d).Some? && HeaderOf(d).value.format == "jpeg" ==> [0xFF, 0xD8] <= d
    ensures HeaderOf(d).Some? && HeaderOf(d).value.format == "webp" ==> |d| >= 30 && RIFF <= d && d[8..12] == WEBP && d[12..16] in {VP8X, VP8, VP8L}
    ensures HeaderOf(d).Some? ==> HeaderOf(d).value.format in {"png", "jpeg", "webp"}
  {
    ScanFormat(d, 2);
    assert "png"[0] != "jpeg"[0] && "png"[0] != "webp"[0];
    if IsJpeg(d) { assert d[..2] == [0xFF, 0xD8]; }
  }

  lemma {:induction false} ScanFormat(d: seq<byte>, offset: nat)
    ensures Scan(d, offset).Some? ==> Scan(d, offset).value.format == "jpeg"
    decreases |d| - offset
  {
    if offset + 9 < |d| && d[offset] == 0xFF && !IsSof(d[offset + 1]) { ScanFormat(d, offset + 2 + Big16(d, offset + 2)); }
  }

  // ---------------------------------------------------------------- the limits

  datatype Policy = Policy(maxSize: nat, maxSide: nat)

  datatype Verdict = Accepted(size: nat, header: Header) | TooLarge | HashMismatch | BadHeader | OverBudget

  /** validate_image; `digest` is the hash of the bytes. */
  function Validate(d: seq<byte>, digest: string, ref: string, policy: Policy): Verdict {
    if |d| > policy.maxSize then TooLarge
    else if digest != ref then HashMismatch
    else
      match HeaderOf(d)
      case None => BadHeader
      case Some(h) =>
        if 0 < h.width <= policy.maxSide && 0 < h.height <= policy.maxSide then Accepted(|d|, h) else OverBudget
  }

  /** A JPEG stream is accepted exactly when it is of the named bytes, small enough, and its first frame
      is within the limits. */
  lemma JpegAcceptedIff(ss: seq<Segment>, frame: Segment, rest: seq<byte>, digest: string, ref: string, policy: Policy)
    requires forall s :: s in ss ==> Writable(s) && !IsSof(s.marker)
    requires Writable(frame) && IsFrame(frame)
    ensures var d := [0xFF, 0xD8] + SegmentsBytes(ss) + SegmentBytes(frame) + rest;
      Validate(d, digest, ref, policy).Accepted? <==>
        |d| <= policy.maxSize && digest == ref
        && 0 < Big16(frame.parameters, 3) <= policy.maxSide && 0 < Big16(frame.parameters, 1) <= policy.maxSide
    ensures var d := [0xFF, 0xD8] + SegmentsBytes(ss) + SegmentBytes(frame) + rest;
      match Validate(d, digest, ref, policy)
      case TooLarge => |d| > policy.maxSize
      case HashMismatch => |d| <= policy.maxSize && digest != ref
      case BadHeader => false
      case OverBudget => |d| <= policy.maxSize && digest == ref
      case Accepted(size, header) => size == |d| && header == Header("jpeg", Big16(frame.parameters, 3), Big16(frame.parameters, 1))
  {
    FirstFrameIsRead(ss, frame, rest);
  }
}
