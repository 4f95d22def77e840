/**
 * `synthesizeIPA`: validation, segmentation and the capability check put
 * together, with the issues or notes rendered as text and a silent
 * 16-bit mono PCM WAV file as the audio.
 */
module Synthesis {
  import opened Text
  import opened Validate
  import opened Parse
  import opened Phoneset

  type Byte = b: int | 0 <= b < 0x100

  /** `SynthesisResult`: the audio and optional notes, or an error with its issue lines. */
  datatype SynthesisResult =
    | Ok(audio: seq<Byte>, notes: Option<seq<Str>>)
    | Err(error: Str, issues: seq<Str>)

  const Quote: CodeUnit := 0x22

  /** `floor(0.2 * 16000)`: the sample count `synthesizeIPA` asks for. */
  const DefaultSamples: int := 3200
  const DefaultRate: int := 16000

  // ---- text of issues and notes ----

  /** `${index}:${char ? `"${char}" ` : ""}${message}`. */
  function FormatIssue(x: Issue): Str
  {
    Decimal(x.index) + Lit(":") +
    (match x.ch
     case Some(c) => [Quote, c, Quote, 0x20]
     case None => []) +
    Message(x.rule)
  }

  function KindName(k: Kind): Str
  {
    match k
    case Base => Lit("base")
    case Diacritic => Lit("diacritic")
  }

  /** `Unsupported ${kind} "${symbol}" at segment ${index}`. */
  function FormatNote(x: CapabilityItem): Str
  {
    Lit("Unsupported ") + KindName(x.kind) + Lit(" ") + [Quote, x.symbol, Quote] +
    Lit(" at segment ") + Decimal(x.index)
  }

  function IssueLines(issues: seq<Issue>): seq<Str>
  {
    seq(|issues|, k requires 0 <= k < |issues| => FormatIssue(issues[k]))
  }

  /** The notes of a capability report: absent when nothing is unsupported. */
  function Notes(report: CapabilityReport): Option<seq<Str>>
  {
    var items := report.unsupported;
    if |items| > 0 then Some(seq(|items|, k requires 0 <= k < |items| => FormatNote(items[k])))
    else None
  }

  // ---- the pipeline ----

  /**
   * What `synthesizeIPA` makes of a validation result. The segmenter
   * normalizes `cleaned` once more before splitting it.
   */
  function Compose(u: Unicode, v: Validation): SynthesisResult
  {
    if !v.ok then Err(Lit("Validation failed"), IssueLines(v.issues))
    else
      var segs := Segments(u, u.nfd(v.cleaned));
      Ok(SilentWav(NumSamples(DefaultSamples), DefaultRate), Notes(Capabilities(Starter, segs)))
  }

  /** `synthesizeIPA` on `input`, its validator using whitelist `w`. */
  function SynthesizeWith(w: Whitelist, u: Unicode, input: Str): SynthesisResult
  {
    Compose(u, ValidateWith(w, u, input))
  }

  /** `synthesizeIPA` as the source is written. */
  function Synthesize(u: Unicode, input: Str): SynthesisResult
  {
    SynthesizeWith(AsWritten, u, input)
  }

  method SynthesizeIPA(w: Whitelist, u: Unicode, input: Str) returns (r: SynthesisResult)
    ensures r == SynthesizeWith(w, u, input)
    ensures r.Err? <==> !ValidateWith(w, u, input).ok
  {
    var v := ValidateIPA(w, u, input);
    if !v.ok {
      return Err(Lit("Validation failed"), IssueLines(v.issues));
    }
    var segs := SegmentIPA(u, v.cleaned);
    var cap := CheckCapabilities(segs);
    var notes := Notes(cap);
    var audio := MakeSilentWav(DefaultSamples, DefaultRate);
    r := Ok(audio[..], notes);
  }

  // ---- the WAV file ----

  /** `Math.max(1, requested)`. */
  function NumSamples(requested: int): nat
  {
    if requested < 1 then 1 else requested
  }

  function ByteOf(x: int): Byte
  {
    x % 0x100
  }

  /** `DataView.setUint32(_, v, true)`: `v` taken modulo 2^32, least significant byte first. */
  function U32LE(v: int): seq<Byte>
  {
    var w := v % 0x1_0000_0000;
    var q1 := w / 0x100;
    var q2 := q1 / 0x100;
    [ByteOf(w), ByteOf(q1), ByteOf(q2), ByteOf(q2 / 0x100)]
  }

  /** `DataView.setUint16(_, v, true)`: `v` taken modulo 2^16, least significant byte first. */
  function U16LE(v: int): seq<Byte>
  {
    var w := v % 0x1_0000;
    [ByteOf(w), ByteOf(w / 0x100)]
  }

  function DecodeU32(b: seq<Byte>): int
    requires |b| == 4
  {
    b[0] as int + 0x100 * (b[1] as int) + 0x1_0000 * (b[2] as int) + 0x100_0000 * (b[3] as int)
  }

  function DecodeU16(b: seq<Byte>): int
    requires |b| == 2
  {
    b[0] as int + 0x100 * (b[1] as int)
  }

  /** The bytes `writeASCII` stores for `text`: each code unit modulo 256. */
  function Ascii(text: Str): seq<Byte>
  {
    seq(|text|, i requires 0 <= i < |text| => text[i] % 0x100)
  }

  function Zeros(m: nat): seq<Byte>
  {
    seq(m, _ => 0)
  }

  /** The RIFF chunk descriptor: "RIFF", the size of the rest of the file, "WAVE". */
  function RiffPart(dataSize: nat): seq<Byte>
  {
    Ascii(Lit("RIFF")) + U32LE(36 + dataSize) + Ascii(Lit("WAVE"))
  }

  /** The "fmt " chunk: PCM, one channel, `rate`, 16 bits per sample. */
  function FmtPart(rate: int): seq<Byte>
  {
    FmtFormat() + FmtRates(rate)
  }

  /** "fmt ", the chunk size 16, audio format 1 (PCM) and one channel. */
  function FmtFormat(): seq<Byte>
  {
    Ascii(Lit("fmt ")) + U32LE(16) + U16LE(1) + U16LE(1)
  }

  /** The sample rate, the byte rate, the block alignment 2 and 16 bits per sample. */
  function FmtRates(rate: int): seq<Byte>
  {
    U32LE(rate) + U32LE(rate * 2) + U16LE(2) + U16LE(16)
  }

  /** The "data" chunk header: "data" and the sample bytes' size. */
  function DataPart(dataSize: nat): seq<Byte>
  {
    Ascii(Lit("data")) + U32LE(dataSize)
  }

  /** The 44-byte RIFF/WAVE header for `numSamples` 16-bit mono samples at `rate`. */
  function Header(numSamples: nat, rate: int): seq<Byte>
  {
    RiffPart(numSamples * 2) + FmtPart(rate) + DataPart(numSamples * 2)
  }

  /** The file `makeSilentWav` returns: the header, then `numSamples` zero samples. */
  function SilentWav(numSamples: nat, rate: int): seq<Byte>
  {
    Header(numSamples, rate) + Zeros(numSamples * 2)
  }

  /** `s` with `t` written over it from `offset` on. */
  function Splice(s: seq<Byte>, offset: nat, t: seq<Byte>): seq<Byte>
    requires offset + |t| <= |s|
  {
    s[..offset] + t + s[offset + |t|..]
  }

  /** `DataView.setUint8`: one byte, the value taken modulo 256. */
  method SetUint8(buf: array<Byte>, k: nat, v: int)
    requires k < buf.Length
    modifies buf
    ensures buf[..] == old(buf[..])[k := v % 0x100]
  {
    buf[k] := v % 0x100;
  }

  /** The byte stores behind `setUint16` and `setUint32`. */
  method Store(buf: array<Byte>, offset: nat, bytes: seq<Byte>)
    requires offset + |bytes| <= buf.Length
    modifies buf
    ensures buf[..] == Splice(old(buf[..]), offset, bytes)
  {
    for i := 0 to |bytes|
      invariant buf[..] == Splice(old(buf[..]), offset, bytes[..i])
    {
      SpliceExtend(old(buf[..]), offset, bytes[..i], bytes[i]);
      SetUint8(buf, offset + i, bytes[i]);
      assert bytes[..i] + [bytes[i]] == bytes[..i + 1];
    }
    assert bytes[..|bytes|] == bytes;
  }

  method SetUint32(buf: array<Byte>, offset: nat, value: int)
    requires offset + 4 <= buf.Length
    modifies buf
    ensures buf[..] == Splice(old(buf[..]), offset, U32LE(value))
  {
    Store(buf, offset, U32LE(value));
  }

  method SetUint16(buf: array<Byte>, offset: nat, value: int)
    requires offset + 2 <= buf.Length
    modifies buf
    ensures buf[..] == Splice(old(buf[..]), offset, U16LE(value))
  {
    Store(buf, offset, U16LE(value));
  }

  /**
   * `writeASCII`: stores each code unit of `text`, modulo 256, from
   * `offset` on; every other byte keeps its value.
   */
  method WriteAscii(buf: array<Byte>, offset: nat, text: Str)
    requires offset + |text| <= buf.Length
    modifies buf
    ensures buf[..] == Splice(old(buf[..]), offset, Ascii(text))
  {
    for i := 0 to |text|
      invariant buf[..] == Splice(old(buf[..]), offset, Ascii(text[..i]))
    {
      SpliceExtend(old(buf[..]), offset, Ascii(text[..i]), text[i] % 0x100);
      SetUint8(buf, offset + i, text[i]);
      assert Ascii(text[..i]) + [text[i] % 0x100] == Ascii(text[..i + 1]);
    }
    assert text[..|text|] == text;
  }

  /**
   * `makeSilentWav`, given the sample count `Math.floor(seconds * sampleRate)`
   * as `requested`: a zeroed buffer of 44 + 2 * numSamples bytes with the
   * header fields written from offset 0 to 44.
   */
  method MakeSilentWav(requested: int, sampleRate: int) returns (buffer: array<Byte>)
    ensures fresh(buffer)
    ensures buffer[..] == SilentWav(NumSamples(requested), sampleRate)
  {
    var numSamples := if requested < 1 then 1 else requested;
    var bytesPerSample := 2;
    var dataSize := numSamples * bytesPerSample;
    buffer := new Byte[44 + dataSize](_ => 0);
    assert buffer[..] == [] + Zeros(44 + dataSize);
    WriteRiffChunk(buffer, dataSize);
    WriteFmtChunk(buffer, dataSize, sampleRate);
    WriteDataChunk(buffer, dataSize, sampleRate);
  }

  /** The "RIFF" descriptor at offsets 0 to 12. */
  method WriteRiffChunk(buffer: array<Byte>, dataSize: nat)
    requires buffer[..] == [] + Zeros(44 + dataSize)
    modifies buffer
    ensures buffer[..] == RiffPart(dataSize) + Zeros(32 + dataSize)
  {
    PutAscii(buffer, 0, [], 44 + dataSize, Lit("RIFF"));
    PutU32(buffer, 4, Ascii(Lit("RIFF")), 40 + dataSize, 36 + dataSize);
    PutAscii(buffer, 8, Ascii(Lit("RIFF")) + U32LE(36 + dataSize), 36 + dataSize, Lit("WAVE"));
  }

  /** The "fmt " chunk at offsets 12 to 36. */
  method WriteFmtChunk(buffer: array<Byte>, dataSize: nat, sampleRate: int)
    requires buffer[..] == RiffPart(dataSize) + Zeros(32 + dataSize)
    modifies buffer
    ensures buffer[..] == RiffPart(dataSize) + FmtPart(sampleRate) + Zeros(8 + dataSize)
  {
    WriteFmtFormat(buffer, dataSize);
    WriteFmtRates(buffer, dataSize, sampleRate);
    assert RiffPart(dataSize) + FmtFormat() + FmtRates(sampleRate) ==
      RiffPart(dataSize) + FmtPart(sampleRate);
  }

  method WriteFmtFormat(buffer: array<Byte>, dataSize: nat)
    requires buffer[..] == RiffPart(dataSize) + Zeros(32 + dataSize)
    modifies buffer
    ensures buffer[..] == RiffPart(dataSize) + FmtFormat() + Zeros(20 + dataSize)
  {
    ghost var h := RiffPart(dataSize);
    PutAscii(buffer, 12, h, 32 + dataSize, Lit("fmt "));
    h := h + Ascii(Lit("fmt "));
    PutU32(buffer, 16, h, 28 + dataSize, 16);
    h := h + U32LE(16);
    PutU16(buffer, 20, h, 24 + dataSize, 1);
    h := h + U16LE(1);
    PutU16(buffer, 22, h, 22 + dataSize, 1);
    assert RiffPart(dataSize) + FmtFormat() == h + U16LE(1);
  }

  method WriteFmtRates(buffer: array<Byte>, dataSize: nat, sampleRate: int)
    requires buffer[..] == RiffPart(dataSize) + FmtFormat() + Zeros(20 + dataSize)
    modifies buffer
    ensures buffer[..] == RiffPart(dataSize) + FmtFormat() + FmtRates(sampleRate) + Zeros(8 + dataSize)
  {
    var bytesPerSample := 2;
    ghost var h := RiffPart(dataSize) + FmtFormat();
    PutU32(buffer, 24, h, 20 + dataSize, sampleRate);
    h := h + U32LE(sampleRate);
    PutU32(buffer, 28, h, 16 + dataSize, sampleRate * bytesPerSample);
    h := h + U32LE(sampleRate * 2);
    PutU16(buffer, 32, h, 12 + dataSize, bytesPerSample);
    h := h + U16LE(2);
    PutU16(buffer, 34, h, 10 + dataSize, 8 * bytesPerSample);
    assert RiffPart(dataSize) + FmtFormat() + FmtRates(sampleRate) == h + U16LE(16);
  }

  /** The "data" chunk header at offsets 36 to 44; the samples after it stay zero. */
  method WriteDataChunk(buffer: array<Byte>, dataSize: nat, sampleRate: int)
    requires buffer[..] == RiffPart(dataSize) + FmtPart(sampleRate) + Zeros(8 + dataSize)
    modifies buffer
    ensures buffer[..] == RiffPart(dataSize) + FmtPart(sampleRate) + DataPart(dataSize) + Zeros(dataSize)
  {
    ghost var h := RiffPart(dataSize) + FmtPart(sampleRate);
    PutAscii(buffer, 36, h, 8 + dataSize, Lit("data"));
    PutU32(buffer, 40, h + Ascii(Lit("data")), 4 + dataSize, dataSize);
  }

  /**
   * The header writes in `MakeSilentWav` go left to right over a zeroed
   * tail: a write of `t` at `|h|` over `h + Zeros(m)` leaves
   * `(h + t) + Zeros(m - |t|)`.
   */
  method PutAscii(buffer: array<Byte>, offset: nat, ghost h: seq<Byte>, ghost m: nat, text: Str)
    requires offset == |h| && |text| <= m && buffer[..] == h + Zeros(m)
    modifies buffer
    ensures buffer[..] == (h + Ascii(text)) + Zeros(m - |text|)
  {
    WriteAscii(buffer, offset, text);
    SpliceOntoZeros(h, Ascii(text), m);
  }

  method PutU32(buffer: array<Byte>, offset: nat, ghost h: seq<Byte>, ghost m: nat, value: int)
    requires offset == |h| && 4 <= m && buffer[..] == h + Zeros(m)
    modifies buffer
    ensures buffer[..] == (h + U32LE(value)) + Zeros(m - 4)
  {
    SetUint32(buffer, offset, value);
    SpliceOntoZeros(h, U32LE(value), m);
  }

  method PutU16(buffer: array<Byte>, offset: nat, ghost h: seq<Byte>, ghost m: nat, value: int)
    requires offset == |h| && 2 <= m && buffer[..] == h + Zeros(m)
    modifies buffer
    ensures buffer[..] == (h + U16LE(value)) + Zeros(m - 2)
  {
    SetUint16(buffer, offset, value);
    SpliceOntoZeros(h, U16LE(value), m);
  }

  // ---- byte-level lemmas ----

  lemma SpliceAt(s: seq<Byte>, offset: nat, t: seq<Byte>)
    requires offset + |t| <= |s|
    ensures |Splice(s, offset, t)| == |s|
    ensures forall k :: 0 <= k < |s| ==>
      Splice(s, offset, t)[k] == if offset <= k < offset + |t| then t[k - offset] else s[k]
  {
  }

  /** Writing one more byte just past a spliced run extends the run. */
  lemma SpliceExtend(s: seq<Byte>, offset: nat, t: seq<Byte>, b: Byte)
    requires offset + |t| + 1 <= |s|
    ensures Splice(s, offset, t)[offset + |t| := b] == Splice(s, offset, t + [b])
  {
    SpliceAt(s, offset, t);
    SpliceAt(s, offset, t + [b]);
  }

  lemma SpliceOntoZeros(h: seq<Byte>, t: seq<Byte>, m: nat)
    requires |t| <= m
    ensures Splice(h + Zeros(m), |h|, t) == (h + t) + Zeros(m - |t|)
  {
    SpliceAt(h + Zeros(m), |h|, t);
  }

  /** The little-endian u32 encoding reads back as its value modulo 2^32. */
  lemma U32RoundTrip(v: int)
    ensures |U32LE(v)| == 4 && DecodeU32(U32LE(v)) == v % 0x1_0000_0000
  {
    var w := v % 0x1_0000_0000;
    var q1 := w / 0x100;
    var q2 := q1 / 0x100;
    assert w == w % 0x100 + 0x100 * q1;
    assert q1 == q1 % 0x100 + 0x100 * q2;
    assert q2 == q2 % 0x100 + 0x100 * (q2 / 0x100);
  }

  /** The little-endian u16 encoding reads back as its value modulo 2^16. */
  lemma U16RoundTrip(v: int)
    ensures |U16LE(v)| == 2 && DecodeU16(U16LE(v)) == v % 0x1_0000
  {
    var w := v % 0x1_0000;
    assert w == w % 0x100 + 0x100 * (w / 0x100);
  }

  // ---- the header, field by field ----

  lemma RiffFields(dataSize: nat)
    ensures var r := RiffPart(dataSize);
      |r| == 12 &&
      r[0..4] == [0x52, 0x49, 0x46, 0x46] &&
      DecodeU32(r[4..8]) == (36 + dataSize) % 0x1_0000_0000 &&
      r[8..12] == [0x57, 0x41, 0x56, 0x45]
  {
    var r := RiffPart(dataSize);
    U32RoundTrip(36 + dataSize);
    assert r[4..8] == U32LE(36 + dataSize);
  }

  lemma FmtFormatFields()
    ensures var a := FmtFormat();
      |a| == 12 &&
      a[0..4] == [0x66, 0x6D, 0x74, 0x20] &&
      DecodeU32(a[4..8]) == 16 && DecodeU16(a[8..10]) == 1 && DecodeU16(a[10..12]) == 1
  {
    var a := FmtFormat();
    U32RoundTrip(16);
    U16RoundTrip(1);
    assert a[4..8] == U32LE(16);
    assert a[8..10] == U16LE(1) && a[10..12] == U16LE(1);
  }

  lemma FmtRatesFields(rate: int)
    ensures var b := FmtRates(rate);
      |b| == 12 &&
      DecodeU32(b[0..4]) == rate % 0x1_0000_0000 &&
      DecodeU32(b[4..8]) == (rate * 2) % 0x1_0000_0000 &&
      DecodeU16(b[8..10]) == 2 && DecodeU16(b[10..12]) == 16
  {
    var b := FmtRates(rate);
    U32RoundTrip(rate);
    U32RoundTrip(rate * 2);
    U16RoundTrip(2);
    U16RoundTrip(16);
    assert b[0..4] == U32LE(rate) && b[4..8] == U32LE(rate * 2);
    assert b[8..10] == U16LE(2) && b[10..12] == U16LE(16);
  }

  lemma FmtFields(rate: int)
    ensures var f := FmtPart(rate);
      |f| == 24 &&
      f[0..4] == [0x66, 0x6D, 0x74, 0x20] &&
      DecodeU32(f[4..8]) == 16 &&
      DecodeU16(f[8..10]) == 1 && DecodeU16(f[10..12]) == 1 &&
      DecodeU32(f[12..16]) == rate % 0x1_0000_0000 &&
      DecodeU32(f[16..20]) == (rate * 2) % 0x1_0000_0000 &&
      DecodeU16(f[20..22]) == 2 && DecodeU16(f[22..24]) == 16
  {
    var a := FmtFormat();
    var b := FmtRates(rate);
    FmtFormatFields();
    FmtRatesFields(rate);
    var f := FmtPart(rate);
    assert f[0..4] == a[0..4] && f[4..8] == a[4..8] && f[8..10] == a[8..10] && f[10..12] == a[10..12];
    assert f[12..16] == b[0..4] && f[16..20] == b[4..8];
    assert f[20..22] == b[8..10] && f[22..24] == b[10..12];
  }

  lemma DataFields(dataSize: nat)
    ensures var d := DataPart(dataSize);
      |d| == 8 &&
      d[0..4] == [0x64, 0x61, 0x74, 0x61] &&
      DecodeU32(d[4..8]) == dataSize % 0x1_0000_0000
  {
    U32RoundTrip(dataSize);
    assert DataPart(dataSize)[4..8] == U32LE(dataSize);
  }

  /**
   * The file `makeSilentWav` returns: at least one sample, 44 + 2 * numSamples
   * bytes, the three header parts at offsets 0, 12 and 36, and nothing but
   * zero bytes from offset 44 on.
   */
  lemma WavLayout(requested: int, rate: int)
    ensures var n := NumSamples(requested);
      n >= 1 && (requested >= 1 ==> n == requested)
    ensures var n := NumSamples(requested); var w := SilentWav(n, rate);
      |w| == 44 + 2 * n &&
      w[..12] == RiffPart(2 * n) && w[12..36] == FmtPart(rate) && w[36..44] == DataPart(2 * n) &&
      forall k :: 44 <= k < |w| ==> w[k] == 0
  {
    var n := NumSamples(requested);
    var w := SilentWav(n, rate);
    var r, f, d := RiffPart(2 * n), FmtPart(rate), DataPart(2 * n);
    assert |r| == 12 && |f| == 24 && |d| == 8;
    assert w == r + f + d + Zeros(2 * n);
    assert w[..12] == r;
    assert w[12..36] == f;
    assert w[36..44] == d;
  }

  // ---- issue and note lines read back ----

  /**
   * An issue line begins with the decimal digits of the issue's index and a
   * colon, so the index reads back from it; the unit, when there is one,
   * sits quoted after the colon; and the line ends with the rule's message.
   */
  lemma IssueLineReadsBack(x: Issue)
    ensures var f := FormatIssue(x); var d := Decimal(x.index);
      |d| < |f| && f[|d|] == 0x3A &&
      (forall k :: 0 <= k < |d| ==> IsDigit(f[k])) &&
      DigitsValue(f[..|d|]) == x.index &&
      |f| == |d| + 1 + (if x.ch.Some? then 4 else 0) + |Message(x.rule)| &&
      (x.ch.Some? ==>
         f[|d| + 1] == Quote && f[|d| + 2] == x.ch.value && f[|d| + 3] == Quote && f[|d| + 4] == 0x20) &&
      f[|f| - |Message(x.rule)|..] == Message(x.rule)
  {
    var f := FormatIssue(x);
    var d := Decimal(x.index);
    var quoted: Str := match x.ch case Some(c) => [Quote, c, Quote, 0x20] case None => [];
    DecimalRoundTrip(x.index);
    assert f == d + (Lit(":") + quoted + Message(x.rule));
    assert f[..|d|] == d;
  }

  /** The whole-string issue of empty input reads "0:Empty input". */
  lemma EmptyInputLine()
    ensures FormatIssue(Issue(0, None, EmptyInput)) == Lit("0:Empty input")
  {
    var f := FormatIssue(Issue(0, None, EmptyInput));
    assert Decimal(0) == [0x30];
    assert f == [0x30] + Lit(":") + Lit("Empty input");
  }

  /**
   * A note names the kind after "Unsupported ", quotes the unit, and ends
   * with the decimal digits of the segment index, which read back.
   */
  lemma NoteReadsBack(x: CapabilityItem)
    ensures var f := FormatNote(x); var kind := KindName(x.kind); var d := Decimal(x.index);
      var p := 12 + |kind|;
      |f| == p + 4 + 12 + |d| &&
      f[..12] == Lit("Unsupported ") && f[12..p] == kind &&
      f[p] == 0x20 && f[p + 1] == Quote && f[p + 2] == x.symbol && f[p + 3] == Quote &&
      f[p + 4..p + 16] == Lit(" at segment ") &&
      f[|f| - |d|..] == d && DigitsValue(f[|f| - |d|..]) == x.index
    ensures |KindName(Base)| != |KindName(Diacritic)|
  {
    var f := FormatNote(x);
    var kind := KindName(x.kind);
    var d := Decimal(x.index);
    var p := 12 + |kind|;
    DecimalRoundTrip(x.index);
    var head := Lit("Unsupported ") + kind + Lit(" ") + [Quote, x.symbol, Quote] + Lit(" at segment ");
    assert f == head + d;
    assert f[|f| - |d|..] == d;
    assert f[..12] == Lit("Unsupported ");
    assert f[12..p] == kind;
  }

  // ---- the pipeline's outcomes ----

  /**
   * A failed validation gives the error "Validation failed" with one line
   * per issue, in order; a successful one always gives audio, with notes
   * exactly when some base or diacritic is unsupported, one per item in
   * order, each naming a segment that exists.
   */
  lemma Outcomes(w: Whitelist, u: Unicode, input: Str)
    ensures var v := ValidateWith(w, u, input); var r := SynthesizeWith(w, u, input);
      (r.Err? <==> !v.ok) &&
      (r.Err? ==>
         r.error == Lit("Validation failed") && |r.issues| == |v.issues| &&
         forall k :: 0 <= k < |v.issues| ==> r.issues[k] == FormatIssue(v.issues[k]))
    ensures var v := ValidateWith(w, u, input); var r := SynthesizeWith(w, u, input);
      var segs := Segments(u, u.nfd(v.cleaned));
      var items := Capabilities(Starter, segs).unsupported;
      r.Ok? ==>
        r.audio == SilentWav(NumSamples(DefaultSamples), DefaultRate) &&
        (r.notes.None? <==> items == []) &&
        (r.notes.Some? ==>
           |r.notes.value| == |items| &&
           forall k :: 0 <= k < |items| ==>
             r.notes.value[k] == FormatNote(items[k]) && items[k].index < |segs|)
  {
    var v := ValidateWith(w, u, input);
    var segs := Segments(u, u.nfd(v.cleaned));
    ReportIndicesBelow(Starter, segs, |segs|);
  }

  /** As written, every call fails: the whitelist refuses every unit. */
  lemma AsWrittenAlwaysFails(u: Unicode, input: Str)
    ensures Synthesize(u, input).Err?
    ensures var v := Validate.Validate(u, input); var r := Synthesize(u, input);
      v.cleaned != [] ==>
        |r.issues| >= |v.cleaned| &&
        forall k :: 0 <= k < |v.cleaned| ==>
          r.issues[k] == FormatIssue(Issue(k, Some(v.cleaned[k]), UnsupportedCharacter))
  {
    NeverOk(u, input);
    var v := Validate.Validate(u, input);
    if v.cleaned != [] {
      forall k | 0 <= k < |v.cleaned|
        ensures v.issues[k] == Issue(k, Some(v.cleaned[k]), UnsupportedCharacter)
      {
        assert v.issues[k] == v.issues[..|v.cleaned|][k];
      }
    }
  }

  /** Blank input fails with the single line "0:Empty input", whatever the whitelist. */
  lemma BlankInputFails(w: Whitelist, u: Unicode, input: Str)
    requires AllSpaces(u.nfd(input))
    ensures SynthesizeWith(w, u, input) == Err(Lit("Validation failed"), [Lit("0:Empty input")])
  {
    EmptyInputIff(w, u, input);
    EmptyInputLine();
    assert IssueLines([Issue(0, None, EmptyInput)]) == [FormatIssue(Issue(0, None, EmptyInput))];
  }

  lemma OneNote(item: CapabilityItem)
    ensures Notes(CapabilityReport([item])) == Some([FormatNote(item)])
  {
    var r := Notes(CapabilityReport([item]));
    assert r.Some?;
    var lines: seq<Str> := [FormatNote(item)];
    assert r.value == lines;
    assert r == Some(lines);
  }

  /** The note for an unsupported glottal stop in segment 0. */
  lemma GlottalStopNote()
    ensures FormatNote(CapabilityItem(0, 0x294, Base)) == Lit("Unsupported base \"\U{294}\" at segment 0")
  {
    var s1 := "Unsupported base";
    var s2 := "Unsupported base ";
    var s3 := "Unsupported base \"\U{294}\"";
    var s4 := "Unsupported base \"\U{294}\" at segment ";
    var s5 := "Unsupported base \"\U{294}\" at segment 0";
    assert Lit(s1) == Lit("Unsupported ") + Lit("base") by {
      LitConcat("Unsupported ", "base");
      assert "Unsupported " + "base" == s1;
    }
    assert Lit(s2) == Lit(s1) + Lit(" ") by {
      LitConcat(s1, " ");
      assert s1 + " " == s2;
    }
    assert Lit(s3) == Lit(s2) + [Quote, 0x294, Quote] by {
      LitConcat(s2, "\"\U{294}\"");
      assert s2 + "\"\U{294}\"" == s3;
    }
    assert Lit(s4) == Lit(s3) + Lit(" at segment ") by {
      LitConcat(s3, " at segment ");
      assert s3 + " at segment " == s4;
    }
    assert Lit(s5) == Lit(s4) + Decimal(0) by {
      LitConcat(s4, "0");
      assert s4 + "0" == s5;
    }
  }

  /**
   * With the intended whitelist, "ʔ" (U+0294) passes validation and synthesizes, and
   * its one note reports the glottal stop as an unsupported base.
   */
  lemma GlottalStopSynthesizes(u: Unicode)
    requires u.nfd([0x294]) == [0x294] && !u.isMark(0x294)
    ensures SynthesizeWith(Intended, u, [0x294]) ==
      Ok(SilentWav(3200, 16000), Some([Lit("Unsupported base \"\U{294}\" at segment 0")]))
  {
    GlottalStopValidUnderIntended(u);
    var v := ValidateWith(Intended, u, [0x294]);
    var s0: Str := [];
    SegmentsOpen(u, s0, 0x294, []);
    assert s0 + [0x294] == [0x294];
    var segs := Segments(u, u.nfd(v.cleaned));
    assert segs == [Segment(0x294, [])];
    InventoryScenario();
    var item := CapabilityItem(0, 0x294, Base);
    assert Capabilities(Starter, segs) == CapabilityReport([item]);
    GlottalStopNote();
    OneNote(item);
    assert NumSamples(DefaultSamples) == 3200;
  }
}
