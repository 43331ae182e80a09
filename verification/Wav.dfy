/** WAV files: the two writers (harness/tvh.c, gui/speakwin.c) and the chunk walker that
    reads recordings back (tools/difftest.py).  The layout is RIFF/WAVE, chapters 2 and
    3 of Multimedia Programming Interface and Data Specifications 1.0. */
module Wav {
  import opened Bytes
  import opened Segments
  import opened Wrappers

  const RIFF: seq<byte> := [0x52, 0x49, 0x46, 0x46]
  const WAVE: seq<byte> := [0x57, 0x41, 0x56, 0x45]
  const FMT: seq<byte> := [0x66, 0x6d, 0x74, 0x20]
  const DATA: seq<byte> := [0x64, 0x61, 0x74, 0x61]

  type Sample16 = x: int | -32768 <= x < 32768

  datatype Fmt = Fmt(tag: nat, channels: nat, rate: nat, bits: nat)

  // ---- writing ----------------------------------------------------------------------

  /** The body of the format chunk both writers give: PCM, one channel, 16 bits. */
  function FmtBody(rate: word): (b: seq<byte>)
    ensures |b| == 16
  {
    Le16(1) + Le16(1) + Le32(rate) + Le32(rate * 2 % WORD) + Le16(2) + Le16(16)
  }

  /** The 44 bytes before the samples; the sizes are 32-bit sums. */
  function Head(n: word, rate: word): seq<byte>
  {
    RIFF + Le32((36 + n) % WORD) + WAVE + FMT + Le32(16) + FmtBody(rate) + DATA + Le32(n)
  }

  /** The harness writes field by field. */
  method WriteBytes(pcm: seq<byte>, rate: word) returns (f: seq<byte>)
    requires |pcm| < WORD
    ensures f == Head(|pcm|, rate) + pcm
  {
    hide Le32, Le16;
    f := RIFF;
    f := f + Le32((36 + |pcm|) % WORD);
    f := f + WAVE + FMT;
    f := f + Le32(16);
    ghost var before := f;
    f := f + Le16(1);
    f := f + Le16(1);
    f := f + Le32(rate);
    f := f + Le32(rate * 2 % WORD);
    f := f + Le16(2);
    f := f + Le16(16);
    assert f == before + FmtBody(rate);
    f := f + DATA + Le32(|pcm|);
    f := f + pcm;
  }

  function SampleBytes(s: Sample16): (b: seq<byte>)
    ensures |b| == 2
  {
    Le16(if s < 0 then s + 0x1_0000 else s)
  }

  function PcmBytes(pcm: seq<Sample16>): seq<byte>
  {
    if pcm == [] then [] else PcmBytes(pcm[..|pcm| - 1]) + SampleBytes(pcm[|pcm| - 1])
  }

  lemma {:induction false} PcmBytesLength(pcm: seq<Sample16>)
    ensures |PcmBytes(pcm)| == 2 * |pcm|
  {
    if pcm == [] {
    } else {
      PcmBytesLength(pcm[..|pcm| - 1]);
    }
  }

  /** Two bytes as a signed number. */
  function Signed(b: seq<byte>, o: nat): int
    requires o + 2 <= |b|
  {
    if Rd16(b, o) >= 0x8000 then Rd16(b, o) - 0x1_0000 else Rd16(b, o)
  }

  /** Every sample is found in its own two bytes. */
  lemma {:induction false} SamplesStand(pcm: seq<Sample16>, k: nat)
    requires k < |pcm|
    ensures |PcmBytes(pcm)| == 2 * |pcm| && Signed(PcmBytes(pcm), 2 * k) == pcm[k]
  {
    var n := |pcm| - 1;
    LastStands(pcm);
    if k < n {
      SamplesStand(pcm[..n], k);
      assert PcmBytes(pcm)[2 * k] == PcmBytes(pcm[..n])[2 * k];
      assert PcmBytes(pcm)[2 * k + 1] == PcmBytes(pcm[..n])[2 * k + 1];
    }
  }

  lemma {:induction false} LastStands(pcm: seq<Sample16>)
    requires pcm != []
    ensures |PcmBytes(pcm)| == 2 * |pcm| && Signed(PcmBytes(pcm), 2 * (|pcm| - 1)) == pcm[|pcm| - 1]
  {
    var init, last := pcm[..|pcm| - 1], SampleBytes(pcm[|pcm| - 1]);
    if init != [] {
      LastStands(init);
    }
    hide SampleBytes;
    assert |PcmBytes(init)| == 2 * |init|;
    SampleStands(pcm[|pcm| - 1]);
    assert PcmBytes(pcm) == PcmBytes(init) + last;
    assert PcmBytes(pcm)[2 * |init|] == last[0] && PcmBytes(pcm)[2 * |init| + 1] == last[1];
  }

  lemma SampleStands(s: Sample16)
    ensures Signed(SampleBytes(s), 0) == s
  {
  }

  method PutText(h: array<byte>, at: nat, s: seq<byte>)
    requires at + |s| <= h.Length
    modifies h
    ensures h[..at + |s|] == old(h[..at]) + s
  {
    forall i | 0 <= i < |s| {
      h[at + i] := s[i];
    }
  }

  method PutWord(h: array<byte>, at: nat, v: word)
    requires at + 4 <= h.Length
    modifies h
    ensures h[..at + 4] == old(h[..at]) + Le32(v)
  {
    var q1 := v / 256;
    var q2 := q1 / 256;
    h[at] := v % 256;
    h[at + 1] := q1 % 256;
    h[at + 2] := q2 % 256;
    h[at + 3] := q2 / 256;
  }

  /** The player builds the header in place, then writes it and the samples. */
  method WriteSamples(pcm: seq<Sample16>, hz: word) returns (f: seq<byte>)
    ensures f == Head(2 * |pcm| % WORD, hz) + PcmBytes(pcm)
  {
    var data: word := 2 * |pcm| % WORD;
    var h := FillHead(data, hz);
    f := h[..];
    var i := 0;
    while i < |pcm|
      invariant 0 <= i <= |pcm|
      invariant f == Head(data, hz) + PcmBytes(pcm[..i])
    {
      assert pcm[..i + 1][..i] == pcm[..i];
      f := f + SampleBytes(pcm[i]);
      i := i + 1;
    }
    assert pcm[..|pcm|] == pcm;
  }

  method FillFmt(h: array<byte>, hz: word)
    requires h.Length == 44
    modifies h
    ensures h[..36] == old(h[..20]) + FmtBody(hz)
  {
    hide Le32, Le16;
    ghost var before := h[..20];
    PutText(h, 20, Le16(1) + Le16(1));
    PutWord(h, 24, hz);
    PutWord(h, 28, hz * 2 % WORD);
    PutText(h, 32, Le16(2) + Le16(16));
    assert h[..36] == before + FmtBody(hz);
  }

  method FillHead(data: word, hz: word) returns (h: array<byte>)
    ensures fresh(h) && h[..] == Head(data, hz)
  {
    hide Le32, Le16;
    h := new byte[44];
    assert h[..0] == [];
    PutText(h, 0, RIFF);
    PutWord(h, 4, (data + 36) % WORD);
    PutText(h, 8, WAVE + FMT);
    PutWord(h, 16, 16);
    assert h[..20] == RIFF + Le32((36 + data) % WORD) + WAVE + FMT + Le32(16);
    FillFmt(h, hz);
    PutText(h, 36, DATA);
    PutWord(h, 40, data);
    assert h[..] == h[..44];
  }

  // ---- reading ----------------------------------------------------------------------

  /** What comes of reading: the last format seen and the samples, or what is wrong. */
  datatype Parsed = Ok(fmt: Option<Fmt>, pcm: seq<byte>) | NotRiff | NoData | Short

  function FmtAt(d: seq<byte>, at: nat): Fmt
    requires at + 16 <= |d|
  {
    Fmt(Rd16(d, at), Rd16(d, at + 2), Rd32(d, at + 4), Rd16(d, at + 14))
  }

  function Upto(d: seq<byte>, from: nat, size: nat): seq<byte>
    requires from <= |d|
  {
    d[from..if from + size <= |d| then from + size else |d|]
  }

  function WalkFrom(d: seq<byte>, pos: nat, fmt: Option<Fmt>): Parsed
    decreases |d| - pos
  {
    if pos + 8 > |d| then NoData
    else
      var id, size := d[pos..pos + 4], Rd32(d, pos + 4);
      var next := pos + 8 + size + size % 2;
      if id == FMT && size >= 16 then
        if pos + 24 > |d| then Short else WalkFrom(d, next, Some(FmtAt(d, pos + 8)))
      else if id == DATA then Ok(fmt, Upto(d, pos + 8, size))
      else WalkFrom(d, next, fmt)
  }

  function Parse(d: seq<byte>): Parsed
  {
    if |d| < 12 || d[..4] != RIFF || d[8..12] != WAVE then NotRiff else WalkFrom(d, 12, None)
  }

  lemma WalkOver(d: seq<byte>, pos: nat, fmt: Option<Fmt>)
    requires pos + 8 > |d|
    ensures WalkFrom(d, pos, fmt) == NoData
  {
  }

  lemma WalkStep(d: seq<byte>, pos: nat, fmt: Option<Fmt>)
    requires pos + 8 <= |d|
    ensures
      var id, size := d[pos..pos + 4], Rd32(d, pos + 4);
      var next := pos + 8 + size + size % 2;
      WalkFrom(d, pos, fmt)
      == if id == FMT && size >= 16 then
           if pos + 24 > |d| then Short else WalkFrom(d, next, Some(FmtAt(d, pos + 8)))
         else if id == DATA then Ok(fmt, Upto(d, pos + 8, size))
         else WalkFrom(d, next, fmt)
  {
    hide Rd32, FmtAt, Upto;
  }

  method WavData(d: seq<byte>) returns (r: Parsed)
    ensures r == Parse(d)
  {
    if |d| < 12 || d[..4] != RIFF || d[8..12] != WAVE {
      return NotRiff;
    }
    hide WalkFrom, Rd32, FmtAt, Upto;
    var fmt: Option<Fmt> := None;
    var pos := 12;
    while pos + 8 <= |d|
      invariant pos >= 12
      invariant WalkFrom(d, pos, fmt) == Parse(d)
      decreases |d| - pos
    {
      WalkStep(d, pos, fmt);
      var id, size := d[pos..pos + 4], Rd32(d, pos + 4);
      if id == FMT && size >= 16 {
        if pos + 24 > |d| {
          return Short;
        }
        fmt := Some(FmtAt(d, pos + 8));
      } else if id == DATA {
        return Ok(fmt, Upto(d, pos + 8, size));
      }
      pos := pos + 8 + size + size % 2;
    }
    WalkOver(d, pos, fmt);
    return NoData;
  }

  // ---- chunks -----------------------------------------------------------------------

  datatype Chunk = Chunk(id: seq<byte>, body: seq<byte>)

  predicate WellFormed(c: Chunk)
  {
    |c.id| == 4 && |c.body| < WORD
  }

  predicate AllWellFormed(chunks: seq<Chunk>)
  {
    forall i :: 0 <= i < |chunks| ==> WellFormed(chunks[i]) && chunks[i].id != DATA
  }

  /** A chunk is padded to an even length. */
  function ChunkBytes(c: Chunk): seq<byte>
    requires WellFormed(c)
  {
    c.id + Le32(|c.body|) + c.body + if |c.body| % 2 == 1 then [0] else []
  }

  function ChunksBytes(chunks: seq<Chunk>): seq<byte>
    requires AllWellFormed(chunks)
  {
    if chunks == [] then [] else ChunkBytes(chunks[0]) + ChunksBytes(chunks[1..])
  }

  /** The last format among the chunks, if any tells one. */
  function FmtOf(chunks: seq<Chunk>, fmt: Option<Fmt>): Option<Fmt>
  {
    if chunks == [] then fmt
    else if chunks[0].id == FMT && |chunks[0].body| >= 16 then FmtOf(chunks[1..], Some(FmtAt(chunks[0].body, 0)))
    else FmtOf(chunks[1..], fmt)
  }

  lemma FmtAtSeg(d: seq<byte>, at: nat, body: seq<byte>)
    requires Seg(d, at, body) && |body| >= 16
    ensures FmtAt(d, at) == FmtAt(body, 0)
  {
    assert forall k :: 0 <= k < |body| ==> d[at + k] == d[at..at + |body|][k] == body[k];
  }

  lemma ChunkParts(d: seq<byte>, pos: nat, c: Chunk)
    requires WellFormed(c) && Seg(d, pos, ChunkBytes(c))
    ensures pos + 8 + |c.body| + |c.body| % 2 <= |d| && |ChunkBytes(c)| == 8 + |c.body| + |c.body| % 2
    ensures d[pos..pos + 4] == c.id && Rd32(d, pos + 4) == |c.body| && Seg(d, pos + 8, c.body)
  {
    hide Le32;
    var pad: seq<byte> := if |c.body| % 2 == 1 then [0] else [];
    SegSplit(d, pos, c.id + Le32(|c.body|) + c.body, pad);
    SegSplit(d, pos, c.id + Le32(|c.body|), c.body);
    SegSplit(d, pos, c.id, Le32(|c.body|));
    SegRd32(d, pos + 4, |c.body|);
  }

  lemma WalkNext(d: seq<byte>, pos: nat, fmt: Option<Fmt>)
    requires pos + 8 <= |d| && d[pos..pos + 4] != DATA
    requires d[pos..pos + 4] == FMT && Rd32(d, pos + 4) >= 16 ==> pos + 24 <= |d|
    ensures
      var id, size := d[pos..pos + 4], Rd32(d, pos + 4);
      WalkFrom(d, pos, fmt)
      == WalkFrom(d, pos + 8 + size + size % 2, if id == FMT && size >= 16 then Some(FmtAt(d, pos + 8)) else fmt)
  {
    hide FmtAt, Rd32, WalkFrom;
    WalkStep(d, pos, fmt);
  }

  lemma FmtOfOne(c: Chunk, fmt: Option<Fmt>)
    ensures FmtOf([c], fmt) == if c.id == FMT && |c.body| >= 16 then Some(FmtAt(c.body, 0)) else fmt
  {
    assert [c][1..] == [];
  }

  /** One chunk that is not data is passed over, its format kept if it has one. */
  lemma WalksChunk(d: seq<byte>, pos: nat, c: Chunk, fmt: Option<Fmt>)
    requires WellFormed(c) && c.id != DATA && Seg(d, pos, ChunkBytes(c))
    ensures WalkFrom(d, pos, fmt) == WalkFrom(d, pos + |ChunkBytes(c)|, FmtOf([c], fmt))
  {
    hide ChunkBytes, Le32, Rd32, FmtAt, FmtOf, WalkFrom, Seg;
    ChunkParts(d, pos, c);
    if c.id == FMT && |c.body| >= 16 {
      FmtAtSeg(d, pos + 8, c.body);
    }
    WalkNext(d, pos, fmt);
    FmtOfOne(c, fmt);
  }

  lemma FmtOfNext(chunks: seq<Chunk>, fmt: Option<Fmt>)
    requires chunks != []
    ensures FmtOf(chunks, fmt) == FmtOf(chunks[1..], FmtOf([chunks[0]], fmt))
  {
    assert [chunks[0]][1..] == [];
  }

  /** The walk passes every chunk that is not data, keeping the last format. */
  lemma {:induction false} WalksChunks(d: seq<byte>, pos: nat, chunks: seq<Chunk>, fmt: Option<Fmt>)
    requires AllWellFormed(chunks) && Seg(d, pos, ChunksBytes(chunks))
    ensures WalkFrom(d, pos, fmt) == WalkFrom(d, pos + |ChunksBytes(chunks)|, FmtOf(chunks, fmt))
    decreases |chunks|
  {
    hide ChunkBytes, Seg, WalkFrom;
    if chunks == [] {
    } else {
      var c := chunks[0];
      SegSplit(d, pos, ChunkBytes(c), ChunksBytes(chunks[1..]));
      WalksChunk(d, pos, c, fmt);
      FmtOfNext(chunks, fmt);
      WalksChunks(d, pos + |ChunkBytes(c)|, chunks[1..], FmtOf([c], fmt));
    }
  }

  /** A file made of a header, chunks, and the samples, with anything after them. */
  function FileOf(size: word, chunks: seq<Chunk>, pcm: seq<byte>, rest: seq<byte>): seq<byte>
    requires AllWellFormed(chunks) && |pcm| < WORD
  {
    RIFF + Le32(size) + WAVE + ChunksBytes(chunks) + (DATA + Le32(|pcm|) + pcm + rest)
  }

  lemma FileParts(size: word, chunks: seq<Chunk>, pcm: seq<byte>, rest: seq<byte>)
    requires AllWellFormed(chunks) && |pcm| < WORD
    ensures
      var d := FileOf(size, chunks, pcm, rest);
      && |d| >= 12 && d[..4] == RIFF && d[8..12] == WAVE && Seg(d, 12, ChunksBytes(chunks))
      && Seg(d, 12 + |ChunksBytes(chunks)|, DATA + Le32(|pcm|) + pcm + rest)
  {
    hide Le32, ChunksBytes;
    var d := FileOf(size, chunks, pcm, rest);
    var head, body, tail := RIFF + Le32(size) + WAVE, ChunksBytes(chunks), DATA + Le32(|pcm|) + pcm + rest;
    assert d == head + (body + tail);
    assert d[..12] == head;
    assert d[..4] == head[..4] == RIFF && d[8..12] == head[8..12] == WAVE;
    SegAppended(head, body + tail);
    SegSplit(d, 12, body, tail);
  }

  /** Whatever chunks come before the samples, reading gives the last format among them
      and exactly the samples. */
  lemma ParsesFile(size: word, chunks: seq<Chunk>, pcm: seq<byte>, rest: seq<byte>)
    requires AllWellFormed(chunks) && |pcm| < WORD
    ensures Parse(FileOf(size, chunks, pcm, rest)) == Ok(FmtOf(chunks, None), pcm)
  {
    hide Le32, ChunksBytes, FileOf, WalkFrom, Seg, FmtOf;
    var d := FileOf(size, chunks, pcm, rest);
    FileParts(size, chunks, pcm, rest);
    WalksChunks(d, 12, chunks, None);
    ParsesData(d, 12 + |ChunksBytes(chunks)|, pcm, rest, FmtOf(chunks, None));
  }

  lemma ParsesData(d: seq<byte>, at: nat, pcm: seq<byte>, rest: seq<byte>, fmt: Option<Fmt>)
    requires |pcm| < WORD && Seg(d, at, DATA + Le32(|pcm|) + pcm + rest)
    ensures WalkFrom(d, at, fmt) == Ok(fmt, pcm)
  {
    hide Le32;
    SegSplit(d, at, DATA + Le32(|pcm|) + pcm, rest);
    SegSplit(d, at, DATA + Le32(|pcm|), pcm);
    SegSplit(d, at, DATA, Le32(|pcm|));
    SegRd32(d, at + 4, |pcm|);
  }

  // ---- round trips ------------------------------------------------------------------

  lemma HeadIsFile(n: word, rate: word, pcm: seq<byte>, rest: seq<byte>)
    requires |pcm| == n
    ensures Head(n, rate) + (pcm + rest) == FileOf((36 + n) % WORD, [Chunk(FMT, FmtBody(rate))], pcm, rest)
  {
    hide Le32, FmtBody;
    var c := Chunk(FMT, FmtBody(rate));
    assert ChunksBytes([c]) == FMT + Le32(16) + FmtBody(rate);
  }

  lemma FmtBodyRead(rate: word)
    ensures FmtAt(FmtBody(rate), 0) == Fmt(1, 1, rate, 16)
  {
    var b := FmtBody(rate);
    var s3 := Le16(1) + Le16(1) + Le32(rate);
    SegAppended(Le16(1) + Le16(1) + Le32(rate) + Le32(rate * 2 % WORD) + Le16(2), Le16(16));
    SegRd16(b, 14, 16);
    SegAppended(Le16(1) + Le16(1), Le32(rate));
    SegPrefix(s3, b, 4, Le32(rate));
    SegRd32(b, 4, rate);
  }

  lemma WordAlone(h: seq<byte>, o: nat)
    requires o + 4 <= |h|
    ensures Rd32(h, o) == Rd32(h[o..o + 4], 0)
    ensures Rd16(h, o) == Rd16(h[o..o + 2], 0)
  {
  }

  /** The format's own numbers agree: so many bytes to a sample of every channel, and so
      many of those to a second. */
  lemma FmtConsistent(rate: word)
    ensures
      var b := FmtBody(rate);
      var channels, align, bits := Rd16(b, 2), Rd16(b, 12), Rd16(b, 14);
      && Rd16(b, 0) == 1 && align * 8 == channels * bits
      && Rd32(b, 4) == rate && Rd32(b, 8) == rate * align % WORD
  {
    var b := FmtBody(rate);
    hide Le32, Le16;
    assert b[0..2] == Le16(1) && b[2..4] == Le16(1) && b[4..8] == Le32(rate);
    assert b[8..12] == Le32(rate * 2 % WORD) && b[12..14] == Le16(2) && b[14..16] == Le16(16);
    WordAlone(b, 0);
    WordAlone(b, 2);
    WordAlone(b, 4);
    WordAlone(b, 8);
    WordAlone(b, 12);
    assert Rd16(b, 14) == Rd16(b[14..16], 0);
  }

  /** And so do the header's: the file's length less eight, the format's length, and the
      length of the samples. */
  lemma HeadConsistent(n: word, rate: word)
    ensures
      var h := Head(n, rate);
      && |h| == 44 && Rd32(h, 4) == (|h| + n - 8) % WORD && Rd32(h, 16) == |FmtBody(rate)| && Rd32(h, 40) == n
      && h[20..36] == FmtBody(rate)
  {
    var h := Head(n, rate);
    hide Le32, FmtBody;
    assert h[4..8] == Le32((36 + n) % WORD);
    assert h[16..20] == Le32(16);
    assert h[40..44] == Le32(n);
    WordAlone(h, 4);
    WordAlone(h, 16);
    WordAlone(h, 40);
  }

  /** As many samples are read as the header says. */
  lemma HeadSaysHowMuch(n: word, rate: word, pcm: seq<byte>, rest: seq<byte>)
    requires |pcm| == n
    ensures Parse(Head(n, rate) + (pcm + rest)) == Ok(Some(Fmt(1, 1, rate, 16)), pcm)
  {
    hide Parse, Head, FileOf;
    HeadIsFile(n, rate, pcm, rest);
    FmtBodyRead(rate);
    ParsesFile((36 + n) % WORD, [Chunk(FMT, FmtBody(rate))], pcm, rest);
  }

  /** What the harness writes is read back: its format, and the same bytes. */
  lemma WrittenIsRead(pcm: seq<byte>, rate: word)
    requires |pcm| < WORD
    ensures Parse(Head(|pcm|, rate) + pcm) == Ok(Some(Fmt(1, 1, rate, 16)), pcm)
  {
    hide Parse, Head;
    HeadSaysHowMuch(|pcm|, rate, pcm, []);
    assert pcm + [] == pcm;
  }

  /** What the player writes is read back with its format; the samples are all there
      exactly when their length fits in 32 bits, and otherwise only as many as the
      length left over says. */
  lemma SamplesAreReadIff(pcm: seq<Sample16>, hz: word)
    ensures 2 * |pcm| % WORD <= |PcmBytes(pcm)|
    ensures Parse(Head(2 * |pcm| % WORD, hz) + PcmBytes(pcm))
            == Ok(Some(Fmt(1, 1, hz, 16)), PcmBytes(pcm)[..2 * |pcm| % WORD])
    ensures Parse(Head(2 * |pcm| % WORD, hz) + PcmBytes(pcm)) == Ok(Some(Fmt(1, 1, hz, 16)), PcmBytes(pcm))
            <==> 2 * |pcm| < WORD
  {
    hide Parse, Head, PcmBytes;
    PcmBytesLength(pcm);
    ModSmallIff(2 * |pcm|);
    var b, n := PcmBytes(pcm), 2 * |pcm| % WORD;
    HeadSaysHowMuch(n, hz, b[..n], b[n..]);
    assert b[..n] + b[n..] == b;
  }

  lemma ModSmallIff(n: nat)
    ensures n % WORD <= n && (n % WORD == n <==> n < WORD)
  {
  }

  lemma {:induction false} FmtOfInserted(a: seq<Chunk>, c: Chunk, b: seq<Chunk>, fmt: Option<Fmt>)
    requires c.id != FMT
    ensures FmtOf(a + [c] + b, fmt) == FmtOf(a + b, fmt)
    decreases |a|
  {
    if a == [] {
      assert ([] + [c] + b)[1..] == b && [] + b == b;
    } else {
      assert (a + [c] + b)[1..] == a[1..] + [c] + b && (a + b)[1..] == a[1..] + b;
      FmtOfInserted(a[1..], c, b, if a[0].id == FMT && |a[0].body| >= 16 then Some(FmtAt(a[0].body, 0)) else fmt);
    }
  }

  /** A chunk of any other kind put in anywhere before the samples changes nothing. */
  lemma InsertionHarmless(size: word, other: word, a: seq<Chunk>, c: Chunk, b: seq<Chunk>, pcm: seq<byte>,
                          rest: seq<byte>)
    requires AllWellFormed(a) && AllWellFormed(b) && WellFormed(c) && c.id != DATA && c.id != FMT && |pcm| < WORD
    ensures AllWellFormed(a + [c] + b) && AllWellFormed(a + b)
    ensures Parse(FileOf(other, a + [c] + b, pcm, rest)) == Parse(FileOf(size, a + b, pcm, rest))
  {
    hide Parse, FileOf;
    ParsesFile(other, a + [c] + b, pcm, rest);
    ParsesFile(size, a + b, pcm, rest);
    FmtOfInserted(a, c, b, None);
  }

  // ---- the export buffer ------------------------------------------------------------

  /** The samples of an export, grown as they arrive (`pcm_append`).  Whether the heap
      grants a size is a parameter. */
  class Pcm {
    var p: array<Sample16>
    var len: nat
    const grants: nat -> bool

    ghost predicate Valid()
      reads this
    {
      len <= p.Length
    }

    function Contents(): seq<Sample16>
      requires Valid()
      reads this, p
    {
      p[..len]
    }

    constructor (grants: nat -> bool)
      ensures Valid() && Contents() == [] && fresh(p)
    {
      this.grants := grants;
      p := new Sample16[0];
      len := 0;
    }

    /** All of the samples are taken, or, when the heap refuses, none. */
    method Append(s: seq<Sample16>) returns (ghost kept: bool)
      requires Valid()
      modifies this, p
      ensures Valid() && (p == old(p) || fresh(p))
      ensures Contents() == if kept then old(Contents()) + s else old(Contents())
      ensures !kept ==> old(len) + |s| > old(p.Length) && exists size: nat :: size >= old(len) + |s| && !grants(size)
    {
      if len + |s| > p.Length {
        var cap := if p.Length != 0 then p.Length * 2 else 0x1_0000;
        while cap < len + |s|
          invariant cap > 0 && cap >= p.Length
          decreases len + |s| - cap
        {
          cap := cap * 2;
        }
        if !grants(cap) {
          return false;
        }
        var q := new Sample16[cap];
        forall i | 0 <= i < p.Length {
          q[i] := p[i];
        }
        p := q;
      }
      forall i | 0 <= i < |s| {
        p[len + i] := s[i];
      }
      len := len + |s|;
      kept := true;
    }
  }
}
