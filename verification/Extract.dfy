/** Lifting the data out of a DLL once (tools/extract_data.py), and the image that what
    was lifted presents (tools/tvdata.py). */
module Extract {
  import opened Wrappers
  import opened Bytes
  import opened Layout
  import opened Relinker

  /** The data sections whole, then each sized datum outside what is there already. */
  function ChunkSpans(secs: seq<Section>, annots: seq<Symbol>): (r: seq<Span>)
    ensures Proper(r)
  {
    if annots == [] then SectionSpans(secs)
    else
      var spans := ChunkSpans(secs, annots[..|annots| - 1]);
      var a := annots[|annots| - 1];
      if a.isFunc || Holds(spans, a.addr) || a.size.None? then spans
      else spans + [Span(a.addr, a.addr + a.size.value)]
  }

  function ChunksOf(secs: seq<Section>, annots: seq<Symbol>): seq<Span>
  {
    Merged(Sort(ChunkSpans(secs, annots)))
  }

  lemma ChunksMerge(secs: seq<Section>, annots: seq<Symbol>)
    ensures Merges(Sort(ChunkSpans(secs, annots)), ChunksOf(secs, annots))
    ensures forall s :: s in Sort(ChunkSpans(secs, annots)) <==> s in ChunkSpans(secs, annots)
  {
    var spans := ChunkSpans(secs, annots);
    SortSorts(spans);
    SortProper(spans);
    MergedMerges(Sort(spans));
  }

  // ---- the extraction ----------------------------------------------------------------

  /** What is committed: the chunks with their bytes, and the relocations inside them. */
  datatype TvData = TvData(base: nat, sections: seq<Section>, chunks: seq<Chunk>, relocs: set<nat>)

  datatype Chunk = Chunk(va: nat, data: seq<byte>)

  predicate InSomeChunk(chunks: seq<Span>, r: nat)
  {
    exists i :: 0 <= i < |chunks| && chunks[i].lo <= r && r + 4 <= chunks[i].hi
  }

  predicate Mapped(img: Image, chunks: seq<Span>)
  {
    forall i :: 0 <= i < |chunks| ==>
      img.base <= chunks[i].lo <= chunks[i].hi <= img.base + |img.mem|
  }

  function DataSections(secs: seq<Section>): seq<Section>
  {
    if secs == [] then []
    else
      var rest := DataSections(secs[..|secs| - 1]);
      if IsData(secs[|secs| - 1]) then rest + [secs[|secs| - 1]] else rest
  }

  predicate ChunksHold(img: Image, spans: seq<Span>, chunks: seq<Chunk>)
    requires Mapped(img, spans)
  {
    && |chunks| == |spans|
    && forall i :: 0 <= i < |spans| ==> chunks[i] == ChunkOf(img, spans[i])
  }

  function ChunkOf(img: Image, s: Span): (c: Chunk)
    requires img.base <= s.lo <= s.hi <= img.base + |img.mem|
    ensures c.va == s.lo && |c.data| == s.hi - s.lo
  {
    Chunk(s.lo, img.mem[s.lo - img.base..s.hi - img.base])
  }

  /** What the extraction promises of its result. */
  ghost predicate Extracted(img: Image, annots: seq<Symbol>, t: TvData)
  {
    && Mapped(img, ChunksOf(img.sections, annots))
    && t.base == img.base && t.sections == DataSections(img.sections)
    && ChunksHold(img, ChunksOf(img.sections, annots), t.chunks)
    && (forall r :: r in t.relocs <==> r in img.relocs && InSomeChunk(ChunksOf(img.sections, annots), r))
  }

  /** What the extracted file holds, chunk by chunk: the image's own bytes, the sections of
      the two names, and the relocations that lie whole in a chunk. */
  lemma ExtractedIs(img: Image, annots: seq<Symbol>, t: TvData)
    requires Extracted(img, annots, t)
    ensures forall i, k :: 0 <= i < |t.chunks| && 0 <= k < |t.chunks[i].data| ==>
              var va := t.chunks[i].va + k;
              img.base <= va < img.base + |img.mem| && t.chunks[i].data[k] == ByteAt(img, va)
    ensures forall r: nat :: r in t.relocs <==>
              r in img.relocs
              && exists i :: 0 <= i < |t.chunks| && t.chunks[i].va <= r && r + 4 <= t.chunks[i].va + |t.chunks[i].data|
    ensures forall s :: s in t.sections <==> s in img.sections && s.name in [".rdata", ".data"]
  {
    hide ChunksOf, Rd32;
    var spans := ChunksOf(img.sections, annots);
    assert forall i :: 0 <= i < |spans| ==> t.chunks[i] == ChunkOf(img, spans[i]);
    forall r: nat
      ensures InSomeChunk(spans, r) <==>
                exists i :: 0 <= i < |t.chunks| && t.chunks[i].va <= r && r + 4 <= t.chunks[i].va + |t.chunks[i].data|
    {
      if i :| 0 <= i < |spans| && spans[i].lo <= r && r + 4 <= spans[i].hi {
        assert t.chunks[i].va <= r;
      }
    }
    forall s
      ensures s in t.sections <==> s in img.sections && s.name in [".rdata", ".data"]
    {
      DataSectionsAre(img.sections, s);
    }
  }

  lemma {:induction false} DataSectionsAre(secs: seq<Section>, s: Section)
    ensures s in DataSections(secs) <==> s in secs && s.name in [".rdata", ".data"]
  {
    if secs == [] {
    } else {
      DataSectionsAre(secs[..|secs| - 1], s);
      assert secs == secs[..|secs| - 1] + [secs[|secs| - 1]];
    }
  }

  /** The annotations come in the order of their names. */
  method Extract(img: Image, annots: seq<Symbol>) returns (t: TvData)
    requires Mapped(img, ChunksOf(img.sections, annots))
    ensures Extracted(img, annots, t)
  {
    var spans := CollectChunkSpans(img.sections, annots);
    var sections := KeepDataSections(img.sections);
    SortSorts(spans);
    SortProper(spans);
    var chunks := Merge(Sort(spans));
    var relocs := KeepRelocs(img.relocs, chunks);
    var blobs := CutChunks(img, chunks);
    t := TvData(img.base, sections, blobs, relocs);
  }

  method KeepRelocs(all: set<nat>, chunks: seq<Span>) returns (relocs: set<nat>)
    ensures forall r :: r in relocs <==> r in all && InSomeChunk(chunks, r)
  {
    relocs := {};
    var rest := all;
    while rest != {}
      invariant rest <= all
      invariant forall r :: r in relocs <==> r in all - rest && InSomeChunk(chunks, r)
      decreases |rest|
    {
      var r :| r in rest;
      rest := rest - {r};
      if InSomeChunk(chunks, r) {
        relocs := relocs + {r};
      }
    }
  }

  method CutChunks(img: Image, spans: seq<Span>) returns (chunks: seq<Chunk>)
    requires Mapped(img, spans)
    ensures ChunksHold(img, spans, chunks)
  {
    chunks := [];
    var i := 0;
    while i < |spans|
      invariant 0 <= i <= |spans| && |chunks| == i
      invariant forall k :: 0 <= k < i ==> chunks[k] == ChunkOf(img, spans[k])
    {
      chunks := chunks + [ChunkOf(img, spans[i])];
      i := i + 1;
    }
  }

  method CollectChunkSpans(secs: seq<Section>, annots: seq<Symbol>) returns (spans: seq<Span>)
    ensures spans == ChunkSpans(secs, annots)
  {
    spans := [];
    var i := 0;
    while i < |secs|
      invariant 0 <= i <= |secs| && spans == SectionSpans(secs[..i])
    {
      assert secs[..i + 1][..i] == secs[..i];
      if IsData(secs[i]) {
        spans := spans + [Span(secs[i].va, secs[i].va + secs[i].vsize)];
      }
      i := i + 1;
    }
    assert secs[..i] == secs;
    i := 0;
    while i < |annots|
      invariant 0 <= i <= |annots| && spans == ChunkSpans(secs, annots[..i])
    {
      assert annots[..i + 1][..i] == annots[..i];
      var a := annots[i];
      if !a.isFunc && !Holds(spans, a.addr) && a.size.Some? {
        spans := spans + [Span(a.addr, a.addr + a.size.value)];
      }
      i := i + 1;
    }
    assert annots[..i] == annots;
  }

  method KeepDataSections(secs: seq<Section>) returns (kept: seq<Section>)
    ensures kept == DataSections(secs)
  {
    kept := [];
    var i := 0;
    while i < |secs|
      invariant 0 <= i <= |secs| && kept == DataSections(secs[..i])
    {
      assert secs[..i + 1][..i] == secs[..i];
      if IsData(secs[i]) {
        kept := kept + [secs[i]];
      }
      i := i + 1;
    }
    assert secs[..i] == secs;
  }

  // ---- reading it back -----------------------------------------------------------------

  /** The memory `TvData` stands in with: zeros, and over them each chunk in turn. */
  function Laid(base: nat, size: nat, chunks: seq<Chunk>, n: nat): (mem: seq<byte>)
    requires ChunksFit(base, size, chunks) && n <= |chunks|
    ensures |mem| == size
  {
    if n == 0 then seq(size, i => 0)
    else
      var mem := Laid(base, size, chunks, n - 1);
      var c := chunks[n - 1];
      mem[..c.va - base] + c.data + mem[c.va - base + |c.data|..]
  }

  predicate ChunksFit(base: nat, size: nat, chunks: seq<Chunk>)
  {
    forall i :: 0 <= i < |chunks| ==> base <= chunks[i].va && chunks[i].va + |chunks[i].data| <= base + size
  }

  function Top(chunks: seq<Chunk>): nat
  {
    if chunks == [] then 0
    else
      var top := Top(chunks[..|chunks| - 1]);
      var end := chunks[|chunks| - 1].va + |chunks[|chunks| - 1].data|;
      if end > top then end else top
  }

  lemma {:induction false} TopBounds(chunks: seq<Chunk>, i: nat)
    requires i < |chunks|
    ensures chunks[i].va + |chunks[i].data| <= Top(chunks)
  {
    if i == |chunks| - 1 {
    } else {
      TopBounds(chunks[..|chunks| - 1], i);
    }
  }

  lemma AllFit(base: nat, chunks: seq<Chunk>)
    requires chunks != [] && forall i :: 0 <= i < |chunks| ==> base <= chunks[i].va
    ensures base <= Top(chunks) && ChunksFit(base, Top(chunks) - base, chunks)
  {
    TopBounds(chunks, 0);
    forall i | 0 <= i < |chunks|
      ensures chunks[i].va + |chunks[i].data| <= Top(chunks)
    {
      TopBounds(chunks, i);
    }
  }

  /** The image `TvData` presents; at least one chunk, as the size is taken from the
      highest one. */
  function Present(t: TvData): Image
    requires t.chunks != [] && forall i :: 0 <= i < |t.chunks| ==> t.base <= t.chunks[i].va
  {
    AllFit(t.base, t.chunks);
    Image(t.base, Laid(t.base, Top(t.chunks) - t.base, t.chunks, |t.chunks|), t.sections, t.relocs)
  }

  method Read(t: TvData) returns (img: Image)
    requires t.chunks != [] && forall i :: 0 <= i < |t.chunks| ==> t.base <= t.chunks[i].va
    ensures img == Present(t)
  {
    var top := FindTop(t.chunks);
    AllFit(t.base, t.chunks);
    var mem := LayAll(t.base, top - t.base, t.chunks);
    img := Image(t.base, mem, t.sections, t.relocs);
  }

  method FindTop(chunks: seq<Chunk>) returns (top: nat)
    ensures top == Top(chunks)
  {
    top := 0;
    var i := 0;
    while i < |chunks|
      invariant 0 <= i <= |chunks| && top == Top(chunks[..i])
    {
      assert chunks[..i + 1][..i] == chunks[..i];
      var end := chunks[i].va + |chunks[i].data|;
      top := if end > top then end else top;
      i := i + 1;
    }
    assert chunks[..i] == chunks;
  }

  method LayAll(base: nat, size: nat, chunks: seq<Chunk>) returns (mem: seq<byte>)
    requires ChunksFit(base, size, chunks)
    ensures mem == Laid(base, size, chunks, |chunks|)
  {
    mem := seq(size, k => 0);
    var i := 0;
    while i < |chunks|
      invariant 0 <= i <= |chunks| && mem == Laid(base, size, chunks, i)
    {
      var (at, n) := (chunks[i].va - base, |chunks[i].data|);
      mem := mem[..at] + chunks[i].data + mem[at + n..];
      i := i + 1;
    }
  }
}
