/** Generating from what was lifted out of a DLL (tools/extract_data.py) against
    generating from the DLL itself (tools/gen_data.py): exactly when they agree.

    The condition is on the sections and annotations alone: every byte of the annotated
    data is in a data section or in a datum lifted by itself.  Then every image gives
    every build the same output either way; otherwise some image and build do not. */
module Interchange {
  import opened Wrappers
  import opened Bytes
  import opened Layout
  import opened Relinker
  import opened Extract
  import RelinkEmit
  import TvRef

  // ---- which data are lifted ---------------------------------------------------------

  predicate Datum(a: Symbol)
  {
    !a.isFunc && a.size.Some?
  }

  function SpanOf(a: Symbol): Span
    requires a.size.Some?
  {
    Span(a.addr, a.addr + a.size.value)
  }

  /** Datum `j` is lifted by itself: it starts in no data section, and in no datum lifted
      before it. */
  predicate Taken(secs: seq<Section>, annots: seq<Symbol>, j: nat)
    requires j < |annots|
    decreases j
  {
    && Datum(annots[j]) && !Holds(SectionSpans(secs), annots[j].addr)
    && forall k :: 0 <= k < j && Datum(annots[k]) && SpanOf(annots[k]).Has(annots[j].addr) ==> !Taken(secs, annots, k)
  }

  predicate TakenAt(secs: seq<Section>, annots: seq<Symbol>, k: nat, va: nat)
    requires k < |annots|
  {
    Taken(secs, annots, k) && SpanOf(annots[k]).Has(va)
  }

  predicate Reached(secs: seq<Section>, annots: seq<Symbol>, va: nat)
  {
    Holds(SectionSpans(secs), va) || exists k :: 0 <= k < |annots| && TakenAt(secs, annots, k, va)
  }

  /** Each byte of a datum that starts outside the data sections is in one of them or in
      a datum lifted by itself.  It can only fail for a datum that starts in one lifted
      before it and reaches past its end. */
  ghost predicate Covered(secs: seq<Section>, annots: seq<Symbol>)
  {
    forall j, va :: 0 <= j < |annots| && OwnByte(secs, annots[j], va) ==> Reached(secs, annots, va)
  }

  predicate OwnByte(secs: seq<Section>, a: Symbol, va: nat)
  {
    Datum(a) && !Holds(SectionSpans(secs), a.addr) && SpanOf(a).Has(va)
  }

  lemma {:induction false} TakenEarly(secs: seq<Section>, annots: seq<Symbol>, n: nat, j: nat)
    requires j < n <= |annots|
    ensures Taken(secs, annots[..n], j) == Taken(secs, annots, j)
    decreases j
  {
    forall k | 0 <= k < j
      ensures Taken(secs, annots[..n], k) == Taken(secs, annots, k)
    {
      TakenEarly(secs, annots, n, k);
    }
  }

  lemma HoldsOneMore(spans: seq<Span>, s: Span, va: nat)
    ensures Holds(spans + [s], va) <==> Holds(spans, va) || s.Has(va)
  {
    var more := spans + [s];
    if Holds(spans, va) {
      var i :| 0 <= i < |spans| && spans[i].Has(va);
      assert more[i].Has(va);
    }
    if s.Has(va) {
      assert more[|spans|].Has(va);
    }
  }

  /** What the extraction's spans hold, said of the annotations. */
  lemma {:induction false} HeldIffReached(secs: seq<Section>, annots: seq<Symbol>, va: nat)
    ensures Holds(ChunkSpans(secs, annots), va) <==> Reached(secs, annots, va)
    decreases |annots|
  {
    hide Taken;
    if annots == [] {
    } else {
      var n := |annots| - 1;
      var init, a := annots[..n], annots[n];
      HeldIffReached(secs, init, va);
      HeldIffReached(secs, init, a.addr);
      forall x: nat
        ensures Reached(secs, annots, x) <==> Reached(secs, init, x) || TakenAt(secs, annots, n, x)
      {
        ReachedOneMore(secs, annots, x);
      }
      TakenLastIff(secs, annots);
      if Taken(secs, annots, n) {
        HoldsOneMore(ChunkSpans(secs, init), SpanOf(a), va);
      }
    }
  }

  lemma ReachedOneMore(secs: seq<Section>, annots: seq<Symbol>, va: nat)
    requires annots != []
    ensures Reached(secs, annots, va)
            <==> Reached(secs, annots[..|annots| - 1], va) || TakenAt(secs, annots, |annots| - 1, va)
  {
    hide Taken;
    var n := |annots| - 1;
    forall k | 0 <= k < n
      ensures TakenAt(secs, annots[..n], k, va) == TakenAt(secs, annots, k, va)
    {
      TakenEarly(secs, annots, n, k);
    }
  }

  /** The last datum is lifted by itself exactly when it starts outside what is reached
      before it. */
  lemma TakenLastIff(secs: seq<Section>, annots: seq<Symbol>)
    requires annots != []
    ensures Taken(secs, annots, |annots| - 1)
            <==> Datum(annots[|annots| - 1]) && !Reached(secs, annots[..|annots| - 1], annots[|annots| - 1].addr)
  {
    var n := |annots| - 1;
    forall k | 0 <= k < n
      ensures Taken(secs, annots[..n], k) == Taken(secs, annots, k)
    {
      TakenEarly(secs, annots, n, k);
    }
    if Datum(annots[n]) && !Reached(secs, annots[..n], annots[n].addr) {
      forall k | 0 <= k < n && Datum(annots[k]) && SpanOf(annots[k]).Has(annots[n].addr)
        ensures !Taken(secs, annots, k)
      {
        assert !TakenAt(secs, annots[..n], k, annots[n].addr);
      }
    } else if Datum(annots[n]) && !Holds(SectionSpans(secs), annots[n].addr) {
      var k :| 0 <= k < n && TakenAt(secs, annots[..n], k, annots[n].addr);
      assert Taken(secs, annots, k);
    }
  }

  // ---- whole data --------------------------------------------------------------------

  predicate InsideSome(chunks: seq<Span>, s: Span)
  {
    exists i :: 0 <= i < |chunks| && s.Inside(chunks[i])
  }

  /** Every sized datum outside the data sections lies whole in one chunk. */
  ghost predicate Whole(secs: seq<Section>, annots: seq<Symbol>)
  {
    forall a :: a in annots ==> WholeAt(secs, annots, a)
  }

  predicate WholeAt(secs: seq<Section>, annots: seq<Symbol>, a: Symbol)
  {
    Datum(a) && !Holds(SectionSpans(secs), a.addr) ==> InsideSome(ChunksOf(secs, annots), SpanOf(a))
  }

  lemma ChunksHoldIff(secs: seq<Section>, annots: seq<Symbol>, va: nat)
    ensures Holds(ChunksOf(secs, annots), va) <==> Reached(secs, annots, va)
  {
    ChunksMerge(secs, annots);
    var spans := ChunkSpans(secs, annots);
    SameHeld(Sort(spans), spans, va);
    MergesHolds(Sort(spans), ChunksOf(secs, annots), va);
    HeldIffReached(secs, annots, va);
  }

  lemma SameHeld(s: seq<Span>, t: seq<Span>, va: nat)
    requires forall x :: x in s <==> x in t
    ensures Holds(s, va) <==> Holds(t, va)
  {
    if Holds(s, va) {
      var i :| 0 <= i < |s| && s[i].Has(va);
      assert s[i] in t;
    }
    if Holds(t, va) {
      var i :| 0 <= i < |t| && t[i].Has(va);
      assert t[i] in s;
    }
  }

  /** A span that is not empty, of which every byte is in some chunk, is in one chunk. */
  lemma HeldInside(chunks: seq<Span>, s: Span)
    requires Apart(chunks) && s.lo < s.hi && forall va :: s.Has(va) ==> Holds(chunks, va)
    ensures InsideSome(chunks, s)
  {
    assert s.Has(s.lo);
    var c :| 0 <= c < |chunks| && chunks[c].Has(s.lo);
    if chunks[c].hi < s.hi {
      assert s.Has(chunks[c].hi);
      var d :| 0 <= d < |chunks| && chunks[d].Has(chunks[c].hi);
      EndNotInside(chunks, c);
    } else {
      assert s.Inside(chunks[c]);
    }
  }

  lemma InsideHeld(chunks: seq<Span>, s: Span, va: nat)
    requires InsideSome(chunks, s) && s.Has(va)
    ensures Holds(chunks, va)
  {
    var i :| 0 <= i < |chunks| && s.Inside(chunks[i]);
    assert chunks[i].Has(va);
  }

  /** Even a datum without bytes is in some chunk. */
  lemma {:induction false} EmptyInside(secs: seq<Section>, annots: seq<Symbol>, a: Symbol)
    requires a in annots && Datum(a) && !Holds(SectionSpans(secs), a.addr)
    ensures SpanOf(a) in ChunkSpans(secs, annots) || Holds(ChunkSpans(secs, annots), a.addr)
    decreases |annots|
  {
    var n := |annots| - 1;
    if annots[n] == a {
    } else {
      assert annots == annots[..n] + [annots[n]];
      EmptyInside(secs, annots[..n], a);
      if Datum(annots[n]) {
        HoldsOneMore(ChunkSpans(secs, annots[..n]), SpanOf(annots[n]), a.addr);
      }
    }
  }

  lemma WholeIffCovered(secs: seq<Section>, annots: seq<Symbol>)
    ensures Whole(secs, annots) <==> Covered(secs, annots)
  {
    hide Taken, WholeAt, Reached;
    if Covered(secs, annots) {
      forall a | a in annots
        ensures WholeAt(secs, annots, a)
      {
        CoveredWhole(secs, annots, a);
      }
    }
    if Whole(secs, annots) {
      forall j, va | 0 <= j < |annots| && OwnByte(secs, annots[j], va)
        ensures Reached(secs, annots, va)
      {
        WholeReached(secs, annots, annots[j], va);
      }
    }
  }

  lemma CoveredWhole(secs: seq<Section>, annots: seq<Symbol>, a: Symbol)
    requires Covered(secs, annots) && a in annots
    ensures WholeAt(secs, annots, a)
  {
    hide Reached, Holds;
    if Datum(a) && !Holds(SectionSpans(secs), a.addr) {
      var s, chunks := SpanOf(a), ChunksOf(secs, annots);
      ChunksMerge(secs, annots);
      if s.lo < s.hi {
        var j :| 0 <= j < |annots| && annots[j] == a;
        forall va | s.Has(va)
          ensures Holds(chunks, va)
        {
          assert OwnByte(secs, annots[j], va);
          ChunksHoldIff(secs, annots, va);
        }
        HeldInside(chunks, s);
      } else {
        EmptyWhole(secs, annots, a);
      }
    }
  }

  lemma EmptyWhole(secs: seq<Section>, annots: seq<Symbol>, a: Symbol)
    requires a in annots && Datum(a) && !Holds(SectionSpans(secs), a.addr) && a.size == Some(0)
    ensures InsideSome(ChunksOf(secs, annots), SpanOf(a))
  {
    hide Taken, Reached;
    var spans, chunks := ChunkSpans(secs, annots), ChunksOf(secs, annots);
    ChunksMerge(secs, annots);
    EmptyInside(secs, annots, a);
    if SpanOf(a) in spans {
      assert SpanKept(Sort(spans), chunks, SpanOf(a));
    } else {
      HeldIffReached(secs, annots, a.addr);
      ChunksHoldIff(secs, annots, a.addr);
      var i :| 0 <= i < |chunks| && chunks[i].Has(a.addr);
      assert SpanOf(a).Inside(chunks[i]);
    }
  }

  lemma WholeReached(secs: seq<Section>, annots: seq<Symbol>, a: Symbol, va: nat)
    requires Whole(secs, annots) && a in annots && OwnByte(secs, a, va)
    ensures Reached(secs, annots, va)
  {
    hide Reached;
    assert WholeAt(secs, annots, a);
    InsideHeld(ChunksOf(secs, annots), SpanOf(a), va);
    ChunksHoldIff(secs, annots, va);
  }

  // ---- what a build lifts ------------------------------------------------------------

  /** What a build may need: annotated data, in any selection. */
  predicate DataFrom(annots: seq<Symbol>, need: seq<Symbol>)
  {
    forall k :: 0 <= k < |need| ==> need[k] in annots && !need[k].isFunc
  }

  lemma {:induction false} SectionSpansData(secs: seq<Section>)
    ensures SectionSpans(DataSections(secs)) == SectionSpans(secs)
  {
    if secs == [] {
    } else {
      var n := |secs| - 1;
      SectionSpansData(secs[..n]);
      var rest := DataSections(secs[..n]);
      if IsData(secs[n]) {
        assert (rest + [secs[n]])[..|rest|] == rest;
      }
    }
  }

  lemma {:induction false} SpansAlike(secs: seq<Section>, need: seq<Symbol>)
    ensures AllSpans(DataSections(secs), need) == AllSpans(secs, need)
  {
    if need == [] {
      SectionSpansData(secs);
    } else {
      SpansAlike(secs, need[..|need| - 1]);
    }
  }

  /** The sections are lifted first, whatever follows. */
  lemma {:induction false} SectionsFirst(secs: seq<Section>, annots: seq<Symbol>)
    ensures SectionSpans(secs) <= ChunkSpans(secs, annots)
  {
    if annots == [] {
    } else {
      SectionsFirst(secs, annots[..|annots| - 1]);
    }
  }

  /** Each span a build lifts is a data section or a needed datum outside them. */
  lemma {:induction false} SpanOrigin(secs: seq<Section>, need: seq<Symbol>, s: Span)
    requires AllSpans(secs, need).Ok? && s in AllSpans(secs, need).value
    ensures s in SectionSpans(secs)
         || exists k :: 0 <= k < |need| && need[k].size.Some? && !Holds(SectionSpans(secs), need[k].addr)
                     && s == Span(need[k].addr, need[k].addr + need[k].size.value)
  {
    if need == [] {
    } else {
      var n := |need| - 1;
      var before := AllSpans(secs, need[..n]).value;
      if s in before {
        SpanOrigin(secs, need[..n], s);
        if k :| 0 <= k < n && need[..n][k].size.Some? && !Holds(SectionSpans(secs), need[..n][k].addr)
                && s == Span(need[..n][k].addr, need[..n][k].addr + need[..n][k].size.value) {
          assert need[k] == need[..n][k];
        }
      } else {
        SectionsFirstNeed(secs, need[..n]);
        assert !Holds(SectionSpans(secs), need[n].addr);
      }
    }
  }

  lemma {:induction false} SectionsFirstNeed(secs: seq<Section>, need: seq<Symbol>)
    requires AllSpans(secs, need).Ok?
    ensures SectionSpans(secs) <= AllSpans(secs, need).value
  {
    if need == [] {
    } else {
      SectionsFirstNeed(secs, need[..|need| - 1]);
    }
  }

  /** So each is inside one chunk... */
  lemma SpanInChunk(secs: seq<Section>, annots: seq<Symbol>, need: seq<Symbol>, s: Span)
    requires Whole(secs, annots) && DataFrom(annots, need)
    requires AllSpans(secs, need).Ok? && s in AllSpans(secs, need).value
    ensures InsideSome(ChunksOf(secs, annots), s)
  {
    SpanOrigin(secs, need, s);
    if s in SectionSpans(secs) {
      SectionsFirst(secs, annots);
      ChunksMerge(secs, annots);
      assert s in ChunkSpans(secs, annots);
      assert SpanKept(Sort(ChunkSpans(secs, annots)), ChunksOf(secs, annots), s);
    } else {
      var k :| 0 <= k < |need| && need[k].size.Some? && !Holds(SectionSpans(secs), need[k].addr)
               && s == Span(need[k].addr, need[k].addr + need[k].size.value);
      assert WholeAt(secs, annots, need[k]);
    }
  }

  lemma EndNotInside(chunks: seq<Span>, c: nat)
    requires Apart(chunks) && c < |chunks|
    ensures forall d :: 0 <= d < |chunks| ==> !chunks[d].Has(chunks[c].hi)
  {
  }

  lemma ChunkHolding(spans: seq<Span>, chunks: seq<Span>, va: nat) returns (d: nat)
    requires Holds(spans, va) && forall s :: s in spans ==> InsideSome(chunks, s)
    ensures d < |chunks| && chunks[d].Has(va)
  {
    var k :| 0 <= k < |spans| && spans[k].Has(va);
    assert spans[k] in spans;
    d :| 0 <= d < |chunks| && spans[k].Inside(chunks[d]);
  }

  /** ...and what spans inside chunks merge to is inside chunks too. */
  lemma MergedInChunk(spans: seq<Span>, blobs: seq<Span>, chunks: seq<Span>, i: nat)
    requires Proper(spans) && Merges(spans, blobs) && Apart(chunks) && i < |blobs|
    requires forall s :: s in spans ==> InsideSome(chunks, s)
    ensures InsideSome(chunks, blobs[i])
  {
    assert StartsAtSpan(spans, blobs[i].lo);
    var s :| s in spans && s.lo == blobs[i].lo;
    var c :| 0 <= c < |chunks| && s.Inside(chunks[c]);
    if chunks[c].hi < blobs[i].hi {
      var va := chunks[c].hi;
      assert blobs[i].Has(va);
      assert NothingAdded(spans, blobs, va);
      var d := ChunkHolding(spans, chunks, va);
      EndNotInside(chunks, c);
    } else {
      assert blobs[i].Inside(chunks[c]);
    }
  }

  ghost predicate BlobsInside(secs: seq<Section>, annots: seq<Symbol>, need: seq<Symbol>)
    requires BlobsOf(secs, need).Ok?
  {
    var blobs := BlobsOf(secs, need).value;
    forall i :: 0 <= i < |blobs| ==> InsideSome(ChunksOf(secs, annots), blobs[i])
  }

  lemma WholeBlobs(secs: seq<Section>, annots: seq<Symbol>, need: seq<Symbol>)
    requires Whole(secs, annots) && DataFrom(annots, need) && BlobsOf(secs, need).Ok?
    ensures BlobsInside(secs, annots, need)
  {
    var (spans, blobs) := (AllSpans(secs, need).value, BlobsOf(secs, need).value);
    BlobsApart(secs, need);
    SortSorts(spans);
    SortProper(spans);
    ChunksMerge(secs, annots);
    forall s | s in Sort(spans)
      ensures InsideSome(ChunksOf(secs, annots), s)
    {
      SpanInChunk(secs, annots, need, s);
    }
    forall i | 0 <= i < |blobs|
      ensures InsideSome(ChunksOf(secs, annots), blobs[i])
    {
      MergedInChunk(Sort(spans), blobs, ChunksOf(secs, annots), i);
    }
  }

  /** Whatever a build needs, its blobs lie in the chunks, exactly when the annotations
      are covered. */
  lemma BlobsInChunksIff(secs: seq<Section>, annots: seq<Symbol>)
    ensures Covered(secs, annots)
            <==> forall need :: DataFrom(annots, need) && BlobsOf(secs, need).Ok? ==> BlobsInside(secs, annots, need)
  {
    WholeIffCovered(secs, annots);
    if Whole(secs, annots) {
      forall need | DataFrom(annots, need) && BlobsOf(secs, need).Ok?
        ensures BlobsInside(secs, annots, need)
      {
        WholeBlobs(secs, annots, need);
      }
    }
    if forall need :: DataFrom(annots, need) && BlobsOf(secs, need).Ok? ==> BlobsInside(secs, annots, need) {
      forall a | a in annots
        ensures WholeAt(secs, annots, a)
      {
        if Datum(a) && !Holds(SectionSpans(secs), a.addr) {
          AloneSpan(secs, a);
          assert DataFrom(annots, [a]);
          AloneWhole(secs, annots, a);
        }
      }
    }
  }

  /** A build that needs one datum lifts the sections and it. */
  lemma AloneSpan(secs: seq<Section>, a: Symbol)
    requires Datum(a) && !Holds(SectionSpans(secs), a.addr)
    ensures AllSpans(secs, [a]) == Ok(SectionSpans(secs) + [SpanOf(a)])
    ensures BlobsOf(secs, [a]).Ok?
  {
    assert [a][..0] == [] && AllSpans(secs, []) == Ok(SectionSpans(secs));
  }

  lemma AloneWhole(secs: seq<Section>, annots: seq<Symbol>, a: Symbol)
    requires Datum(a) && AllSpans(secs, [a]) == Ok(SectionSpans(secs) + [SpanOf(a)])
    requires BlobsOf(secs, [a]).Ok? && BlobsInside(secs, annots, [a])
    ensures InsideSome(ChunksOf(secs, annots), SpanOf(a))
  {
    var spans, blobs := SectionSpans(secs) + [SpanOf(a)], BlobsOf(secs, [a]).value;
    BlobsApart(secs, [a]);
    SortSorts(spans);
    assert SpanOf(a) in spans && SpanKept(Sort(spans), blobs, SpanOf(a));
    var i :| 0 <= i < |blobs| && SpanOf(a).Inside(blobs[i]);
    var c :| 0 <= c < |ChunksOf(secs, annots)| && blobs[i].Inside(ChunksOf(secs, annots)[c]);
    assert SpanOf(a).Inside(ChunksOf(secs, annots)[c]);
  }

  // ---- images that agree ------------------------------------------------------------

  /** Two images agree on the blobs: same bytes, same relocated words. */
  ghost predicate Agree(img: Image, img': Image, blobs: seq<Span>)
  {
    && img'.base == img.base
    && (forall va :: ByteAgrees(img, img', blobs, va))
    && (forall va :: RefAgrees(img, img', blobs, va))
  }

  ghost predicate ByteAgrees(img: Image, img': Image, blobs: seq<Span>, va: nat)
  {
    BlobOf(blobs, va).Some? ==>
      && img.base <= va < img.base + |img.mem| && img'.base <= va < img'.base + |img'.mem|
      && img'.mem[va - img'.base] == img.mem[va - img.base]
  }

  ghost predicate RefAgrees(img: Image, img': Image, blobs: seq<Span>, va: nat)
  {
    IsRef(img', blobs, va) <==> IsRef(img, blobs, va)
  }

  lemma WordAgrees(img: Image, img': Image, blobs: seq<Span>, i: nat, va: nat)
    requires Fits(img, blobs) && Fits(img', blobs) && Agree(img, img', blobs)
    requires i < |blobs| && blobs[i].Has(va) && va + 4 <= blobs[i].hi
    ensures WordAt(img', va) == WordAt(img, va)
  {
    BlobUnique(blobs, va, i);
    BlobUnique(blobs, va + 1, i);
    BlobUnique(blobs, va + 2, i);
    BlobUnique(blobs, va + 3, i);
    assert ByteAgrees(img, img', blobs, va) && ByteAgrees(img, img', blobs, va + 1);
    assert ByteAgrees(img, img', blobs, va + 2) && ByteAgrees(img, img', blobs, va + 3);
  }

  lemma {:induction false} ContentAgrees(img: Image, img': Image, blobs: seq<Span>, i: nat, va: nat)
    requires Fits(img, blobs) && Fits(img', blobs) && Agree(img, img', blobs)
    requires i < |blobs| && blobs[i].lo <= va <= blobs[i].hi
    ensures Content(img', blobs, i, va) == Content(img, blobs, i, va)
    decreases blobs[i].hi - va
  {
    if va == blobs[i].hi {
    } else {
      assert RefAgrees(img, img', blobs, va) && ByteAgrees(img, img', blobs, va);
      BlobUnique(blobs, va, i);
      hide Content, Fits, Agree, IsRef, Le32, Rewritten;
      RelinkEmit.ContentNext(img, blobs, i, va);
      RelinkEmit.ContentNext(img', blobs, i, va);
      if IsRef(img, blobs, va) {
        WordAgrees(img, img', blobs, i, va);
        ContentAgrees(img, img', blobs, i, va + 4);
      } else {
        ContentAgrees(img, img', blobs, i, va + 1);
      }
    }
  }

  lemma BlobProper(img: Image, blobs: seq<Span>, i: nat)
    requires Fits(img, blobs) && i < |blobs|
    ensures blobs[i].lo <= blobs[i].hi
  {
  }

  lemma {:induction false} RegionAgrees(img: Image, img': Image, blobs: seq<Span>, n: nat)
    requires Fits(img, blobs) && Fits(img', blobs) && Agree(img, img', blobs) && n <= |blobs|
    ensures Region(img', blobs, n) == Region(img, blobs, n)
  {
    hide Content, Agree, Fits, StartOf;
    if n == 0 {
    } else {
      assert blobs[n - 1].lo <= blobs[n - 1].hi by {
        BlobProper(img, blobs, n - 1);
      }
      RegionAgrees(img, img', blobs, n - 1);
      ContentAgrees(img, img', blobs, n - 1, blobs[n - 1].lo);
    }
  }

  lemma {:induction false} MetAgrees(img: Image, img': Image, blobs: seq<Span>, i: nat, va: nat)
    requires Agree(img, img', blobs) && i < |blobs|
    ensures Met(img', blobs, i, va) <==> Met(img, blobs, i, va)
    decreases va
  {
    if va == 0 {
    } else {
      MetAgrees(img, img', blobs, i, va - 1);
      assert RefAgrees(img, img', blobs, va - 1);
    }
    if va >= 4 {
      MetAgrees(img, img', blobs, i, va - 4);
      assert RefAgrees(img, img', blobs, va - 4);
    }
  }

  lemma LabelsAgree(img: Image, img': Image, blobs: seq<Span>, need: seq<Symbol>, prefix: string,
                    labels: set<(string, nat)>)
    requires Proper(blobs) && Agree(img, img', blobs)
    requires RelinkEmit.LabelsUpTo(img, blobs, need, prefix, |blobs|, labels)
    ensures RelinkEmit.LabelsUpTo(img', blobs, need, prefix, |blobs|, labels)
  {
    forall p: (string, nat)
      ensures RelinkEmit.LabelUpTo(img', blobs, need, prefix, |blobs|, labels, p)
    {
      assert RelinkEmit.LabelUpTo(img, blobs, need, prefix, |blobs|, labels, p);
      forall i | 0 <= i < |blobs|
        ensures Passed(img', blobs, need, i, blobs[i].hi, p) <==> Passed(img, blobs, need, i, blobs[i].hi, p)
      {
        forall x: nat
          ensures Met(img', blobs, i, x) <==> Met(img, blobs, i, x)
        {
          MetAgrees(img, img', blobs, i, x);
        }
      }
    }
  }

  /** The bytes of a chunk survive the chunks laid after it. */
  lemma {:induction false} LaidAt(img: Image, size: nat, spans: seq<Span>, chunks: seq<Chunk>, n: nat, i: nat, va: nat)
    requires Mapped(img, spans) && Apart(spans) && ChunksHold(img, spans, chunks)
    requires ChunksFit(img.base, size, chunks)
    requires i < n <= |spans| && spans[i].Has(va)
    ensures img.base <= va < img.base + size && va < img.base + |img.mem|
    ensures Laid(img.base, size, chunks, n)[va - img.base] == ByteAt(img, va)
  {
    var (mem, c) := (Laid(img.base, size, chunks, n - 1), chunks[n - 1]);
    var k := va - img.base;
    ChunkByte(img, spans, chunks, i, va);
    OverAt(mem, c.va - img.base, c.data, k);
    if i == n - 1 {
    } else {
      LaidAt(img, size, spans, chunks, n - 1, i, va);
      assert spans[i].hi < spans[n - 1].lo == c.va;
    }
  }

  lemma ChunkByte(img: Image, spans: seq<Span>, chunks: seq<Chunk>, i: nat, va: nat)
    requires Mapped(img, spans) && ChunksHold(img, spans, chunks) && i < |spans| && spans[i].Has(va)
    ensures img.base <= va < img.base + |img.mem|
    ensures chunks[i].va == spans[i].lo && |chunks[i].data| == spans[i].hi - spans[i].lo
    ensures chunks[i].data[va - chunks[i].va] == ByteAt(img, va)
  {
  }

  lemma OverAt(mem: seq<byte>, at: nat, data: seq<byte>, k: nat)
    requires at + |data| <= |mem| && k < |mem|
    ensures (mem[..at] + data + mem[at + |data|..])[k] == if at <= k < at + |data| then data[k - at] else mem[k]
  {
  }

  lemma BlobByte(img: Image, size: nat, spans: seq<Span>, chunks: seq<Chunk>, blob: Span, va: nat)
    requires Mapped(img, spans) && Apart(spans) && ChunksHold(img, spans, chunks)
    requires ChunksFit(img.base, size, chunks)
    requires InsideSome(spans, blob) && blob.Has(va)
    ensures img.base <= va < img.base + |img.mem| && va < img.base + size
    ensures Laid(img.base, size, chunks, |chunks|)[va - img.base] == ByteAt(img, va)
  {
    var i :| 0 <= i < |spans| && blob.Inside(spans[i]);
    LaidAt(img, size, spans, chunks, |spans|, i, va);
  }

  lemma PresentAgrees(img: Image, annots: seq<Symbol>, t: TvData, blobs: seq<Span>)
    requires Extracted(img, annots, t) && t.chunks != [] && Apart(ChunksOf(img.sections, annots))
    requires Fits(img, blobs)
    requires forall i :: 0 <= i < |blobs| ==> InsideSome(ChunksOf(img.sections, annots), blobs[i])
    ensures forall i :: 0 <= i < |t.chunks| ==> t.base <= t.chunks[i].va
    ensures Fits(Present(t), blobs) && Agree(img, Present(t), blobs)
  {
    var (spans, img') := (ChunksOf(img.sections, annots), Present(t));
    AllFit(t.base, t.chunks);
    BytesKept(img, Top(t.chunks) - t.base, spans, t.chunks, blobs, img');
    forall va: nat
      ensures RefAgrees(img, img', blobs, va)
    {
      RefKept(img.relocs, t.relocs, spans, blobs, va);
    }
    BlobsMapped(img, spans, t.chunks, blobs);
  }

  lemma BytesKept(img: Image, size: nat, spans: seq<Span>, chunks: seq<Chunk>, blobs: seq<Span>, img': Image)
    requires Mapped(img, spans) && Apart(spans) && ChunksHold(img, spans, chunks)
    requires ChunksFit(img.base, size, chunks)
    requires forall i :: 0 <= i < |blobs| ==> InsideSome(spans, blobs[i])
    requires img'.base == img.base && img'.mem == Laid(img.base, size, chunks, |chunks|)
    ensures forall va :: ByteAgrees(img, img', blobs, va)
  {
    forall va: nat
      ensures ByteAgrees(img, img', blobs, va)
    {
      if BlobOf(blobs, va).Some? {
        BlobByte(img, size, spans, chunks, blobs[BlobOf(blobs, va).value], va);
      }
    }
  }

  /** A relocated word whole in a blob is whole in the chunk around it. */
  lemma RefKept(all: set<nat>, kept: set<nat>, spans: seq<Span>, blobs: seq<Span>, va: nat)
    requires forall r :: r in kept <==> r in all && InSomeChunk(spans, r)
    requires forall i :: 0 <= i < |blobs| ==> InsideSome(spans, blobs[i])
    ensures BlobOf(blobs, va).Some? && va + 4 <= blobs[BlobOf(blobs, va).value].hi ==> (va in kept <==> va in all)
  {
    if BlobOf(blobs, va).Some? && va + 4 <= blobs[BlobOf(blobs, va).value].hi {
      var c :| 0 <= c < |spans| && blobs[BlobOf(blobs, va).value].Inside(spans[c]);
      assert InSomeChunk(spans, va);
    }
  }

  lemma BlobsMapped(img: Image, spans: seq<Span>, chunks: seq<Chunk>, blobs: seq<Span>)
    requires Mapped(img, spans) && ChunksHold(img, spans, chunks)
    requires forall i :: 0 <= i < |blobs| ==> InsideSome(spans, blobs[i])
    ensures forall i :: 0 <= i < |blobs| ==> blobs[i].hi <= Top(chunks)
  {
    forall i | 0 <= i < |blobs|
      ensures blobs[i].hi <= Top(chunks)
    {
      var c :| 0 <= c < |spans| && blobs[i].Inside(spans[c]);
      TopBounds(chunks, c);
    }
  }

  // ---- the same output ---------------------------------------------------------------

  /** From the DLL and from what was lifted out of it come the same blobs or the same
      refusal, the same region byte for byte, the same labels. */
  ghost predicate SameOutput(img: Image, annots: seq<Symbol>, t: TvData, need: seq<Symbol>)
    requires Extracted(img, annots, t) && t.chunks != []
  {
    StartsAfterBase(img, annots, t);
    var img' := Present(t);
    && BlobsOf(img'.sections, need) == BlobsOf(img.sections, need)
    && (BlobsOf(img.sections, need).Ok? && Fits(img, BlobsOf(img.sections, need).value) ==>
          SameFile(img, img', BlobsOf(img.sections, need).value, need))
  }

  ghost predicate SameFile(img: Image, img': Image, blobs: seq<Span>, need: seq<Symbol>)
    requires Fits(img, blobs)
  {
    && Fits(img', blobs)
    && Region(img', blobs, |blobs|) == Region(img, blobs, |blobs|)
    && forall prefix, labels :: RelinkEmit.LabelsUpTo(img, blobs, need, prefix, |blobs|, labels) ==>
         RelinkEmit.LabelsUpTo(img', blobs, need, prefix, |blobs|, labels)
  }

  lemma StartsAfterBase(img: Image, annots: seq<Symbol>, t: TvData)
    requires Extracted(img, annots, t)
    ensures forall i :: 0 <= i < |t.chunks| ==> t.base <= t.chunks[i].va
  {
  }

  /** What is lifted from any image, and which builds are to be compared. */
  ghost predicate Compared(secs: seq<Section>, annots: seq<Symbol>, img: Image, t: TvData, need: seq<Symbol>)
  {
    img.sections == secs && Extracted(img, annots, t) && t.chunks != [] && DataFrom(annots, need)
  }

  lemma CoveredSame(secs: seq<Section>, annots: seq<Symbol>, img: Image, t: TvData, need: seq<Symbol>)
    requires Covered(secs, annots) && Compared(secs, annots, img, t, need)
    ensures SameOutput(img, annots, t, need)
  {
    WholeIffCovered(secs, annots);
    StartsAfterBase(img, annots, t);
    SpansAlike(secs, need);
    ChunksMerge(secs, annots);
    if BlobsOf(secs, need).Ok? && Fits(img, BlobsOf(secs, need).value) {
      var blobs := BlobsOf(secs, need).value;
      WholeBlobs(secs, annots, need);
      PresentAgrees(img, annots, t, blobs);
      RegionAgrees(img, Present(t), blobs, |blobs|);
      forall prefix, labels | RelinkEmit.LabelsUpTo(img, blobs, need, prefix, |blobs|, labels)
        ensures RelinkEmit.LabelsUpTo(Present(t), blobs, need, prefix, |blobs|, labels)
      {
        LabelsAgree(img, Present(t), blobs, need, prefix, labels);
      }
    }
  }

  // ---- and where it differs ----------------------------------------------------------

  /** An image of zeros with a single one in it, and no relocations. */
  function Spotted(secs: seq<Section>, size: nat, va: nat): Image
  {
    Image(0, seq(size, k => if k == va then 1 else 0), secs, {})
  }

  function Highest(spans: seq<Span>): (top: nat)
    ensures forall i :: 0 <= i < |spans| ==> spans[i].hi <= top
  {
    if spans == [] then 0
    else
      var top := Highest(spans[..|spans| - 1]);
      if spans[|spans| - 1].hi > top then spans[|spans| - 1].hi else top
  }

  function Lift(img: Image, annots: seq<Symbol>): (t: TvData)
    requires Mapped(img, ChunksOf(img.sections, annots))
    ensures Extracted(img, annots, t) && |t.chunks| == |ChunksOf(img.sections, annots)|
  {
    var spans := ChunksOf(img.sections, annots);
    TvData(img.base, DataSections(img.sections),
           seq(|spans|, i requires 0 <= i < |spans| && Mapped(img, spans) => ChunkOf(img, spans[i])),
           set r | r in img.relocs && InSomeChunk(spans, r))
  }

  /** Memory no chunk was laid over is zero. */
  lemma {:induction false} LaidNowhere(base: nat, size: nat, chunks: seq<Chunk>, n: nat, k: nat)
    requires ChunksFit(base, size, chunks) && n <= |chunks| && k < size
    requires forall i :: 0 <= i < n ==> !(chunks[i].va <= base + k < chunks[i].va + |chunks[i].data|)
    ensures Laid(base, size, chunks, n)[k] == 0
  {
    if n == 0 {
    } else {
      LaidNowhere(base, size, chunks, n - 1, k);
      var (mem, c) := (Laid(base, size, chunks, n - 1), chunks[n - 1]);
      OverAt(mem, c.va - base, c.data, k);
    }
  }

  /** What is lifted does not have the spot. */
  lemma SpotLost(secs: seq<Section>, annots: seq<Symbol>, img: Image, t: TvData, va: nat)
    requires img.sections == secs && Extracted(img, annots, t) && t.chunks != []
    requires img.base <= va && !Reached(secs, annots, va)
    ensures forall i :: 0 <= i < |t.chunks| ==> t.base <= t.chunks[i].va
    ensures va < Present(t).base + |Present(t).mem| ==> ByteAt(Present(t), va) == 0
  {
    hide Reached;
    ChunksHoldIff(secs, annots, va);
    AllFit(t.base, t.chunks);
    if va < Top(t.chunks) {
      forall i | 0 <= i < |t.chunks|
        ensures !(t.chunks[i].va <= va < t.chunks[i].va + |t.chunks[i].data|)
      {
        assert t.chunks[i] == ChunkOf(img, ChunksOf(secs, annots)[i]);
        assert !ChunksOf(secs, annots)[i].Has(va);
      }
      LaidNowhere(t.base, Top(t.chunks) - t.base, t.chunks, |t.chunks|, va - t.base);
    }
  }

  /** A byte that is copied shows in the region. */
  lemma SpotShows(img: Image, img': Image, blobs: seq<Span>, va: nat)
    requires Fits(img, blobs) && Fits(img', blobs) && img.relocs == {} == img'.relocs
    requires BlobOf(blobs, va).Some?
    requires Region(img', blobs, |blobs|) == Region(img, blobs, |blobs|)
    ensures img.base <= va < img.base + |img.mem| && img'.base <= va < img'.base + |img'.mem|
    ensures ByteAt(img', va) == ByteAt(img, va)
  {
    assert Spaced(img, blobs) && Spaced(img', blobs);
    TvRef.PlainByteKept(img, blobs, va);
    TvRef.PlainByteKept(img', blobs, va);
  }

  /** Every build from these annotations has a region of 32-bit offsets. */
  ghost predicate Addressable(secs: seq<Section>, annots: seq<Symbol>)
  {
    forall need :: DataFrom(annots, need) && BlobsOf(secs, need).Ok? ==> Offsets32(BlobsOf(secs, need).value)
  }

  predicate Offsets32(blobs: seq<Span>)
  {
    Apart(blobs) && Total(blobs) <= WORD
  }

  // Every address lies within a quarter of a gigabyte, room enough for any DLL: a region
  // over it has 32-bit offsets even if each byte took a blob of its own.
  const STRETCH := 0xfff_fffe

  predicate InStretch(s: Span, low: nat)
  {
    low <= s.lo && s.hi <= low + STRETCH
  }

  /** What can be checked of the sections and annotations: the data sections, and the data
      outside them, lie within one stretch of the address space. */
  predicate Compact(secs: seq<Section>, annots: seq<Symbol>, low: nat)
  {
    && (forall s :: s in SectionSpans(secs) ==> InStretch(s, low))
    && (forall a :: a in annots && Datum(a) && !Holds(SectionSpans(secs), a.addr) ==> InStretch(SpanOf(a), low))
  }

  /** A blob reaches no further than the spans it is merged from. */
  lemma BlobInStretch(spans: seq<Span>, blobs: seq<Span>, i: nat, low: nat)
    requires Merges(spans, blobs) && i < |blobs| && Proper(spans) && forall s :: s in spans ==> InStretch(s, low)
    ensures InStretch(blobs[i], low)
  {
    var b := blobs[i];
    assert StartsAtSpan(spans, b.lo);
    var s :| s in spans && s.lo == b.lo;
    assert s.lo <= s.hi;
    if b.lo < b.hi {
      assert b.Has(b.hi - 1) && NothingAdded(spans, blobs, b.hi - 1);
      var k :| 0 <= k < |spans| && spans[k].Has(b.hi - 1);
      assert spans[k] in spans;
    }
  }

  /** Each blob may cost fifteen bytes to align, and there is at least one address between
      two of them. */
  lemma {:induction false} EndInStretch(blobs: seq<Span>, i: nat, low: nat)
    requires Apart(blobs) && i < |blobs| && forall k :: 0 <= k < |blobs| ==> InStretch(blobs[k], low)
    ensures EndOf(blobs, i) <= 16 + 16 * (blobs[i].hi - low)
  {
    assert InStretch(blobs[i], low);
    if i == 0 {
    } else {
      EndInStretch(blobs, i - 1, low);
      assert InStretch(blobs[i - 1], low);
    }
  }

  /** So every build has a region of 32-bit offsets. */
  lemma CompactAddressable(secs: seq<Section>, annots: seq<Symbol>, low: nat)
    requires Compact(secs, annots, low)
    ensures Addressable(secs, annots)
  {
    forall need | DataFrom(annots, need) && BlobsOf(secs, need).Ok?
      ensures Offsets32(BlobsOf(secs, need).value)
    {
      CompactBuild(secs, annots, low, need);
    }
  }

  lemma CompactBuild(secs: seq<Section>, annots: seq<Symbol>, low: nat, need: seq<Symbol>)
    requires Compact(secs, annots, low) && DataFrom(annots, need) && BlobsOf(secs, need).Ok?
    ensures Offsets32(BlobsOf(secs, need).value)
  {
    hide Merges, Apart;
    var spans, blobs := AllSpans(secs, need).value, BlobsOf(secs, need).value;
    BlobsApart(secs, need);
    SortSorts(spans);
    SortProper(spans);
    forall s | s in Sort(spans)
      ensures InStretch(s, low)
    {
      SpanOrigin(secs, need, s);
    }
    forall i | 0 <= i < |blobs|
      ensures InStretch(blobs[i], low)
    {
      BlobInStretch(Sort(spans), blobs, i, low);
    }
    MergesApart(Sort(spans), blobs);
    if blobs != [] {
      EndInStretch(blobs, |blobs| - 1, low);
      assert InStretch(blobs[|blobs| - 1], low);
    }
  }

  lemma MergesApart(spans: seq<Span>, blobs: seq<Span>)
    requires Merges(spans, blobs)
    ensures Apart(blobs) && Proper(blobs)
  {
  }

  /** The blobs of a build that needs one datum hold it. */
  lemma AloneBlobs(secs: seq<Section>, a: Symbol, va: nat)
    requires OwnByte(secs, a, va)
    ensures BlobsOf(secs, [a]).Ok? && Apart(BlobsOf(secs, [a]).value)
    ensures BlobOf(BlobsOf(secs, [a]).value, va).Some?
  {
    var spans := SectionSpans(secs) + [SpanOf(a)];
    AloneSpan(secs, a);
    BlobsApart(secs, [a]);
    SortSorts(spans);
    SameHeld(Sort(spans), spans, va);
    HoldsOneMore(SectionSpans(secs), SpanOf(a), va);
    MergesHolds(Sort(spans), BlobsOf(secs, [a]).value, va);
  }

  /** A datum with a byte that is not reached: an image and a build, of that datum alone,
      for which the outputs differ. */
  lemma UncoveredDiffers(secs: seq<Section>, annots: seq<Symbol>, a: Symbol, va: nat) returns (img: Image, t: TvData)
    requires ChunksOf(secs, annots) != [] && Addressable(secs, annots)
    requires a in annots && OwnByte(secs, a, va) && !Reached(secs, annots, va)
    ensures Compared(secs, annots, img, t, [a]) && !SameOutput(img, annots, t, [a])
  {
    hide Reached, Holds;
    AloneBlobs(secs, a, va);
    var chunks, blobs := ChunksOf(secs, annots), BlobsOf(secs, [a]).value;
    ChunksMerge(secs, annots);
    var size := Highest(chunks) + Highest(blobs);
    img := Spotted(secs, size, va);
    t := Lift(img, annots);
    assert DataFrom(annots, [a]);
    assert Offsets32(blobs);
    assert Fits(img, blobs);
    if SameOutput(img, annots, t, [a]) {
      StartsAfterBase(img, annots, t);
      SpotLost(secs, annots, img, t, va);
      SpotShows(img, Present(t), blobs, va);
      assert false;
    }
  }

  /** For given sections and annotations, every image gives every build the same output
      from the DLL and from what was lifted out of it, if and only if every byte of the
      annotated data is covered. */
  lemma InterchangeableIff(secs: seq<Section>, annots: seq<Symbol>)
    requires ChunksOf(secs, annots) != [] && Addressable(secs, annots)
    ensures Covered(secs, annots)
            <==> forall img, t, need :: Compared(secs, annots, img, t, need) ==> SameOutput(img, annots, t, need)
  {
    if Covered(secs, annots) {
      forall img, t, need | Compared(secs, annots, img, t, need)
        ensures SameOutput(img, annots, t, need)
      {
        CoveredSame(secs, annots, img, t, need);
      }
    } else {
      var j, va :| 0 <= j < |annots| && OwnByte(secs, annots[j], va) && !Reached(secs, annots, va);
      var img, t := UncoveredDiffers(secs, annots, annots[j], va);
    }
  }

  predicate Nested(a: Symbol, b: Symbol)
  {
    Datum(a) && Datum(b) && SpanOf(a).Has(b.addr) ==> SpanOf(b).hi <= SpanOf(a).hi
  }

  /** What a reader can see at a glance: no datum that starts in an earlier one reaches
      past its end. */
  lemma NestedCovered(secs: seq<Section>, annots: seq<Symbol>)
    requires forall k, j :: 0 <= k < j < |annots| ==> Nested(annots[k], annots[j])
    ensures Covered(secs, annots)
  {
    forall j, va | 0 <= j < |annots| && OwnByte(secs, annots[j], va)
      ensures Reached(secs, annots, va)
    {
      if Taken(secs, annots, j) {
        assert TakenAt(secs, annots, j, va);
      } else {
        var k :| 0 <= k < j && Datum(annots[k]) && SpanOf(annots[k]).Has(annots[j].addr) && Taken(secs, annots, k);
        assert Nested(annots[k], annots[j]);
        assert TakenAt(secs, annots, k, va);
      }
    }
  }

  // ---- two partial overlaps ----------------------------------------------------------

  /** B starts inside A and reaches past its end, so its tail is not lifted; an image
      with a one in the tail gives a build of B alone another output. */
  lemma OverlapLost() returns (img: Image, t: TvData)
    ensures
      var a, b := Symbol("A", 100, false, Some(4)), Symbol("B", 102, false, Some(8));
      && !Covered([], [a, b])
      && Compared([], [a, b], img, t, [b]) && !SameOutput(img, [a, b], t, [b])
  {
    var a, b := Symbol("A", 100, false, Some(4)), Symbol("B", 102, false, Some(8));
    assert SpanOf(a).Has(102) && Taken([], [a, b], 0) && !Taken([], [a, b], 1);
    assert !Reached([], [a, b], 109);
    assert OwnByte([], [a, b][1], 109);
    ChunksHoldIff([], [a, b], 100);
    assert TakenAt([], [a, b], 0, 100);
    assert Compact([], [a, b], 100);
    CompactAddressable([], [a, b], 100);
    img, t := UncoveredDiffers([], [a, b], b, 109);
  }

  /** The same overlap the other way round loses nothing: B does not start inside A. */
  lemma OverlapKept()
    ensures Covered([], [Symbol("A", 102, false, Some(8)), Symbol("B", 100, false, Some(4))])
  {
    NestedCovered([], [Symbol("A", 102, false, Some(8)), Symbol("B", 100, false, Some(4))]);
  }
}
