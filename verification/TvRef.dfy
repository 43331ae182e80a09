/** Reading the relinked region through its references (src/tv_ref.h), against
    reading the original image through its addresses. */
module TvRef {
  import opened Wrappers
  import opened Bytes
  import opened Layout
  import opened Relinker
  import RelinkEmit

  // ---- where everything went -------------------------------------------------------

  /** The byte the walk from `va` writes for address `t`. */
  function WrittenAt(img: Image, blobs: seq<Span>, i: nat, va: nat, t: nat): byte
    requires Fits(img, blobs) && i < |blobs| && blobs[i].lo <= va <= t < blobs[i].hi
  {
    Content(img, blobs, i, va)[t - va]
  }

  lemma WrittenLater(img: Image, blobs: seq<Span>, i: nat, va: nat, t: nat)
    requires Fits(img, blobs) && i < |blobs| && blobs[i].lo <= va < t < blobs[i].hi
    requires IsRef(img, blobs, va) ==> va + 4 <= t
    ensures WrittenAt(img, blobs, i, va, t)
            == WrittenAt(img, blobs, i, if IsRef(img, blobs, va) then va + 4 else va + 1, t)
  {
  }

  /** What follows a stop of the walk is what the walk writes from there. */
  lemma {:induction false} ContentSuffix(img: Image, blobs: seq<Span>, i: nat, va: nat, x: nat, t: nat)
    requires Fits(img, blobs) && i < |blobs| && Met(img, blobs, i, va) && Met(img, blobs, i, x)
    requires blobs[i].lo <= va <= x <= t < blobs[i].hi
    ensures WrittenAt(img, blobs, i, va, t) == WrittenAt(img, blobs, i, x, t)
    decreases x - va
  {
    if va == x {
    } else {
      MetSkips(img, blobs, i, va, x);
      WrittenLater(img, blobs, i, va, t);
      ContentSuffix(img, blobs, i, if IsRef(img, blobs, va) then va + 4 else va + 1, x, t);
    }
  }

  /** Writing more blobs leaves what is written alone. */
  lemma {:induction false} RegionPrefix(img: Image, blobs: seq<Span>, n: nat, m: nat, q: nat)
    requires Fits(img, blobs) && m <= n <= |blobs| && q < |Region(img, blobs, m)|
    ensures q < |Region(img, blobs, n)| && Region(img, blobs, n)[q] == Region(img, blobs, m)[q]
  {
    hide Region, Fits;
    if m == n {
    } else {
      RegionPrefix(img, blobs, n - 1, m, q);
      RegionStep(img, blobs, n, q);
    }
  }

  lemma RegionStep(img: Image, blobs: seq<Span>, n: nat, q: nat)
    requires Fits(img, blobs) && 0 < n <= |blobs| && q < |Region(img, blobs, n - 1)|
    ensures q < |Region(img, blobs, n)| && Region(img, blobs, n)[q] == Region(img, blobs, n - 1)[q]
  {
    hide Content, Region, Fits;
    RegionNext(img, blobs, n - 1);
    assert Padded(img, blobs, n - 1)[q] == Region(img, blobs, n - 1)[q];
  }

  lemma RegionNext(img: Image, blobs: seq<Span>, n: nat)
    requires Fits(img, blobs) && n < |blobs|
    ensures Region(img, blobs, n + 1) == Padded(img, blobs, n) + Content(img, blobs, n, blobs[n].lo)
    ensures |Region(img, blobs, n)| <= |Padded(img, blobs, n)| == StartOf(blobs, n)
  {
    hide Content, StartOf;
  }

  /** Blob `i` sits in the region at its start. */
  lemma RegionHolds(img: Image, blobs: seq<Span>, n: nat, i: nat, t: nat)
    requires Fits(img, blobs) && i < n <= |blobs| && blobs[i].Has(t)
    ensures StartOf(blobs, i) + (t - blobs[i].lo) < |Region(img, blobs, n)|
    ensures Region(img, blobs, n)[StartOf(blobs, i) + (t - blobs[i].lo)] == WrittenAt(img, blobs, i, blobs[i].lo, t)
  {
    hide Content, Region, Padded;
    RegionNext(img, blobs, i);
    RegionPrefix(img, blobs, n, i + 1, StartOf(blobs, i) + (t - blobs[i].lo));
    LastBlob(Padded(img, blobs, i), Content(img, blobs, i, blobs[i].lo), t - blobs[i].lo);
  }

  lemma LastBlob(before: seq<byte>, last: seq<byte>, k: nat)
    requires k < |last|
    ensures (before + last)[|before| + k] == last[k]
  {
  }

  /** What the finished region holds at the place of `t`, a stop of the walk being at
      `va`. */
  lemma RegionFrom(img: Image, blobs: seq<Span>, i: nat, va: nat, t: nat)
    requires Fits(img, blobs) && i < |blobs| && Met(img, blobs, i, va) && blobs[i].lo <= va <= t < blobs[i].hi
    ensures Moved(blobs, t) == Some(StartOf(blobs, i) + (t - blobs[i].lo))
    ensures Moved(blobs, t).value < |Region(img, blobs, |blobs|)|
    ensures Region(img, blobs, |blobs|)[Moved(blobs, t).value] == WrittenAt(img, blobs, i, va, t)
  {
    BlobUnique(blobs, t, i);
    RegionHolds(img, blobs, |blobs|, i, t);
    ContentSuffix(img, blobs, i, blobs[i].lo, va, t);
  }

  /** A byte that is no part of a rewritten word. */
  predicate PlainByte(img: Image, blobs: seq<Span>, va: nat)
  {
    BlobOf(blobs, va).Some? && !IsRef(img, blobs, va) && !InsideRef(img, blobs, va)
  }

  /** Plain bytes are copied to where their address moves. */
  lemma PlainByteKept(img: Image, blobs: seq<Span>, va: nat)
    requires Fits(img, blobs) && Spaced(img, blobs) && PlainByte(img, blobs, va)
    ensures var (region, m) := (Region(img, blobs, |blobs|), Moved(blobs, va));
            m.Some? && m.value < |region| && region[m.value] == ByteAt(img, va)
  {
    var i := BlobOf(blobs, va).value;
    MetUnlessInside(img, blobs, i, va);
    RegionFrom(img, blobs, i, va, va);
  }

  /** A stored address becomes its target's offset, four bytes wide and in the same
      place; one that points out of the data keeps its value. */
  lemma RefRewritten(img: Image, blobs: seq<Span>, va: nat)
    requires Fits(img, blobs) && Spaced(img, blobs) && IsRef(img, blobs, va)
    ensures Moved(blobs, va).Some? && Moved(blobs, va).value + 4 <= |Region(img, blobs, |blobs|)|
    ensures Rd32(Region(img, blobs, |blobs|), Moved(blobs, va).value) == Rewritten(blobs, WordAt(img, va))
  {
    RewrittenFits(img, blobs, WordAt(img, va));
    var (region, w) := (Region(img, blobs, |blobs|), Le32(Rewritten(blobs, WordAt(img, va))));
    var m := RefByte(img, blobs, va, 0, region, w);
    var m1 := RefByte(img, blobs, va, 1, region, w);
    var m2 := RefByte(img, blobs, va, 2, region, w);
    var m3 := RefByte(img, blobs, va, 3, region, w);
    SameWord(region, m, w);
  }

  lemma SameWord(region: seq<byte>, m: nat, w: seq<byte>)
    requires |w| == 4 && m + 4 <= |region|
    requires region[m] == w[0] && region[m + 1] == w[1] && region[m + 2] == w[2] && region[m + 3] == w[3]
    ensures Rd32(region, m) == Rd32(w, 0)
  {
  }

  lemma RefByte(img: Image, blobs: seq<Span>, va: nat, k: nat, region: seq<byte>, w: seq<byte>) returns (m: nat)
    requires Fits(img, blobs) && Spaced(img, blobs) && IsRef(img, blobs, va) && k < 4
    requires region == Region(img, blobs, |blobs|)
    requires Rewritten(blobs, WordAt(img, va)) < WORD && w == Le32(Rewritten(blobs, WordAt(img, va)))
    ensures Moved(blobs, va) == Some(m) && m + k < |region| && region[m + k] == w[k]
  {
    hide Region, Met, WrittenAt, Le32, Rewritten;
    var i := BlobOf(blobs, va).value;
    MetUnlessInside(img, blobs, i, va);
    RefWhole(img, blobs, i, va);
    assert RefApart(img, blobs, va);
    RegionFrom(img, blobs, i, va, va + k);
    m := Moved(blobs, va).value;
    WrittenRef(img, blobs, i, va, k);
  }

  lemma WrittenRef(img: Image, blobs: seq<Span>, i: nat, va: nat, k: nat)
    requires Fits(img, blobs) && i < |blobs| && blobs[i].Has(va) && IsRef(img, blobs, va) && va + 4 <= blobs[i].hi
    requires Rewritten(blobs, WordAt(img, va)) < WORD && k < 4
    ensures WrittenAt(img, blobs, i, va, va + k) == Le32(Rewritten(blobs, WordAt(img, va)))[k]
  {
  }

  /** Every relocated word is rewritten exactly when no two of them overlap: of an
      overlapping pair, the walk steps over the second. */
  lemma AllRewrittenIffSpaced(img: Image, blobs: seq<Span>)
    requires Apart(blobs)
    ensures Spaced(img, blobs) <==> forall r :: RefMet(img, blobs, r)
  {
    if Spaced(img, blobs) {
      forall r
        ensures RefMet(img, blobs, r)
      {
        if IsRef(img, blobs, r) {
          MetUnlessInside(img, blobs, BlobOf(blobs, r).value, r);
          assert RefApart(img, blobs, r);
        }
      }
    }
    if forall r :: RefMet(img, blobs, r) {
      forall s: nat
        ensures RefApart(img, blobs, s)
      {
        forall r: nat | r < s < r + 4
          ensures !(IsRef(img, blobs, r) && IsRef(img, blobs, s))
        {
          if IsRef(img, blobs, r) && IsRef(img, blobs, s) {
            assert RefMet(img, blobs, r) && RefMet(img, blobs, s);
            BlobUnique(blobs, s, BlobOf(blobs, r).value);
            MetSkips(img, blobs, BlobOf(blobs, r).value, r, s);
          }
        }
      }
    }
  }

  ghost predicate RefMet(img: Image, blobs: seq<Span>, r: nat)
  {
    IsRef(img, blobs, r) ==> Met(img, blobs, BlobOf(blobs, r).value, r)
  }

  // ---- reading -----------------------------------------------------------------------

  /** `TV_REF_AT`, with the region loaded at `tv`. */
  function RefAt(tv: nat, r: nat): nat { tv + r }

  /** `TV_REF_OK`. */
  predicate RefOk(r: nat) { r != 0 }

  /** Following addresses stored in the image: from `a`, index by each displacement
      without leaving the blob, read the address there and go on from it.  None if
      there is no stored address or it leads out of the data. */
  function FollowImage(img: Image, blobs: seq<Span>, a: nat, path: seq<int>): Option<nat>
    requires Fits(img, blobs)
    decreases |path|
  {
    if path == [] then Some(a)
    else
      var p := a + path[0];
      if p < 0 || !IsRef(img, blobs, p) || BlobOf(blobs, p) != BlobOf(blobs, a) then None
      else if BlobOf(blobs, WordAt(img, p)).None? then None
      else FollowImage(img, blobs, WordAt(img, p), path[1..])
  }

  /** The same through the references of a region loaded at `tv`. */
  function FollowRegion(tv: nat, region: seq<byte>, a: nat, path: seq<int>): Option<nat>
    decreases |path|
  {
    if path == [] then Some(a)
    else
      var p := a + path[0];
      if p < tv || p - tv + 4 > |region| then None
      else FollowRegion(tv, region, RefAt(tv, Rd32(region, p - tv)), path[1..])
  }

  /** A region holds the image's data: plain bytes copied to where their address
      moves, stored addresses rewritten in place. */
  ghost predicate Faithful(img: Image, blobs: seq<Span>, region: seq<byte>)
    requires Fits(img, blobs)
  {
    forall va :: FaithfulAt(img, blobs, region, va)
  }

  ghost predicate FaithfulAt(img: Image, blobs: seq<Span>, region: seq<byte>, va: nat)
    requires Fits(img, blobs)
  {
    && (PlainByte(img, blobs, va) ==>
          && Moved(blobs, va).Some? && Moved(blobs, va).value < |region|
          && region[Moved(blobs, va).value] == ByteAt(img, va))
    && (IsRef(img, blobs, va) ==>
          && Moved(blobs, va).Some? && Moved(blobs, va).value + 4 <= |region|
          && Rd32(region, Moved(blobs, va).value) == Rewritten(blobs, WordAt(img, va)))
  }

  /** What is written out is faithful. */
  lemma RegionFaithful(img: Image, blobs: seq<Span>)
    requires Fits(img, blobs) && Spaced(img, blobs)
    ensures Faithful(img, blobs, Region(img, blobs, |blobs|))
  {
    var region := Region(img, blobs, |blobs|);
    forall va: nat
      ensures FaithfulAt(img, blobs, region, va)
    {
      if PlainByte(img, blobs, va) {
        PlainByteKept(img, blobs, va);
      }
      if IsRef(img, blobs, va) {
        RefRewritten(img, blobs, va);
      }
    }
  }

  /** Wherever a faithful region is loaded, following a path of references through it
      leads to the place of the address the original path leads to. */
  lemma {:induction false} FollowsAlike(img: Image, blobs: seq<Span>, region: seq<byte>, tv: nat, a: nat,
                                        path: seq<int>)
    requires Fits(img, blobs) && Faithful(img, blobs, region) && BlobOf(blobs, a).Some?
    requires FollowImage(img, blobs, a, path).Some?
    ensures var b := FollowImage(img, blobs, a, path).value;
            && BlobOf(blobs, b).Some?
            && FollowRegion(tv, region, RefAt(tv, Moved(blobs, a).value), path)
               == Some(RefAt(tv, Moved(blobs, b).value))
    decreases |path|
  {
    hide StartOf, Rd32;
    if path == [] {
    } else {
      var p := a + path[0];
      assert FaithfulAt(img, blobs, region, p);
      MovedFaithful(blobs, p, a);
      FollowsAlike(img, blobs, region, tv, WordAt(img, p), path[1..]);
    }
  }

  /** The byte at host address `q` of the loaded region is the byte at `va` of the
      image. */
  predicate SameByte(img: Image, region: seq<byte>, tv: nat, q: int, va: int)
  {
    && tv <= q < tv + |region| && img.base <= va < img.base + |img.mem|
    && region[q - tv] == ByteAt(img, va)
  }

  /** Reading past the end of one table lands on the same neighbour: at the end of a
      path, any displacement within the blob reads the byte the original reads. */
  lemma ReadsAlike(img: Image, blobs: seq<Span>, region: seq<byte>, tv: nat, a: nat, path: seq<int>, d: int)
    requires Fits(img, blobs) && Faithful(img, blobs, region) && BlobOf(blobs, a).Some?
    requires FollowImage(img, blobs, a, path).Some?
    requires var b := FollowImage(img, blobs, a, path).value;
             b + d >= 0 && BlobOf(blobs, b + d) == BlobOf(blobs, b) && PlainByte(img, blobs, b + d)
    ensures var q := FollowRegion(tv, region, RefAt(tv, Moved(blobs, a).value), path);
            q.Some? && SameByte(img, region, tv, q.value + d, FollowImage(img, blobs, a, path).value + d)
  {
    FollowsAlike(img, blobs, region, tv, a, path);
    ReadsOff(img, blobs, region, tv, FollowImage(img, blobs, a, path).value, d);
  }

  lemma ReadsOff(img: Image, blobs: seq<Span>, region: seq<byte>, tv: nat, b: nat, d: int)
    requires Fits(img, blobs) && Faithful(img, blobs, region) && BlobOf(blobs, b).Some?
    requires b + d >= 0 && BlobOf(blobs, b + d) == BlobOf(blobs, b) && PlainByte(img, blobs, b + d)
    ensures SameByte(img, region, tv, RefAt(tv, Moved(blobs, b).value) + d, b + d)
  {
    assert FaithfulAt(img, blobs, region, b + d);
    MovedFaithful(blobs, b + d, b);
  }

  /** No reference is mistaken for an absent one: a rewritten word that points into
      the data is not 0, and one that points elsewhere is the word it was. */
  lemma RefsPresent(img: Image, blobs: seq<Span>, region: seq<byte>, va: nat)
    requires Fits(img, blobs) && Faithful(img, blobs, region) && IsRef(img, blobs, va)
    ensures Moved(blobs, va).Some? && Moved(blobs, va).value + 4 <= |region|
    ensures var w := Rd32(region, Moved(blobs, va).value);
            if BlobOf(blobs, WordAt(img, va)).Some? then RefOk(w) else w == WordAt(img, va)
  {
    assert FaithfulAt(img, blobs, region, va);
    if BlobOf(blobs, WordAt(img, va)).Some? {
      MovedFaithful(blobs, WordAt(img, va), WordAt(img, va));
    }
  }

  /** Four plain bytes of one blob spell the word they spelled, so an absent
      reference stays absent. */
  lemma PlainWordKept(img: Image, blobs: seq<Span>, region: seq<byte>, va: nat)
    requires Fits(img, blobs) && Faithful(img, blobs, region) && PlainWord(img, blobs, va)
    ensures Moved(blobs, va).Some? && Moved(blobs, va).value + 4 <= |region|
    ensures img.base <= va && va + 4 <= img.base + |img.mem|
    ensures Rd32(region, Moved(blobs, va).value) == WordAt(img, va)
  {
    ReadsOff(img, blobs, region, 0, va, 0);
    ReadsOff(img, blobs, region, 0, va, 1);
    ReadsOff(img, blobs, region, 0, va, 2);
    ReadsOff(img, blobs, region, 0, va, 3);
  }

  /** Four plain bytes of one blob. */
  predicate PlainWord(img: Image, blobs: seq<Span>, va: nat)
  {
    && PlainByte(img, blobs, va) && PlainByte(img, blobs, va + 1)
    && PlainByte(img, blobs, va + 2) && PlainByte(img, blobs, va + 3)
    && BlobOf(blobs, va) == BlobOf(blobs, va + 1) == BlobOf(blobs, va + 2) == BlobOf(blobs, va + 3)
  }

  // ---- what the blobs hold -------------------------------------------------------------

  /** An address of a section that is data throughout. */
  predicate InData(secs: seq<Section>, va: nat)
  {
    exists i :: 0 <= i < |secs| && secs[i].name in [".rdata", ".data"] && secs[i].va <= va < secs[i].va + secs[i].vsize
  }

  /** A byte of the `k`-th needed datum, which starts outside those sections. */
  predicate OwnDatum(secs: seq<Section>, need: seq<Symbol>, k: nat, va: nat)
    requires k < |need|
  {
    && !InData(secs, need[k].addr) && need[k].size.Some?
    && need[k].addr <= va < need[k].addr + need[k].size.value
  }

  lemma {:induction false} SectionsHold(secs: seq<Section>, va: nat)
    ensures Holds(SectionSpans(secs), va) <==> InData(secs, va)
  {
    if secs == [] {
    } else {
      var n := |secs| - 1;
      var before, spans := SectionSpans(secs[..n]), SectionSpans(secs);
      SectionsHold(secs[..n], va);
      if i :| 0 <= i < |before| && before[i].Has(va) {
        assert spans[i] == before[i];
        var j :| 0 <= j < n && secs[..n][j].name in [".rdata", ".data"]
                 && secs[..n][j].va <= va < secs[..n][j].va + secs[..n][j].vsize;
        assert secs[j] == secs[..n][j];
      } else if IsData(secs[n]) && secs[n].va <= va < secs[n].va + secs[n].vsize {
        assert spans[|before|].Has(va);
      }
    }
  }

  lemma {:induction false} SectionsKept(secs: seq<Section>, need: seq<Symbol>, va: nat)
    requires AllSpans(secs, need).Ok? && InData(secs, va)
    ensures Holds(AllSpans(secs, need).value, va)
  {
    if need == [] {
      SectionsHold(secs, va);
    } else {
      SectionsKept(secs, need[..|need| - 1], va);
      var before := AllSpans(secs, need[..|need| - 1]).value;
      var i :| 0 <= i < |before| && before[i].Has(va);
      assert AllSpans(secs, need).value[i] == before[i];
    }
  }

  lemma {:induction false} SpansAre(secs: seq<Section>, need: seq<Symbol>, va: nat)
    requires AllSpans(secs, need).Ok? && Holds(AllSpans(secs, need).value, va)
    ensures InData(secs, va) || exists k :: 0 <= k < |need| && OwnDatum(secs, need, k, va)
  {
    if need == [] {
      SectionsHold(secs, va);
    } else {
      var n := |need| - 1;
      var before := AllSpans(secs, need[..n]).value;
      if Holds(before, va) {
        SpansAre(secs, need[..n], va);
        if k :| 0 <= k < n && OwnDatum(secs, need[..n], k, va) {
          assert OwnDatum(secs, need, k, va);
        }
      } else {
        if InData(secs, need[n].addr) {
          SectionsKept(secs, need[..n], need[n].addr);
        }
        assert OwnDatum(secs, need, n, va);
      }
    }
  }

  /** The blobs hold every byte of the two data sections, the start of every needed datum
      that has bytes, and no byte of anything else. */
  lemma BlobsAre(secs: seq<Section>, need: seq<Symbol>, va: nat)
    requires BlobsOf(secs, need).Ok?
    ensures
      var held := BlobOf(BlobsOf(secs, need).value, va).Some?;
      && (InData(secs, va) ==> held)
      && (held ==> InData(secs, va) || exists k :: 0 <= k < |need| && OwnDatum(secs, need, k, va))
  {
    hide OwnDatum, InData;
    var spans, blobs := AllSpans(secs, need).value, BlobsOf(secs, need).value;
    SortSorts(spans);
    BlobsApart(secs, need);
    MergesHolds(Sort(spans), blobs, va);
    SortHolds(spans, va);
    if InData(secs, va) {
      SectionsKept(secs, need, va);
    }
    if BlobOf(blobs, va).Some? {
      SpansAre(secs, need, va);
    }
  }

  lemma SortHolds(spans: seq<Span>, va: nat)
    ensures Holds(Sort(spans), va) <==> Holds(spans, va)
  {
    SortSorts(spans);
    var sorted := Sort(spans);
    if i :| 0 <= i < |sorted| && sorted[i].Has(va) {
      assert sorted[i] in spans;
    } else if i :| 0 <= i < |spans| && spans[i].Has(va) {
      assert spans[i] in sorted;
    }
  }

  /** A build is refused for a needed datum outside the data sections whose declaration
      gives no size, and for every such datum that none of the others reaches. */
  lemma {:induction false} RefusedForSize(secs: seq<Section>, need: seq<Symbol>)
    ensures AllSpans(secs, need).Err? ==>
              exists k :: 0 <= k < |need| && need[k].size.None? && !InData(secs, need[k].addr)
                          && AllSpans(secs, need).error == NoSize(need[k].name)
    ensures (exists k :: 0 <= k < |need| && need[k].size.None? && !InData(secs, need[k].addr)
                         && forall j :: 0 <= j < |need| ==> !OwnDatum(secs, need, j, need[k].addr)) ==>
              AllSpans(secs, need).Err?
  {
    if need == [] {
    } else {
      var n := |need| - 1;
      RefusedForSize(secs, need[..n]);
      if AllSpans(secs, need[..n]).Err? {
        var k :| 0 <= k < n && need[..n][k].size.None? && !InData(secs, need[..n][k].addr)
                 && AllSpans(secs, need[..n]).error == NoSize(need[..n][k].name);
        assert need[k] == need[..n][k];
      } else if AllSpans(secs, need).Err? {
        UnheldNotData(secs, need[..n], need[n].addr);
      } else if k :| 0 <= k < |need| && need[k].size.None? && !InData(secs, need[k].addr)
                     && forall j :: 0 <= j < |need| ==> !OwnDatum(secs, need, j, need[k].addr) {
        SizelessReached(secs, need, k);
      }
    }
  }

  lemma UnheldNotData(secs: seq<Section>, need: seq<Symbol>, va: nat)
    requires AllSpans(secs, need).Ok? && !Holds(AllSpans(secs, need).value, va)
    ensures !InData(secs, va)
  {
    if InData(secs, va) {
      SectionsKept(secs, need, va);
    }
  }

  lemma SizelessReached(secs: seq<Section>, need: seq<Symbol>, k: nat)
    requires AllSpans(secs, need).Ok? && k < |need| && need[k].size.None? && !InData(secs, need[k].addr)
    ensures exists j :: 0 <= j < |need| && OwnDatum(secs, need, j, need[k].addr)
  {
    NeededHeld(secs, need, k);
    SpansAre(secs, need, need[k].addr);
  }

  /** The code named in a refusal is exactly the code among what is needed. */
  lemma {:induction false} FunctionsAre(need: seq<Symbol>, name: string)
    ensures name in Functions(need) <==> exists k :: 0 <= k < |need| && need[k].isFunc && need[k].name == name
  {
    if need == [] {
    } else {
      var n := |need| - 1;
      FunctionsAre(need[..n], name);
      if k :| 0 <= k < n && need[..n][k].isFunc && need[..n][k].name == name {
        assert need[k] == need[..n][k];
      } else if k :| 0 <= k < |need| && need[k].isFunc && need[k].name == name {
        assert k < n ==> need[..n][k] == need[k];
      }
    }
  }

  // ---- labels ------------------------------------------------------------------------

  /** Every needed symbol is in some blob, unless its declaration gives it no bytes. */
  lemma {:induction false} NeededHeld(secs: seq<Section>, need: seq<Symbol>, k: nat)
    requires AllSpans(secs, need).Ok? && k < |need|
    ensures Holds(AllSpans(secs, need).value, need[k].addr) || need[k].size == Some(0)
  {
    var n := |need| - 1;
    var before := AllSpans(secs, need[..n]).value;
    var spans := AllSpans(secs, need).value;
    if k < n {
      NeededHeld(secs, need[..n], k);
      if i :| 0 <= i < |before| && before[i].Has(need[k].addr) {
        assert spans[i].Has(need[k].addr);
      }
    } else if !Holds(before, need[n].addr) && need[n].size != Some(0) {
      assert spans[|before|].Has(need[n].addr);
    }
  }

  /** So each has a place in the region. */
  lemma NeededInBlob(secs: seq<Section>, need: seq<Symbol>, k: nat)
    requires BlobsOf(secs, need).Ok? && k < |need| && need[k].size != Some(0)
    ensures BlobOf(BlobsOf(secs, need).value, need[k].addr).Some?
  {
    var spans := AllSpans(secs, need).value;
    NeededHeld(secs, need, k);
    SortSorts(spans);
    BlobsApart(secs, need);
    var i :| 0 <= i < |spans| && spans[i].Has(need[k].addr);
    assert spans[i] in Sort(spans);
    var j :| 0 <= j < |Sort(spans)| && Sort(spans)[j] == spans[i];
    assert Sort(spans)[j].Has(need[k].addr);
    MergesHolds(Sort(spans), BlobsOf(secs, need).value, need[k].addr);
  }

  /** One symbol per name, and none named like the region. */
  predicate NamesClear(need: seq<Symbol>, prefix: string)
  {
    && (forall j, k :: 0 <= j < k < |need| ==> need[j].name != need[k].name)
    && (forall k :: 0 <= k < |need| ==> need[k].name !in [prefix + "tv_data", "_" + prefix + "tv_data"])
  }

  /** A symbol's label is at its datum and nowhere else; it is missing exactly if the
      datum is inside a relocated word. */
  lemma LabelAtDatum(img: Image, blobs: seq<Span>, need: seq<Symbol>, prefix: string, labels: set<(string, nat)>,
                     k: nat, off: nat)
    requires Fits(img, blobs) && Spaced(img, blobs) && NamesClear(need, prefix)
    requires RelinkEmit.LabelsUpTo(img, blobs, need, prefix, |blobs|, labels)
    requires k < |need| && BlobOf(blobs, need[k].addr).Some?
    ensures (need[k].name, off) in labels <==>
              Moved(blobs, need[k].addr) == Some(off) && !InsideRef(img, blobs, need[k].addr)
  {
    hide InsideRef, StartOf, NamesAt, Met, IsRef;
    var (name, addr) := (need[k].name, need[k].addr);
    var i := BlobOf(blobs, addr).value;
    MetUnlessInside(img, blobs, i, addr);
    NamesAtHolds(need, addr, name);
    assert RelinkEmit.LabelUpTo(img, blobs, need, prefix, |blobs|, labels, (name, off));
    if (name, off) in labels {
      var j :| 0 <= j < |blobs| && Passed(img, blobs, need, j, blobs[j].hi, (name, off));
      var x :| blobs[j].lo <= x < blobs[j].hi && Met(img, blobs, j, x) && name in NamesAt(need, x)
               && off == StartOf(blobs, j) + (x - blobs[j].lo);
      NamesAtHolds(need, x, name);
      var l :| 0 <= l < |need| && need[l].addr == x && need[l].name == name;
      BlobUnique(blobs, x, j);
    }
  }

  /** Every needed symbol whose datum has bytes is labelled at the place of its datum,
      and nowhere else, unless the datum is inside a relocated word. */
  lemma NeededLabelled(img: Image, need: seq<Symbol>, prefix: string, labels: set<(string, nat)>, k: nat, off: nat)
    requires BlobsOf(img.sections, need).Ok? && Fits(img, BlobsOf(img.sections, need).value)
    requires Spaced(img, BlobsOf(img.sections, need).value) && NamesClear(need, prefix)
    requires
      var blobs := BlobsOf(img.sections, need).value;
      RelinkEmit.LabelsUpTo(img, blobs, need, prefix, |blobs|, labels)
    requires k < |need| && need[k].size != Some(0)
    ensures
      var blobs := BlobsOf(img.sections, need).value;
      (need[k].name, off) in labels <==>
        Moved(blobs, need[k].addr) == Some(off) && !InsideRef(img, blobs, need[k].addr)
  {
    NeededInBlob(img.sections, need, k);
    LabelAtDatum(img, BlobsOf(img.sections, need).value, need, prefix, labels, k, off);
  }
}
