/** Which parts of an image are data, and where each part goes: the span merge and
    the region layout that tools/gen_data.py and tools/extract_data.py share. */
module Layout {
  import opened Wrappers

  /** Addresses `lo` up to but not including `hi`. */
  datatype Span = Span(lo: nat, hi: nat)
  {
    predicate Has(va: nat) { lo <= va < hi }

    predicate Inside(s: Span) { s.lo <= lo && hi <= s.hi }
  }

  predicate Proper(spans: seq<Span>)
  {
    forall i :: 0 <= i < |spans| ==> spans[i].lo <= spans[i].hi
  }

  predicate Holds(spans: seq<Span>, va: nat)
  {
    exists i :: 0 <= i < |spans| && spans[i].Has(va)
  }

  // ---- sorting, as list.sort orders pairs -----------------------------------------

  predicate Before(s: Span, t: Span)
  {
    s.lo < t.lo || (s.lo == t.lo && s.hi <= t.hi)
  }

  predicate Sorted(spans: seq<Span>)
  {
    forall i, j :: 0 <= i < j < |spans| ==> Before(spans[i], spans[j])
  }

  function Insert(s: Span, spans: seq<Span>): (r: seq<Span>)
    ensures |r| == |spans| + 1
  {
    if spans == [] || Before(s, spans[0]) then [s] + spans
    else [spans[0]] + Insert(s, spans[1..])
  }

  function Sort(spans: seq<Span>): (r: seq<Span>)
    ensures |r| == |spans|
  {
    if spans == [] then [] else Insert(spans[0], Sort(spans[1..]))
  }

  lemma {:induction false} InsertHolds(s: Span, spans: seq<Span>, t: Span)
    ensures t in Insert(s, spans) <==> t == s || t in spans
  {
    if spans == [] || Before(s, spans[0]) {
    } else {
      InsertHolds(s, spans[1..], t);
      assert spans == [spans[0]] + spans[1..];
    }
  }

  lemma {:induction false} InsertSorted(s: Span, spans: seq<Span>)
    requires Sorted(spans)
    ensures Sorted(Insert(s, spans))
  {
    if spans == [] || Before(s, spans[0]) {
    } else {
      InsertSorted(s, spans[1..]);
      var r := Insert(s, spans[1..]);
      forall j | 0 <= j < |r|
        ensures Before(spans[0], r[j])
      {
        InsertHolds(s, spans[1..], r[j]);
        assert r[j] in r;
      }
    }
  }

  /** Sorting orders the spans and keeps them. */
  lemma {:induction false} SortSorts(spans: seq<Span>)
    ensures Sorted(Sort(spans))
    ensures forall t :: t in Sort(spans) <==> t in spans
  {
    if spans == [] {
    } else {
      SortSorts(spans[1..]);
      InsertSorted(spans[0], Sort(spans[1..]));
      forall t
        ensures t in Sort(spans) <==> t in spans
      {
        InsertHolds(spans[0], Sort(spans[1..]), t);
        assert spans == [spans[0]] + spans[1..];
      }
    }
  }

  lemma SortProper(spans: seq<Span>)
    requires Proper(spans)
    ensures Proper(Sort(spans))
  {
    SortSorts(spans);
    forall i | 0 <= i < |Sort(spans)|
      ensures Sort(spans)[i].lo <= Sort(spans)[i].hi
    {
      assert Sort(spans)[i] in spans;
    }
  }

  // ---- merging --------------------------------------------------------------------

  /** In order, apart, and not even touching. */
  predicate Apart(blobs: seq<Span>)
  {
    && Proper(blobs)
    && forall i, j :: 0 <= i < j < |blobs| ==> blobs[i].hi < blobs[j].lo
  }

  /** The blobs are in order and apart, every span lies in one of them, they hold no
      address the spans do not, and each starts where some span does. */
  ghost predicate Merges(spans: seq<Span>, blobs: seq<Span>)
  {
    && Apart(blobs)
    && (forall s :: SpanKept(spans, blobs, s))
    && (forall va :: NothingAdded(spans, blobs, va))
    && (forall i :: 0 <= i < |blobs| ==> StartsAtSpan(spans, blobs[i].lo))
  }

  ghost predicate SpanKept(spans: seq<Span>, blobs: seq<Span>, s: Span)
  {
    s in spans ==> exists i :: 0 <= i < |blobs| && s.Inside(blobs[i])
  }

  ghost predicate NothingAdded(spans: seq<Span>, blobs: seq<Span>, va: nat)
  {
    Holds(blobs, va) ==> Holds(spans, va)
  }

  ghost predicate StartsAtSpan(spans: seq<Span>, lo: nat)
  {
    exists s :: s in spans && s.lo == lo
  }

  /** What one more span does to the blobs so far. */
  function MergeOne(blobs: seq<Span>, s: Span): seq<Span>
  {
    if blobs != [] && s.lo <= blobs[|blobs| - 1].hi then
      var last := blobs[|blobs| - 1];
      blobs[|blobs| - 1 := Span(last.lo, if s.hi > last.hi then s.hi else last.hi)]
    else blobs + [s]
  }

  method Merge(spans: seq<Span>) returns (blobs: seq<Span>)
    requires Sorted(spans) && Proper(spans)
    ensures Merges(spans, blobs) && blobs == Merged(spans)
  {
    blobs := [];
    var n := 0;
    while n < |spans|
      invariant 0 <= n <= |spans| && blobs == Merged(spans[..n])
    {
      assert spans[..n + 1][..n] == spans[..n];
      var s := spans[n];
      if blobs != [] && s.lo <= blobs[|blobs| - 1].hi {
        var last := blobs[|blobs| - 1];
        blobs := blobs[|blobs| - 1 := Span(last.lo, if s.hi > last.hi then s.hi else last.hi)];
      } else {
        blobs := blobs + [s];
      }
      n := n + 1;
    }
    assert spans[..n] == spans;
    MergedMerges(spans);
  }

  function Merged(spans: seq<Span>): seq<Span>
  {
    if spans == [] then [] else MergeOne(Merged(spans[..|spans| - 1]), spans[|spans| - 1])
  }

  lemma {:induction false} MergedMerges(spans: seq<Span>)
    requires Sorted(spans) && Proper(spans)
    ensures Merges(spans, Merged(spans))
    ensures spans != [] ==> Merged(spans) != [] && Merged(spans)[|Merged(spans)| - 1].lo <= spans[|spans| - 1].lo
  {
    hide Merges;
    if spans == [] {
      NothingMerges();
    } else {
      var n := |spans| - 1;
      MergedMerges(spans[..n]);
      assert n > 0 ==> Before(spans[n - 1], spans[n]);
      MergeOneMerges(spans[..n], Merged(spans[..n]), spans[n]);
      assert spans == spans[..n] + [spans[n]];
    }
  }

  lemma NothingMerges()
    ensures Merges([], [])
  {
  }

  lemma MergeOneMerges(spans: seq<Span>, blobs: seq<Span>, s: Span)
    requires Merges(spans, blobs) && s.lo <= s.hi
    requires blobs != [] ==> blobs[|blobs| - 1].lo <= s.lo
    ensures Merges(spans + [s], MergeOne(blobs, s))
  {
    var (all, more) := (spans + [s], MergeOne(blobs, s));
    forall t
      ensures SpanKept(all, more, t)
    {
      if t in spans {
        assert SpanKept(spans, blobs, t);
        var i :| 0 <= i < |blobs| && t.Inside(blobs[i]);
        assert t.Inside(more[i]);
      } else if t == s {
        assert s.Inside(more[|more| - 1]);
      }
    }
    forall va
      ensures NothingAdded(all, more, va)
    {
      if i :| 0 <= i < |more| && more[i].Has(va) {
        if i < |blobs| && blobs[i].Has(va) {
          assert NothingAdded(spans, blobs, va);
          var k :| 0 <= k < |spans| && spans[k].Has(va);
          assert all[k].Has(va);
        } else {
          assert all[|spans|].Has(va);
        }
      }
    }
    forall i | 0 <= i < |more|
      ensures StartsAtSpan(all, more[i].lo)
    {
      if i < |blobs| {
        assert StartsAtSpan(spans, blobs[i].lo);
        var t :| t in spans && t.lo == blobs[i].lo;
        assert t in all;
      } else {
        assert s in all;
      }
    }
  }

  /** An address the spans hold is held by the blobs, and by no other address's. */
  lemma MergesHolds(spans: seq<Span>, blobs: seq<Span>, va: nat)
    requires Merges(spans, blobs)
    ensures Holds(blobs, va) <==> Holds(spans, va)
  {
    assert NothingAdded(spans, blobs, va);
    if k :| 0 <= k < |spans| && spans[k].Has(va) {
      assert SpanKept(spans, blobs, spans[k]);
      var i :| 0 <= i < |blobs| && spans[k].Inside(blobs[i]);
      assert blobs[i].Has(va);
    }
  }

  // ---- placing -----------------------------------------------------------------

  function Align16(n: nat): (r: nat)
    ensures n <= r < n + 16 && r % 16 == 0
  {
    (n + 15) / 16 * 16
  }

  /** Where the `i`-th blob starts: back to back from 16, each aligned to 16. */
  function StartOf(blobs: seq<Span>, i: nat): (at: nat)
    requires i < |blobs| && Proper(blobs)
    ensures at >= 16 && at % 16 == 0
    decreases i, 0
  {
    if i == 0 then 16 else Align16(EndOf(blobs, i - 1))
  }

  function EndOf(blobs: seq<Span>, i: nat): nat
    requires i < |blobs| && Proper(blobs)
    decreases i, 1
  {
    StartOf(blobs, i) + (blobs[i].hi - blobs[i].lo)
  }

  function Total(blobs: seq<Span>): nat
    requires Proper(blobs)
  {
    if blobs == [] then 16 else EndOf(blobs, |blobs| - 1)
  }

  lemma StartsApart(blobs: seq<Span>, i: nat, j: nat)
    requires i < j < |blobs| && Proper(blobs)
    ensures EndOf(blobs, i) <= StartOf(blobs, j)
    decreases j
  {
    if i == j - 1 {
    } else {
      StartsApart(blobs, i, j - 1);
    }
  }

  method Place(blobs: seq<Span>) returns (starts: seq<nat>, total: nat)
    requires Proper(blobs)
    ensures |starts| == |blobs| && total == Total(blobs)
    ensures forall i :: 0 <= i < |blobs| ==> starts[i] == StartOf(blobs, i)
  {
    starts := [];
    var at, i := 16, 0;
    while i < |blobs|
      invariant 0 <= i <= |blobs| && |starts| == i
      invariant at == if i == 0 then 16 else EndOf(blobs, i - 1)
      invariant forall k :: 0 <= k < i ==> starts[k] == StartOf(blobs, k)
    {
      at := Align16(at);
      starts := starts + [at];
      at := at + (blobs[i].hi - blobs[i].lo);
      i := i + 1;
    }
    total := at;
  }

  /** The blob an address lies in. */
  function BlobOf(blobs: seq<Span>, va: nat): (r: Option<nat>)
    ensures r.Some? ==> r.value < |blobs| && blobs[r.value].Has(va)
    ensures r.None? ==> !Holds(blobs, va)
  {
    BlobFrom(blobs, va, 0)
  }

  function BlobFrom(blobs: seq<Span>, va: nat, i: nat): (r: Option<nat>)
    requires i <= |blobs|
    ensures r.Some? ==> i <= r.value < |blobs| && blobs[r.value].Has(va)
    ensures r.None? ==> forall k :: i <= k < |blobs| ==> !blobs[k].Has(va)
    decreases |blobs| - i
  {
    if i == |blobs| then None
    else if blobs[i].Has(va) then Some(i)
    else BlobFrom(blobs, va, i + 1)
  }

  /** An address lies in at most one blob. */
  lemma BlobUnique(blobs: seq<Span>, va: nat, i: nat)
    requires Apart(blobs) && i < |blobs| && blobs[i].Has(va)
    ensures BlobOf(blobs, va) == Some(i)
  {
  }

  method Find(blobs: seq<Span>, va: nat) returns (i: Option<nat>, off: nat)
    ensures i == BlobOf(blobs, va)
    ensures off == if i.Some? then va - blobs[i.value].lo else 0
  {
    var k := 0;
    while k < |blobs|
      invariant 0 <= k <= |blobs| && BlobOf(blobs, va) == BlobFrom(blobs, va, k)
    {
      if blobs[k].lo <= va < blobs[k].hi {
        return Some(k), va - blobs[k].lo;
      }
      k := k + 1;
    }
    return None, 0;
  }

  /** The offset an address moves to. */
  function Moved(blobs: seq<Span>, va: nat): (r: Option<nat>)
    requires Proper(blobs)
  {
    match BlobOf(blobs, va)
    case None => None
    case Some(i) => Some(StartOf(blobs, i) + (va - blobs[i].lo))
  }

  /** Moving loses nothing and keeps distances within a blob: two addresses move to
      the same offset only if they are the same, offsets stay inside the region and
      clear of 0, and an address keeps its place relative to its blob's alignment. */
  lemma MovedFaithful(blobs: seq<Span>, va: nat, vb: nat)
    requires Apart(blobs) && Moved(blobs, va).Some? && Moved(blobs, vb).Some?
    ensures var (a, b) := (Moved(blobs, va).value, Moved(blobs, vb).value);
            && 16 <= a < Total(blobs)
            && (a == b <==> va == vb)
            && (BlobOf(blobs, va) == BlobOf(blobs, vb) ==> a as int - b == va as int - vb)
            && a % 16 == (va - blobs[BlobOf(blobs, va).value].lo) % 16
  {
    var (i, j) := (BlobOf(blobs, va).value, BlobOf(blobs, vb).value);
    if i < j {
      StartsApart(blobs, i, j);
    } else if j < i {
      StartsApart(blobs, j, i);
    }
    if i < |blobs| - 1 {
      StartsApart(blobs, i, |blobs| - 1);
    }
    AddMultiple(StartOf(blobs, i), va - blobs[i].lo);
  }

  lemma AddMultiple(m: nat, n: nat)
    requires m % 16 == 0
    ensures (m + n) % 16 == n % 16
  {
    assert m == m / 16 * 16;
    assert m + n == (m / 16 + n / 16) * 16 + n % 16;
  }
}
