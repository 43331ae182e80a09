/** The data relinker (tools/gen_data.py) and the reader of what it writes
    (src/tv_ref.h).  It lifts data out of an image whose words hold absolute
    addresses into one region whose words hold offsets from the region's start.

    Which spans are lifted is decided by the sections and the symbols needed.  A walk
    over each blob stops at every plain byte and at every relocated word, steps over
    the word's four bytes, and puts a symbol's label where it stops at its address;
    what it writes assembles to the region. */
module Relinker {
  import opened Wrappers
  import opened Bytes
  import opened Layout

  datatype Section = Section(name: string, va: nat, vsize: nat)

  /** `mem` is the image as mapped at `base`; each of `relocs` holds an address. */
  datatype Image = Image(base: nat, mem: seq<byte>, sections: seq<Section>, relocs: set<nat>)

  /** An annotated symbol: where it is in the image, whether it is code, and how big if
      the declaration says. */
  datatype Symbol = Symbol(name: string, addr: nat, isFunc: bool, size: Option<nat>)

  datatype Failure = NoSize(name: string) | IsCode(names: seq<string>)

  datatype Result<+T> = Ok(value: T) | Err(error: Failure)

  /** The needed symbols that are code, which cannot be lifted. */
  function Functions(need: seq<Symbol>): seq<string>
  {
    if need == [] then []
    else
      var last := need[|need| - 1];
      Functions(need[..|need| - 1]) + if last.isFunc then [last.name] else []
  }

  // ---- the spans to lift ---------------------------------------------------------

  predicate IsData(s: Section) { s.name == ".rdata" || s.name == ".data" }

  function SectionSpans(secs: seq<Section>): (r: seq<Span>)
    ensures Proper(r)
  {
    if secs == [] then []
    else
      var rest := SectionSpans(secs[..|secs| - 1]);
      var s := secs[|secs| - 1];
      if IsData(s) then rest + [Span(s.va, s.va + s.vsize)] else rest
  }

  /** The data sections whole, then each symbol outside what is there already. */
  function AllSpans(secs: seq<Section>, need: seq<Symbol>): (r: Result<seq<Span>>)
    ensures r.Ok? ==> Proper(r.value)
  {
    if need == [] then Ok(SectionSpans(secs))
    else
      var s := need[|need| - 1];
      match AllSpans(secs, need[..|need| - 1])
      case Err(e) => Err(e)
      case Ok(spans) =>
        if Holds(spans, s.addr) then Ok(spans)
        else if s.size.None? then Err(NoSize(s.name))
        else Ok(spans + [Span(s.addr, s.addr + s.size.value)])
  }

  /** The blobs `main` works with. */
  function BlobsOf(secs: seq<Section>, need: seq<Symbol>): (r: Result<seq<Span>>)
  {
    match AllSpans(secs, need)
    case Err(e) => Err(e)
    case Ok(spans) => Ok(Merged(Sort(spans)))
  }

  lemma BlobsApart(secs: seq<Section>, need: seq<Symbol>)
    requires BlobsOf(secs, need).Ok?
    ensures Merges(Sort(AllSpans(secs, need).value), BlobsOf(secs, need).value)
  {
    var spans := AllSpans(secs, need).value;
    SortSorts(spans);
    SortProper(spans);
    MergedMerges(Sort(spans));
  }

  method CollectSpans(secs: seq<Section>, need: seq<Symbol>) returns (r: Result<seq<Span>>)
    ensures r == AllSpans(secs, need)
  {
    var spans := [];
    var i := 0;
    while i < |secs|
      invariant 0 <= i <= |secs| && spans == SectionSpans(secs[..i])
    {
      assert secs[..i + 1][..i] == secs[..i];
      if IsData(secs[i]) {
        spans := spans + [Span(secs[i].va, secs[i].va + secs[i].vsize)];
      }
      i := i + 1;
    }
    assert secs[..i] == secs;
    i := 0;
    while i < |need|
      invariant 0 <= i <= |need| && AllSpans(secs, need[..i]) == Ok(spans)
    {
      assert need[..i + 1][..i] == need[..i];
      if !Holds(spans, need[i].addr) {
        if need[i].size.None? {
          ErrStays(secs, need, i + 1);
          return Err(NoSize(need[i].name));
        }
        spans := spans + [Span(need[i].addr, need[i].addr + need[i].size.value)];
      }
      i := i + 1;
    }
    assert need[..i] == need;
    return Ok(spans);
  }

  lemma {:induction false} ErrStays(secs: seq<Section>, need: seq<Symbol>, n: nat)
    requires n <= |need| && AllSpans(secs, need[..n]).Err?
    ensures AllSpans(secs, need) == AllSpans(secs, need[..n])
    decreases |need| - n
  {
    if n == |need| {
      assert need[..n] == need;
    } else {
      assert need[..n + 1][..n] == need[..n];
      ErrStays(secs, need, n + 1);
    }
  }

  // ---- what the image says ----------------------------------------------------------

  /** The blobs lie in the image and the region they make has 32-bit offsets. */
  predicate Fits(img: Image, blobs: seq<Span>)
  {
    && Apart(blobs)
    && (forall i :: 0 <= i < |blobs| ==> img.base <= blobs[i].lo && blobs[i].hi <= img.base + |img.mem|)
    && Total(blobs) <= WORD
  }

  function ByteAt(img: Image, va: nat): byte
    requires img.base <= va < img.base + |img.mem|
  {
    img.mem[va - img.base]
  }

  /** The word stored at `va`. */
  function WordAt(img: Image, va: nat): (w: nat)
    requires img.base <= va && va + 4 <= img.base + |img.mem|
    ensures w < WORD
  {
    Rd32(img.mem, va - img.base)
  }

  /** A relocated word that lies whole in one blob. */
  predicate IsRef(img: Image, blobs: seq<Span>, va: nat)
  {
    va in img.relocs && BlobOf(blobs, va).Some? && va + 4 <= blobs[BlobOf(blobs, va).value].hi
  }

  /** `va` is one of the later bytes of a relocated word. */
  predicate InsideRef(img: Image, blobs: seq<Span>, va: nat)
  {
    || (va >= 1 && IsRef(img, blobs, va - 1))
    || (va >= 2 && IsRef(img, blobs, va - 2))
    || (va >= 3 && IsRef(img, blobs, va - 3))
  }

  /** The relocated words to be rewritten do not overlap. */
  ghost predicate Spaced(img: Image, blobs: seq<Span>)
  {
    forall r :: RefApart(img, blobs, r)
  }

  predicate RefApart(img: Image, blobs: seq<Span>, r: nat)
  {
    IsRef(img, blobs, r) ==> !InsideRef(img, blobs, r)
  }

  /** What a stored address becomes: its target's offset, or itself when the target
      is not data. */
  function Rewritten(blobs: seq<Span>, t: nat): (w: nat)
    requires Proper(blobs)
  {
    var m := Moved(blobs, t);
    if m.Some? then m.value else t
  }

  lemma RewrittenFits(img: Image, blobs: seq<Span>, t: nat)
    requires Fits(img, blobs) && t < WORD
    ensures Rewritten(blobs, t) < WORD
  {
    if Moved(blobs, t).Some? {
      MovedFaithful(blobs, t, t);
    }
  }

  /** The bytes a blob is written as from `va` on: each relocated word met is
      rewritten, every other byte copied. */
  function Content(img: Image, blobs: seq<Span>, i: nat, va: nat): (bs: seq<byte>)
    requires Fits(img, blobs) && i < |blobs| && blobs[i].lo <= va <= blobs[i].hi
    ensures |bs| == blobs[i].hi - va
    decreases blobs[i].hi - va
  {
    if va == blobs[i].hi then []
    else if IsRef(img, blobs, va) then
      RefWhole(img, blobs, i, va);
      RewrittenFits(img, blobs, WordAt(img, va));
      Le32(Rewritten(blobs, WordAt(img, va))) + Content(img, blobs, i, va + 4)
    else [ByteAt(img, va)] + Content(img, blobs, i, va + 1)
  }

  lemma RefWhole(img: Image, blobs: seq<Span>, i: nat, va: nat)
    requires Apart(blobs) && i < |blobs| && blobs[i].Has(va) && IsRef(img, blobs, va)
    ensures va + 4 <= blobs[i].hi
  {
    BlobUnique(blobs, va, i);
  }

  /** The addresses at which the walk over a blob stops. */
  ghost predicate Met(img: Image, blobs: seq<Span>, i: nat, va: nat)
    requires i < |blobs|
    decreases va
  {
    va == blobs[i].lo
    || (va > blobs[i].lo && !IsRef(img, blobs, va - 1) && Met(img, blobs, i, va - 1))
    || (va >= blobs[i].lo + 4 && IsRef(img, blobs, va - 4) && Met(img, blobs, i, va - 4))
  }

  /** With relocations apart, the walk stops everywhere but inside a relocated word. */
  lemma {:induction false} MetUnlessInside(img: Image, blobs: seq<Span>, i: nat, va: nat)
    requires Apart(blobs) && Spaced(img, blobs) && i < |blobs| && blobs[i].lo <= va <= blobs[i].hi
    ensures Met(img, blobs, i, va) <==> !InsideRef(img, blobs, va)
    decreases va
  {
    var lo := blobs[i].lo;
    if va == lo {
      NoneBefore(img, blobs, i, va);
    } else {
      MetUnlessInside(img, blobs, i, va - 1);
      assert RefApart(img, blobs, va - 1);
      if va >= 2 && IsRef(img, blobs, va - 2) {
        RefInBlob(img, blobs, i, va - 2, va);
      }
      if va >= 3 && IsRef(img, blobs, va - 3) {
        RefInBlob(img, blobs, i, va - 3, va);
      }
      if va >= 4 && IsRef(img, blobs, va - 4) {
        RefInBlob(img, blobs, i, va - 4, va - 1);
      }
      if va >= lo + 4 {
        MetUnlessInside(img, blobs, i, va - 4);
        assert RefApart(img, blobs, va - 4);
        assert IsRef(img, blobs, va - 4) ==> RefApart(img, blobs, va - 3) && RefApart(img, blobs, va - 2);
      }
    }
  }

  lemma NoneBefore(img: Image, blobs: seq<Span>, i: nat, va: nat)
    requires Apart(blobs) && i < |blobs| && va == blobs[i].lo
    ensures !InsideRef(img, blobs, va)
  {
  }

  /** A relocated word reaching an address of a blob starts in that blob. */
  lemma RefInBlob(img: Image, blobs: seq<Span>, i: nat, r: nat, va: nat)
    requires Apart(blobs) && i < |blobs| && blobs[i].lo <= va <= blobs[i].hi
    requires IsRef(img, blobs, r) && r < va < r + 4
    ensures blobs[i].lo <= r
  {
  }

  /** The walk goes from one stop to the next without stopping in between. */
  lemma {:induction false} MetSkips(img: Image, blobs: seq<Span>, i: nat, x: nat, y: nat)
    requires i < |blobs| && Met(img, blobs, i, x) && Met(img, blobs, i, y) && x < y
    ensures IsRef(img, blobs, x) ==> x + 4 <= y
    decreases y
  {
    if y == blobs[i].lo {
      MetAfterLo(img, blobs, i, x);
    } else {
      var p := if !IsRef(img, blobs, y - 1) && Met(img, blobs, i, y - 1) then y - 1 else y - 4;
      if x < p {
        MetSkips(img, blobs, i, x, p);
      } else if p < x {
        MetSkips(img, blobs, i, p, x);
      }
    }
  }

  lemma {:induction false} MetAfterLo(img: Image, blobs: seq<Span>, i: nat, x: nat)
    requires i < |blobs| && Met(img, blobs, i, x)
    ensures blobs[i].lo <= x
    decreases x
  {
  }

  // ---- the assembly file ------------------------------------------------------------

  datatype Line = Zero(n: nat) | Label(name: string) | BlobMark(i: nat) | ByteRun(bs: seq<byte>) | Long(v: word)

  function Emitted(line: Line): seq<byte>
  {
    match line
    case Zero(n) => seq(n, i => 0)
    case Label(_) => []
    case BlobMark(_) => []
    case ByteRun(bs) => bs
    case Long(v) => Le32(v)
  }

  /** What the assembler makes of the file. */
  function Assemble(lines: seq<Line>): seq<byte>
  {
    if lines == [] then [] else Assemble(lines[..|lines| - 1]) + Emitted(lines[|lines| - 1])
  }

  /** The global symbols it defines and their offsets. */
  ghost function Labels(lines: seq<Line>): set<(string, nat)>
  {
    if lines == [] then {}
    else
      var before := lines[..|lines| - 1];
      match lines[|lines| - 1]
      case Label(name) => Labels(before) + {(name, |Assemble(before)|)}
      case _ => Labels(before)
  }

  lemma Snoc(lines: seq<Line>, line: Line)
    ensures Assemble(lines + [line]) == Assemble(lines) + Emitted(line)
    ensures Labels(lines + [line]) ==
            Labels(lines) + if line.Label? then {(line.name, |Assemble(lines)|)} else {}
  {
    assert (lines + [line])[..|lines|] == lines;
  }

  /** `flush`: write the pending bytes out, 24 to a line. */
  method Flush(lines: seq<Line>, run: seq<byte>) returns (lines': seq<Line>)
    ensures Assemble(lines') == Assemble(lines) + run && Labels(lines') == Labels(lines)
    ensures lines <= lines' && forall j :: |lines| <= j < |lines'| ==> lines'[j].ByteRun?
    ensures forall j :: |lines| <= j < |lines'| ==>
              0 < |lines'[j].bs| <= 24 && (j < |lines'| - 1 ==> |lines'[j].bs| == 24)
  {
    lines' := lines;
    var k := 0;
    while k < |run|
      invariant 0 <= k <= |run| && Labels(lines') == Labels(lines)
      invariant lines <= lines' && forall j :: |lines| <= j < |lines'| ==> lines'[j].ByteRun?
      invariant forall j :: |lines| <= j < |lines'| ==>
                  0 < |lines'[j].bs| <= 24 && (k < |run| || j < |lines'| - 1 ==> |lines'[j].bs| == 24)
      invariant Assemble(lines') == Assemble(lines) + run[..k]
    {
      var end := if k + 24 < |run| then k + 24 else |run|;
      Snoc(lines', ByteRun(run[k..end]));
      Rejoin(Assemble(lines), run, k, end);
      lines' := lines' + [ByteRun(run[k..end])];
      k := end;
    }
    assert run[..|run|] == run;
  }

  lemma Rejoin(a: seq<byte>, run: seq<byte>, k: nat, end: nat)
    requires k <= end <= |run|
    ensures a + run[..k] + run[k..end] == a + run[..end]
  {
    assert run[..k] + run[k..end] == run[..end];
  }

  // ---- labels -----------------------------------------------------------------------

  /** The needed symbols at an address, in order. */
  function NamesAt(need: seq<Symbol>, va: nat): seq<string>
  {
    if need == [] then []
    else
      var rest := NamesAt(need[..|need| - 1], va);
      var s := need[|need| - 1];
      if s.addr == va then rest + [s.name] else rest
  }

  lemma {:induction false} NamesAtHolds(need: seq<Symbol>, va: nat, name: string)
    ensures name in NamesAt(need, va) <==> exists k :: 0 <= k < |need| && need[k].addr == va && need[k].name == name
  {
    if need == [] {
    } else {
      var n := |need| - 1;
      NamesAtHolds(need[..n], va, name);
      if k :| 0 <= k < |need| && need[k].addr == va && need[k].name == name && k < n {
        assert need[..n][k] == need[k];
      }
    }
  }

  method CollectLabels(need: seq<Symbol>) returns (labels: map<nat, seq<string>>)
    ensures LabelsFor(need, labels)
  {
    labels := map[];
    var k := 0;
    while k < |need|
      invariant 0 <= k <= |need| && LabelsFor(need[..k], labels)
    {
      assert need[..k + 1][..k] == need[..k];
      var a := need[k].addr;
      labels := labels[a := (if a in labels then labels[a] else []) + [need[k].name]];
      k := k + 1;
    }
    assert need[..k] == need;
  }

  ghost predicate LabelsFor(need: seq<Symbol>, labels: map<nat, seq<string>>)
  {
    forall va :: NamesAt(need, va) == if va in labels then labels[va] else []
  }

  /** A symbol of blob `i` the walk has passed before `va`, at the offset of its datum. */
  ghost predicate Passed(img: Image, blobs: seq<Span>, need: seq<Symbol>, i: nat, va: nat, p: (string, nat))
    requires Proper(blobs) && i < |blobs|
  {
    exists x :: blobs[i].lo <= x < va && Met(img, blobs, i, x) && p.0 in NamesAt(need, x)
             && p.1 == StartOf(blobs, i) + (x - blobs[i].lo)
  }

  // ---- the region --------------------------------------------------------------------

  /** The region once the first `n` blobs are out. */
  function Region(img: Image, blobs: seq<Span>, n: nat): (bs: seq<byte>)
    requires Fits(img, blobs) && n <= |blobs|
    ensures |bs| == if n == 0 then 0 else EndOf(blobs, n - 1)
    decreases n, 0
  {
    if n == 0 then []
    else Padded(img, blobs, n - 1) + Content(img, blobs, n - 1, blobs[n - 1].lo)
  }

  /** ...and padded to where blob `n` starts. */
  function Padded(img: Image, blobs: seq<Span>, n: nat): (bs: seq<byte>)
    requires Fits(img, blobs) && n < |blobs|
    ensures |bs| == StartOf(blobs, n)
    decreases n, 1
  {
    var r := Region(img, blobs, n);
    r + seq(StartOf(blobs, n) - |r|, k => 0)
  }
}
