/** Writing the assembly file (tools/gen_data.py, `main` from the label table on). */
module RelinkEmit {
  import opened Wrappers
  import opened Bytes
  import opened Layout
  import opened Relinker

  /** `now` is `was` with `names` added at offset `off`. */
  ghost predicate Added(was: set<(string, nat)>, now: set<(string, nat)>, names: seq<string>, off: nat)
  {
    forall p :: AddedOne(was, now, names, off, p)
  }

  ghost predicate AddedOne(was: set<(string, nat)>, now: set<(string, nat)>, names: seq<string>, off: nat,
                           p: (string, nat))
  {
    p in now <==> p in was || (p.0 in names && p.1 == off)
  }

  method EmitLabels(lines: seq<Line>, names: seq<string>) returns (lines': seq<Line>)
    ensures Assemble(lines') == Assemble(lines)
    ensures Added(Labels(lines), Labels(lines'), names, |Assemble(lines)|)
  {
    lines' := lines;
    var k := 0;
    while k < |names|
      invariant 0 <= k <= |names| && Assemble(lines') == Assemble(lines)
      invariant Added(Labels(lines), Labels(lines'), names[..k], |Assemble(lines)|)
    {
      Snoc(lines', Label(names[k]));
      AddedSnoc(Labels(lines), Labels(lines'), names, k, |Assemble(lines)|);
      lines' := lines' + [Label(names[k])];
      k := k + 1;
    }
    assert names[..k] == names;
  }

  lemma AddedSnoc(was: set<(string, nat)>, now: set<(string, nat)>, names: seq<string>, k: nat, off: nat)
    requires k < |names| && Added(was, now, names[..k], off)
    ensures Added(was, now + {(names[k], off)}, names[..k + 1], off)
  {
    assert names[..k + 1] == names[..k] + [names[k]];
    var (next, more) := (now + {(names[k], off)}, names[..k + 1]);
    forall p
      ensures AddedOne(was, next, more, off, p)
    {
      assert AddedOne(was, now, names[..k], off, p);
    }
  }

  /** A label is passed when the walk steps over its address. */
  lemma PassedStep(img: Image, blobs: seq<Span>, need: seq<Symbol>, i: nat, va: nat, next: nat, p: (string, nat))
    requires Proper(blobs) && i < |blobs| && blobs[i].lo <= va && Met(img, blobs, i, va)
    requires next == Next(img, blobs, va)
    ensures Passed(img, blobs, need, i, next, p) <==>
              Passed(img, blobs, need, i, va, p)
              || (p.0 in NamesAt(need, va) && p.1 == StartOf(blobs, i) + (va - blobs[i].lo))
  {
    if x :| blobs[i].lo <= x < next && Met(img, blobs, i, x) && p.0 in NamesAt(need, x)
            && p.1 == StartOf(blobs, i) + (x - blobs[i].lo) {
      if va < x {
        MetSkips(img, blobs, i, va, x);
      }
    }
  }

  function Next(img: Image, blobs: seq<Span>, va: nat): nat
  {
    if IsRef(img, blobs, va) then va + 4 else va + 1
  }

  /** The labels after the walk over blob `i` has come to `va`. */
  ghost predicate LabelsTo(img: Image, blobs: seq<Span>, need: seq<Symbol>, i: nat, va: nat,
                           was: set<(string, nat)>, now: set<(string, nat)>)
    requires Proper(blobs) && i < |blobs|
  {
    forall p :: LabelTo(img, blobs, need, i, va, was, now, p)
  }

  ghost predicate LabelTo(img: Image, blobs: seq<Span>, need: seq<Symbol>, i: nat, va: nat,
                          was: set<(string, nat)>, now: set<(string, nat)>, p: (string, nat))
    requires Proper(blobs) && i < |blobs|
  {
    p in now <==> p in was || Passed(img, blobs, need, i, va, p)
  }

  lemma LabelsToStep(img: Image, blobs: seq<Span>, need: seq<Symbol>, i: nat, va: nat,
                     was: set<(string, nat)>, mid: set<(string, nat)>, now: set<(string, nat)>)
    requires Proper(blobs) && i < |blobs| && blobs[i].lo <= va && Met(img, blobs, i, va)
    requires LabelsTo(img, blobs, need, i, va, was, mid)
    requires Added(mid, now, NamesAt(need, va), StartOf(blobs, i) + (va - blobs[i].lo))
    ensures LabelsTo(img, blobs, need, i, Next(img, blobs, va), was, now)
  {
    var next := Next(img, blobs, va);
    forall p
      ensures LabelTo(img, blobs, need, i, next, was, now, p)
    {
      PassedStep(img, blobs, need, i, va, next, p);
      assert LabelTo(img, blobs, need, i, va, was, mid, p);
      assert AddedOne(mid, now, NamesAt(need, va), StartOf(blobs, i) + (va - blobs[i].lo), p);
    }
  }

  method EmitBlob(img: Image, blobs: seq<Span>, starts: seq<nat>, i: nat, labels: map<nat, seq<string>>,
                  refs: set<nat>, ghost need: seq<Symbol>, lines: seq<Line>)
    returns (lines': seq<Line>)
    requires Fits(img, blobs) && i < |blobs| && StartsAre(blobs, starts) && LabelsFor(need, labels)
    requires RefsAre(img, blobs, refs)
    requires |Assemble(lines)| == StartOf(blobs, i)
    ensures Assemble(lines') == Assemble(lines) + Content(img, blobs, i, blobs[i].lo)
    ensures LabelsTo(img, blobs, need, i, blobs[i].hi, Labels(lines), Labels(lines'))
  {
    var lo, hi := blobs[i].lo, blobs[i].hi;
    var va, run: seq<byte> := lo, [];
    lines' := lines;
    ghost var whole := Assemble(lines) + Content(img, blobs, i, lo);
    NothingPassed(img, blobs, need, i, Labels(lines));
    assert Assemble(lines) + run == Assemble(lines);
    while va < hi
      invariant lo <= va <= hi && Met(img, blobs, i, va)
      invariant Assemble(lines') + run + Content(img, blobs, i, va) == whole
      invariant |Assemble(lines')| + |run| == StartOf(blobs, i) + (va - lo)
      invariant LabelsTo(img, blobs, need, i, va, Labels(lines), Labels(lines'))
      decreases hi - va
    {
      lines', run, va := EmitAt(img, blobs, starts, i, labels, refs, need, lines', run, va, Labels(lines));
    }
    assert Content(img, blobs, i, va) == [];
    lines' := Flush(lines', run);
  }

  /** One turn of the walk. */
  method EmitAt(img: Image, blobs: seq<Span>, starts: seq<nat>, i: nat, labels: map<nat, seq<string>>,
                refs: set<nat>, ghost need: seq<Symbol>, lines: seq<Line>, run: seq<byte>, va: nat,
                ghost was: set<(string, nat)>)
    returns (lines': seq<Line>, run': seq<byte>, va': nat)
    requires Fits(img, blobs) && i < |blobs| && StartsAre(blobs, starts) && LabelsFor(need, labels)
    requires RefsAre(img, blobs, refs)
    requires blobs[i].Has(va) && Met(img, blobs, i, va)
    requires |Assemble(lines)| + |run| == StartOf(blobs, i) + (va - blobs[i].lo)
    requires LabelsTo(img, blobs, need, i, va, was, Labels(lines))
    ensures va < va' <= blobs[i].hi && Met(img, blobs, i, va')
    ensures Assemble(lines') + run' + Content(img, blobs, i, va') == Assemble(lines) + run + Content(img, blobs, i, va)
    ensures |Assemble(lines')| + |run'| == StartOf(blobs, i) + (va' - blobs[i].lo)
    ensures LabelsTo(img, blobs, need, i, va', was, Labels(lines'))
  {
    lines', run' := EmitLabelsAt(labels, need, lines, run, va);
    LabelsToStep(img, blobs, need, i, va, was, Labels(lines), Labels(lines'));
    assert |Assemble(lines')| + |run'| == |Assemble(lines') + run'| == |Assemble(lines) + run|;
    lines', run', va' := EmitDatum(img, blobs, starts, i, refs, lines', run', va);
    MetNext(img, blobs, i, va);
  }

  lemma MetNext(img: Image, blobs: seq<Span>, i: nat, va: nat)
    requires i < |blobs| && blobs[i].lo <= va && Met(img, blobs, i, va)
    ensures Met(img, blobs, i, Next(img, blobs, va))
  {
  }

  lemma NothingPassed(img: Image, blobs: seq<Span>, need: seq<Symbol>, i: nat, was: set<(string, nat)>)
    requires Proper(blobs) && i < |blobs|
    ensures LabelsTo(img, blobs, need, i, blobs[i].lo, was, was)
  {
    var lo := blobs[i].lo;
    forall p
      ensures LabelTo(img, blobs, need, i, lo, was, was, p)
    {
    }
  }

  predicate StartsAre(blobs: seq<Span>, starts: seq<nat>)
    requires Proper(blobs)
  {
    |starts| == |blobs| && forall k :: 0 <= k < |blobs| ==> starts[k] == StartOf(blobs, k)
  }

  ghost predicate RefsAre(img: Image, blobs: seq<Span>, refs: set<nat>)
  {
    forall r :: r in refs <==> IsRef(img, blobs, r)
  }

  /** The labels at `va`, with the pending bytes written out first. */
  method EmitLabelsAt(labels: map<nat, seq<string>>, ghost need: seq<Symbol>, lines: seq<Line>, run: seq<byte>, va: nat)
    returns (lines': seq<Line>, run': seq<byte>)
    requires LabelsFor(need, labels)
    ensures Assemble(lines') + run' == Assemble(lines) + run
    ensures Added(Labels(lines), Labels(lines'), NamesAt(need, va), |Assemble(lines)| + |run|)
  {
    lines', run' := lines, run;
    assert NamesAt(need, va) == if va in labels then labels[va] else [];
    if va in labels {
      lines' := Flush(lines', run');
      run' := [];
      lines' := EmitLabels(lines', labels[va]);
    }
  }

  /** The datum at `va`: a rewritten word, or one byte more in the pending run. */
  method EmitDatum(img: Image, blobs: seq<Span>, starts: seq<nat>, i: nat, refs: set<nat>,
                   lines: seq<Line>, run: seq<byte>, va: nat)
    returns (lines': seq<Line>, run': seq<byte>, va': nat)
    requires Fits(img, blobs) && i < |blobs| && StartsAre(blobs, starts) && RefsAre(img, blobs, refs)
    requires blobs[i].Has(va)
    ensures va' == Next(img, blobs, va) && va' <= blobs[i].hi
    ensures Assemble(lines') + run' + Content(img, blobs, i, va') == Assemble(lines) + run + Content(img, blobs, i, va)
    ensures |Assemble(lines')| + |run'| == |Assemble(lines)| + |run| + (va' - va)
    ensures Labels(lines') == Labels(lines)
  {
    hide Content, Assemble, Labels, Rewritten, Le32;
    ContentNext(img, blobs, i, va);
    if va in refs {
      RefWhole(img, blobs, i, va);
      lines' := Flush(lines, run);
      lines' := EmitWord(img, blobs, starts, va, lines');
      run', va' := [], va + 4;
      assert Assemble(lines') + run' == Assemble(lines');
      Regroup(Assemble(lines) + run, Le32(Rewritten(blobs, WordAt(img, va))), Content(img, blobs, i, va'));
    } else {
      lines', run', va' := lines, run + [ByteAt(img, va)], va + 1;
      Regroup(Assemble(lines) + run, [ByteAt(img, va)], Content(img, blobs, i, va'));
      Regroup(Assemble(lines), run, [ByteAt(img, va)]);
    }
  }

  lemma ContentNext(img: Image, blobs: seq<Span>, i: nat, va: nat)
    requires Fits(img, blobs) && i < |blobs| && blobs[i].Has(va)
    ensures IsRef(img, blobs, va) ==>
              && va + 4 <= blobs[i].hi && Rewritten(blobs, WordAt(img, va)) < WORD
              && |Le32(Rewritten(blobs, WordAt(img, va)))| == 4
              && Content(img, blobs, i, va)
                 == Le32(Rewritten(blobs, WordAt(img, va))) + Content(img, blobs, i, va + 4)
    ensures !IsRef(img, blobs, va) ==>
              Content(img, blobs, i, va) == [ByteAt(img, va)] + Content(img, blobs, i, va + 1)
  {
    if IsRef(img, blobs, va) {
      RefWhole(img, blobs, i, va);
      RewrittenFits(img, blobs, WordAt(img, va));
    }
  }

  method EmitWord(img: Image, blobs: seq<Span>, starts: seq<nat>, va: nat, lines: seq<Line>)
    returns (lines': seq<Line>)
    requires Fits(img, blobs) && StartsAre(blobs, starts)
    requires img.base <= va && va + 4 <= img.base + |img.mem|
    ensures Rewritten(blobs, WordAt(img, va)) < WORD
    ensures Assemble(lines') == Assemble(lines) + Le32(Rewritten(blobs, WordAt(img, va)))
    ensures Labels(lines') == Labels(lines)
  {
    var t := WordAt(img, va);
    var w := RewrittenOf(img, blobs, starts, t);
    AddLong(lines, w);
    lines' := lines + [Long(w)];
  }

  lemma AddLong(lines: seq<Line>, w: word)
    ensures Assemble(lines + [Long(w)]) == Assemble(lines) + Le32(w) && Labels(lines + [Long(w)]) == Labels(lines)
  {
    Snoc(lines, Long(w));
  }

  method RewrittenOf(img: Image, blobs: seq<Span>, starts: seq<nat>, t: word) returns (w: nat)
    requires Fits(img, blobs) && StartsAre(blobs, starts)
    ensures w == Rewritten(blobs, t) < WORD
  {
    var j, off := Find(blobs, t);
    RewrittenFits(img, blobs, t);
    w := if j.None? then t else starts[j.value] + off;
  }

  method FilterRelocs(img: Image, blobs: seq<Span>) returns (refs: set<nat>)
    requires Apart(blobs)
    ensures RefsAre(img, blobs, refs)
  {
    refs := {};
    var rest := img.relocs;
    while rest != {}
      invariant rest <= img.relocs
      invariant forall r :: r in refs <==> r in img.relocs - rest && IsRef(img, blobs, r)
      decreases |rest|
    {
      var r :| r in rest;
      rest := rest - {r};
      var i, off := Find(blobs, r);
      if i.Some? && r + 4 <= blobs[i.value].hi {
        refs := refs + {r};
      }
    }
  }

  /** The labels of the first `n` blobs, and the two spellings of the region's own. */
  ghost predicate LabelsUpTo(img: Image, blobs: seq<Span>, need: seq<Symbol>, prefix: string, n: nat,
                             now: set<(string, nat)>)
    requires Proper(blobs) && n <= |blobs|
  {
    forall p :: LabelUpTo(img, blobs, need, prefix, n, now, p)
  }

  ghost predicate LabelUpTo(img: Image, blobs: seq<Span>, need: seq<Symbol>, prefix: string, n: nat,
                            now: set<(string, nat)>, p: (string, nat))
    requires Proper(blobs) && n <= |blobs|
  {
    p in now <==>
      (p.0 in [prefix + "tv_data", "_" + prefix + "tv_data"] && p.1 == 0)
      || exists i :: 0 <= i < n && Passed(img, blobs, need, i, blobs[i].hi, p)
  }

  lemma LabelsUpToStep(img: Image, blobs: seq<Span>, need: seq<Symbol>, prefix: string, n: nat,
                       was: set<(string, nat)>, now: set<(string, nat)>)
    requires Proper(blobs) && n < |blobs|
    requires LabelsUpTo(img, blobs, need, prefix, n, was)
    requires LabelsTo(img, blobs, need, n, blobs[n].hi, was, now)
    ensures LabelsUpTo(img, blobs, need, prefix, n + 1, now)
  {
    var m := n + 1;
    forall p
      ensures LabelUpTo(img, blobs, need, prefix, m, now, p)
    {
      assert LabelUpTo(img, blobs, need, prefix, n, was, p);
      assert LabelTo(img, blobs, need, n, blobs[n].hi, was, now, p);
    }
  }

  method CollectFunctions(need: seq<Symbol>) returns (names: seq<string>)
    ensures names == Functions(need)
  {
    names := [];
    var i := 0;
    while i < |need|
      invariant 0 <= i <= |need| && names == Functions(need[..i])
    {
      assert need[..i + 1][..i] == need[..i];
      if need[i].isFunc {
        names := names + [need[i].name];
      }
      i := i + 1;
    }
    assert need[..i] == need;
  }

  /** The whole file, or why there is none: code among the needed symbols, or a datum of
      unknown size.  Assembled it is the region; its symbols are the region's start and,
      at the offset of its datum, every needed symbol the walk came across. */
  method Generate(img: Image, need: seq<Symbol>, prefix: string) returns (r: Result<seq<Line>>)
    requires BlobsOf(img.sections, need).Ok? ==> Fits(img, BlobsOf(img.sections, need).value)
    ensures Functions(need) != [] ==> r == Err(IsCode(Functions(need)))
    ensures Functions(need) == [] && BlobsOf(img.sections, need).Err? ==>
              r == Err(BlobsOf(img.sections, need).error)
    ensures r.Ok? <==> Functions(need) == [] && BlobsOf(img.sections, need).Ok?
    ensures r.Ok? ==>
              var blobs := BlobsOf(img.sections, need).value;
              && Assemble(r.value) == Region(img, blobs, |blobs|)
              && LabelsUpTo(img, blobs, need, prefix, |blobs|, Labels(r.value))
  {
    var functions := CollectFunctions(need);
    if functions != [] {
      return Err(IsCode(functions));
    }
    var spans := CollectSpans(img.sections, need);
    if spans.Err? {
      return Err(spans.error);
    }
    SortSorts(spans.value);
    SortProper(spans.value);
    var blobs := Merge(Sort(spans.value));
    var lines := EmitAll(img, need, prefix, blobs);
    return Ok(lines);
  }

  method EmitAll(img: Image, need: seq<Symbol>, prefix: string, blobs: seq<Span>) returns (lines: seq<Line>)
    requires Fits(img, blobs)
    ensures Assemble(lines) == Region(img, blobs, |blobs|)
    ensures LabelsUpTo(img, blobs, need, prefix, |blobs|, Labels(lines))
  {
    var labels := CollectLabels(need);
    var refs := FilterRelocs(img, blobs);
    var starts, total := Place(blobs);
    lines := EmitLabels([], [prefix + "tv_data", "_" + prefix + "tv_data"]);
    RegionLabels(img, blobs, need, prefix, Labels(lines));
    var here, i := 0, 0;
    while i < |blobs|
      invariant 0 <= i <= |blobs| && here == |Region(img, blobs, i)|
      invariant Assemble(lines) == Region(img, blobs, i)
      invariant LabelsUpTo(img, blobs, need, prefix, i, Labels(lines))
    {
      lines := EmitPadding(img, blobs, i, starts[i], here, lines);
      here := starts[i] + (blobs[i].hi - blobs[i].lo);
      ghost var was := Labels(lines);
      lines := EmitBlob(img, blobs, starts, i, labels, refs, need, lines);
      LabelsUpToStep(img, blobs, need, prefix, i, was, Labels(lines));
      i := i + 1;
    }
  }

  lemma RegionLabels(img: Image, blobs: seq<Span>, need: seq<Symbol>, prefix: string, now: set<(string, nat)>)
    requires Proper(blobs) && Added({}, now, [prefix + "tv_data", "_" + prefix + "tv_data"], 0)
    ensures LabelsUpTo(img, blobs, need, prefix, 0, now)
  {
    forall p
      ensures LabelUpTo(img, blobs, need, prefix, 0, now, p)
    {
      assert AddedOne({}, now, [prefix + "tv_data", "_" + prefix + "tv_data"], 0, p);
    }
  }

  method EmitPadding(img: Image, blobs: seq<Span>, i: nat, start: nat, here: nat, lines: seq<Line>)
    returns (lines': seq<Line>)
    requires Fits(img, blobs) && i < |blobs| && start == StartOf(blobs, i)
    requires here == |Region(img, blobs, i)| && Assemble(lines) == Region(img, blobs, i)
    ensures Assemble(lines') == Padded(img, blobs, i) && Labels(lines') == Labels(lines)
  {
    lines' := lines;
    if start > here {
      Snoc(lines', Zero(start - here));
      lines' := lines' + [Zero(start - here)];
    }
    assert Assemble(lines') == Padded(img, blobs, i);
    Snoc(lines', BlobMark(i));
    lines' := lines' + [BlobMark(i)];
  }
}
