/** The ranges of code no instruction or table covers (tools/disasm.py, `gaps`).

    Every address an owned instruction or a recorded table takes up is marked in an
    array as long as the image; then each code section is scanned for its free ranges.
    What comes out is exactly what is free, in ranges that cannot be made longer, in
    the order of the sections.  It is what remains for a person to look at after the
    analysis, so a range too many or too few is a function missed or a table read as
    code. */
module Gaps {
  import opened Wrappers
  import opened DisasmWalk
  import Disasm
  import Blocklist

  /** An owned instruction or a table takes up the address. */
  ghost predicate Taken(an: Disasm.Analysis, va: nat)
    reads an
  {
    || (exists a :: a in an.insns && a in an.owner && a <= va < a + an.insns[a].size)
    || Blocklist.InRanges(an.jumptableRanges + an.indextableRanges, va)
  }

  /** Everything the analysis found lies in the image. */
  predicate InImage(an: Disasm.Analysis, base: nat, size: nat)
    reads an
  {
    && (forall a :: a in an.insns && a in an.owner ==> base <= a && a + an.insns[a].size <= base + size)
    && (forall i :: 0 <= i < |an.jumptableRanges + an.indextableRanges| ==>
          base <= (an.jumptableRanges + an.indextableRanges)[i].0
          && (an.jumptableRanges + an.indextableRanges)[i].1 <= base + size)
    && (forall i :: 0 <= i < |an.img.sections| ==>
          base <= an.img.sections[i].va && an.img.sections[i].end <= base + size)
  }

  method MarkRange(covered: array<bool>, lo: nat, hi: nat)
    requires hi <= covered.Length
    modifies covered
    ensures forall i :: 0 <= i < covered.Length ==> covered[i] == (old(covered[i]) || lo <= i < hi)
  {
    var i := lo;
    while i < hi
      invariant lo <= i <= hi || i == lo
      invariant forall k :: 0 <= k < covered.Length ==> covered[k] == (old(covered[k]) || lo <= k < i)
    {
      covered[i] := true;
      i := i + 1;
    }
  }

  ghost predicate ByInsn(an: Disasm.Analysis, from: set<nat>, va: nat)
    reads an
  {
    exists a :: a in from && a in an.insns && a in an.owner && a <= va < a + an.insns[a].size
  }

  method MarkInsns(an: Disasm.Analysis, base: nat, size: nat, covered: array<bool>)
    requires InImage(an, base, size) && covered.Length == size && forall i :: 0 <= i < size ==> !covered[i]
    modifies covered
    ensures forall i :: 0 <= i < size ==> (covered[i] <==> ByInsn(an, an.insns.Keys, base + i))
  {
    var todo := an.insns.Keys;
    while todo != {}
      invariant todo <= an.insns.Keys
      invariant forall i :: 0 <= i < size ==> (covered[i] <==> ByInsn(an, an.insns.Keys - todo, base + i))
      decreases |todo|
    {
      var a :| a in todo;
      ghost var done := an.insns.Keys - todo;
      todo := todo - {a};
      assert an.insns.Keys - todo == done + {a};
      if a in an.owner {
        MarkRange(covered, a - base, a - base + an.insns[a].size);
      }
    }
    assert an.insns.Keys - todo == an.insns.Keys;
  }

  method MarkRanges(ranges: seq<(nat, nat)>, base: nat, size: nat, covered: array<bool>)
    requires covered.Length == size
    requires forall i :: 0 <= i < |ranges| ==> base <= ranges[i].0 && ranges[i].1 <= base + size
    modifies covered
    ensures forall i :: 0 <= i < size ==> (covered[i] <==> old(covered[i]) || Blocklist.InRanges(ranges, base + i))
  {
    var k := 0;
    while k < |ranges|
      invariant 0 <= k <= |ranges|
      invariant forall i :: 0 <= i < size ==>
                  (covered[i] <==> old(covered[i]) || Blocklist.InRanges(ranges[..k], base + i))
    {
      ghost var before := covered[..];
      if ranges[k].0 < ranges[k].1 {
        MarkRange(covered, ranges[k].0 - base, ranges[k].1 - base);
      }
      forall i | 0 <= i < size
        ensures covered[i] <==> old(covered[i]) || Blocklist.InRanges(ranges[..k + 1], base + i)
      {
        RangesSnoc(ranges, k, base + i);
        assert before[i] <==> old(covered[i]) || Blocklist.InRanges(ranges[..k], base + i);
      }
      k := k + 1;
    }
    assert ranges[..|ranges|] == ranges;
  }

  lemma RangesSnoc(ranges: seq<(nat, nat)>, k: nat, va: nat)
    requires k < |ranges|
    ensures Blocklist.InRanges(ranges[..k + 1], va)
            <==> Blocklist.InRanges(ranges[..k], va) || ranges[k].0 <= va < ranges[k].1
  {
    if Blocklist.InRanges(ranges[..k], va) {
      var i :| 0 <= i < k && ranges[..k][i].0 <= va < ranges[..k][i].1;
      assert ranges[..k + 1][i] == ranges[..k][i];
    }
    if ranges[k].0 <= va < ranges[k].1 {
      assert ranges[..k + 1][k] == ranges[k];
    }
    if Blocklist.InRanges(ranges[..k + 1], va) {
      var i :| 0 <= i < k + 1 && ranges[..k + 1][i].0 <= va < ranges[..k + 1][i].1;
      assert i < k ==> ranges[..k][i] == ranges[..k + 1][i];
    }
  }

  // ---- one section ------------------------------------------------------------------

  predicate Free(covered: seq<bool>, lo: nat, hi: nat)
    requires hi <= |covered|
  {
    forall i :: lo <= i < hi ==> !covered[i]
  }

  /** A free range that cannot be made longer within lo..hi. */
  predicate Gap(covered: seq<bool>, lo: nat, hi: nat, g: (nat, nat))
    requires hi <= |covered|
  {
    && lo <= g.0 < g.1 <= hi && Free(covered, g.0, g.1)
    && (g.0 == lo || covered[g.0 - 1]) && (g.1 == hi || covered[g.1])
  }

  /** Exactly the gaps of lo..hi, in order: every free place is in one. */
  predicate GapsOf(covered: seq<bool>, lo: nat, hi: nat, gaps: seq<(nat, nat)>)
    requires hi <= |covered|
  {
    && (forall k :: 0 <= k < |gaps| ==> Gap(covered, lo, hi, gaps[k]))
    && (forall j, k :: 0 <= j < k < |gaps| ==> gaps[j].1 < gaps[k].0)
    && (forall i :: lo <= i < hi && !covered[i] ==> Blocklist.InRanges(gaps, i))
  }

  /** What the scan knows at `at`: the gaps closed, and perhaps one open. */
  predicate Scanned(covered: seq<bool>, lo: nat, at: nat, hi: nat, gaps: seq<(nat, nat)>, start: Option<nat>)
    requires lo <= at <= hi <= |covered|
  {
    && (forall k :: 0 <= k < |gaps| ==> Gap(covered, lo, hi, gaps[k]) && gaps[k].1 < at)
    && (forall j, k :: 0 <= j < k < |gaps| ==> gaps[j].1 < gaps[k].0)
    && (forall i :: lo <= i < at && !covered[i] ==> Blocklist.InRanges(gaps, i) || (start.Some? && start.value <= i))
    && (match start
        case None => at == lo || covered[at - 1]
        case Some(s) =>
          && lo <= s < at && Free(covered, s, at) && (s == lo || covered[s - 1])
          && forall k :: 0 <= k < |gaps| ==> gaps[k].1 < s)
  }

  lemma RangesPlus(gaps: seq<(nat, nat)>, g: (nat, nat), va: nat)
    ensures Blocklist.InRanges(gaps + [g], va) <==> Blocklist.InRanges(gaps, va) || g.0 <= va < g.1
  {
    RangesSnoc(gaps + [g], |gaps|, va);
    assert (gaps + [g])[..|gaps|] == gaps && (gaps + [g])[..|gaps| + 1] == gaps + [g];
  }

  /** Closing the open gap at `at`, where it ends. */
  lemma Closed(covered: seq<bool>, lo: nat, at: nat, hi: nat, gaps: seq<(nat, nat)>, s: nat)
    requires lo <= at <= hi <= |covered| && Scanned(covered, lo, at, hi, gaps, Some(s)) && (at == hi || covered[at])
    ensures forall k :: 0 <= k < |gaps| + 1 ==>
              Gap(covered, lo, hi, (gaps + [(s, at)])[k]) && (gaps + [(s, at)])[k].1 <= at
    ensures forall j, k :: 0 <= j < k < |gaps| + 1 ==> (gaps + [(s, at)])[j].1 < (gaps + [(s, at)])[k].0
    ensures forall i :: lo <= i < at && !covered[i] ==> Blocklist.InRanges(gaps + [(s, at)], i)
  {
    forall i | lo <= i < at && !covered[i]
      ensures Blocklist.InRanges(gaps + [(s, at)], i)
    {
      RangesPlus(gaps, (s, at), i);
    }
  }

  method SectionGaps(covered: array<bool>, lo: nat, hi: nat) returns (gaps: seq<(nat, nat)>)
    requires lo <= hi <= covered.Length
    ensures GapsOf(covered[..], lo, hi, gaps)
  {
    gaps := [];
    var start: Option<nat> := None;
    var at := lo;
    while at < hi
      invariant lo <= at <= hi
      invariant Scanned(covered[..], lo, at, hi, gaps, start)
    {
      if !covered[at] && start.None? {
        start := Some(at);
      } else if covered[at] && start.Some? {
        Closed(covered[..], lo, at, hi, gaps, start.value);
        gaps := gaps + [(start.value, at)];
        start := None;
      }
      at := at + 1;
    }
    if start.Some? {
      Closed(covered[..], lo, hi, hi, gaps, start.value);
      gaps := gaps + [(start.value, hi)];
    }
  }

  // ---- the image --------------------------------------------------------------------

  function Shifted(gaps: seq<(nat, nat)>, base: nat): seq<(nat, nat)>
  {
    seq(|gaps|, i requires 0 <= i < |gaps| => (gaps[i].0 + base, gaps[i].1 + base))
  }

  lemma ShiftedHolds(gaps: seq<(nat, nat)>, base: nat, o: nat)
    ensures Blocklist.InRanges(Shifted(gaps, base), base + o) <==> Blocklist.InRanges(gaps, o)
  {
    if Blocklist.InRanges(gaps, o) {
      var i :| 0 <= i < |gaps| && gaps[i].0 <= o < gaps[i].1;
      assert Shifted(gaps, base)[i] == (gaps[i].0 + base, gaps[i].1 + base);
    }
    if Blocklist.InRanges(Shifted(gaps, base), base + o) {
      var i :| 0 <= i < |gaps| && Shifted(gaps, base)[i].0 <= base + o < Shifted(gaps, base)[i].1;
      assert gaps[i].0 <= o < gaps[i].1;
    }
  }

  lemma RangesConcat(a: seq<(nat, nat)>, b: seq<(nat, nat)>, va: nat)
    ensures Blocklist.InRanges(a + b, va) <==> Blocklist.InRanges(a, va) || Blocklist.InRanges(b, va)
  {
    if Blocklist.InRanges(a, va) {
      var i :| 0 <= i < |a| && a[i].0 <= va < a[i].1;
      assert (a + b)[i] == a[i];
    }
    if Blocklist.InRanges(b, va) {
      var i :| 0 <= i < |b| && b[i].0 <= va < b[i].1;
      assert (a + b)[|a| + i] == b[i];
    }
  }

  /** Some code section among the first `n` has the address. */
  predicate InCode(secs: seq<Section>, n: nat, va: nat)
    requires n <= |secs|
  {
    exists i :: 0 <= i < n && secs[i].isCode && secs[i].va <= va < secs[i].end
  }

  /** A range of the section nothing takes, which cannot be made longer in it. */
  ghost predicate GapIn(an: Disasm.Analysis, s: Section, g: (nat, nat))
    reads an
  {
    && s.isCode && s.va <= g.0 < g.1 <= s.end && (forall va :: g.0 <= va < g.1 ==> !Taken(an, va))
    && (g.0 == s.va || Taken(an, g.0 - 1)) && (g.1 == s.end || Taken(an, g.1))
  }

  ghost predicate GapInSome(an: Disasm.Analysis, g: (nat, nat))
    reads an
  {
    exists i :: 0 <= i < |an.img.sections| && GapIn(an, an.img.sections[i], g)
  }

  /** `covered` says of every address of the image whether something takes it. */
  ghost predicate Marked(an: Disasm.Analysis, base: nat, covered: seq<bool>)
    reads an
  {
    forall i :: 0 <= i < |covered| ==> (covered[i] <==> Taken(an, base + i))
  }

  method MarkAll(an: Disasm.Analysis, base: nat, size: nat) returns (covered: array<bool>)
    requires InImage(an, base, size)
    ensures fresh(covered) && covered.Length == size && Marked(an, base, covered[..])
  {
    covered := new bool[size](i => false);
    MarkInsns(an, base, size, covered);
    MarkRanges(an.jumptableRanges + an.indextableRanges, base, size, covered);
  }

  lemma SectionGapsIn(an: Disasm.Analysis, base: nat, covered: seq<bool>, k: nat, gaps: seq<(nat, nat)>, g: (nat, nat))
    requires k < |an.img.sections| && Marked(an, base, covered)
    requires
      var s := an.img.sections[k];
      && s.isCode && base <= s.va <= s.end <= base + |covered|
      && GapsOf(covered, s.va - base, s.end - base, gaps) && g in Shifted(gaps, base)
    ensures GapInSome(an, g)
  {
    var s := an.img.sections[k];
    var j :| 0 <= j < |gaps| && Shifted(gaps, base)[j] == g;
    assert Gap(covered, s.va - base, s.end - base, gaps[j]);
    forall va | g.0 <= va < g.1
      ensures !Taken(an, va)
    {
      assert covered[va - base] <==> Taken(an, base + (va - base));
    }
    if g.0 != s.va {
      assert covered[g.0 - base - 1] <==> Taken(an, base + (g.0 - base - 1));
    }
    if g.1 != s.end {
      assert covered[g.1 - base] <==> Taken(an, base + (g.1 - base));
    }
    assert GapIn(an, s, g);
  }

  /** In a section, the gaps hold exactly what is free. */
  lemma GapsHoldFree(covered: seq<bool>, lo: nat, hi: nat, gaps: seq<(nat, nat)>, i: nat)
    requires hi <= |covered| && GapsOf(covered, lo, hi, gaps)
    ensures Blocklist.InRanges(gaps, i) <==> lo <= i < hi && !covered[i]
  {
    if Blocklist.InRanges(gaps, i) {
      var k :| 0 <= k < |gaps| && gaps[k].0 <= i < gaps[k].1;
      assert Gap(covered, lo, hi, gaps[k]);
    }
  }

  /** Every address of code that no owned instruction and no table takes up is in one of
      the ranges, nothing else is, and no range could be longer in its section. */
  method Gaps(an: Disasm.Analysis, base: nat, size: nat) returns (out: seq<(nat, nat)>)
    requires InImage(an, base, size)
    ensures forall va ::
              Blocklist.InRanges(out, va) <==> InCode(an.img.sections, |an.img.sections|, va) && !Taken(an, va)
    ensures forall g :: g in out ==> GapInSome(an, g)
  {
    var covered := MarkAll(an, base, size);
    out := [];
    var k := 0;
    while k < |an.img.sections|
      invariant 0 <= k <= |an.img.sections| && Marked(an, base, covered[..])
      invariant forall va :: Blocklist.InRanges(out, va) <==> InCode(an.img.sections, k, va) && !Taken(an, va)
      invariant forall g :: g in out ==> GapInSome(an, g)
    {
      out := AddSection(an, base, size, covered, k, out);
      k := k + 1;
    }
  }

  method AddSection(an: Disasm.Analysis, base: nat, size: nat, covered: array<bool>, k: nat, out: seq<(nat, nat)>)
    returns (more: seq<(nat, nat)>)
    requires InImage(an, base, size) && covered.Length == size && Marked(an, base, covered[..]) && k < |an.img.sections|
    requires forall va :: Blocklist.InRanges(out, va) <==> InCode(an.img.sections, k, va) && !Taken(an, va)
    requires forall g :: g in out ==> GapInSome(an, g)
    ensures forall va :: Blocklist.InRanges(more, va) <==> InCode(an.img.sections, k + 1, va) && !Taken(an, va)
    ensures forall g :: g in more ==> GapInSome(an, g)
  {
    var s := an.img.sections[k];
    more := out;
    if s.isCode && s.va < s.end {
      var gaps := SectionGaps(covered, s.va - base, s.end - base);
      more := out + Shifted(gaps, base);
      forall g | g in more
        ensures GapInSome(an, g)
      {
        if g !in out {
          SectionGapsIn(an, base, covered[..], k, gaps, g);
        }
      }
      forall va
        ensures Blocklist.InRanges(more, va) <==> InCode(an.img.sections, k + 1, va) && !Taken(an, va)
      {
        AddedHolds(an, base, covered[..], k, out, gaps, va);
      }
    }
  }

  lemma AddedHolds(an: Disasm.Analysis, base: nat, covered: seq<bool>, k: nat, out: seq<(nat, nat)>, gaps: seq<(nat,
                   nat)>, va: nat)
    requires Marked(an, base, covered) && k < |an.img.sections|
    requires Blocklist.InRanges(out, va) <==> InCode(an.img.sections, k, va) && !Taken(an, va)
    requires
      var s := an.img.sections[k];
      s.isCode && base <= s.va <= s.end <= base + |covered| && GapsOf(covered, s.va - base, s.end - base, gaps)
    ensures Blocklist.InRanges(out + Shifted(gaps, base), va) <==> InCode(an.img.sections, k + 1, va) && !Taken(an, va)
  {
    var s := an.img.sections[k];
    RangesConcat(out, Shifted(gaps, base), va);
    if va >= base {
      ShiftedHolds(gaps, base, va - base);
      GapsHoldFree(covered, s.va - base, s.end - base, gaps, va - base);
      if va - base < |covered| {
        assert covered[va - base] <==> Taken(an, base + (va - base));
      }
    }
  }

  /** After a whole analysis, what is taken up is every byte of every instruction of an
      analysed function, and every byte of a table. */
  lemma TakenIs(an: Disasm.Analysis, va: nat)
    requires an.Valid() && Disasm.Owned(an.funcs, an.owner)
    ensures Taken(an, va) <==>
              || (exists e, a :: e in an.funcs && a in an.funcs[e].insns && a <= va < a + Got(an.img, a).size)
              || Blocklist.InRanges(an.jumptableRanges, va) || Blocklist.InRanges(an.indextableRanges, va)
  {
    BothRanges(an.jumptableRanges, an.indextableRanges, va);
    if a :| a in an.insns && a in an.owner && a <= va < a + an.insns[a].size {
      assert Disasm.OwnedAt(an.funcs, an.owner, a) && a in an.funcs[an.owner[a]].insns;
      assert Got(an.img, a) == an.insns[a];
    }
    if e, a :| e in an.funcs && a in an.funcs[e].insns && a <= va < a + Got(an.img, a).size {
      assert Disasm.OwnedAt(an.funcs, an.owner, a);
      assert Got(an.img, a) == an.insns[a];
    }
  }

  lemma BothRanges(s: seq<(nat, nat)>, t: seq<(nat, nat)>, va: nat)
    ensures Blocklist.InRanges(s + t, va) <==> Blocklist.InRanges(s, va) || Blocklist.InRanges(t, va)
  {
    var both := s + t;
    if i :| 0 <= i < |s| && s[i].0 <= va < s[i].1 {
      assert both[i] == s[i];
    }
    if i :| 0 <= i < |t| && t[i].0 <= va < t[i].1 {
      assert both[|s| + i] == t[i];
    }
    if i :| 0 <= i < |both| && both[i].0 <= va < both[i].1 {
      if i < |s| {
        assert s[i] == both[i];
      } else {
        assert t[i - |s|] == both[i];
      }
    }
  }
}
