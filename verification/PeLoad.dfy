/** Loading a PE image (harness/peload.c): copying its sections and, when it does not
    get the base it prefers, moving its addresses.

    The relocation table's layout is that of the .reloc section in the Microsoft PE
    Format specification; memory is the image's own bytes, and addresses in them are
    32-bit words. */
module PeLoad {
  import opened Bytes
  import opened Segments
  import opened Wrappers

  // ---- sections ---------------------------------------------------------------------

  datatype Section = Section(va: nat, vsize: nat, raw: nat, rawSize: nat)

  /** How much of a section comes from the file. */
  function FromFile(s: Section): (n: nat)
    ensures n <= s.rawSize && (s.vsize != 0 ==> n <= s.vsize)
    ensures n < s.rawSize ==> n == s.vsize && n != 0
  {
    if s.rawSize > s.vsize && s.vsize != 0 then s.vsize else s.rawSize
  }

  predicate InFile(s: Section, file: seq<byte>, size: nat)
  {
    s.raw + FromFile(s) <= |file| && s.va + FromFile(s) <= size
  }

  /** Two sections take different parts of the image. */
  predicate Apart(s: Section, t: Section)
  {
    s.va + FromFile(s) <= t.va || t.va + FromFile(t) <= s.va
  }

  predicate AllApart(secs: seq<Section>)
  {
    forall i, j :: 0 <= i < j < |secs| ==> Apart(secs[i], secs[j])
  }

  /** A section's bytes from the file stand at its address. */
  predicate Stands(m: seq<byte>, s: Section, file: seq<byte>)
  {
    s.raw + FromFile(s) <= |file| && Seg(m, s.va, file[s.raw..s.raw + FromFile(s)])
  }

  predicate AllInFile(secs: seq<Section>, file: seq<byte>, size: nat)
  {
    forall i :: 0 <= i < |secs| ==> InFile(secs[i], file, size)
  }

  /** The byte at `o` once the first `n` sections are copied: from the last of them that
      covers it, or what was there. */
  function ByteAfter(was: seq<byte>, file: seq<byte>, secs: seq<Section>, n: nat, o: nat): byte
    requires n <= |secs| && AllInFile(secs, file, |was|) && o < |was|
  {
    if n == 0 then was[o]
    else
      var s := secs[n - 1];
      if Covers(s, o) then
        assert InFile(s, file, |was|);
        file[s.raw + (o - s.va)]
      else ByteAfter(was, file, secs, n - 1, o)
  }

  predicate Loaded(was: seq<byte>, m: seq<byte>, file: seq<byte>, secs: seq<Section>, n: nat)
    requires n <= |secs| && AllInFile(secs, file, |was|)
  {
    |m| == |was| && forall o :: 0 <= o < |m| ==> m[o] == ByteAfter(was, file, secs, n, o)
  }

  lemma LoadedNext(was: seq<byte>, b: seq<byte>, c: seq<byte>, file: seq<byte>, secs: seq<Section>, n: nat)
    requires n < |secs| && AllInFile(secs, file, |was|) && Loaded(was, b, file, secs, n)
    requires |c| == |b| && Stands(c, secs[n], file)
    requires forall o :: 0 <= o < |b| && !Covers(secs[n], o) ==> c[o] == b[o]
    ensures Loaded(was, c, file, secs, n + 1)
  {
    var s := secs[n];
    forall o | 0 <= o < |c|
      ensures c[o] == ByteAfter(was, file, secs, n + 1, o)
    {
      if Covers(s, o) {
        assert c[s.va..s.va + FromFile(s)][o - s.va] == file[s.raw..s.raw + FromFile(s)][o - s.va];
      }
    }
  }

  method CopySections(mem: array<byte>, file: seq<byte>, secs: seq<Section>)
    requires AllInFile(secs, file, mem.Length)
    modifies mem
    ensures Loaded(old(mem[..]), mem[..], file, secs, |secs|)
  {
    hide Stands, Loaded;
    ghost var was := mem[..];
    var i := 0;
    NothingLoaded(was, file, secs);
    while i < |secs|
      invariant 0 <= i <= |secs|
      invariant Loaded(was, mem[..], file, secs, i)
    {
      ghost var before := mem[..];
      CopySection(mem, file, secs[i]);
      LoadedNext(was, before, mem[..], file, secs, i);
      i := i + 1;
    }
  }

  lemma NothingLoaded(was: seq<byte>, file: seq<byte>, secs: seq<Section>)
    requires AllInFile(secs, file, |was|)
    ensures Loaded(was, was, file, secs, 0)
  {
  }

  lemma {:induction false} ByteOfSection(was: seq<byte>, file: seq<byte>, secs: seq<Section>, n: nat, i: nat, o: nat)
    requires i < n <= |secs| && AllInFile(secs, file, |was|) && AllApart(secs) && o < |was| && Covers(secs[i], o)
    ensures secs[i].raw + (o - secs[i].va) < |file|
    ensures ByteAfter(was, file, secs, n, o) == file[secs[i].raw + (o - secs[i].va)]
  {
    assert InFile(secs[i], file, |was|);
    if i == n - 1 {
    } else {
      assert Apart(secs[i], secs[n - 1]);
      ByteOfSection(was, file, secs, n - 1, i, o);
    }
  }

  /** Sections that do not overlap all stand at their addresses. */
  lemma SectionsStand(was: seq<byte>, m: seq<byte>, file: seq<byte>, secs: seq<Section>, i: nat)
    requires AllInFile(secs, file, |was|) && AllApart(secs) && i < |secs| && Loaded(was, m, file, secs, |secs|)
    ensures Stands(m, secs[i], file)
  {
    var s := secs[i];
    assert InFile(s, file, |was|);
    var there, given := m[s.va..s.va + FromFile(s)], file[s.raw..s.raw + FromFile(s)];
    forall k: nat | k < |there|
      ensures there[k] == given[k]
    {
      ByteOfSection(was, file, secs, |secs|, i, s.va + k);
    }
    assert there == given;
  }

  method CopySection(mem: array<byte>, file: seq<byte>, s: Section)
    requires InFile(s, file, mem.Length)
    modifies mem
    ensures Stands(mem[..], s, file)
    ensures forall o :: 0 <= o < mem.Length && !Covers(s, o) ==> mem[..][o] == old(mem[..])[o]
  {
    var n := FromFile(s);
    if n != 0 {
      CopyIn(mem, s.va, file[s.raw..s.raw + n]);
    }
  }

  predicate Covers(s: Section, o: nat)
  {
    s.va <= o < s.va + FromFile(s)
  }

  method CopyIn(mem: array<byte>, at: nat, s: seq<byte>)
    requires at + |s| <= mem.Length
    modifies mem
    ensures Seg(mem[..], at, s)
    ensures forall o :: 0 <= o < mem.Length && !(at <= o < at + |s|) ==> mem[o] == old(mem[o])
  {
    forall i | 0 <= i < |s| {
      mem[at + i] := s[i];
    }
  }

  // ---- relocations ------------------------------------------------------------------

  const HIGHLOW := 3

  /** The words one block lists, from entry `i` on. */
  function EntrySites(m: seq<byte>, p: nat, i: nat, count: nat): seq<nat>
    requires i <= count && p + 8 + 2 * count <= |m|
    decreases count - i
  {
    if i == count then []
    else
      var e := Rd16(m, p + 8 + 2 * i);
      (if e / 4096 == HIGHLOW then [Rd32(m, p) + e % 4096] else []) + EntrySites(m, p, i + 1, count)
  }

  /** Blocks one after another up to `end`, or to one of size 0. */
  predicate Formed(m: seq<byte>, p: nat, end: nat)
    decreases end - p
  {
    p >= end
    || (p + 8 <= end <= |m|
        && (Rd32(m, p + 4) == 0
            || (Rd32(m, p + 4) >= 8 && p + Rd32(m, p + 4) <= end && Formed(m, p + Rd32(m, p + 4), end))))
  }

  /** All the words the table lists. */
  function Sites(m: seq<byte>, p: nat, end: nat): seq<nat>
    requires Formed(m, p, end)
    decreases end - p
  {
    if p >= end || Rd32(m, p + 4) == 0 then []
    else EntrySites(m, p, 0, (Rd32(m, p + 4) - 8) / 2) + Sites(m, p + Rd32(m, p + 4), end)
  }

  predicate InImage(m: seq<byte>, sites: seq<nat>)
  {
    forall i :: 0 <= i < |sites| ==> sites[i] + 4 <= |m|
  }

  /** The words are in the image and outside the table. */
  predicate Placed(m: seq<byte>, sites: seq<nat>, from: nat, end: nat)
  {
    && InImage(m, sites)
    && (forall i :: 0 <= i < |sites| ==> sites[i] + 4 <= from || end <= sites[i])
  }

  /** No two words overlap, unless one is listed again. */
  predicate EqualOrApart(sites: seq<nat>)
  {
    forall i, j :: 0 <= i < |sites| && 0 <= j < |sites| ==> WordsEqualOrApart(sites[i], sites[j])
  }

  predicate WordsEqualOrApart(a: nat, b: nat)
  {
    a == b || a + 4 <= b || b + 4 <= a
  }

  /** How often the first `n` of the words are `at`. */
  function Times(sites: seq<nat>, n: nat, at: nat): nat
    requires n <= |sites|
  {
    if n == 0 then 0 else Times(sites, n - 1, at) + if sites[n - 1] == at then 1 else 0
  }

  function Put(m: seq<byte>, at: nat, n: word): (r: seq<byte>)
    requires at + 4 <= |m|
    ensures |r| == |m|
  {
    m[..at] + Le32(n) + m[at + 4..]
  }

  /** The image with the first `n` of the words moved by delta. */
  function MovedTo(m: seq<byte>, sites: seq<nat>, n: nat, delta: word): (r: seq<byte>)
    requires n <= |sites| && InImage(m, sites)
    ensures |r| == |m|
  {
    if n == 0 then m
    else
      var before := MovedTo(m, sites, n - 1, delta);
      Put(before, sites[n - 1], (Rd32(before, sites[n - 1]) + delta) % WORD)
  }

  lemma PutElsewhere(m: seq<byte>, at: nat, n: word, o: nat)
    requires at + 4 <= |m| && o < |m| && !(at <= o < at + 4)
    ensures Put(m, at, n)[o] == m[o]
  {
  }

  lemma PutThere(m: seq<byte>, at: nat, n: word)
    requires at + 4 <= |m|
    ensures Rd32(Put(m, at, n), at) == n
  {
    var b := Le32(n);
    assert Put(m, at, n)[at..at + 4] == b;
    SegRd32(Put(m, at, n), at, n);
  }

  predicate Outside(sites: seq<nat>, n: nat, o: nat)
    requires n <= |sites|
  {
    forall i :: 0 <= i < n ==> !(sites[i] <= o < sites[i] + 4)
  }

  lemma {:induction false} MovedElsewhere(m: seq<byte>, sites: seq<nat>, n: nat, delta: word, o: nat)
    requires n <= |sites| && o < |m| && InImage(m, sites) && Outside(sites, n, o)
    ensures MovedTo(m, sites, n, delta)[o] == m[o]
  {
    if n == 0 {
    } else {
      var before := MovedTo(m, sites, n - 1, delta);
      MovedElsewhere(m, sites, n - 1, delta, o);
      PutElsewhere(before, sites[n - 1], (Rd32(before, sites[n - 1]) + delta) % WORD, o);
    }
  }

  lemma SameWord(m: seq<byte>, c: seq<byte>, at: nat)
    requires |c| == |m| && at + 4 <= |m| && forall o :: at <= o < at + 4 ==> c[o] == m[o]
    ensures Rd32(c, at) == Rd32(m, at)
  {
  }

  /** Moving another word leaves this one. */
  lemma PutApart(m: seq<byte>, at: nat, n: word, other: nat)
    requires at + 4 <= |m| && other + 4 <= |m| && (at + 4 <= other || other + 4 <= at)
    ensures Rd32(Put(m, at, n), other) == Rd32(m, other)
  {
    forall o | other <= o < other + 4
      ensures Put(m, at, n)[o] == m[o]
    {
      PutElsewhere(m, at, n, o);
    }
    SameWord(m, Put(m, at, n), other);
  }

  lemma AddedOnce(w: word, c: nat, delta: word)
    ensures ((w + c * delta) % WORD + delta) % WORD == (w + (c + 1) * delta) % WORD
  {
    var n := w + c * delta;
    ModBack(n);
    assert w + (c + 1) * delta == n + delta;
    assert n + delta == (n % WORD + delta) + n / WORD * WORD;
    ModShift(n % WORD + delta, n / WORD);
  }

  /** A word has delta added modulo 2^32 as often as it is listed. */
  lemma {:induction false} MovedAsListed(m: seq<byte>, sites: seq<nat>, n: nat, delta: word, at: nat)
    requires InImage(m, sites) && n <= |sites| && at + 4 <= |m|
    requires forall i :: 0 <= i < n ==> WordsEqualOrApart(sites[i], at)
    ensures Rd32(MovedTo(m, sites, n, delta), at) == (Rd32(m, at) + Times(sites, n, at) * delta) % WORD
  {
    hide Put, Rd32, Le32, MovedTo;
    if n == 0 {
      NoneMoved(m, sites, delta);
      ModSmall(Rd32(m, at));
    } else {
      var before := MovedTo(m, sites, n - 1, delta);
      var w := (Rd32(before, sites[n - 1]) + delta) % WORD;
      MovedNext(m, sites, n - 1, delta);
      MovedAsListed(m, sites, n - 1, delta, at);
      assert WordsEqualOrApart(sites[n - 1], at);
      if sites[n - 1] == at {
        PutThere(before, at, w);
        AddedOnce(Rd32(m, at), Times(sites, n - 1, at), delta);
      } else {
        PutApart(before, sites[n - 1], w, at);
      }
    }
  }

  /** The table itself is not touched. */
  predicate TableKept(m: seq<byte>, c: seq<byte>, from: nat, end: nat)
  {
    |c| == |m| && forall o :: from <= o < end && o < |m| ==> c[o] == m[o]
  }

  lemma MovedKeepsTable(m: seq<byte>, sites: seq<nat>, n: nat, delta: word, from: nat, end: nat)
    requires Placed(m, sites, from, end) && n <= |sites|
    ensures TableKept(m, MovedTo(m, sites, n, delta), from, end)
  {
    forall o | from <= o < end && o < |m|
      ensures MovedTo(m, sites, n, delta)[o] == m[o]
    {
      MovedElsewhere(m, sites, n, delta, o);
    }
  }

  // ---- the loop ---------------------------------------------------------------------

  lemma TableWord(m: seq<byte>, c: seq<byte>, from: nat, end: nat, at: nat)
    requires TableKept(m, c, from, end) && from <= at && at + 4 <= end <= |m|
    ensures Rd32(c, at) == Rd32(m, at)
  {
    SameWord(m, c, at);
  }

  lemma TableHalf(m: seq<byte>, c: seq<byte>, from: nat, end: nat, at: nat)
    requires TableKept(m, c, from, end) && from <= at && at + 2 <= end <= |m|
    ensures Rd16(c, at) == Rd16(m, at)
  {
  }

  /** What the image becomes when every word of the table is moved. */
  function Relocated(m: seq<byte>, from: nat, end: nat, delta: word): seq<byte>
    requires Formed(m, from, end) && InImage(m, Sites(m, from, end))
  {
    MovedTo(m, Sites(m, from, end), |Sites(m, from, end)|, delta)
  }

  method AddDelta(mem: array<byte>, at: nat, delta: word)
    requires at + 4 <= mem.Length
    modifies mem
    ensures mem[..] == Put(old(mem[..]), at, (Rd32(old(mem[..]), at) + delta) % WORD)
  {
    var w := (Rd32(mem[..], at) + delta) % WORD;
    var b := Le32(w);
    mem[at] := b[0];
    mem[at + 1] := b[1];
    mem[at + 2] := b[2];
    mem[at + 3] := b[3];
  }

  /** One block's entries.  `m` is the image before the loop, `sites` all the table lists,
      `done` how many are moved already. */
  method RelocateBlock(mem: array<byte>, p: nat, count: nat, delta: word, ghost m: seq<byte>, ghost sites: seq<nat>,
                       ghost from: nat, ghost end: nat, ghost done: nat, ghost later: seq<nat>) returns (ghost n: nat)
    requires Placed(m, sites, from, end) && InImage(m, sites) && from <= p && p + 8 + 2 * count <= end <= |m|
    requires done <= |sites| && mem[..] == MovedTo(m, sites, done, delta)
    requires sites[done..] == EntrySites(m, p, 0, count) + later
    modifies mem
    ensures n <= |sites| && mem[..] == MovedTo(m, sites, n, delta) && sites[n..] == later
  {
    hide MovedTo, EntrySites, Placed, Put, Rd16, Rd32;
    n := done;
    var i := 0;
    while i < count
      invariant 0 <= i <= count && n <= |sites|
      invariant mem[..] == MovedTo(m, sites, n, delta)
      invariant sites[n..] == EntrySites(m, p, i, count) + later
    {
      MovedKeepsTable(m, sites, n, delta, from, end);
      TableHalf(m, mem[..], from, end, p + 8 + 2 * i);
      TableWord(m, mem[..], from, end, p);
      EntriesNext(m, p, i, count, later);
      var e := Rd16(mem[..], p + 8 + 2 * i);
      if e / 4096 == HIGHLOW {
        var at := Rd32(mem[..], p) + e % 4096;
        FirstSite(sites, n, at, EntrySites(m, p, i + 1, count) + later);
        SiteInside(m, sites, n, from, end);
        AddDelta(mem, at, delta);
        MovedNext(m, sites, n, delta);
        n := n + 1;
      }
      i := i + 1;
    }
    EntriesDone(m, p, count, later);
  }

  lemma EntriesNext(m: seq<byte>, p: nat, i: nat, count: nat, later: seq<nat>)
    requires i < count && p + 8 + 2 * count <= |m|
    ensures
      var e := Rd16(m, p + 8 + 2 * i);
      var more := EntrySites(m, p, i + 1, count) + later;
      EntrySites(m, p, i, count) + later == if e / 4096 == HIGHLOW then [Rd32(m, p) + e % 4096] + more else more
  {
    hide Rd16, Rd32;
    var more := EntrySites(m, p, i + 1, count);
    assert [] + more == more;
    assert forall at: nat :: ([at] + more) + later == [at] + (more + later);
  }

  lemma EntriesDone(m: seq<byte>, p: nat, count: nat, later: seq<nat>)
    requires p + 8 + 2 * count <= |m|
    ensures EntrySites(m, p, count, count) + later == later
  {
  }

  lemma MovedNext(m: seq<byte>, sites: seq<nat>, n: nat, delta: word)
    requires n < |sites| && InImage(m, sites)
    ensures
      var b := MovedTo(m, sites, n, delta);
      MovedTo(m, sites, n + 1, delta) == Put(b, sites[n], (Rd32(b, sites[n]) + delta) % WORD)
  {
    hide Put, Rd32, Le32;
  }

  lemma SiteInside(m: seq<byte>, sites: seq<nat>, n: nat, from: nat, end: nat)
    requires Placed(m, sites, from, end) && n < |sites|
    ensures sites[n] + 4 <= |m|
  {
  }

  lemma FirstSite(sites: seq<nat>, n: nat, at: nat, rest: seq<nat>)
    requires n <= |sites| && sites[n..] == [at] + rest
    ensures n < |sites| && sites[n] == at && sites[n + 1..] == rest
  {
    assert sites[n..][0] == at;
    assert sites[n + 1..] == sites[n..][1..];
  }

  lemma FormedNext(m: seq<byte>, p: nat, end: nat)
    requires Formed(m, p, end) && p < end
    ensures p + 8 <= end <= |m|
    ensures
      var size := Rd32(m, p + 4);
      if size == 0 then Sites(m, p, end) == []
      else
        && size >= 8 && Formed(m, p + size, end) && p + 8 + 2 * ((size - 8) / 2) <= end
        && Sites(m, p, end) == EntrySites(m, p, 0, (size - 8) / 2) + Sites(m, p + size, end)
  {
  }

  /** One turn of the loop over the blocks; `on` is false where the source breaks. */
  method RelocateAt(mem: array<byte>, p: nat, delta: word, ghost m: seq<byte>, ghost sites: seq<nat>,
                    ghost from: nat, ghost end: nat, ghost n: nat) returns (p': nat, on: bool, ghost n': nat)
    requires Placed(m, sites, from, end) && InImage(m, sites) && from <= p < end && Formed(m, p, end)
    requires n <= |sites| && mem[..] == MovedTo(m, sites, n, delta) && sites[n..] == Sites(m, p, end)
    modifies mem
    ensures n' <= |sites| && mem[..] == MovedTo(m, sites, n', delta)
    ensures if on then p < p' && Formed(m, p', end) && sites[n'..] == Sites(m, p', end)
            else p' == p && sites[n'..] == []
  {
    hide Placed, MovedTo, EntrySites, Rd32;
    MovedKeepsTable(m, sites, n, delta, from, end);
    FormedNext(m, p, end);
    hide Formed, Sites, InImage;
    TableWord(m, mem[..], from, end, p + 4);
    var block := Rd32(mem[..], p + 4);
    if block == 0 {
      return p, false, n;
    }
    n' := RelocateBlock(mem, p, (block - 8) / 2, delta, m, sites, from, end, n, Sites(m, p + block, end));
    p', on := p + block, true;
  }

  /** The base-relocation loop: the listed words are moved one after another. */
  method Relocate(mem: array<byte>, from: nat, size: nat, delta: word)
    requires Formed(mem[..], from, from + size)
    requires Placed(mem[..], Sites(mem[..], from, from + size), from, from + size)
    modifies mem
    ensures mem[..] == Relocated(old(mem[..]), from, from + size, delta)
  {
    ghost var m, sites := mem[..], Sites(mem[..], from, from + size);
    var p, end, on := from, from + size, true;
    ghost var n: nat := 0;
    NoneMoved(m, sites, delta);
    assert InImage(m, sites) && sites[0..] == sites;
    hide *;
    while p < end && on
      invariant from <= p && n <= |sites|
      invariant mem[..] == MovedTo(m, sites, n, delta)
      invariant if on then Formed(m, p, end) && sites[n..] == Sites(m, p, end) else sites[n..] == []
      decreases end - p, on
    {
      p, on, n := RelocateAt(mem, p, delta, m, sites, from, end, n);
    }
    if on {
      SitesDone(m, p, end);
    }
    AllMoved(m, from, end, delta, n);
  }

  lemma AllMoved(m: seq<byte>, from: nat, end: nat, delta: word, n: nat)
    requires Formed(m, from, end) && InImage(m, Sites(m, from, end)) && n <= |Sites(m, from, end)|
    requires Sites(m, from, end)[n..] == []
    ensures MovedTo(m, Sites(m, from, end), n, delta) == Relocated(m, from, end, delta)
  {
    hide Formed, InImage, MovedTo, Sites;
    assert n == |Sites(m, from, end)|;
  }

  lemma SitesDone(m: seq<byte>, p: nat, end: nat)
    requires Formed(m, p, end) && p >= end
    ensures Sites(m, p, end) == []
  {
  }

  lemma {:induction false} MovedByNothing(m: seq<byte>, sites: seq<nat>, n: nat)
    requires n <= |sites| && InImage(m, sites)
    ensures MovedTo(m, sites, n, 0) == m
  {
    hide Put, Rd32, Le32;
    if n == 0 {
    } else {
      MovedByNothing(m, sites, n - 1);
      PutSame(m, sites[n - 1]);
      ModSmall(Rd32(m, sites[n - 1]));
    }
  }

  lemma ModSmall(n: word)
    ensures (n + 0) % WORD == n
  {
  }

  lemma PutSame(m: seq<byte>, at: nat)
    requires at + 4 <= |m|
    ensures Put(m, at, Rd32(m, at)) == m
  {
    Le32OfRd32(m, at);
    hide Le32, Rd32;
    assert m == m[..at] + m[at..at + 4] + m[at + 4..];
  }

  /** The image at the base it got: the words are moved only if that is not the one it
      prefers, which comes to the same. */
  method LoadAt(mem: array<byte>, from: nat, size: nat, pref: word, base: word)
    requires Formed(mem[..], from, from + size)
    requires Placed(mem[..], Sites(mem[..], from, from + size), from, from + size)
    modifies mem
    ensures mem[..] == Relocated(old(mem[..]), from, from + size, (base - pref) % WORD)
  {
    var delta := (base - pref) % WORD;
    if delta != 0 {
      Relocate(mem, from, size, delta);
    } else {
      MovedByNothing(mem[..], Sites(mem[..], from, from + size), |Sites(mem[..], from, from + size)|);
    }
  }

  lemma NoneMoved(m: seq<byte>, sites: seq<nat>, delta: word)
    requires InImage(m, sites)
    ensures MovedTo(m, sites, 0, delta) == m
  {
  }

  // ---- what loading elsewhere means -------------------------------------------------

  /** Loading elsewhere adds delta modulo 2^32 to each listed word, as often as it is
      listed, and changes nothing else. */
  lemma ExactlyTheWordsMove(m: seq<byte>, from: nat, end: nat, delta: word)
    requires Formed(m, from, end) && InImage(m, Sites(m, from, end)) && EqualOrApart(Sites(m, from, end))
    ensures |Relocated(m, from, end, delta)| == |m|
    ensures
      var sites := Sites(m, from, end);
      forall k :: 0 <= k < |sites| ==>
        Rd32(Relocated(m, from, end, delta), sites[k])
        == (Rd32(m, sites[k]) + Times(sites, |sites|, sites[k]) * delta) % WORD
    ensures forall o :: 0 <= o < |m| && Outside(Sites(m, from, end), |Sites(m, from, end)|, o) ==>
              Relocated(m, from, end, delta)[o] == m[o]
  {
    hide Formed, Sites, MovedTo, Rd32, Le32, Outside, Times;
    var sites := Sites(m, from, end);
    forall k | 0 <= k < |sites|
      ensures Rd32(Relocated(m, from, end, delta), sites[k])
              == (Rd32(m, sites[k]) + Times(sites, |sites|, sites[k]) * delta) % WORD
    {
      MovedAsListed(m, sites, |sites|, delta, sites[k]);
    }
    forall o | 0 <= o < |m| && Outside(sites, |sites|, o)
      ensures Relocated(m, from, end, delta)[o] == m[o]
    {
      MovedElsewhere(m, sites, |sites|, delta, o);
    }
  }

  predicate ListedOnce(sites: seq<nat>)
  {
    forall i, j :: 0 <= i < j < |sites| ==> sites[i] != sites[j]
  }

  lemma {:induction false} OnceTimes(sites: seq<nat>, n: nat, k: nat)
    requires ListedOnce(sites) && n <= |sites| && k < |sites|
    ensures Times(sites, n, sites[k]) == if k < n then 1 else 0
  {
    if n == 0 {
    } else {
      OnceTimes(sites, n - 1, k);
    }
  }

  /** Where a chain of addresses leads in an image at `base`: from offset `o`, each step
      reads a word and goes on some way past where it points; None when a step leaves
      the image. */
  function Follow(m: seq<byte>, base: word, o: nat, steps: seq<nat>): Option<nat>
    decreases |steps|
  {
    if steps == [] then Some(o)
    else if o + 4 > |m| then None
    else Follow(m, base, (Rd32(m, o) - base + steps[0]) % WORD, steps[1..])
  }

  /** Every word the chain reads is one the table lists. */
  predicate Listed(m: seq<byte>, base: word, o: nat, steps: seq<nat>, sites: seq<nat>)
    decreases |steps|
  {
    steps == [] || o + 4 > |m|
    || (o in sites && Listed(m, base, (Rd32(m, o) - base + steps[0]) % WORD, steps[1..], sites))
  }

  lemma MovedDistance(w: word, pref: word, base: word, step: nat)
    ensures ((w + (base - pref) % WORD) % WORD - base + step) % WORD == (w - pref + step) % WORD
  {
    var d := (base - pref) % WORD;
    var v := (w + d) % WORD;
    ModBack(base - pref);
    ModBack(w + d);
    var q := (base - pref) / WORD;
    var q2 := (w + d) / WORD;
    assert v - base + step == (w - pref + step) - (q + q2) * WORD;
    ModShift(w - pref + step, -(q + q2));
  }

  lemma ModBack(n: int)
    ensures n == n / WORD * WORD + n % WORD
  {
  }

  lemma ModShift(n: int, k: int)
    ensures (n + k * WORD) % WORD == n % WORD
  {
    var r := n % WORD;
    ModBack(n);
    assert n + k * WORD == (n / WORD + k) * WORD + r;
    ModUnique(n + k * WORD, n / WORD + k, r);
  }

  lemma ModUnique(n: int, q: int, r: int)
    requires n == q * WORD + r && 0 <= r < WORD
    ensures n % WORD == r
  {
  }

  /** Loaded at any base, a chain of listed addresses leads to the same place in the
      image as at the base it prefers. */
  lemma {:induction false} FollowsAlike(m: seq<byte>, from: nat, end: nat, pref: word, base: word, o: nat,
                                        steps: seq<nat>)
    requires Formed(m, from, end) && InImage(m, Sites(m, from, end))
    requires EqualOrApart(Sites(m, from, end)) && ListedOnce(Sites(m, from, end))
    requires Listed(m, pref, o, steps, Sites(m, from, end))
    ensures Follow(Relocated(m, from, end, (base - pref) % WORD), base, o, steps) == Follow(m, pref, o, steps)
    decreases |steps|
  {
    hide Formed, Sites, Relocated, InImage, EqualOrApart, ListedOnce, Times, Rd32, Outside;
    var delta := (base - pref) % WORD;
    var r := Relocated(m, from, end, delta);
    ExactlyTheWordsMove(m, from, end, delta);
    if steps == [] || o + 4 > |m| {
    } else {
      var k :| 0 <= k < |Sites(m, from, end)| && Sites(m, from, end)[k] == o;
      OnceTimes(Sites(m, from, end), |Sites(m, from, end)|, k);
      assert Rd32(r, o) == (Rd32(m, o) + delta) % WORD;
      MovedDistance(Rd32(m, o), pref, base, steps[0]);
      FollowsAlike(m, from, end, pref, base, (Rd32(m, o) - pref + steps[0]) % WORD, steps[1..]);
    }
  }

  // ---- what a table lists -------------------------------------------------------------

  type Kind = x: int | 0 <= x < 16
  type Offset = x: int | 0 <= x < 4096

  /** An entry is a kind and an offset in its page. */
  datatype Entry = Entry(kind: Kind, offset: Offset)

  datatype Block = Block(page: word, entries: seq<Entry>)

  predicate BlockFits(b: Block)
  {
    8 + 2 * |b.entries| < WORD
  }

  function EntryCode(e: Entry): (n: nat)
    ensures n < 0x1_0000 && n / 4096 == e.kind && n % 4096 == e.offset
  {
    4096 * e.kind + e.offset
  }

  function EntriesBytes(es: seq<Entry>): (r: seq<byte>)
    ensures |r| == 2 * |es|
  {
    if es == [] then [] else Le16(EntryCode(es[0])) + EntriesBytes(es[1..])
  }

  function BlockBytes(b: Block): (r: seq<byte>)
    requires BlockFits(b)
    ensures |r| == 8 + 2 * |b.entries|
  {
    Le32(b.page) + Le32(8 + 2 * |b.entries|) + EntriesBytes(b.entries)
  }

  predicate AllFit(bs: seq<Block>)
  {
    forall i :: 0 <= i < |bs| ==> BlockFits(bs[i])
  }

  /** A relocation table as it is laid out: block after block, each its page, its own length
      and its entries. */
  function TableBytes(bs: seq<Block>): seq<byte>
    requires AllFit(bs)
  {
    if bs == [] then [] else BlockBytes(bs[0]) + TableBytes(bs[1..])
  }

  /** The words it lists: those of kind 3, each at its offset in its page. */
  function SitesIn(page: word, es: seq<Entry>): seq<nat>
  {
    if es == [] then []
    else (if es[0].kind == 3 then [page + es[0].offset] else []) + SitesIn(page, es[1..])
  }

  function SitesOf(bs: seq<Block>): seq<nat>
  {
    if bs == [] then [] else SitesIn(bs[0].page, bs[0].entries) + SitesOf(bs[1..])
  }

  lemma EntryBytesNext(es: seq<Entry>, i: nat)
    requires i < |es|
    ensures EntriesBytes(es[i..]) == Le16(EntryCode(es[i])) + EntriesBytes(es[i + 1..])
  {
    assert es[i..][1..] == es[i + 1..];
  }

  lemma SitesInNext(page: word, es: seq<Entry>, i: nat)
    requires i < |es|
    ensures SitesIn(page, es[i..])
            == (if es[i].kind == 3 then [page + es[i].offset] else []) + SitesIn(page, es[i + 1..])
  {
    assert es[i..][1..] == es[i + 1..];
  }

  lemma {:induction false} EntriesRead(m: seq<byte>, p: nat, es: seq<Entry>, i: nat)
    requires i <= |es| && p + 8 + 2 * |es| <= |m|
    requires Seg(m, p + 8 + 2 * i, EntriesBytes(es[i..]))
    ensures EntrySites(m, p, i, |es|) == SitesIn(Rd32(m, p), es[i..])
    decreases |es| - i
  {
    if i == |es| {
    } else {
      hide *;
      var n := EntryCode(es[i]);
      EntryBytesNext(es, i);
      SegSplit(m, p + 8 + 2 * i, Le16(n), EntriesBytes(es[i + 1..]));
      SegRd16(m, p + 8 + 2 * i, n);
      EntriesRead(m, p, es, i + 1);
      SitesInNext(Rd32(m, p), es, i);
      EntrySitesNext(m, p, i, |es|, n);
    }
  }

  lemma EntrySitesNext(m: seq<byte>, p: nat, i: nat, count: nat, e: nat)
    requires i < count && p + 8 + 2 * count <= |m| && Rd16(m, p + 8 + 2 * i) == e
    ensures EntrySites(m, p, i, count)
            == (if e / 4096 == 3 then [Rd32(m, p) + e % 4096] else []) + EntrySites(m, p, i + 1, count)
  {
    hide Rd16, Rd32;
  }

  lemma BlockRead(m: seq<byte>, p: nat, b: Block)
    requires BlockFits(b) && Seg(m, p, BlockBytes(b))
    ensures p + 8 + 2 * |b.entries| <= |m| && Rd32(m, p) == b.page && Rd32(m, p + 4) == 8 + 2 * |b.entries|
    ensures EntrySites(m, p, 0, |b.entries|) == SitesIn(b.page, b.entries)
  {
    assert p + 8 + 2 * |b.entries| <= |m|;
    assert b.entries[0..] == b.entries;
    hide Seg, Le32, Rd32, EntriesBytes, EntrySites;
    SegSplit(m, p, Le32(b.page) + Le32(8 + 2 * |b.entries|), EntriesBytes(b.entries));
    SegSplit(m, p, Le32(b.page), Le32(8 + 2 * |b.entries|));
    SegRd32(m, p, b.page);
    SegRd32(m, p + 4, 8 + 2 * |b.entries|);
    EntriesRead(m, p, b.entries, 0);
  }

  lemma SitesNext(m: seq<byte>, p: nat, end: nat)
    requires p + 8 <= end <= |m| && Rd32(m, p + 4) >= 8 && p + Rd32(m, p + 4) <= end
    requires Formed(m, p + Rd32(m, p + 4), end)
    ensures Formed(m, p, end)
    ensures Sites(m, p, end) == EntrySites(m, p, 0, (Rd32(m, p + 4) - 8) / 2) + Sites(m, p + Rd32(m, p + 4), end)
  {
    hide Rd32, EntrySites;
  }

  lemma TableNext(bs: seq<Block>)
    requires bs != [] && AllFit(bs)
    ensures BlockFits(bs[0]) && AllFit(bs[1..]) && TableBytes(bs) == BlockBytes(bs[0]) + TableBytes(bs[1..])
    ensures SitesOf(bs) == SitesIn(bs[0].page, bs[0].entries) + SitesOf(bs[1..])
  {
    hide BlockFits, BlockBytes;
  }

  lemma NoTable(m: seq<byte>, p: nat)
    requires p <= |m|
    ensures TableBytes([]) == [] && SitesOf([]) == [] && Formed(m, p, p) && Sites(m, p, p) == []
  {
  }

  lemma SegWithin(m: seq<byte>, p: nat, s: seq<byte>)
    requires Seg(m, p, s)
    ensures p + |s| <= |m|
  {
  }

  /** A table laid out lists just those words, in order. */
  lemma {:induction false} TableLists(m: seq<byte>, p: nat, bs: seq<Block>)
    requires AllFit(bs) && Seg(m, p, TableBytes(bs))
    ensures Formed(m, p, p + |TableBytes(bs)|)
    ensures Sites(m, p, p + |TableBytes(bs)|) == SitesOf(bs)
    decreases |bs|
  {
    hide *;
    SegWithin(m, p, TableBytes(bs));
    if bs == [] {
      NoTable(m, p);
    } else {
      TableNext(bs);
      SegSplit(m, p, BlockBytes(bs[0]), TableBytes(bs[1..]));
      BlockRead(m, p, bs[0]);
      TableLists(m, p + |BlockBytes(bs[0])|, bs[1..]);
      SitesNext(m, p, p + |TableBytes(bs)|);
    }
  }
}
