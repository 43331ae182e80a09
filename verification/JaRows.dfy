/** Reading the rows of naist-jdic (tools/gen_ja_dict.py): what one row of the CSV says,
    and the tables it is turned into.  What `int` makes of an accent or mora field is a
    parameter. */
module JaRows {
  import opened Bytes
  import opened Segments
  import opened JaPool

  const COLON: byte := ':' as int
  const SLASH: byte := '/' as int
  const STAR: byte := '*' as int

  /** A row as the CSV reader gives it, its numbers already parsed. */
  datatype Row = Row(surface: Str, left: nat, right: nat, cost: int, pos: seq<Str>,
                     read: Str, pron: Str, acc: Str, chain: Str)

  /** One spoken part of an entry. */
  datatype Part = Part(pron: Str, read: Str, acc: byte, mora: byte)

  function Count(s: Str, c: byte): nat
  {
    if s == [] then 0 else (if s[0] == c then 1 else 0) + Count(s[1..], c)
  }

  /** Split at every `c`, as str.split does. */
  function Split(s: Str, c: byte): (r: seq<Str>)
    ensures r != []
  {
    if s == [] then [[]]
    else
      var rest := Split(s[1..], c);
      if s[0] == c then [[]] + rest else [[s[0]] + rest[0]] + rest[1..]
  }

  function Unsplit(parts: seq<Str>, c: byte): Str
    requires parts != []
  {
    if |parts| == 1 then parts[0] else parts[0] + [c] + Unsplit(parts[1..], c)
  }

  /** Splitting loses nothing but the separators, and leaves none. */
  lemma {:induction false} SplitRight(s: Str, c: byte)
    ensures Unsplit(Split(s, c), c) == s && |Split(s, c)| == Count(s, c) + 1
    ensures forall i :: 0 <= i < |Split(s, c)| ==> c !in Split(s, c)[i]
  {
    if s == [] {
    } else {
      SplitRight(s[1..], c);
      var rest := Split(s[1..], c);
      assert s == [s[0]] + s[1..];
      if s[0] == c {
        assert ([[]] + rest)[1..] == rest;
      } else {
        assert ([[s[0]] + rest[0]] + rest[1..])[1..] == rest[1..];
      }
    }
  }

  /** The two halves of an `a/m` field; a field with no slash has an empty second. */
  function Halves(field: Str): (Str, Str)
  {
    var p := Split(field, SLASH);
    (p[0], if |p| > 1 then p[1] else [])
  }

  function Nth(fields: seq<Str>, k: nat): Str
  {
    if k < |fields| then fields[k] else []
  }

  function PartAt(row: Row, num: Str -> byte, k: nat): Part
  {
    var accs := Split(row.acc, COLON);
    var (a, m) := if k < |accs| then Halves(accs[k]) else ([], []);
    Part(Nth(Split(row.pron, COLON), k), Nth(Split(row.read, COLON), k), num(a), num(m))
  }

  /** The parts of a row: none of a reading for a symbol, the row itself for one word,
      and one part for each slash of a compound. */
  function PartsOf(row: Row, num: Str -> byte): (r: seq<Part>)
    ensures |r| == if STAR in row.acc || Count(row.acc, SLASH) <= 1 then 1 else Count(row.acc, SLASH)
  {
    var n := Count(row.acc, SLASH);
    if STAR in row.acc || n == 0 then [Part(row.pron, row.read, 0, 0)]
    else if n == 1 then
      var (a, m) := Halves(row.acc);
      [Part(row.pron, row.read, num(a), num(m))]
    else seq(n, k requires 0 <= k < n => PartAt(row, num, k))
  }

  /** The surface of part `k` of a compound. */
  function SurfaceAt(row: Row, k: nat): Str
  {
    var surfs := Split(row.surface, COLON);
    if k < |surfs| then surfs[k] else row.surface
  }

  method ReadParts(row: Row, num: Str -> byte) returns (parts: seq<Part>)
    ensures parts == PartsOf(row, num)
  {
    var n := Count(row.acc, SLASH);
    if STAR in row.acc || n == 0 {
      return [Part(row.pron, row.read, 0, 0)];
    }
    if n == 1 {
      var (a, m) := Halves(row.acc);
      return [Part(row.pron, row.read, num(a), num(m))];
    }
    var prons, readings, accs := Split(row.pron, COLON), Split(row.read, COLON), Split(row.acc, COLON);
    parts := [];
    var k := 0;
    while k < n
      invariant 0 <= k <= n && |parts| == k
      invariant forall j :: 0 <= j < k ==> parts[j] == PartAt(row, num, j)
    {
      var (a, m) := if k < |accs| then Halves(accs[k]) else ([], []);
      var pron, reading := if k < |prons| then prons[k] else [], if k < |readings| then readings[k] else [];
      parts := parts + [Part(pron, reading, num(a), num(m))];
      k := k + 1;
    }
  }

  // ---- what a row says, from its own text ---------------------------------------------

  predicate NoneHas(parts: seq<Str>, c: byte)
  {
    forall i :: 0 <= i < |parts| ==> c !in parts[i]
  }

  lemma {:induction false} SplitWhole(s: Str, c: byte)
    requires c !in s
    ensures Split(s, c) == [s] && Count(s, c) == 0
  {
    if s == [] {
    } else {
      SplitWhole(s[1..], c);
      assert s == [s[0]] + s[1..];
    }
  }

  lemma {:induction false} SplitFirst(a: Str, c: byte, rest: Str)
    requires c !in a
    ensures Split(a + ([c] + rest), c) == [a] + Split(rest, c)
    ensures Count(a + ([c] + rest), c) == 1 + Count(rest, c)
  {
    var s := a + ([c] + rest);
    if a == [] {
      assert s[1..] == rest;
    } else {
      assert s[1..] == a[1..] + ([c] + rest);
      SplitFirst(a[1..], c, rest);
      assert a == [a[0]] + a[1..];
      assert ([a[1..]] + Split(rest, c))[1..] == Split(rest, c);
    }
  }

  /** Pieces without the separator, joined by it, are what splitting gives back. */
  lemma {:induction false} SplitPieces(parts: seq<Str>, c: byte)
    requires parts != [] && NoneHas(parts, c)
    ensures Split(Unsplit(parts, c), c) == parts
  {
    if |parts| == 1 {
      SplitWhole(parts[0], c);
    } else {
      var rest := parts[1..];
      assert NoneHas(rest, c) by {
        forall i | 0 <= i < |rest|
          ensures c !in rest[i]
        {
          assert rest[i] == parts[i + 1];
        }
      }
      SplitPieces(rest, c);
      SplitFirst(parts[0], c, Unsplit(rest, c));
      assert parts[0] + [c] + Unsplit(rest, c) == parts[0] + ([c] + Unsplit(rest, c));
      assert parts == [parts[0]] + rest;
    }
  }

  /** `a` is what stands before the first slash of a field, and `m` what stands between it
      and the next, or to the end; nothing when there is no slash. */
  ghost predicate AccentMora(field: Str, a: Str, m: Str)
  {
    && SLASH !in a && SLASH !in m
    && ((field == a && m == []) || field == a + ([SLASH] + m)
        || exists rest: Str :: field == a + ([SLASH] + (m + ([SLASH] + rest))))
  }

  lemma HalvesRight(field: Str, a: Str, m: Str)
    requires AccentMora(field, a, m)
    ensures Halves(field) == (a, m)
  {
    if field == a && m == [] {
      SplitWhole(a, SLASH);
    } else if field == a + ([SLASH] + m) {
      SplitFirst(a, SLASH, m);
      SplitWhole(m, SLASH);
    } else {
      var rest: Str :| field == a + ([SLASH] + (m + ([SLASH] + rest)));
      SplitFirst(a, SLASH, m + ([SLASH] + rest));
      SplitFirst(m, SLASH, rest);
    }
  }

  /** A star anywhere in the accent field, or no slash, and the row is a symbol: its own
      reading with no accent and no length. */
  lemma SymbolParts(row: Row, num: Str -> byte)
    requires STAR in row.acc || SLASH !in row.acc
    ensures PartsOf(row, num) == [Part(row.pron, row.read, 0, 0)]
  {
    if STAR !in row.acc {
      SplitWhole(row.acc, SLASH);
    }
  }

  /** One slash, and the row is one word: the accent before it, the length after. */
  lemma WordParts(row: Row, num: Str -> byte, a: Str, m: Str)
    requires row.acc == a + ([SLASH] + m) && SLASH !in a && SLASH !in m && STAR !in row.acc
    ensures PartsOf(row, num) == [Part(row.pron, row.read, num(a), num(m))]
  {
    SplitFirst(a, SLASH, m);
    SplitWhole(m, SLASH);
    HalvesRight(row.acc, a, m);
  }

  function PieceOr(pieces: seq<Str>, k: nat, other: Str): Str
  {
    if k < |pieces| then pieces[k] else other
  }

  /** The fields of a row as pieces between colons, and accent and length of each. */
  ghost predicate Pieces(row: Row, prons: seq<Str>, readings: seq<Str>, accs: seq<Str>, halves: seq<(Str, Str)>)
  {
    && prons != [] && NoneHas(prons, COLON) && row.pron == Unsplit(prons, COLON)
    && readings != [] && NoneHas(readings, COLON) && row.read == Unsplit(readings, COLON)
    && accs != [] && NoneHas(accs, COLON) && row.acc == Unsplit(accs, COLON)
    && forall k :: 0 <= k < |halves| ==> HalfOf(accs, halves, k)
  }

  ghost predicate HalfOf(accs: seq<Str>, halves: seq<(Str, Str)>, k: nat)
    requires k < |halves|
  {
    if k < |accs| then AccentMora(accs[k], halves[k].0, halves[k].1) else halves[k] == ([], [])
  }

  /** More slashes, and the row is a compound of as many parts as slashes.  Each takes the
      piece of every field that is in its place, and the empty string where a field has
      fewer. */
  lemma CompoundParts(row: Row, num: Str -> byte, prons: seq<Str>, readings: seq<Str>, accs: seq<Str>,
                      halves: seq<(Str, Str)>)
    requires STAR !in row.acc && |halves| == Count(row.acc, SLASH) >= 2
    requires Pieces(row, prons, readings, accs, halves)
    ensures |PartsOf(row, num)| == |halves|
    ensures forall k :: 0 <= k < |halves| ==>
              PartsOf(row, num)[k]
              == Part(PieceOr(prons, k, []), PieceOr(readings, k, []), num(halves[k].0), num(halves[k].1))
  {
    hide AccentMora, Split, Unsplit, Halves, Count, NoneHas;
    SplitPieces(prons, COLON);
    SplitPieces(readings, COLON);
    SplitPieces(accs, COLON);
    forall k | 0 <= k < |halves|
      ensures PartAt(row, num, k)
              == Part(PieceOr(prons, k, []), PieceOr(readings, k, []), num(halves[k].0), num(halves[k].1))
    {
      assert HalfOf(accs, halves, k);
      if k < |accs| {
        HalvesRight(accs[k], halves[k].0, halves[k].1);
      }
    }
  }

  /** Pieces that each hold one slash make as many slashes as pieces. */
  lemma {:induction false} SlashEach(accs: seq<Str>)
    requires accs != [] && forall k :: 0 <= k < |accs| ==> Count(accs[k], SLASH) == 1
    ensures Count(Unsplit(accs, COLON), SLASH) == |accs|
  {
    if |accs| == 1 {
    } else {
      SlashEach(accs[1..]);
      CountConcat(accs[0] + [COLON], Unsplit(accs[1..], COLON), SLASH);
      CountConcat(accs[0], [COLON], SLASH);
    }
  }

  lemma {:induction false} CountConcat(s: Str, t: Str, c: byte)
    ensures Count(s + t, c) == Count(s, c) + Count(t, c)
  {
    if s == [] {
      assert s + t == t;
    } else {
      assert (s + t)[1..] == s[1..] + t;
      CountConcat(s[1..], t, c);
    }
  }

  /** The usual compound: as many pronunciations and readings as accents, each accent
      with its length. */
  lemma WholeCompoundParts(row: Row, num: Str -> byte, prons: seq<Str>, readings: seq<Str>, accs: seq<Str>,
                           halves: seq<(Str, Str)>)
    requires STAR !in row.acc && |prons| == |readings| == |accs| == |halves| >= 2
    requires Pieces(row, prons, readings, accs, halves)
    requires forall k :: 0 <= k < |accs| ==> accs[k] == halves[k].0 + ([SLASH] + halves[k].1)
    ensures PartsOf(row, num)
            == seq(|accs|, k requires 0 <= k < |accs| =>
                     Part(prons[k], readings[k], num(halves[k].0), num(halves[k].1)))
  {
    hide Split, Unsplit, Halves, NoneHas, Count, PartsOf;
    forall k | 0 <= k < |accs|
      ensures Count(accs[k], SLASH) == 1
    {
      assert HalfOf(accs, halves, k);
      SplitFirst(halves[k].0, SLASH, halves[k].1);
      SplitWhole(halves[k].1, SLASH);
    }
    SlashEach(accs);
    CompoundParts(row, num, prons, readings, accs, halves);
  }

  /** The surface of a part is its own piece of the row's, or all of it when there are
      fewer pieces. */
  lemma SurfacePieces(row: Row, surfs: seq<Str>, k: nat)
    requires surfs != [] && NoneHas(surfs, COLON) && row.surface == Unsplit(surfs, COLON)
    ensures SurfaceAt(row, k) == PieceOr(surfs, k, row.surface)
  {
    SplitPieces(surfs, COLON);
  }

  // ---- the tables -------------------------------------------------------------------

  /** A further component: offsets of its strings, accent and mora count. */
  datatype Comp = Comp(pron: nat, surf: nat, read: nat, acc: byte, mora: byte)

  /** An entry: its sort key, then offsets, ids and counts. */
  datatype Entry = Entry(key: Str, cost: int, surf: nat, pron: nat, read: nat, left: nat, right: nat,
                         pos: nat, acc: byte, mora: byte, chain: nat, count: nat, comp: nat)

  datatype Tables = Tables(surf: seq<byte>, pron: seq<byte>, posp: seq<byte>, chainp: seq<byte>,
                           posOff: seq<nat>, chainOff: seq<nat>, comps: seq<Comp>)

  predicate Grows(t: Tables, u: Tables)
  {
    && t.surf <= u.surf && t.pron <= u.pron && t.posp <= u.posp && t.chainp <= u.chainp
    && t.posOff <= u.posOff && t.chainOff <= u.chainOff && t.comps <= u.comps
  }

  /** A component says what its part says. */
  predicate CompSays(t: Tables, c: Comp, surface: Str, part: Part)
  {
    && Placed(t.pron, c.pron, part.pron) && Placed(t.pron, c.read, part.read) && Placed(t.surf, c.surf, surface)
    && c.acc == part.acc && c.mora == part.mora
  }

  /** Part `k` is kept as the component it should be. */
  predicate PartKept(t: Tables, from: nat, row: Row, parts: seq<Part>, k: nat)
    requires 1 <= k < |parts|
  {
    from + k - 1 < |t.comps| && CompSays(t, t.comps[from + k - 1], SurfaceAt(row, k), parts[k])
  }

  predicate CompsSay(t: Tables, from: nat, row: Row, parts: seq<Part>, n: nat)
    requires n <= |parts|
  {
    forall k: nat :: 1 <= k < n ==> PartKept(t, from, row, parts, k)
  }

  predicate PosSays(t: Tables, id: nat, pos: seq<Str>)
  {
    id < |t.posOff| && Seg(t.posp, t.posOff[id], Joined(pos))
  }

  predicate ChainSays(t: Tables, id: nat, chain: Str)
  {
    id < |t.chainOff| && Placed(t.chainp, t.chainOff[id], chain)
  }

  /** An entry says what its row says. */
  predicate Says(t: Tables, e: Entry, row: Row, parts: seq<Part>)
    requires parts != []
  {
    && e.key == row.surface && e.cost == row.cost && e.left == row.left && e.right == row.right
    && Placed(t.surf, e.surf, row.surface)
    && Placed(t.pron, e.pron, parts[0].pron) && Placed(t.pron, e.read, parts[0].read)
    && e.acc == parts[0].acc && e.mora == parts[0].mora && e.count == |parts|
    && PosSays(t, e.pos, row.pos) && ChainSays(t, e.chain, row.chain)
    && CompsSay(t, e.comp, row, parts, |parts|)
  }

  lemma EntrySays(t: Tables, e: Entry, from: nat, row: Row, parts: seq<Part>)
    requires parts != [] && e.comp == (if |parts| > 1 then from else 0)
    requires e.key == row.surface && e.cost == row.cost && e.left == row.left && e.right == row.right
    requires Placed(t.surf, e.surf, row.surface)
    requires Placed(t.pron, e.pron, parts[0].pron) && Placed(t.pron, e.read, parts[0].read)
    requires e.acc == parts[0].acc && e.mora == parts[0].mora && e.count == |parts|
    requires PosSays(t, e.pos, row.pos) && ChainSays(t, e.chain, row.chain)
    requires CompsSay(t, from, row, parts, |parts|)
    ensures Says(t, e, row, parts)
  {
  }

  lemma PosStillSays(t: Tables, u: Tables, id: nat, pos: seq<Str>)
    requires Grows(t, u) && PosSays(t, id, pos)
    ensures PosSays(u, id, pos)
  {
    SegPrefix(t.posp, u.posp, t.posOff[id], Joined(pos));
  }

  lemma CompSaysGrows(t: Tables, u: Tables, c: Comp, surface: Str, part: Part)
    requires Grows(t, u) && CompSays(t, c, surface, part)
    ensures CompSays(u, c, surface, part)
  {
    PlacedGrows(t.pron, u.pron, c.pron, part.pron);
    PlacedGrows(t.pron, u.pron, c.read, part.read);
    PlacedGrows(t.surf, u.surf, c.surf, surface);
  }

  /** What an entry says stays said as the tables grow. */
  lemma SaysGrows(t: Tables, u: Tables, e: Entry, row: Row, parts: seq<Part>)
    requires Grows(t, u) && parts != [] && Says(t, e, row, parts)
    ensures Says(u, e, row, parts)
  {
    PlacedGrows(t.surf, u.surf, e.surf, row.surface);
    PlacedGrows(t.pron, u.pron, e.pron, parts[0].pron);
    PlacedGrows(t.pron, u.pron, e.read, parts[0].read);
    PlacedGrows(t.chainp, u.chainp, t.chainOff[e.chain], row.chain);
    SegPrefix(t.posp, u.posp, t.posOff[e.pos], Joined(row.pos));
    CompsSayGrow(t, u, e.comp, row, parts, |parts|);
  }

  lemma CompsSayGrow(t: Tables, u: Tables, from: nat, row: Row, parts: seq<Part>, n: nat)
    requires Grows(t, u) && n <= |parts| && CompsSay(t, from, row, parts, n)
    ensures CompsSay(u, from, row, parts, n)
  {
    forall k: nat | 1 <= k < n
      ensures PartKept(u, from, row, parts, k)
    {
      assert PartKept(t, from, row, parts, k);
      CompSaysGrows(t, u, t.comps[from + k - 1], SurfaceAt(row, k), parts[k]);
    }
  }

  predicate AllSay(t: Tables, entries: seq<Entry>, source: seq<Row>, num: Str -> byte)
  {
    |entries| == |source| && forall i :: 0 <= i < |source| ==> Says(t, entries[i], source[i], PartsOf(source[i], num))
  }

  lemma AllSayNext(t: Tables, u: Tables, before: seq<Entry>, after: seq<Entry>, source: seq<Row>, i: nat,
                   num: Str -> byte)
    requires i < |source| && Grows(t, u) && AllSay(t, before, source[..i], num)
    requires |after| == i + 1 && after[..i] == before && Says(u, after[i], source[i], PartsOf(source[i], num))
    ensures AllSay(u, after, source[..i + 1], num)
  {
    hide Says, PartsOf, Grows;
    forall k | 0 <= k < i + 1
      ensures Says(u, after[k], source[k], PartsOf(source[k], num))
    {
      if k < i {
        assert after[k] == before[k] && source[..i][k] == source[k];
        SaysGrows(t, u, after[k], source[k], PartsOf(source[k], num));
      }
    }
  }

  lemma AllSayGrow(t: Tables, u: Tables, entries: seq<Entry>, source: seq<Row>, num: Str -> byte)
    requires Grows(t, u) && AllSay(t, entries, source, num)
    ensures AllSay(u, entries, source, num)
  {
    hide Says, PartsOf, Grows;
    forall i | 0 <= i < |source|
      ensures Says(u, entries[i], source[i], PartsOf(source[i], num))
    {
      SaysGrows(t, u, entries[i], source[i], PartsOf(source[i], num));
    }
  }

  predicate IdsSay(t: Tables, ids: seq<nat>, unknown: seq<seq<Str>>)
  {
    |ids| == |unknown| && forall i :: 0 <= i < |ids| ==> PosSays(t, ids[i], unknown[i])
  }

  lemma IdsSayNext(t: Tables, u: Tables, ids: seq<nat>, unknown: seq<seq<Str>>, i: nat, id: nat)
    requires i < |unknown| && Grows(t, u) && IdsSay(t, ids, unknown[..i]) && PosSays(u, id, unknown[i])
    ensures IdsSay(u, ids + [id], unknown[..i + 1])
  {
    hide PosSays, Grows;
    forall k | 0 <= k < i + 1
      ensures PosSays(u, (ids + [id])[k], unknown[k])
    {
      if k < i {
        assert unknown[..i][k] == unknown[k];
        PosStillSays(t, u, ids[k], unknown[k]);
      }
    }
  }

  // ---- the compiler -----------------------------------------------------------------

  class Compiler {
    const surf: Pool
    const pron: Pool
    const posp: Pool
    const chainp: Pool
    const num: Str -> byte
    var posIds: map<seq<Str>, nat>
    var posOff: seq<nat>
    var chainIds: map<Str, nat>
    var chainOff: seq<nat>
    var comps: seq<Comp>
    var rows: seq<Entry>

    ghost function Content(): Tables
      reads this, surf, pron, posp, chainp
    {
      Tables(surf.buf, pron.buf, posp.buf, chainp.buf, posOff, chainOff, comps)
    }

    ghost predicate Valid()
      reads this, surf, pron, posp, chainp
    {
      && surf != pron && surf != posp && surf != chainp && pron != posp && pron != chainp && posp != chainp
      && surf.Valid() && pron.Valid() && chainp.Valid()
      && (forall t :: t in posIds ==> PosSays(Content(), posIds[t], t))
      && (forall s :: s in chainIds ==> ChainSays(Content(), chainIds[s], s))
    }

    constructor (num: Str -> byte)
      ensures Valid() && rows == [] && comps == [] && this.num == num
      ensures fresh(surf) && fresh(pron) && fresh(posp) && fresh(chainp)
      ensures ChainSays(Content(), 0, [STAR])
    {
      surf := new Pool();
      pron := new Pool();
      posp := new Pool();
      chainp := new Pool();
      this.num := num;
      posIds, posOff, chainIds, chainOff, comps, rows := map[], [], map[], [], [], [];
      new;
      var id := ChainId([STAR]);
    }

    method AddTuple(t: seq<Str>)
      modifies posp
      ensures posp.buf == old(posp.buf) + Joined(t)
    {
      ghost var before := posp.buf;
      var i := 0;
      while i < |t|
        invariant 0 <= i <= |t|
        invariant posp.buf + Joined(t[i..]) == before + Joined(t)
      {
        assert t[i..][1..] == t[i + 1..];
        JoinedNext(posp.buf, t[i], Joined(t[i + 1..]));
        posp.buf := posp.buf + t[i];
        posp.buf := posp.buf + [0];
        i := i + 1;
      }
      assert posp.buf + Joined(t[|t|..]) == posp.buf;
    }

    method PosId(t: seq<Str>) returns (id: nat)
      requires Valid()
      modifies this`posIds, this`posOff, posp
      ensures Valid() && Grows(old(Content()), Content()) && PosSays(Content(), id, t)
    {
      if t !in posIds {
        ghost var before, ids := Content(), posIds;
        var off := |posp.buf|;
        AddTuple(t);
        posIds := posIds[t := |posOff|];
        posOff := posOff + [off];
        SegAppended(before.posp, Joined(t));
        PosIdsGrow(before, Content(), ids);
        ChainIdsGrow(before, Content(), chainIds);
      }
      return posIds[t];
    }

    method ChainId(s: Str) returns (id: nat)
      requires Valid()
      modifies this`chainIds, this`chainOff, chainp
      ensures Valid() && Grows(old(Content()), Content()) && ChainSays(Content(), id, s)
      ensures s !in old(chainIds) ==> id == |old(chainOff)|
    {
      if s !in chainIds {
        ghost var before, ids := Content(), chainIds;
        var off := chainp.Add(s);
        chainIds := chainIds[s := |chainOff|];
        chainOff := chainOff + [off];
        ChainIdsGrow(before, Content(), ids);
        PosIdsGrow(before, Content(), posIds);
      }
      return chainIds[s];
    }

    /** One string into a pool the tables share. */
    method AddTo(pool: Pool, s: Str) returns (off: nat)
      requires Valid() && (pool == surf || pool == pron)
      modifies pool
      ensures Valid() && Grows(old(Content()), Content()) && Placed(pool.buf, off, s)
    {
      ghost var before := Content();
      off := pool.Add(s);
      PosIdsGrow(before, Content(), posIds);
      ChainIdsGrow(before, Content(), chainIds);
    }

    /** The components after the first. */
    method AddComps(row: Row, parts: seq<Part>) returns (from: nat)
      requires Valid() && parts != []
      modifies this`comps, surf, pron
      ensures Valid() && Grows(old(Content()), Content()) && rows == old(rows)
      ensures CompsSay(Content(), from, row, parts, |parts|)
    {
      from := |comps|;
      var surfs := Split(row.surface, COLON);
      var k := 1;
      while k < |parts|
        invariant 1 <= k <= |parts| && |comps| == from + k - 1
        invariant Valid() && Grows(old(Content()), Content())
        invariant CompsSay(Content(), from, row, parts, k)
      {
        AddComp(row, parts, k, from, if k < |surfs| then surfs[k] else row.surface);
        k := k + 1;
      }
    }

    method AddComp(row: Row, parts: seq<Part>, k: nat, from: nat, surface: Str)
      requires Valid() && 1 <= k < |parts| && |comps| == from + k - 1 && surface == SurfaceAt(row, k)
      requires CompsSay(Content(), from, row, parts, k)
      modifies this`comps, surf, pron
      ensures Valid() && Grows(old(Content()), Content()) && |comps| == from + k
      ensures CompsSay(Content(), from, row, parts, k + 1)
    {
      ghost var t0 := Content();
      var p := AddTo(pron, parts[k].pron);
      ghost var t1 := Content();
      var s := AddTo(surf, surface);
      ghost var t2 := Content();
      var r := AddTo(pron, parts[k].read);
      comps := comps + [Comp(p, s, r, parts[k].acc, parts[k].mora)];
      ghost var t3 := Content();
      PosIdsGrow(t2, t3, posIds);
      ChainIdsGrow(t2, t3, chainIds);
      PlacedGrows(t1.pron, t3.pron, p, parts[k].pron);
      PlacedGrows(t2.surf, t3.surf, s, surface);
      CompsSayGrow(t0, t3, from, row, parts, k);
      assert PartKept(t3, from, row, parts, k);
    }

    /** The strings of an entry itself. */
    method AddStrings(row: Row, part: Part) returns (s: nat, p: nat, r: nat)
      requires Valid()
      modifies surf, pron
      ensures Valid() && Grows(old(Content()), Content())
      ensures Placed(surf.buf, s, row.surface) && Placed(pron.buf, p, part.pron) && Placed(pron.buf, r, part.read)
    {
      s := AddTo(surf, row.surface);
      p := AddTo(pron, part.pron);
      ghost var t2 := Content();
      r := AddTo(pron, part.read);
      PlacedGrows(t2.pron, pron.buf, p, part.pron);
    }

    method AddRow(row: Row)
      requires Valid()
      modifies this, surf, pron, posp, chainp
      ensures Valid() && Grows(old(Content()), Content())
      ensures |rows| == |old(rows)| + 1 && rows[..|old(rows)|] == old(rows)
      ensures Says(Content(), rows[|old(rows)|], row, PartsOf(row, num))
    {
      hide Says, CompsSay, Placed, PosSays, ChainSays;
      var parts := ReadParts(row, num);
      var from := AddComps(row, parts);
      ghost var t0 := Content();
      var s, p, r := AddStrings(row, parts[0]);
      var pos := PosId(row.pos);
      ghost var t2 := Content();
      var chain := ChainId(row.chain);
      PosStillSays(t2, Content(), pos, row.pos);
      CompsSayGrow(t0, Content(), from, row, parts, |parts|);
      var e := Entry(row.surface, row.cost, s, p, r, row.left, row.right, pos, parts[0].acc, parts[0].mora,
                     chain, |parts|, if |parts| > 1 then from else 0);
      EntrySays(Content(), e, from, row, parts);
      Keep(e);
    }

    method Keep(e: Entry)
      requires Valid()
      modifies this`rows
      ensures Valid() && Content() == old(Content()) && rows == old(rows) + [e]
    {
      rows := rows + [e];
    }

    /** Every row of the CSV, in order. */
    method AddRows(source: seq<Row>)
      requires Valid() && rows == []
      modifies this, surf, pron, posp, chainp
      ensures Valid() && AllSay(Content(), rows, source, num)
    {
      var i := 0;
      while i < |source|
        invariant 0 <= i <= |source| && Valid()
        invariant AllSay(Content(), rows, source[..i], num)
      {
        ghost var before, done := Content(), rows;
        AddRow(source[i]);
        AllSayNext(before, Content(), done, rows, source, i, num);
        i := i + 1;
      }
      assert source[..|source|] == source;
    }

    /** The parts of speech of the unknown-word entries, which join the pool after the rows. */
    method AddUnknown(unknown: seq<seq<Str>>) returns (ids: seq<nat>)
      requires Valid()
      modifies this`posIds, this`posOff, posp
      ensures Valid() && Grows(old(Content()), Content()) && IdsSay(Content(), ids, unknown)
    {
      ids := [];
      var i := 0;
      while i < |unknown|
        invariant 0 <= i <= |unknown| && Valid() && Grows(old(Content()), Content())
        invariant IdsSay(Content(), ids, unknown[..i])
      {
        ghost var before := Content();
        var id := PosId(unknown[i]);
        IdsSayNext(before, Content(), ids, unknown, i, id);
        ids := ids + [id];
        i := i + 1;
      }
      assert unknown[..|unknown|] == unknown;
    }
  }

  lemma JoinedNext(before: seq<byte>, s: Str, rest: seq<byte>)
    ensures before + (s + [0] + rest) == before + s + [0] + rest
  {
  }

  lemma PosIdsGrow(t: Tables, u: Tables, ids: map<seq<Str>, nat>)
    requires Grows(t, u) && forall s :: s in ids ==> PosSays(t, ids[s], s)
    ensures forall s :: s in ids ==> PosSays(u, ids[s], s)
  {
    forall s | s in ids
      ensures PosSays(u, ids[s], s)
    {
      SegPrefix(t.posp, u.posp, t.posOff[ids[s]], Joined(s));
    }
  }

  lemma ChainIdsGrow(t: Tables, u: Tables, ids: map<Str, nat>)
    requires Grows(t, u) && forall s :: s in ids ==> ChainSays(t, ids[s], s)
    ensures forall s :: s in ids ==> ChainSays(u, ids[s], s)
  {
    forall s | s in ids
      ensures ChainSays(u, ids[s], s)
    {
      PlacedGrows(t.chainp, u.chainp, t.chainOff[ids[s]], s);
    }
  }
}
