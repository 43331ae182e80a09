/** Reading a compiled dictionary back (lang/jpn/port/ja_dict.c): every row of the CSV
    comes out of the file as it went in.

    What the reader relies on is that every part of the tables stands in the file where
    the opened header says.  From that, each accessor gives what was packed: strings
    from their pools, tuples by walking over their strings, ids and counts from the
    fields of an entry, and the words of a compound from its components. */
module JaRead {
  import opened Bytes
  import opened Segments
  import opened JaPool
  import opened JaRows
  import opened JaFile

  const POS_N := 6

  /** A half-word or byte of the file, or 0 past its end. */
  function H(b: seq<byte>, o: nat): (n: nat)
    ensures n < 0x1_0000
  {
    if o + 2 <= |b| then Rd16(b, o) else 0
  }

  function SH(b: seq<byte>, o: nat): int
  {
    var v := H(b, o);
    if v >= 0x8000 then v - 0x1_0000 else v
  }

  function B(b: seq<byte>, o: nat): byte
  {
    if o < |b| then b[o] else 0
  }

  /** A word for the later stages: its string, readings, accent and length. */
  datatype Word = Word(surface: Str, pron: Str, read: Str, acc: byte, mora: byte)

  /** All an entry tells: its ids and cost, part of speech, chain rule, and its words. */
  datatype Found = Found(left: nat, right: nat, cost: int, pos: seq<Str>, chain: Str, words: seq<Word>)

  function DictPos(d: Dict, id: nat): seq<Str>
  {
    Walk(d.b, d.offPosp + W(d.b, d.offPosi + id * 4), POS_N)
  }

  function DictChain(d: Dict, id: nat): Str
  {
    Text(d.b, d.offChainp + W(d.b, d.offChaini + id * 4))
  }

  function Surface(d: Dict, i: nat): Str
  {
    Text(d.b, d.offSurf + W(d.b, d.offEntry + i * ENTRY_SIZE))
  }

  function FirstWord(d: Dict, e: nat): Word
  {
    Word(Text(d.b, d.offSurf + W(d.b, e)), Text(d.b, d.offPron + W(d.b, e + 4)), Text(d.b, d.offPron + W(d.b, e + 8)),
         B(d.b, e + 20), B(d.b, e + 21))
  }

  function MoreWord(d: Dict, c: nat): Word
  {
    Word(Text(d.b, d.offSurf + W(d.b, c + 4)), Text(d.b, d.offPron + W(d.b, c)), Text(d.b, d.offPron + W(d.b, c + 8)),
         B(d.b, c + 12), B(d.b, c + 13))
  }

  function WordAt(d: Dict, e: nat, k: nat): Word
  {
    if k == 0 then FirstWord(d, e) else MoreWord(d, d.offComp + (W(d.b, e + 24) + k - 1) * COMP_SIZE)
  }

  /** How many words an entry gives: the first always, and one for each further part. */
  function WordCount(d: Dict, e: nat): nat
  {
    if B(d.b, e + 23) == 0 then 1 else B(d.b, e + 23)
  }

  function WordsAt(d: Dict, e: nat): seq<Word>
  {
    seq(WordCount(d, e), k requires 0 <= k < WordCount(d, e) => WordAt(d, e, k))
  }

  function ReadEntry(d: Dict, i: nat): Found
  {
    var e := d.offEntry + i * ENTRY_SIZE;
    Found(H(d.b, e + 12), H(d.b, e + 14), SH(d.b, e + 16), DictPos(d, H(d.b, e + 18)), DictChain(d, B(d.b, e + 22)),
          WordsAt(d, e))
  }

  // ---- what a row means -------------------------------------------------------------

  predicate CleanRow(row: Row)
  {
    && NoNul(row.surface) && AllNoNul(row.pos) && |row.pos| == 6
    && NoNul(row.read) && NoNul(row.pron) && NoNul(row.chain)
  }

  function WordOf(row: Row, parts: seq<Part>, k: nat): Word
    requires k < |parts|
  {
    Word(if k == 0 then row.surface else SurfaceAt(row, k), parts[k].pron, parts[k].read, parts[k].acc, parts[k].mora)
  }

  function WordsOf(row: Row, parts: seq<Part>): seq<Word>
  {
    seq(|parts|, k requires 0 <= k < |parts| => WordOf(row, parts, k))
  }

  /** What the reader should find for a row. */
  function Describe(row: Row, num: Str -> byte): Found
  {
    var parts := PartsOf(row, num);
    Found(row.left, row.right, Stored(row.cost), row.pos, row.chain, WordsOf(row, parts))
  }

  /** Everything but the words, which a row says outright; a cost too wide to store is 0. */
  function Plainly(row: Row, words: seq<Word>): Found
  {
    Found(row.left, row.right, if -0x8000 <= row.cost < 0x8000 then row.cost else 0, row.pos, row.chain, words)
  }

  /** A symbol gives its reading alone. */
  lemma SymbolDescribed(row: Row, num: Str -> byte)
    requires STAR in row.acc || SLASH !in row.acc
    ensures Describe(row, num) == Plainly(row, [Word(row.surface, row.pron, row.read, 0, 0)])
  {
    hide PartsOf;
    SymbolParts(row, num);
  }

  /** A word gives its reading with the accent before the slash and the length after. */
  lemma WordDescribed(row: Row, num: Str -> byte, a: Str, m: Str)
    requires row.acc == a + ([SLASH] + m) && SLASH !in a && SLASH !in m && STAR !in row.acc
    ensures Describe(row, num) == Plainly(row, [Word(row.surface, row.pron, row.read, num(a), num(m))])
  {
    hide PartsOf;
    WordParts(row, num, a, m);
  }

  /** A compound gives a word for each slash, made of the pieces in its place; the first
      has the whole surface, as has any without a piece of its own. */
  lemma CompoundDescribed(row: Row, num: Str -> byte, surfs: seq<Str>, prons: seq<Str>, readings: seq<Str>,
                          accs: seq<Str>, halves: seq<(Str, Str)>)
    requires STAR !in row.acc && |halves| == Count(row.acc, SLASH) >= 2
    requires Pieces(row, prons, readings, accs, halves)
    requires surfs != [] && NoneHas(surfs, COLON) && row.surface == Unsplit(surfs, COLON)
    ensures
      var words := seq(|halves|, k requires 0 <= k < |halves| =>
                         Word(if k == 0 then row.surface else PieceOr(surfs, k, row.surface),
                              PieceOr(prons, k, []), PieceOr(readings, k, []), num(halves[k].0), num(halves[k].1)));
      Describe(row, num) == Plainly(row, words)
  {
    hide PartsOf, SurfaceAt, Pieces, Unsplit, NoneHas, Count;
    CompoundParts(row, num, prons, readings, accs, halves);
    forall k: nat | k < |halves|
      ensures SurfaceAt(row, k) == PieceOr(surfs, k, row.surface)
    {
      SurfacePieces(row, surfs, k);
    }
  }

  // ---- finding what was placed ------------------------------------------------------

  predicate EntryStands(d: Dict, e: Entry, i: nat)
  {
    Fits(e) && Seg(d.b, d.offEntry + i * ENTRY_SIZE, EntryBytes(e))
  }

  predicate CompStands(d: Dict, c: Comp, j: nat)
  {
    CompFits(c) && Seg(d.b, d.offComp + j * COMP_SIZE, CompBytes(c))
  }

  predicate WordStands(d: Dict, at: nat, k: nat, n: nat)
  {
    W(d.b, at + k * 4) == n
  }

  /** Everything in the tables stands where the opened dictionary looks for it. */
  ghost predicate Stands(d: Dict, t: Tables, es: seq<Entry>)
  {
    && d.nEntries == |es|
    && Seg(d.b, d.offSurf, t.surf) && Seg(d.b, d.offPron, t.pron)
    && Seg(d.b, d.offPosp, t.posp) && Seg(d.b, d.offChainp, t.chainp)
    && (forall k: nat :: k < |t.posOff| ==> WordStands(d, d.offPosi, k, t.posOff[k]))
    && (forall k: nat :: k < |t.chainOff| ==> WordStands(d, d.offChaini, k, t.chainOff[k]))
    && (forall i: nat :: i < |es| ==> EntryStands(d, es[i], i))
    && (forall j: nat :: j < |t.comps| ==> CompStands(d, t.comps[j], j))
  }

  /** A block of the file holds what it starts with. */
  lemma BlockHolds(t: Tables, es: seq<Entry>, x: Extra, k: nat, s: seq<byte>)
    requires Writable(t, es, x) && k < 12 && s <= Blocks(t, es, x)[k]
    ensures Seg(FileOf(t, es, x), OffsetOf(Blocks(t, es, x), k), s)
  {
    hide Blocks, FileOf, OffsetOf, Seg;
    BlockPlaced(t, es, x, k);
    SegWhole(s);
    SegPrefix(s, Blocks(t, es, x)[k], 0, s);
    SegNested(FileOf(t, es, x), OffsetOf(Blocks(t, es, x), k), Blocks(t, es, x)[k], 0, s);
  }

  lemma SegWhole(s: seq<byte>)
    ensures Seg(s, 0, s)
  {
  }

  lemma WordsStand(d: Dict, at: nat, ns: seq<nat>, k: nat)
    requires AllWords(ns) && k < |ns| && Seg(d.b, at, Flat(Words(ns)))
    ensures WordStands(d, at, k, ns[k])
  {
    hide Flat, Seg, Le32;
    SegSized(Words(ns), 4, k);
    SegNested(d.b, at, Flat(Words(ns)), k * 4, Le32(ns[k]));
    SegRd32(d.b, at + k * 4, ns[k]);
  }

  lemma RecordsStand(d: Dict, es: seq<Entry>, i: nat)
    requires (forall k :: 0 <= k < |es| ==> Fits(es[k])) && Seg(d.b, d.offEntry, Flat(Records(es))) && i < |es|
    ensures EntryStands(d, es[i], i)
  {
    hide Flat, Seg;
    SegSized(Records(es), ENTRY_SIZE, i);
    SegNested(d.b, d.offEntry, Flat(Records(es)), i * ENTRY_SIZE, EntryBytes(es[i]));
  }

  lemma CompRecordsStand(d: Dict, cs: seq<Comp>, j: nat)
    requires (forall k :: 0 <= k < |cs| ==> CompFits(cs[k])) && Seg(d.b, d.offComp, Flat(CompRecords(cs))) && j < |cs|
    ensures CompStands(d, cs[j], j)
  {
    hide Flat, Seg;
    SegSized(CompRecords(cs), COMP_SIZE, j);
    SegNested(d.b, d.offComp, Flat(CompRecords(cs)), j * COMP_SIZE, CompBytes(cs[j]));
  }

  /** Every part of a compiled dictionary stands where its header says. */
  lemma FileStands(t: Tables, es: seq<Entry>, x: Extra)
    requires Writable(t, es, x)
    ensures Stands(Fields(FileOf(t, es, x)), t, es)
  {
    hide Blocks, FileOf, OffsetOf, Seg, Pad, Flat, Words, Records, CompRecords, Fields, Header, EntryStands,
      CompStands, WordStands;
    var d := Fields(FileOf(t, es, x));
    FieldsRead(t, es, x);
    BlockItems(t, es, x);
    FieldsKeep(FileOf(t, es, x));
    BlockHolds(t, es, x, 0, t.surf);
    BlockHolds(t, es, x, 1, t.pron);
    BlockHolds(t, es, x, 2, t.posp);
    BlockHolds(t, es, x, 3, t.chainp);
    ArraysStand(d, t, es, x);
  }

  lemma FieldsKeep(b: seq<byte>)
    ensures Fields(b).b == b
  {
  }

  lemma ArraysStand(d: Dict, t: Tables, es: seq<Entry>, x: Extra)
    requires Writable(t, es, x) && d.b == FileOf(t, es, x) && HeaderAgrees(d, t, es, x, Blocks(t, es, x))
    ensures forall k: nat :: k < |t.posOff| ==> WordStands(d, d.offPosi, k, t.posOff[k])
    ensures forall k: nat :: k < |t.chainOff| ==> WordStands(d, d.offChaini, k, t.chainOff[k])
    ensures forall i: nat :: i < |es| ==> EntryStands(d, es[i], i)
    ensures forall j: nat :: j < |t.comps| ==> CompStands(d, t.comps[j], j)
  {
    hide Blocks, FileOf, OffsetOf, Seg, Pad, Flat, Words, Records, CompRecords, Header, EntryStands, CompStands,
      WordStands;
    BlockItems(t, es, x);
    BlockPlaced(t, es, x, 4);
    BlockPlaced(t, es, x, 5);
    BlockPlaced(t, es, x, 6);
    BlockPlaced(t, es, x, 7);
    forall k: nat | k < |t.posOff|
      ensures WordStands(d, d.offPosi, k, t.posOff[k])
    {
      WordsStand(d, d.offPosi, t.posOff, k);
    }
    forall k: nat | k < |t.chainOff|
      ensures WordStands(d, d.offChaini, k, t.chainOff[k])
    {
      WordsStand(d, d.offChaini, t.chainOff, k);
    }
    forall i: nat | i < |es|
      ensures EntryStands(d, es[i], i)
    {
      RecordsStand(d, es, i);
    }
    forall j: nat | j < |t.comps|
      ensures CompStands(d, t.comps[j], j)
    {
      CompRecordsStand(d, t.comps, j);
    }
  }

  lemma PoolRead(b: seq<byte>, base: nat, buf: seq<byte>, o: nat, s: Str)
    requires Seg(b, base, buf) && Placed(buf, o, s) && NoNul(s)
    ensures Text(b, base + o) == s
  {
    hide Seg, Text;
    SegNested(b, base, buf, o, s + [0]);
    TextRead(b, base + o, s);
  }

  lemma ChainRead(d: Dict, t: Tables, es: seq<Entry>, id: nat, s: Str)
    requires Stands(d, t, es) && ChainSays(t, id, s) && NoNul(s)
    ensures DictChain(d, id) == s
  {
    hide Seg, Text, NoNul, Placed;
    assert WordStands(d, d.offChaini, id, t.chainOff[id]);
    PoolRead(d.b, d.offChainp, t.chainp, t.chainOff[id], s);
  }

  lemma PosRead(d: Dict, t: Tables, es: seq<Entry>, id: nat, pos: seq<Str>)
    requires Stands(d, t, es) && PosSays(t, id, pos) && AllNoNul(pos) && |pos| == POS_N
    ensures DictPos(d, id) == pos
  {
    hide Seg, Walk, NoNul, AllNoNul, Joined;
    assert WordStands(d, d.offPosi, id, t.posOff[id]);
    SegNested(d.b, d.offPosp, t.posp, t.posOff[id], Joined(pos));
    WalkReads(d.b, d.offPosp + t.posOff[id], pos);
  }

  // ---- the round trip ---------------------------------------------------------------

  predicate CleanPart(p: Part)
  {
    NoNul(p.pron) && NoNul(p.read)
  }

  lemma {:induction false} SplitClean(s: Str, c: byte, k: nat)
    requires NoNul(s) && k < |Split(s, c)|
    ensures NoNul(Split(s, c)[k])
  {
    if s == [] {
    } else {
      assert NoNul(s[1..]);
      var rest := Split(s[1..], c);
      if s[0] == c {
        if k > 0 {
          SplitClean(s[1..], c, k - 1);
        }
      } else {
        SplitClean(s[1..], c, k);
      }
    }
  }

  lemma PartsClean(row: Row, num: Str -> byte, k: nat)
    requires CleanRow(row) && k < |PartsOf(row, num)|
    ensures CleanPart(PartsOf(row, num)[k]) && NoNul(SurfaceAt(row, k))
  {
    if k < |Split(row.surface, COLON)| {
      SplitClean(row.surface, COLON, k);
    }
    if k < |Split(row.pron, COLON)| {
      SplitClean(row.pron, COLON, k);
    }
    if k < |Split(row.read, COLON)| {
      SplitClean(row.read, COLON, k);
    }
  }

  lemma FirstRead(d: Dict, t: Tables, es: seq<Entry>, i: nat, row: Row, parts: seq<Part>)
    requires Stands(d, t, es) && i < |es| && parts != [] && Says(t, es[i], row, parts)
    requires NoNul(row.surface) && CleanPart(parts[0])
    ensures FirstWord(d, d.offEntry + i * ENTRY_SIZE) == WordOf(row, parts, 0)
  {
    hide Seg, Text, NoNul, Placed, EntryBytes, Fits, PosSays, ChainSays, CompsSay;
    var e, at := es[i], d.offEntry + i * ENTRY_SIZE;
    assert EntryStands(d, e, i);
    EntryFields(d.b, at, e);
    PoolRead(d.b, d.offSurf, t.surf, e.surf, row.surface);
    PoolRead(d.b, d.offPron, t.pron, e.pron, parts[0].pron);
    PoolRead(d.b, d.offPron, t.pron, e.read, parts[0].read);
  }

  lemma MoreRead(d: Dict, t: Tables, es: seq<Entry>, i: nat, row: Row, parts: seq<Part>, k: nat)
    requires Stands(d, t, es) && i < |es| && 1 <= k < |parts| && Says(t, es[i], row, parts)
    requires NoNul(SurfaceAt(row, k)) && CleanPart(parts[k])
    ensures WordAt(d, d.offEntry + i * ENTRY_SIZE, k) == WordOf(row, parts, k)
  {
    hide Seg, Text, NoNul, Placed, EntryBytes, CompBytes, Fits, CompFits, PosSays, ChainSays, SurfaceAt;
    var e, at := es[i], d.offEntry + i * ENTRY_SIZE;
    assert EntryStands(d, e, i);
    EntryFields(d.b, at, e);
    assert PartKept(t, e.comp, row, parts, k);
    var j := e.comp + k - 1;
    var c := t.comps[j];
    assert CompStands(d, c, j);
    CompFields(d.b, d.offComp + j * COMP_SIZE, c);
    PoolRead(d.b, d.offSurf, t.surf, c.surf, SurfaceAt(row, k));
    PoolRead(d.b, d.offPron, t.pron, c.pron, parts[k].pron);
    PoolRead(d.b, d.offPron, t.pron, c.read, parts[k].read);
  }

  lemma IdsRead(d: Dict, t: Tables, es: seq<Entry>, i: nat, row: Row, parts: seq<Part>)
    requires Stands(d, t, es) && i < |es| && parts != [] && Says(t, es[i], row, parts) && CleanRow(row)
    ensures
      var e := d.offEntry + i * ENTRY_SIZE;
      && H(d.b, e + 12) == row.left && H(d.b, e + 14) == row.right && SH(d.b, e + 16) == Stored(row.cost)
      && DictPos(d, H(d.b, e + 18)) == row.pos && DictChain(d, B(d.b, e + 22)) == row.chain
      && WordCount(d, e) == |parts|
  {
    hide Seg, NoNul, AllNoNul, Placed, EntryBytes, Fits, PosSays, ChainSays, CompsSay, DictPos, DictChain, Stored;
    assert EntryStands(d, es[i], i);
    EntryFields(d.b, d.offEntry + i * ENTRY_SIZE, es[i]);
    PosRead(d, t, es, es[i].pos, row.pos);
    ChainRead(d, t, es, es[i].chain, row.chain);
  }

  lemma WordsRead(d: Dict, t: Tables, es: seq<Entry>, i: nat, row: Row, num: Str -> byte)
    requires Stands(d, t, es) && i < |es| && Says(t, es[i], row, PartsOf(row, num)) && CleanRow(row)
    requires WordCount(d, d.offEntry + i * ENTRY_SIZE) == |PartsOf(row, num)|
    ensures WordsAt(d, d.offEntry + i * ENTRY_SIZE) == WordsOf(row, PartsOf(row, num))
  {
    hide Stands, Says, PartsOf, CleanRow, WordAt, WordOf, WordCount;
    var parts := PartsOf(row, num);
    var e := d.offEntry + i * ENTRY_SIZE;
    forall k: nat | k < |parts|
      ensures WordAt(d, e, k) == WordOf(row, parts, k)
    {
      WordReads(d, t, es, i, row, num, k);
    }
  }

  /** An entry that says what a row says is read back as that row: its surface, all its
      parts in order, its part of speech and its chain rule. */
  lemma EntryReadsRow(d: Dict, t: Tables, es: seq<Entry>, i: nat, row: Row, num: Str -> byte)
    requires Stands(d, t, es) && i < |es| && Says(t, es[i], row, PartsOf(row, num)) && CleanRow(row)
    ensures ReadEntry(d, i) == Describe(row, num) && Surface(d, i) == row.surface
  {
    hide Stands, Says, PartsOf, CleanRow, WordsAt, WordsOf, Surface, DictPos, DictChain;
    IdsRead(d, t, es, i, row, PartsOf(row, num));
    SurfaceRead(d, t, es, i, row, num);
    WordsRead(d, t, es, i, row, num);
  }

  lemma WordReads(d: Dict, t: Tables, es: seq<Entry>, i: nat, row: Row, num: Str -> byte, k: nat)
    requires Stands(d, t, es) && i < |es| && Says(t, es[i], row, PartsOf(row, num)) && CleanRow(row)
    requires k < |PartsOf(row, num)|
    ensures WordAt(d, d.offEntry + i * ENTRY_SIZE, k) == WordOf(row, PartsOf(row, num), k)
  {
    hide Stands, Says, PartsOf, SurfaceAt;
    PartsClean(row, num, k);
    if k == 0 {
      FirstRead(d, t, es, i, row, PartsOf(row, num));
    } else {
      MoreRead(d, t, es, i, row, PartsOf(row, num), k);
    }
  }

  lemma SurfaceRead(d: Dict, t: Tables, es: seq<Entry>, i: nat, row: Row, num: Str -> byte)
    requires Stands(d, t, es) && i < |es| && Says(t, es[i], row, PartsOf(row, num)) && CleanRow(row)
    ensures Surface(d, i) == row.surface
  {
    hide Stands, Says, PartsOf, SurfaceAt;
    PartsClean(row, num, 0);
    FirstRead(d, t, es, i, row, PartsOf(row, num));
  }
}
