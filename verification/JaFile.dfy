/** The compiled dictionary as a file: how tools/gen_ja_dict.py writes it, and how
    lang/jpn/port/ja_dict.c opens it.

    After the magic come 25 words: the version and counts, the place and length of each
    of the four string pools, and the places of the arrays.  Then the blocks: the pools
    padded to words, two arrays of offsets, the entries of 28 bytes, the components of
    16, and the blocks made from other inputs.  Each block is placed after all blocks
    before it. */
module JaFile {
  import opened Bytes
  import opened Segments
  import opened Wrappers
  import opened JaPool
  import opened JaRows

  const MAGIC: seq<byte> := [0x4f, 0x50, 0x45, 0x4e, 0x54, 0x56, 0x4a, 0x31]
  const VERSION := 4
  const HEAD := 108
  const ENTRY_SIZE := 28
  const COMP_SIZE := 16
  const UNK_SIZE := 12

  // ---- records ----------------------------------------------------------------------

  /** A cost outside 16 bits is stored as 0. */
  function Stored(cost: int): int
  {
    if -32768 <= cost <= 32767 then cost else 0
  }

  function SLe16(v: int): seq<byte>
    requires -32768 <= v <= 32767
  {
    Le16(if v < 0 then v + 0x1_0000 else v)
  }

  function Rds16(b: seq<byte>, o: nat): int
    requires o + 2 <= |b|
  {
    var v := Rd16(b, o);
    if v >= 0x8000 then v - 0x1_0000 else v
  }

  predicate Fits(e: Entry)
  {
    && e.surf < WORD && e.pron < WORD && e.read < WORD && e.comp < WORD
    && e.left < 0x1_0000 && e.right < 0x1_0000 && e.pos < 0x1_0000 && e.chain < 256 && e.count < 256
  }

  function EntryBytes(e: Entry): (b: seq<byte>)
    requires Fits(e)
    ensures |b| == ENTRY_SIZE
  {
    Le32(e.surf) + Le32(e.pron) + Le32(e.read) + Le16(e.left) + Le16(e.right) + SLe16(Stored(e.cost)) + Le16(e.pos)
    + [e.acc, e.mora, e.chain, e.count] + Le32(e.comp)
  }

  predicate CompFits(c: Comp)
  {
    c.pron < WORD && c.surf < WORD && c.read < WORD
  }

  function CompBytes(c: Comp): (b: seq<byte>)
    requires CompFits(c)
    ensures |b| == COMP_SIZE
  {
    Le32(c.pron) + Le32(c.surf) + Le32(c.read) + [c.acc, c.mora] + Le16(0)
  }

  /** What the reader finds in an entry is what was packed. */
  lemma EntryFields(b: seq<byte>, at: nat, e: Entry)
    requires Fits(e) && Seg(b, at, EntryBytes(e))
    ensures at + ENTRY_SIZE <= |b|
    ensures Rd32(b, at) == e.surf && Rd32(b, at + 4) == e.pron && Rd32(b, at + 8) == e.read
    ensures Rd16(b, at + 12) == e.left && Rd16(b, at + 14) == e.right && Rds16(b, at + 16) == Stored(e.cost)
    ensures Rd16(b, at + 18) == e.pos && b[at + 20] == e.acc && b[at + 21] == e.mora
    ensures b[at + 22] == e.chain && b[at + 23] == e.count && Rd32(b, at + 24) == e.comp
  {
    var last := Le32(e.comp);
    var four: seq<byte> := [e.acc, e.mora, e.chain, e.count];
    var s7 := Le32(e.surf) + Le32(e.pron) + Le32(e.read) + Le16(e.left) + Le16(e.right) + SLe16(Stored(e.cost))
              + Le16(e.pos);
    SegSplit(b, at, s7 + four, last);
    SegSplit(b, at, s7, four);
    SegRd32(b, at + 24, e.comp);
    assert b[at + 20..at + 24] == four;
    assert b[at + 20] == four[0] && b[at + 21] == four[1] && b[at + 22] == four[2] && b[at + 23] == four[3];
    WordFields(b, at, e);
  }

  lemma WordFields(b: seq<byte>, at: nat, e: Entry)
    requires Fits(e)
    requires Seg(b, at, Le32(e.surf) + Le32(e.pron) + Le32(e.read) + Le16(e.left) + Le16(e.right)
                        + SLe16(Stored(e.cost)) + Le16(e.pos))
    ensures at + 20 <= |b|
    ensures Rd32(b, at) == e.surf && Rd32(b, at + 4) == e.pron && Rd32(b, at + 8) == e.read
    ensures Rd16(b, at + 12) == e.left && Rd16(b, at + 14) == e.right && Rds16(b, at + 16) == Stored(e.cost)
    ensures Rd16(b, at + 18) == e.pos
  {
    hide Le32, Le16;
    var cost := if Stored(e.cost) < 0 then Stored(e.cost) + 0x1_0000 else Stored(e.cost);
    var s1 := Le32(e.surf);
    var s2 := s1 + Le32(e.pron);
    var s3 := s2 + Le32(e.read);
    var s4 := s3 + Le16(e.left);
    var s5 := s4 + Le16(e.right);
    var s6 := s5 + Le16(cost);
    SegSplit(b, at, s6, Le16(e.pos));
    SegSplit(b, at, s5, Le16(cost));
    SegSplit(b, at, s4, Le16(e.right));
    SegSplit(b, at, s3, Le16(e.left));
    SegSplit(b, at, s2, Le32(e.read));
    SegSplit(b, at, s1, Le32(e.pron));
    SegRd32(b, at, e.surf);
    SegRd32(b, at + 4, e.pron);
    SegRd32(b, at + 8, e.read);
    SegRd16(b, at + 12, e.left);
    SegRd16(b, at + 14, e.right);
    SegRd16(b, at + 16, cost);
    SegRd16(b, at + 18, e.pos);
  }

  lemma CompFields(b: seq<byte>, at: nat, c: Comp)
    requires CompFits(c) && Seg(b, at, CompBytes(c))
    ensures at + COMP_SIZE <= |b|
    ensures Rd32(b, at) == c.pron && Rd32(b, at + 4) == c.surf && Rd32(b, at + 8) == c.read
    ensures b[at + 12] == c.acc && b[at + 13] == c.mora
  {
    var two: seq<byte> := [c.acc, c.mora];
    var s1 := Le32(c.pron);
    var s2 := s1 + Le32(c.surf);
    var s3 := s2 + Le32(c.read);
    SegSplit(b, at, s3 + two, Le16(0));
    SegSplit(b, at, s3, two);
    SegSplit(b, at, s2, Le32(c.read));
    SegSplit(b, at, s1, Le32(c.surf));
    SegRd32(b, at, c.pron);
    SegRd32(b, at + 4, c.surf);
    SegRd32(b, at + 8, c.read);
    assert b[at + 12..at + 14] == two;
    assert b[at + 12] == two[0] && b[at + 13] == two[1];
  }

  // ---- the file ---------------------------------------------------------------------

  /** What is not made from the CSV: the connection matrix, the character categories and
      their map, and the unknown-word entries, as bytes. */
  datatype Extra = Extra(dim: nat, matrix: seq<byte>, cats: nat, cat: seq<byte>, cmap: seq<byte>,
                         unks: nat, unk: seq<byte>)

  predicate Proper(x: Extra)
  {
    && |x.matrix| == x.dim * x.dim * 2 && |x.cat| == 4 * x.cats && |x.cmap| == 0x1_0000 && |x.unk| == UNK_SIZE * x.unks
  }

  function Zeros(n: nat): seq<byte>
  {
    seq(n, i => 0)
  }

  function Pad(b: seq<byte>): (r: seq<byte>)
    ensures b <= r && |r| % 4 == 0
  {
    if |b| % 4 == 0 then b else b + Zeros(4 - |b| % 4)
  }

  function Words(ns: seq<nat>): (r: seq<seq<byte>>)
    requires forall i :: 0 <= i < |ns| ==> ns[i] < WORD
    ensures |r| == |ns| && Sized(r, 4)
    ensures forall i :: 0 <= i < |ns| ==> r[i] == Le32(ns[i])
  {
    seq(|ns|, i requires 0 <= i < |ns| => Le32(ns[i]))
  }

  function Records(es: seq<Entry>): (r: seq<seq<byte>>)
    requires forall i :: 0 <= i < |es| ==> Fits(es[i])
    ensures |r| == |es| && Sized(r, ENTRY_SIZE)
    ensures forall i :: 0 <= i < |es| ==> r[i] == EntryBytes(es[i])
  {
    seq(|es|, i requires 0 <= i < |es| => EntryBytes(es[i]))
  }

  function CompRecords(cs: seq<Comp>): (r: seq<seq<byte>>)
    requires forall i :: 0 <= i < |cs| ==> CompFits(cs[i])
    ensures |r| == |cs| && Sized(r, COMP_SIZE)
    ensures forall i :: 0 <= i < |cs| ==> r[i] == CompBytes(cs[i])
  {
    seq(|cs|, i requires 0 <= i < |cs| => CompBytes(cs[i]))
  }

  /** Every number is within the width of its field. */
  predicate Packable(t: Tables, es: seq<Entry>)
  {
    && (forall i :: 0 <= i < |es| ==> Fits(es[i]))
    && (forall i :: 0 <= i < |t.comps| ==> CompFits(t.comps[i]))
    && (forall i :: 0 <= i < |t.posOff| ==> t.posOff[i] < WORD)
    && (forall i :: 0 <= i < |t.chainOff| ==> t.chainOff[i] < WORD)
  }

  /** The blocks after the header, in the order they are placed. */
  function Blocks(t: Tables, es: seq<Entry>, x: Extra): (r: seq<seq<byte>>)
    requires Packable(t, es)
    ensures |r| == 12
  {
    [Pad(t.surf), Pad(t.pron), Pad(t.posp), Pad(t.chainp), Flat(Words(t.posOff)), Flat(Words(t.chainOff)),
     Flat(Records(es)), Flat(CompRecords(t.comps)), x.matrix, x.cat, x.cmap, x.unk]
  }

  /** Where block `k` is placed. */
  function OffsetOf(blocks: seq<seq<byte>>, k: nat): nat
    requires k <= |blocks|
  {
    HEAD + |FlatTo(blocks, k)|
  }

  function Counts(t: Tables, es: seq<Entry>, x: Extra): (r: seq<nat>)
    ensures |r| == 8
  {
    [VERSION, |es|, |t.posOff|, |t.chainOff|, x.cats, x.unks, x.dim, |t.comps|]
  }

  /** Offset and length of each string pool. */
  function PoolPlaces(bs: seq<seq<byte>>): (r: seq<nat>)
    requires |bs| == 12
    ensures |r| == 8
  {
    [OffsetOf(bs, 0), |bs[0]|, OffsetOf(bs, 1), |bs[1]|, OffsetOf(bs, 2), |bs[2]|, OffsetOf(bs, 3), |bs[3]|]
  }

  /** Offsets of the arrays; the components come last though they are placed eighth. */
  function ArrayPlaces(bs: seq<seq<byte>>): (r: seq<nat>)
    requires |bs| == 12
    ensures |r| == 9
  {
    [OffsetOf(bs, 4), OffsetOf(bs, 5), OffsetOf(bs, 6), OffsetOf(bs, 8), OffsetOf(bs, 9), OffsetOf(bs, 10),
     OffsetOf(bs, 11), OffsetOf(bs, 7), 0]
  }

  function Header(t: Tables, es: seq<Entry>, x: Extra, bs: seq<seq<byte>>): (r: seq<nat>)
    requires |bs| == 12
    ensures |r| == 25
  {
    Counts(t, es, x) + PoolPlaces(bs) + ArrayPlaces(bs)
  }

  predicate AllWords(ns: seq<nat>)
  {
    forall i :: 0 <= i < |ns| ==> ns[i] < WORD
  }

  predicate Writable(t: Tables, es: seq<Entry>, x: Extra)
  {
    Packable(t, es) && AllWords(Header(t, es, x, Blocks(t, es, x)))
  }

  function FileOf(t: Tables, es: seq<Entry>, x: Extra): seq<byte>
    requires Writable(t, es, x)
  {
    var bs := Blocks(t, es, x);
    MAGIC + Flat(Words(Header(t, es, x, bs))) + Flat(bs)
  }

  lemma HeadLength(t: Tables, es: seq<Entry>, x: Extra)
    requires Writable(t, es, x)
    ensures |MAGIC + Flat(Words(Header(t, es, x, Blocks(t, es, x))))| == HEAD
  {
    var ws := Words(Header(t, es, x, Blocks(t, es, x)));
    FlatSized(ws, 4, |ws|);
  }

  /** Every block stands where the header says. */
  lemma BlockPlaced(t: Tables, es: seq<Entry>, x: Extra, k: nat)
    requires Writable(t, es, x) && k < 12
    ensures Seg(FileOf(t, es, x), OffsetOf(Blocks(t, es, x), k), Blocks(t, es, x)[k])
  {
    hide Blocks, Header;
    var bs := Blocks(t, es, x);
    var head := MAGIC + Flat(Words(Header(t, es, x, bs)));
    HeadLength(t, es, x);
    SegFlat(bs, |bs|, k);
    SegAppended(head, Flat(bs));
    SegNested(FileOf(t, es, x), HEAD, Flat(bs), |FlatTo(bs, k)|, bs[k]);
  }

  /** Every header word is read back. */
  lemma HeaderRead(t: Tables, es: seq<Entry>, x: Extra, k: nat)
    requires Writable(t, es, x) && k < 25
    ensures |FileOf(t, es, x)| >= HEAD
    ensures Rd32(FileOf(t, es, x), 8 + k * 4) == Header(t, es, x, Blocks(t, es, x))[k]
    ensures FileOf(t, es, x)[..8] == MAGIC
  {
    hide Blocks, Header;
    var bs := Blocks(t, es, x);
    var ns := Header(t, es, x, bs);
    var f := FileOf(t, es, x);
    HeadLength(t, es, x);
    SegAppended(MAGIC, Flat(Words(ns)));
    SegExtend(MAGIC + Flat(Words(ns)), Flat(bs), 8, Flat(Words(ns)));
    SegSized(Words(ns), 4, k);
    SegNested(f, 8, Flat(Words(ns)), k * 4, Le32(ns[k]));
    SegRd32(f, 8 + k * 4, ns[k]);
  }

  // ---- opening ----------------------------------------------------------------------

  /** A word of the file, or 0 past its end. */
  function W(b: seq<byte>, o: nat): (n: nat)
    ensures n < WORD
  {
    if o + 4 <= |b| then Rd32(b, o) else 0
  }

  /** The dictionary as opened: the file's bytes, counts and offsets. */
  datatype Dict = Dict(
    b: seq<byte>, nEntries: nat, nPos: nat, nChain: nat, dim: nat, nComp: nat,
    offSurf: nat, offPron: nat, offPosp: nat, offChainp: nat, offPosi: nat, offChaini: nat,
    offEntry: nat, offMatrix: nat, offCat: nat, offCmap: nat, offUnk: nat, offComp: nat, nUnk: nat)

  function Fields(b: seq<byte>): Dict
  {
    Dict(b, W(b, 8 + 1 * 4), W(b, 8 + 2 * 4), W(b, 8 + 3 * 4), W(b, 8 + 6 * 4), W(b, 8 + 7 * 4),
         W(b, 8 + 8 * 4), W(b, 8 + 10 * 4), W(b, 8 + 12 * 4), W(b, 8 + 14 * 4), W(b, 8 + 16 * 4), W(b, 8 + 17 * 4),
         W(b, 8 + 18 * 4), W(b, 8 + 19 * 4), W(b, 8 + 20 * 4), W(b, 8 + 21 * 4), W(b, 8 + 22 * 4), W(b, 8 + 23 * 4),
         W(b, 8 + 5 * 4))
  }

  datatype Opened = Ok(d: Dict) | Bad(code: int)

  /** `ja_dict_open` once the file is read. */
  function Open(b: seq<byte>): Opened
  {
    if |b| < HEAD || b[..8] != MAGIC then Bad(-2)
    else if W(b, 8) != VERSION then Bad(-3)
    else
      var d := Fields(b);
      if d.offEntry + d.nEntries * ENTRY_SIZE > |b| || d.offMatrix + d.dim * d.dim * 2 > |b|
         || d.offCmap + 0x1_0000 > |b| || d.offUnk + d.nUnk * UNK_SIZE > |b| then Bad(-2)
      else Ok(d)
  }

  /** What the header of a compiled dictionary says. */
  predicate HeaderAgrees(d: Dict, t: Tables, es: seq<Entry>, x: Extra, bs: seq<seq<byte>>)
    requires |bs| == 12
  {
    && d.nEntries == |es| && d.nPos == |t.posOff| && d.nChain == |t.chainOff| && d.dim == x.dim && d.nComp == |t.comps|
    && d.nUnk == x.unks
    && d.offSurf == OffsetOf(bs, 0) && d.offPron == OffsetOf(bs, 1) && d.offPosp == OffsetOf(bs, 2)
    && d.offChainp == OffsetOf(bs, 3) && d.offPosi == OffsetOf(bs, 4) && d.offChaini == OffsetOf(bs, 5)
    && d.offEntry == OffsetOf(bs, 6) && d.offComp == OffsetOf(bs, 7) && d.offMatrix == OffsetOf(bs, 8)
    && d.offCat == OffsetOf(bs, 9) && d.offCmap == OffsetOf(bs, 10) && d.offUnk == OffsetOf(bs, 11)
  }

  lemma HeaderWord(t: Tables, es: seq<Entry>, x: Extra, k: nat)
    requires Writable(t, es, x) && k < 25
    ensures W(FileOf(t, es, x), 8 + k * 4) == Header(t, es, x, Blocks(t, es, x))[k]
  {
    hide Blocks, Header, Flat, Words;
    HeaderRead(t, es, x, k);
    HeadFits(t, es, x);
  }

  lemma HeadFits(t: Tables, es: seq<Entry>, x: Extra)
    requires Writable(t, es, x)
    ensures |FileOf(t, es, x)| >= HEAD && FileOf(t, es, x)[..8] == MAGIC
  {
    HeaderRead(t, es, x, 0);
  }

  lemma FieldsRead(t: Tables, es: seq<Entry>, x: Extra)
    requires Writable(t, es, x)
    ensures HeaderAgrees(Fields(FileOf(t, es, x)), t, es, x, Blocks(t, es, x))
  {
    hide FileOf, Blocks, OffsetOf;
    forall k: nat | k < 25
      ensures W(FileOf(t, es, x), 8 + k * 4) == Header(t, es, x, Blocks(t, es, x))[k]
    {
      HeaderWord(t, es, x, k);
    }
    var f, h := FileOf(t, es, x), Header(t, es, x, Blocks(t, es, x));
    assert W(f, 8 + 1 * 4) == h[1] && W(f, 8 + 2 * 4) == h[2] && W(f, 8 + 3 * 4) == h[3] && W(f, 8 + 5 * 4) == h[5];
    assert W(f, 8 + 6 * 4) == h[6] && W(f, 8 + 7 * 4) == h[7] && W(f, 8 + 8 * 4) == h[8] && W(f, 8 + 10 * 4) == h[10];
    assert W(f, 8 + 12 * 4) == h[12] && W(f, 8 + 14 * 4) == h[14];
    assert W(f, 8 + 16 * 4) == h[16] && W(f, 8 + 17 * 4) == h[17];
    assert W(f, 8 + 18 * 4) == h[18] && W(f, 8 + 19 * 4) == h[19] && W(f, 8 + 20 * 4) == h[20];
    assert W(f, 8 + 21 * 4) == h[21] && W(f, 8 + 22 * 4) == h[22] && W(f, 8 + 23 * 4) == h[23];
  }

  lemma BlockLengths(t: Tables, es: seq<Entry>, x: Extra)
    requires Packable(t, es)
    ensures
      var bs := Blocks(t, es, x);
      && |bs[6]| == |es| * ENTRY_SIZE && |bs[7]| == |t.comps| * COMP_SIZE
      && bs[8] == x.matrix && bs[9] == x.cat && bs[10] == x.cmap && bs[11] == x.unk
  {
    hide Blocks, Pad, FlatTo, Words, Records, CompRecords;
    FlatSized(Records(es), ENTRY_SIZE, |es|);
    FlatSized(CompRecords(t.comps), COMP_SIZE, |t.comps|);
    BlockItems(t, es, x);
  }

  lemma BlockItems(t: Tables, es: seq<Entry>, x: Extra)
    requires Packable(t, es)
    ensures
      var bs := Blocks(t, es, x);
      && bs[0] == Pad(t.surf) && bs[1] == Pad(t.pron) && bs[2] == Pad(t.posp) && bs[3] == Pad(t.chainp)
      && bs[4] == Flat(Words(t.posOff)) && bs[5] == Flat(Words(t.chainOff))
      && bs[6] == Flat(Records(es)) && bs[7] == Flat(CompRecords(t.comps))
      && bs[8] == x.matrix && bs[9] == x.cat && bs[10] == x.cmap && bs[11] == x.unk
  {
    hide Pad, Flat, FlatTo, Words, Records, CompRecords;
  }

  lemma BlockEnds(t: Tables, es: seq<Entry>, x: Extra, k: nat)
    requires Writable(t, es, x) && k < 12
    ensures OffsetOf(Blocks(t, es, x), k) + |Blocks(t, es, x)[k]| <= |FileOf(t, es, x)|
  {
    hide FileOf, Blocks, OffsetOf;
    BlockPlaced(t, es, x, k);
  }

  /** Every compiled dictionary opens. */
  lemma CompiledOpens(t: Tables, es: seq<Entry>, x: Extra)
    requires Writable(t, es, x) && Proper(x)
    ensures Open(FileOf(t, es, x)) == Ok(Fields(FileOf(t, es, x)))
    ensures
      var b := FileOf(t, es, x);
      |b| >= 108 && b[..8] == [0x4f, 0x50, 0x45, 0x4e, 0x54, 0x56, 0x4a, 0x31] && W(b, 8) == 4
  {
    hide FileOf, Blocks, OffsetOf, Fields, W;
    FieldsRead(t, es, x);
    HeadFits(t, es, x);
    HeaderWord(t, es, x, 0);
    BlockLengths(t, es, x);
    BlockEnds(t, es, x, 6);
    BlockEnds(t, es, x, 8);
    BlockEnds(t, es, x, 10);
    BlockEnds(t, es, x, 11);
  }
}
