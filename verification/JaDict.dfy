/** The Japanese dictionary from CSV rows to look-up (tools/gen_ja_dict.py,
    lang/jpn/port/ja_dict.c): compiling, and finding every row again. */
module JaDict {
  import opened Bytes
  import opened Segments
  import opened Wrappers
  import opened JaPool
  import opened JaRows
  import opened JaOrder
  import opened JaFile
  import opened JaRead

  function RowKey(row: Row): Key
  {
    Key(row.surface, row.cost)
  }

  function EntryKey(e: Entry): Key
  {
    Key(e.key, e.cost)
  }

  // ---- sorting keeps what entries say -----------------------------------------------

  ghost predicate SaysRow(t: Tables, num: Str -> byte, e: Entry, row: Row)
  {
    Says(t, e, row, PartsOf(row, num))
  }

  /** The sorted entries say what the sorted rows say, one by one. */
  lemma SortedSay(t: Tables, es: seq<Entry>, rows: seq<Row>, num: Str -> byte)
    requires AllSay(t, es, rows, num)
    ensures AllSay(t, Sort(es, EntryKey), Sort(rows, RowKey), num)
  {
    hide PartsOf;
    var r := (e, row) => SaysRow(t, num, e, row);
    assert Match(es, rows, EntryKey, RowKey, r);
    SortMatches(es, rows, EntryKey, RowKey, r);
    var se, sr := Sort(es, EntryKey), Sort(rows, RowKey);
    forall i | 0 <= i < |sr|
      ensures Says(t, se[i], sr[i], PartsOf(sr[i], num))
    {
      assert r(se[i], sr[i]);
    }
  }

  predicate CleanRows(rows: seq<Row>)
  {
    forall i :: 0 <= i < |rows| ==> CleanRow(rows[i])
  }

  lemma SortClean(rows: seq<Row>)
    requires CleanRows(rows)
    ensures CleanRows(Sort(rows, RowKey))
  {
    hide CleanRow;
    var s := Sort(rows, RowKey);
    forall i | 0 <= i < |s|
      ensures CleanRow(s[i])
    {
      assert s[i] in multiset(s);
      assert s[i] in multiset(rows);
      assert s[i] in rows;
    }
  }

  // ---- writing ----------------------------------------------------------------------

  method PutBytes(a: array<byte>, at: nat, s: seq<byte>)
    requires at + |s| <= a.Length
    modifies a
    ensures a[..at] == old(a[..at]) && a[at..at + |s|] == s && a[at + |s|..] == old(a[at + |s|..])
  {
    forall i | 0 <= i < |s| {
      a[at + i] := s[i];
    }
  }

  /** Records of one size packed one after another into a buffer made for them. */
  method PackRecords(records: seq<seq<byte>>, size: nat) returns (buf: array<byte>)
    requires Sized(records, size)
    ensures fresh(buf) && buf[..] == Flat(records)
  {
    buf := new byte[|records| * size];
    var i := 0;
    while i < |records|
      invariant 0 <= i <= |records|
      invariant buf[..i * size] == FlatTo(records, i)
    {
      assert (i + 1) * size == i * size + size;
      assert (i + 1) * size <= |records| * size;
      PutBytes(buf, i * size, records[i]);
      assert buf[..(i + 1) * size] == buf[..i * size] + buf[i * size..i * size + size];
      i := i + 1;
    }
    assert buf[..] == buf[..|records| * size];
  }

  /** The next block: where it goes, after the header and all before it. */
  method Place(blocks: seq<seq<byte>>, b: seq<byte>) returns (more: seq<seq<byte>>, off: nat)
    ensures more == blocks + [b] && off == OffsetOf(more, |blocks|)
  {
    off := HEAD;
    var i := 0;
    while i < |blocks|
      invariant 0 <= i <= |blocks|
      invariant off == OffsetOf(blocks, i)
    {
      off := off + |blocks[i]|;
      i := i + 1;
    }
    FlatMore(blocks, [b], |blocks|);
    more := blocks + [b];
  }

  /** All the blocks placed in turn. */
  method PlaceAll(bs: seq<seq<byte>>) returns (offs: seq<nat>)
    ensures |offs| == |bs| && forall k :: 0 <= k < |bs| ==> offs[k] == OffsetOf(bs, k)
  {
    offs := [];
    var blocks: seq<seq<byte>> := [];
    var i := 0;
    while i < |bs|
      invariant 0 <= i <= |bs| && |offs| == i && blocks == bs[..i]
      invariant forall k :: 0 <= k < i ==> offs[k] == OffsetOf(bs, k)
    {
      var off;
      blocks, off := Place(blocks, bs[i]);
      assert blocks == bs[..i + 1] && bs == bs[..i + 1] + bs[i + 1..];
      FlatMore(bs[..i + 1], bs[i + 1..], i);
      offs := offs + [off];
      i := i + 1;
    }
  }

  /** The header from the offsets `place` gave and the blocks' lengths. */
  method MakeHeader(t: Tables, es: seq<Entry>, x: Extra, bs: seq<seq<byte>>) returns (h: seq<nat>)
    requires |bs| == 12
    ensures h == Header(t, es, x, bs)
  {
    hide OffsetOf;
    var o := PlaceAll(bs);
    var pools := [o[0], |bs[0]|, o[1], |bs[1]|, o[2], |bs[2]|, o[3], |bs[3]|];
    var arrays := [o[4], o[5], o[6], o[8], o[9], o[10], o[11], o[7], 0];
    assert pools == PoolPlaces(bs);
    assert arrays == ArrayPlaces(bs);
    h := Counts(t, es, x) + pools + arrays;
  }

  /** The blocks, their arrays packed. */
  method MakeBlocks(t: Tables, es: seq<Entry>, x: Extra) returns (bs: seq<seq<byte>>)
    requires Packable(t, es)
    ensures bs == Blocks(t, es, x)
  {
    hide Flat, Words, Records, CompRecords, Pad;
    var a := PackRecords(Words(t.posOff), 4);
    var b := PackRecords(Words(t.chainOff), 4);
    var c := PackRecords(Records(es), ENTRY_SIZE);
    var d := PackRecords(CompRecords(t.comps), COMP_SIZE);
    bs := [Pad(t.surf), Pad(t.pron), Pad(t.posp), Pad(t.chainp), a[..], b[..], c[..], d[..],
           x.matrix, x.cat, x.cmap, x.unk];
  }

  /** The whole file; nothing when a number does not fit its field. */
  method WriteDict(t: Tables, es: seq<Entry>, x: Extra) returns (file: Option<seq<byte>>)
    ensures file == if Writable(t, es, x) then Some(FileOf(t, es, x)) else None
  {
    if !Packable(t, es) {
      return None;
    }
    hide Blocks, Header, Flat, Words;
    var bs := MakeBlocks(t, es, x);
    var h := MakeHeader(t, es, x, bs);
    if !AllWords(h) {
      return None;
    }
    var head := PackRecords(Words(h), 4);
    return Some(MAGIC + head[..] + Flat(bs));
  }

  // ---- the whole compiler -----------------------------------------------------------

  /** The opened file holds the rows, in the order of their surfaces and then costs. */
  ghost predicate HoldsRows(d: Dict, rows: seq<Row>, num: Str -> byte)
  {
    && d.nEntries == |rows|
    && forall i: nat :: i < |rows| ==> ReadEntry(d, i) == Describe(rows[i], num)
  }

  lemma TablesHold(d: Dict, t: Tables, es: seq<Entry>, rows: seq<Row>, num: Str -> byte)
    requires Stands(d, t, es) && AllSay(t, es, rows, num) && CleanRows(rows)
    ensures HoldsRows(d, rows, num)
  {
    hide Says, PartsOf, CleanRow, ReadEntry, Describe;
    forall i: nat | i < |rows|
      ensures ReadEntry(d, i) == Describe(rows[i], num)
    {
      EntryReadsRow(d, t, es, i, rows[i], num);
    }
  }

  /** Every accepted row is compiled, and the file opens and gives each of them back: its
      surface, all its parts in order, its part of speech and its chain rule.  The parts of
      speech of the unknown-word entries stand in the same pool, under the ids returned.
      There is no file only when some number does not fit its field. */
  method CompileDict(source: seq<Row>, num: Str -> byte, unknown: seq<seq<Str>>, x: Extra)
    returns (file: Option<seq<byte>>, ids: seq<nat>, ghost t: Tables, ghost es: seq<Entry>)
    requires Proper(x)
    ensures AllSay(t, es, Sort(source, RowKey), num) && IdsSay(t, ids, unknown)
    ensures file == if Writable(t, es, x) then Some(FileOf(t, es, x)) else None
    ensures file.Some? ==> Open(file.value).Ok? && Stands(Open(file.value).d, t, es)
    ensures file.Some? && CleanRows(source) ==> HoldsRows(Open(file.value).d, Sort(source, RowKey), num)
  {
    var c := new Compiler(num);
    c.AddRows(source);
    hide Says, PartsOf, FileOf, Fields, CleanRows, HoldsRows, Writable, Stands, AllSay, IdsSay, Grows;
    ghost var before := c.Content();
    ids := c.AddUnknown(unknown);
    AllSayGrow(before, c.Content(), c.rows, source, num);
    SortedSay(c.Content(), c.rows, source, num);
    var sorted := Sort(c.rows, EntryKey);
    t, es := c.Content(), sorted;
    var tables := Tables(c.surf.buf, c.pron.buf, c.posp.buf, c.chainp.buf, c.posOff, c.chainOff, c.comps);
    file := WriteDict(tables, sorted, x);
    if file.Some? {
      CompiledOpens(t, es, x);
      FileStands(t, es, x);
      if CleanRows(source) {
        SortClean(source);
        TablesHold(Open(file.value).d, t, es, Sort(source, RowKey), num);
      }
    }
  }

  // ---- looking up -------------------------------------------------------------------

  /** The surface of every entry stands in its pool, and the rows are in order. */
  predicate Searchable(d: Dict, rows: seq<Row>)
  {
    && d.nEntries == |rows| && Sorted(rows, RowKey)
    && forall i: nat :: i < |rows| ==> SurfaceStands(d, i, rows[i].surface)
  }

  predicate SurfaceStands(d: Dict, i: nat, s: Str)
  {
    NoNul(s) && Placed(d.b, d.offSurf + W(d.b, d.offEntry + i * ENTRY_SIZE), s)
  }

  lemma SurfaceFound(d: Dict, t: Tables, es: seq<Entry>, i: nat, s: Str)
    requires Stands(d, t, es) && i < |es| && Placed(t.surf, es[i].surf, s) && NoNul(s)
    ensures SurfaceStands(d, i, s)
  {
    hide Seg, NoNul, EntryBytes, Fits;
    assert EntryStands(d, es[i], i);
    EntryFields(d.b, d.offEntry + i * ENTRY_SIZE, es[i]);
    SegNested(d.b, d.offSurf, t.surf, es[i].surf, s + [0]);
  }

  /** A compiled dictionary can be searched. */
  lemma CompiledSearchable(d: Dict, t: Tables, es: seq<Entry>, source: seq<Row>, num: Str -> byte)
    requires Stands(d, t, es) && AllSay(t, es, Sort(source, RowKey), num) && CleanRows(source)
    ensures Searchable(d, Sort(source, RowKey))
  {
    hide PartsOf, SurfaceStands, Sorted;
    SortSorts(source, RowKey);
    SortClean(source);
    var rows := Sort(source, RowKey);
    forall i: nat | i < |rows|
      ensures SurfaceStands(d, i, rows[i].surface)
    {
      assert Says(t, es[i], rows[i], PartsOf(rows[i], num));
      SurfaceFound(d, t, es, i, rows[i].surface);
    }
  }

  /** In sorted rows, those before a row come no later in the order. */
  lemma OrderKept(rows: seq<Row>, key: Str, i: nat, j: nat)
    requires Sorted(rows, RowKey) && i <= j < |rows|
    ensures Compare(rows[j].surface, key) < 0 ==> Compare(rows[i].surface, key) < 0
    ensures Compare(rows[i].surface, key) > 0 ==> Compare(rows[j].surface, key) > 0
    ensures Compare(rows[j].surface, key) <= 0 ==> Compare(rows[i].surface, key) <= 0
  {
    if i < j {
      assert Before(RowKey(rows[i]), RowKey(rows[j]));
      CompareFlip(rows[i].surface, rows[j].surface);
      CompareFlip(rows[i].surface, key);
      CompareFlip(rows[j].surface, key);
      if Compare(rows[j].surface, key) <= 0 {
        CompareTrans(rows[i].surface, rows[j].surface, key);
      }
    }
  }

  lemma BelowAll(rows: seq<Row>, key: Str, m: nat)
    requires Sorted(rows, RowKey) && m < |rows| && Compare(rows[m].surface, key) < 0
    ensures forall i :: 0 <= i <= m ==> Compare(rows[i].surface, key) < 0
  {
    forall i | 0 <= i <= m
      ensures Compare(rows[i].surface, key) < 0
    {
      OrderKept(rows, key, i, m);
    }
  }

  lemma AboveAll(rows: seq<Row>, key: Str, m: nat)
    requires Sorted(rows, RowKey) && m < |rows| && Compare(rows[m].surface, key) >= 0
    ensures forall i :: m <= i < |rows| ==> Compare(rows[i].surface, key) >= 0
  {
    forall i | m <= i < |rows|
      ensures Compare(rows[i].surface, key) >= 0
    {
      OrderKept(rows, key, m, i);
    }
  }

  lemma AtMostAll(rows: seq<Row>, key: Str, m: nat)
    requires Sorted(rows, RowKey) && m < |rows| && Compare(rows[m].surface, key) <= 0
    ensures forall i :: 0 <= i <= m ==> Compare(rows[i].surface, key) <= 0
  {
    forall i | 0 <= i <= m
      ensures Compare(rows[i].surface, key) <= 0
    {
      OrderKept(rows, key, i, m);
    }
  }

  lemma AboveStrictly(rows: seq<Row>, key: Str, m: nat)
    requires Sorted(rows, RowKey) && m < |rows| && Compare(rows[m].surface, key) > 0
    ensures forall i :: m <= i < |rows| ==> Compare(rows[i].surface, key) > 0
  {
    forall i | m <= i < |rows|
      ensures Compare(rows[i].surface, key) > 0
    {
      OrderKept(rows, key, m, i);
    }
  }

  lemma EqualIff(rows: seq<Row>, key: Str)
    ensures forall i :: 0 <= i < |rows| ==> (Compare(rows[i].surface, key) == 0 <==> rows[i].surface == key)
  {
    forall i | 0 <= i < |rows|
      ensures Compare(rows[i].surface, key) == 0 <==> rows[i].surface == key
    {
      CompareFlip(rows[i].surface, key);
    }
  }

  /** Within the run the cheapest row comes first. */
  lemma RunCheapestFirst(rows: seq<Row>, first: nat, last: nat, i: nat, j: nat)
    requires Sorted(rows, RowKey) && first <= i <= j < last <= |rows|
    requires forall k :: first <= k < last ==> rows[k].surface == rows[first].surface
    ensures rows[i].cost <= rows[j].cost
  {
    if i < j {
      assert Before(RowKey(rows[i]), RowKey(rows[j]));
      CompareFlip(rows[i].surface, rows[j].surface);
    }
  }

  method CompareEntry(d: Dict, i: nat, key: Str, ghost rows: seq<Row>) returns (r: int)
    requires Searchable(d, rows) && i < |rows|
    ensures r == Compare(rows[i].surface, key)
  {
    hide Sorted;
    assert SurfaceStands(d, i, rows[i].surface);
    r := CmpKey(d.b, d.offSurf + W(d.b, d.offEntry + i * ENTRY_SIZE), key, rows[i].surface);
  }

  /** The entries with a given surface, as a half-open range: found exactly when some row
      has it, and then exactly those rows. */
  method DictFind(d: Dict, key: Str, ghost rows: seq<Row>) returns (found: bool, first: nat, last: nat)
    requires Searchable(d, rows)
    ensures found <==> exists i :: 0 <= i < |rows| && rows[i].surface == key
    ensures found ==> first < last <= |rows|
    ensures found ==> forall i :: 0 <= i < |rows| ==> (first <= i < last <==> rows[i].surface == key)
  {
    found, first, last := false, 0, 0;
    var lo, hi := 0, d.nEntries;
    while lo < hi
      invariant 0 <= lo <= hi <= |rows|
      invariant forall i :: 0 <= i < lo ==> Compare(rows[i].surface, key) < 0
      invariant forall i :: hi <= i < |rows| ==> Compare(rows[i].surface, key) >= 0
    {
      var mid := lo + (hi - lo) / 2;
      var c := CompareEntry(d, mid, key, rows);
      if c < 0 {
        BelowAll(rows, key, mid);
        lo := mid + 1;
      } else {
        AboveAll(rows, key, mid);
        hi := mid;
      }
    }
    EqualIff(rows, key);
    if lo >= d.nEntries {
      return;
    }
    var c := CompareEntry(d, lo, key, rows);
    if c != 0 {
      AboveStrictly(rows, key, lo);
      return;
    }
    found, first := true, lo;
    hi := d.nEntries;
    while lo < hi
      invariant first <= lo <= hi <= |rows|
      invariant forall i :: 0 <= i < lo ==> Compare(rows[i].surface, key) <= 0
      invariant forall i :: hi <= i < |rows| ==> Compare(rows[i].surface, key) > 0
    {
      var mid := lo + (hi - lo) / 2;
      var e := CompareEntry(d, mid, key, rows);
      if e <= 0 {
        AtMostAll(rows, key, mid);
        lo := mid + 1;
      } else {
        AboveStrictly(rows, key, mid);
        hi := mid;
      }
    }
    last := lo;
  }
}
