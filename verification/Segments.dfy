/** Byte strings placed inside larger ones: how a file is put together from blocks, and
    how what was put in is found again.

    A segment of a segment is a segment; appending keeps segments where they are; blocks
    one after another are segments at the sums of the lengths before them, and blocks of
    one size at its multiples; and a string with its NUL, wherever it stands, is read
    back as the string. */
module Segments {
  import opened Bytes

  /** `s` stands in `b` at `at`. */
  predicate Seg(b: seq<byte>, at: nat, s: seq<byte>)
  {
    at + |s| <= |b| && b[at..at + |s|] == s
  }

  lemma SegSplit(b: seq<byte>, at: nat, s: seq<byte>, t: seq<byte>)
    requires Seg(b, at, s + t)
    ensures Seg(b, at, s) && Seg(b, at + |s|, t)
  {
    assert b[at..at + |s|] == (s + t)[..|s|];
    assert b[at + |s|..at + |s + t|] == (s + t)[|s|..];
  }

  lemma SegNested(b: seq<byte>, at: nat, s: seq<byte>, o: nat, t: seq<byte>)
    requires Seg(b, at, s) && Seg(s, o, t)
    ensures Seg(b, at + o, t)
  {
    forall i | 0 <= i < |t|
      ensures b[at + o + i] == t[i]
    {
      assert t[i] == s[o..o + |t|][i] == s[o + i];
      assert s[o + i] == b[at..at + |s|][o + i];
    }
  }

  lemma SegExtend(b: seq<byte>, c: seq<byte>, at: nat, s: seq<byte>)
    requires Seg(b, at, s)
    ensures Seg(b + c, at, s)
  {
    assert (b + c)[at..at + |s|] == b[at..at + |s|];
  }

  lemma SegAppended(b: seq<byte>, s: seq<byte>)
    ensures Seg(b + s, |b|, s)
  {
  }

  lemma SegPrefix(b: seq<byte>, c: seq<byte>, at: nat, s: seq<byte>)
    requires Seg(b, at, s) && b <= c
    ensures Seg(c, at, s)
  {
    assert c == b + c[|b|..];
    SegExtend(b, c[|b|..], at, s);
  }

  lemma SegRd32(b: seq<byte>, at: nat, n: word)
    requires Seg(b, at, Le32(n))
    ensures at + 4 <= |b| && Rd32(b, at) == n
  {
    var s := b[at..at + 4];
    assert Rd32(b, at) == Rd32(s, 0);
  }

  lemma SegRd16(b: seq<byte>, at: nat, n: nat)
    requires n < 0x1_0000 && Seg(b, at, Le16(n))
    ensures at + 2 <= |b| && Rd16(b, at) == n
  {
    var s := b[at..at + 2];
    assert Rd16(b, at) == Rd16(s, 0);
  }

  // ---- blocks one after another -----------------------------------------------------

  function FlatTo(blocks: seq<seq<byte>>, n: nat): seq<byte>
    requires n <= |blocks|
  {
    if n == 0 then [] else FlatTo(blocks, n - 1) + blocks[n - 1]
  }

  function Flat(blocks: seq<seq<byte>>): seq<byte>
  {
    FlatTo(blocks, |blocks|)
  }

  /** Every block is found where the ones before it end. */
  lemma {:induction false} SegFlat(blocks: seq<seq<byte>>, n: nat, k: nat)
    requires k < n <= |blocks|
    ensures Seg(FlatTo(blocks, n), |FlatTo(blocks, k)|, blocks[k])
  {
    if k == n - 1 {
      SegAppended(FlatTo(blocks, n - 1), blocks[n - 1]);
    } else {
      SegFlat(blocks, n - 1, k);
      SegExtend(FlatTo(blocks, n - 1), blocks[n - 1], |FlatTo(blocks, k)|, blocks[k]);
    }
  }

  lemma {:induction false} FlatMore(blocks: seq<seq<byte>>, more: seq<seq<byte>>, n: nat)
    requires n <= |blocks|
    ensures FlatTo(blocks + more, n) == FlatTo(blocks, n)
  {
    if n == 0 {
    } else {
      FlatMore(blocks, more, n - 1);
    }
  }

  predicate Sized(blocks: seq<seq<byte>>, size: nat)
  {
    forall i :: 0 <= i < |blocks| ==> |blocks[i]| == size
  }

  /** Blocks of one size are found at its multiples. */
  lemma {:induction false} FlatSized(blocks: seq<seq<byte>>, size: nat, n: nat)
    requires n <= |blocks| && Sized(blocks, size)
    ensures |FlatTo(blocks, n)| == n * size
  {
    if n == 0 {
    } else {
      FlatSized(blocks, size, n - 1);
      assert n * size == (n - 1) * size + size;
    }
  }

  lemma SegSized(blocks: seq<seq<byte>>, size: nat, k: nat)
    requires k < |blocks| && Sized(blocks, size)
    ensures Seg(Flat(blocks), k * size, blocks[k])
  {
    SegFlat(blocks, |blocks|, k);
    FlatSized(blocks, size, k);
  }

  // ---- strings ----------------------------------------------------------------------

  predicate NoNul(s: seq<byte>)
  {
    forall i :: 0 <= i < |s| ==> s[i] != 0
  }

  /** The NUL-terminated string that starts at `at`. */
  function Text(b: seq<byte>, at: nat): seq<byte>
    decreases |b| - at
  {
    if at >= |b| || b[at] == 0 then [] else [b[at]] + Text(b, at + 1)
  }

  lemma {:induction false} TextRead(b: seq<byte>, at: nat, s: seq<byte>)
    requires Seg(b, at, s + [0]) && NoNul(s)
    ensures Text(b, at) == s
    decreases |s|
  {
    if s == [] {
      assert b[at] == (s + [0])[0];
    } else {
      assert b[at] == (s + [0])[0];
      assert s + [0] == [s[0]] + (s[1..] + [0]);
      SegSplit(b, at, [s[0]], s[1..] + [0]);
      TextRead(b, at + 1, s[1..]);
    }
  }
}
