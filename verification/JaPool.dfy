/** The string pools of the Japanese dictionary compiler (tools/gen_ja_dict.py). */
module JaPool {
  import opened Bytes
  import opened Segments

  type Str = seq<byte>

  /** `s` stands in the pool at `at`, with its NUL. */
  predicate Placed(buf: seq<byte>, at: nat, s: Str)
  {
    Seg(buf, at, s + [0])
  }

  lemma PlacedGrows(buf: seq<byte>, more: seq<byte>, at: nat, s: Str)
    requires Placed(buf, at, s) && buf <= more
    ensures Placed(more, at, s)
  {
    SegPrefix(buf, more, at, s + [0]);
  }

  /** A NUL-separated string pool that hands back offsets and shares what it has. */
  class Pool {
    var buf: seq<byte>
    var at: map<Str, nat>

    ghost predicate Valid()
      reads this
    {
      forall s :: s in at ==> Placed(buf, at[s], s)
    }

    constructor ()
      ensures Valid() && buf == [] && at == map[]
    {
      buf, at := [], map[];
    }

    /** The offset of `s`, which never changes once given; the pool grows only by a
        string it does not have. */
    method Add(s: Str) returns (off: nat)
      requires Valid()
      modifies this
      ensures Valid() && Placed(buf, off, s) && at == old(at)[s := off]
      ensures s in old(at) ==> off == old(at)[s] && buf == old(buf)
      ensures s !in old(at) ==> off == |old(buf)| && buf == old(buf) + s + [0]
      ensures old(buf) <= buf
    {
      if s in at {
        assert at == at[s := at[s]];
        return at[s];
      }
      off := |buf|;
      ghost var before := buf;
      buf := buf + s;
      buf := buf + [0];
      at := at[s := off];
      assert buf == before + (s + [0]);
      SegAppended(before, s + [0]);
      forall t | t in at
        ensures Placed(buf, at[t], t)
      {
        if t != s {
          PlacedGrows(before, buf, at[t], t);
        }
      }
    }
  }

  // ---- tuples -----------------------------------------------------------------------

  /** The strings of a tuple one after another, each with its NUL. */
  function Joined(t: seq<Str>): seq<byte>
  {
    if t == [] then [] else t[0] + [0] + Joined(t[1..])
  }

  /** The reader's walk over `n` strings, from each to past its NUL. */
  function Walk(b: seq<byte>, at: nat, n: nat): seq<Str>
    decreases n
  {
    if n == 0 then [] else [Text(b, at)] + Walk(b, at + |Text(b, at)| + 1, n - 1)
  }

  predicate AllNoNul(t: seq<Str>)
  {
    forall i :: 0 <= i < |t| ==> NoNul(t[i])
  }

  lemma {:induction false} WalkReads(b: seq<byte>, at: nat, t: seq<Str>)
    requires Seg(b, at, Joined(t)) && AllNoNul(t)
    ensures Walk(b, at, |t|) == t
    decreases |t|
  {
    if t == [] {
    } else {
      SegSplit(b, at, t[0] + [0], Joined(t[1..]));
      TextRead(b, at, t[0]);
      assert AllNoNul(t[1..]);
      WalkReads(b, at + |t[0]| + 1, t[1..]);
      assert t == [t[0]] + t[1..];
    }
  }
}
