/** One-shot breakpoint coverage (harness/coverage.c): an INT3 is planted at
    every basic block, a handler notes the hit, restores the byte and resumes. */
module Coverage {
  // The process's code memory is one array of bytes whose indices are addresses.

  import opened Bytes
  import opened Wrappers

  const INT3: byte := 0xCC

  datatype Block = Block(va: nat, func: nat, orig: byte, hit: bool)

  // ---- the block list -------------------------------------------------------

  predicate InRange(mem: seq<byte>, bs: seq<Block>)
  {
    forall i :: 0 <= i < |bs| ==> bs[i].va < |mem|
  }

  /** What qsort leaves: ascending addresses, duplicates allowed. */
  predicate Ordered(bs: seq<Block>)
  {
    forall i, j :: 0 <= i < j < |bs| ==> bs[i].va <= bs[j].va
  }

  predicate Distinct(bs: seq<Block>)
  {
    forall i, j :: 0 <= i < j < |bs| ==> bs[i].va != bs[j].va
  }

  predicate Fresh(bs: seq<Block>)
  {
    forall i :: 0 <= i < |bs| ==> !bs[i].hit
  }

  predicate SameAddresses(bs: seq<Block>, cs: seq<Block>)
  {
    |bs| == |cs| && forall i :: 0 <= i < |bs| ==> bs[i].va == cs[i].va && bs[i].func == cs[i].func
  }

  ghost function Vas(bs: seq<Block>): set<nat>
  {
    set i | 0 <= i < |bs| :: bs[i].va
  }

  /** A block at `va`; with distinct addresses, the only one. */
  ghost function IndexOf(bs: seq<Block>, va: nat): (r: Option<nat>)
    ensures r.Some? ==> r.value < |bs| && bs[r.value].va == va
    ensures r.None? ==> forall i :: 0 <= i < |bs| ==> bs[i].va != va
  {
    if exists i :: 0 <= i < |bs| && bs[i].va == va then
      var i :| 0 <= i < |bs| && bs[i].va == va;
      Some(i)
    else None
  }

  function CountHit(bs: seq<Block>): nat
  {
    if bs == [] then 0 else (if bs[|bs| - 1].hit then 1 else 0) + CountHit(bs[..|bs| - 1])
  }

  lemma CountHitBound(bs: seq<Block>)
    ensures CountHit(bs) <= |bs|
    ensures Fresh(bs) ==> CountHit(bs) == 0
  {
    if bs == [] {
    } else {
      CountHitBound(bs[..|bs| - 1]);
    }
  }

  lemma {:induction false} CountHitSet(bs: seq<Block>, i: nat, b: Block)
    requires i < |bs| && !bs[i].hit && b.hit
    ensures CountHit(bs[i := b]) == CountHit(bs) + 1
  {
    var n := |bs| - 1;
    if i < n {
      CountHitSet(bs[..n], i, b);
      assert bs[i := b][..n] == bs[..n][i := b];
    } else {
      assert bs[i := b][..n] == bs[..n];
    }
  }

  // ---- arming, handling, disarming, on values ---------------------------------

  /** Memory and blocks after the first `n` turns of the arming loop. */
  function ArmTurns(mem: seq<byte>, bs: seq<Block>, n: nat): (r: (seq<byte>, seq<Block>))
    requires n <= |bs| && InRange(mem, bs)
    ensures |r.0| == |mem| && SameAddresses(bs, r.1)
    ensures forall i :: 0 <= i < |bs| ==> r.1[i].hit == bs[i].hit
  {
    if n == 0 then (mem, bs)
    else
      var (m, b) := ArmTurns(mem, bs, n - 1);
      (m[b[n - 1].va := INT3], b[n - 1 := b[n - 1].(orig := m[b[n - 1].va])])
  }

  function Armed(mem: seq<byte>, bs: seq<Block>): (seq<byte>, seq<Block>)
    requires InRange(mem, bs)
  {
    ArmTurns(mem, bs, |bs|)
  }

  /** Memory after the first `n` turns of the disarming loop. */
  function DisarmTurns(mem: seq<byte>, bs: seq<Block>, n: nat): (m: seq<byte>)
    requires n <= |bs| && InRange(mem, bs)
    ensures |m| == |mem|
  {
    if n == 0 then mem
    else
      var m := DisarmTurns(mem, bs, n - 1);
      if bs[n - 1].hit then m else m[bs[n - 1].va := bs[n - 1].orig]
  }

  function Disarmed(mem: seq<byte>, bs: seq<Block>): seq<byte>
    requires InRange(mem, bs)
  {
    DisarmTurns(mem, bs, |bs|)
  }

  /** What the handler does with a breakpoint raised at `va`; None passes the
      exception on. */
  ghost function Handled(mem: seq<byte>, bs: seq<Block>, va: nat): Option<(seq<byte>, seq<Block>)>
    requires InRange(mem, bs)
  {
    match IndexOf(bs, va)
    case None => None
    case Some(i) => HandledBy(mem, bs, i)
  }

  /** The same when the search has come upon block `i`; a list may hold an address
      twice, and then which of its blocks that is depends on the search. */
  function HandledBy(mem: seq<byte>, bs: seq<Block>, i: nat): Option<(seq<byte>, seq<Block>)>
    requires InRange(mem, bs) && i < |bs|
  {
    if bs[i].hit then None
    else Some((mem[bs[i].va := bs[i].orig], bs[i := bs[i].(hit := true)]))
  }

  /** Every listed byte becomes INT3 and nothing else changes; each block keeps
      the byte its address held when its turn came, which for a repeated address
      is the INT3 already planted there. */
  lemma {:induction false} ArmTurnsEffect(mem: seq<byte>, bs: seq<Block>, n: nat)
    requires n <= |bs| && InRange(mem, bs)
    ensures ArmedBytes(mem, bs, n, ArmTurns(mem, bs, n).0)
    ensures SavedBytes(mem, bs, n, ArmTurns(mem, bs, n).1)
  {
    if n == 0 {
    } else {
      ArmTurnsEffect(mem, bs, n - 1);
      var (m, b) := ArmTurns(mem, bs, n - 1);
      ArmedBytesStep(mem, bs, n - 1, m);
      assert b[n - 1].va == bs[n - 1].va;
    }
  }

  lemma ArmedBytesStep(mem: seq<byte>, bs: seq<Block>, n: nat, m: seq<byte>)
    requires n < |bs| && InRange(mem, bs) && ArmedBytes(mem, bs, n, m)
    ensures ArmedBytes(mem, bs, n + 1, m[bs[n].va := INT3])
    ensures m[bs[n].va] == if bs[n].va in Vas(bs[..n]) then INT3 else mem[bs[n].va]
  {
    VasSnoc(bs, n);
  }

  ghost predicate ArmedBytes(mem: seq<byte>, bs: seq<Block>, n: nat, m: seq<byte>)
    requires n <= |bs|
  {
    |m| == |mem| && forall a :: 0 <= a < |mem| ==> m[a] == if a in Vas(bs[..n]) then INT3 else mem[a]
  }

  ghost predicate SavedBytes(mem: seq<byte>, bs: seq<Block>, n: nat, b: seq<Block>)
    requires n <= |bs| && InRange(mem, bs)
  {
    && |b| == |bs|
    && (forall i :: 0 <= i < n ==> b[i].orig == if bs[i].va in Vas(bs[..i]) then INT3 else mem[bs[i].va])
    && (forall i :: n <= i < |bs| ==> b[i] == bs[i])
  }

  lemma VasSnoc(bs: seq<Block>, n: nat)
    requires n < |bs|
    ensures Vas(bs[..n + 1]) == Vas(bs[..n]) + {bs[n].va}
  {
    assert forall i :: 0 <= i < n ==> bs[..n + 1][i] == bs[..n][i];
    assert bs[..n + 1][n] == bs[n];
    forall a | a in Vas(bs[..n])
      ensures a in Vas(bs[..n + 1])
    {
      var i :| 0 <= i < n && bs[..n][i].va == a;
      assert bs[..n + 1][i].va == a;
    }
  }

  /** The last unhit block with an address decides its byte. */
  ghost predicate LastUnhit(bs: seq<Block>, n: nat, a: nat, i: nat)
    requires n <= |bs|
  {
    && i < n && bs[i].va == a && !bs[i].hit
    && forall j :: i < j < n && !bs[j].hit ==> bs[j].va != a
  }

  lemma {:induction false} DisarmTurnsEffect(mem: seq<byte>, bs: seq<Block>, n: nat, a: nat)
    requires n <= |bs| && InRange(mem, bs) && a < |mem|
    ensures (exists i: nat :: LastUnhit(bs, n, a, i) && DisarmTurns(mem, bs, n)[a] == bs[i].orig)
         || ((forall i :: 0 <= i < n && !bs[i].hit ==> bs[i].va != a) && DisarmTurns(mem, bs, n)[a] == mem[a])
  {
    if n == 0 {
    } else {
      DisarmTurnsEffect(mem, bs, n - 1, a);
      if !bs[n - 1].hit && bs[n - 1].va == a {
        assert LastUnhit(bs, n, a, n - 1);
      } else if i: nat :| LastUnhit(bs, n - 1, a, i) && DisarmTurns(mem, bs, n - 1)[a] == bs[i].orig {
        assert LastUnhit(bs, n, a, i);
      }
    }
  }

  /** The byte at `a` after arming and disarming: the one saved by the last
      block listed for it. */
  lemma RoundTripByte(mem: seq<byte>, bs: seq<Block>, a: nat) returns (last: Option<nat>)
    requires InRange(mem, bs) && Fresh(bs) && a < |mem|
    ensures last.None? ==> a !in Vas(bs) && RoundTrip(mem, bs)[a] == mem[a]
    ensures last.Some? ==>
              && LastUnhit(bs, |bs|, a, last.value)
              && RoundTrip(mem, bs)[a] == if a in Vas(bs[..last.value]) then INT3 else mem[a]
  {
    var r := Armed(mem, bs);
    ArmTurnsEffect(mem, bs, |bs|);
    DisarmTurnsEffect(r.0, r.1, |bs|, a);
    if i: nat :| LastUnhit(r.1, |bs|, a, i) && RoundTrip(mem, bs)[a] == r.1[i].orig {
      last := Some(i);
      assert LastUnhit(bs, |bs|, a, i);
    } else {
      last := None;
      assert bs[..|bs|] == bs;
      assert forall i :: 0 <= i < |bs| ==> !r.1[i].hit && r.1[i].va == bs[i].va;
    }
  }

  function RoundTrip(mem: seq<byte>, bs: seq<Block>): (m: seq<byte>)
    requires InRange(mem, bs)
    ensures |m| == |mem|
  {
    var r := Armed(mem, bs);
    Disarmed(r.0, r.1)
  }

  /** An address listed again keeps its byte only if that byte is an INT3. */
  predicate RepeatsAreTraps(mem: seq<byte>, bs: seq<Block>)
    requires InRange(mem, bs)
  {
    forall i, j :: 0 <= i < j < |bs| && bs[i].va == bs[j].va ==> mem[bs[i].va] == INT3
  }

  /** Arming and disarming with nothing run in between restores every byte
      exactly when each address listed twice already held an INT3.  Distinct
      addresses, which tools/blocklist.py guarantees, are the practical case. */
  lemma ArmDisarmRestoresIff(mem: seq<byte>, bs: seq<Block>)
    requires InRange(mem, bs) && Fresh(bs)
    ensures RoundTrip(mem, bs) == mem <==> RepeatsAreTraps(mem, bs)
  {
    if RepeatsAreTraps(mem, bs) {
      forall a: nat | a < |mem|
        ensures RoundTrip(mem, bs)[a] == mem[a]
      {
        var last := RoundTripByte(mem, bs, a);
        if last.Some? && a in Vas(bs[..last.value]) {
          var j :| 0 <= j < last.value && bs[..last.value][j].va == a;
          assert bs[j].va == bs[last.value].va;
        }
      }
    }
    if i, j :| 0 <= i < j < |bs| && bs[i].va == bs[j].va && mem[bs[i].va] != INT3 {
      var last := RoundTripByte(mem, bs, bs[i].va);
      assert bs[i].va in Vas(bs);
      assert i < j <= last.value;
      assert bs[..last.value][i].va == bs[i].va;
    }
  }

  // ---- the object the harness keeps ------------------------------------------

  class Tracer {
    const mem: array<byte>
    const blocks: array<Block>

    ghost predicate Valid()
      reads this, mem, blocks
    {
      InRange(mem[..], blocks[..]) && Ordered(blocks[..])
    }

    /** What cov_load leaves: the file's rows in the order qsort puts them, none
        hit.  The saved bytes are whatever the allocator left. */
    constructor (mem: array<byte>, sorted: seq<Block>)
      requires InRange(mem[..], sorted) && Ordered(sorted) && Fresh(sorted)
      ensures Valid() && this.mem == mem && fresh(blocks) && blocks[..] == sorted
    {
      this.mem := mem;
      blocks := new Block[|sorted|](i requires 0 <= i < |sorted| => sorted[i]);
    }

    method Find(va: nat) returns (at: Option<nat>)
      requires Ordered(blocks[..])
      ensures at.Some? ==> at.value < blocks.Length && blocks[at.value].va == va
      ensures at.None? ==> forall i :: 0 <= i < blocks.Length ==> blocks[i].va != va
    {
      var lo, hi := 0, blocks.Length - 1;
      while lo <= hi
        invariant 0 <= lo <= hi + 1 <= blocks.Length
        invariant forall i :: 0 <= i < lo ==> blocks[i].va < va
        invariant forall i :: hi < i < blocks.Length ==> blocks[i].va > va
      {
        var mid := (lo + hi) / 2;
        assert forall i :: 0 <= i < mid ==> blocks[..][i].va <= blocks[..][mid].va;
        assert forall i :: mid < i < blocks.Length ==> blocks[..][mid].va <= blocks[..][i].va;
        if blocks[mid].va == va {
          return Some(mid);
        }
        if blocks[mid].va < va {
          lo := mid + 1;
        } else {
          hi := mid - 1;
        }
      }
      return None;
    }

    /** The vectored handler.  `resume` carries the EIP execution continues at, `found`
        the block that was come upon. */
    method Handle(breakpoint: bool, va: nat) returns (resume: Option<nat>, ghost found: Option<nat>)
      requires Valid()
      modifies mem, blocks
      ensures Valid() && SameAddresses(old(blocks[..]), blocks[..])
      ensures found.Some? ==> breakpoint && found.value < blocks.Length && blocks[found.value].va == va
      ensures found.None? && breakpoint ==> forall i :: 0 <= i < blocks.Length ==> blocks[i].va != va
      ensures
        var h := if found.Some? then old(HandledBy(mem[..], blocks[..], found.value)) else None;
        if h.Some?
        then resume == Some(va) && mem[..] == h.value.0 && blocks[..] == h.value.1
        else resume == None && mem[..] == old(mem[..]) && blocks[..] == old(blocks[..])
      ensures breakpoint && Distinct(blocks[..]) ==> found == old(IndexOf(blocks[..], va))
    {
      if !breakpoint {
        return None, None;
      }
      var b := Find(va);
      found := b;
      assert Distinct(blocks[..]) ==> IndexOf(blocks[..], va) == b by {
        if b.Some? {
          assert blocks[..][b.value].va == va;
        }
      }
      if b.None? || blocks[b.value].hit {
        return None, b;
      }
      ghost var ms, bs := mem[..], blocks[..];
      blocks[b.value] := blocks[b.value].(hit := true);
      mem[va] := blocks[b.value].orig;
      assert blocks[..] == bs[b.value := bs[b.value].(hit := true)];
      assert mem[..] == ms[va := bs[b.value].orig];
      resume := Some(va);
    }

    method Arm()
      requires Valid()
      modifies mem, blocks
      ensures Valid()
      ensures (mem[..], blocks[..]) == old(Armed(mem[..], blocks[..]))
    {
      ghost var m0, b0 := mem[..], blocks[..];
      var i := 0;
      while i < blocks.Length
        invariant 0 <= i <= blocks.Length
        invariant (mem[..], blocks[..]) == ArmTurns(m0, b0, i)
      {
        assert mem[..] == ArmTurns(m0, b0, i).0 && blocks[..] == ArmTurns(m0, b0, i).1;
        assert b0[i].va == blocks[i].va;
        ghost var ms, bs := mem[..], blocks[..];
        var p := blocks[i].va;
        blocks[i] := blocks[i].(orig := mem[p]);
        mem[p] := INT3;
        assert mem[..] == ms[p := INT3];
        assert blocks[..] == bs[i := bs[i].(orig := ms[p])];
        i := i + 1;
      }
    }

    method Disarm()
      requires Valid()
      modifies mem
      ensures Valid()
      ensures mem[..] == old(Disarmed(mem[..], blocks[..]))
    {
      ghost var m0 := mem[..];
      var i := 0;
      while i < blocks.Length
        invariant 0 <= i <= blocks.Length
        invariant mem[..] == DisarmTurns(m0, blocks[..], i)
      {
        if !blocks[i].hit {
          mem[blocks[i].va] := blocks[i].orig;
        }
        i := i + 1;
      }
    }
  }
}
