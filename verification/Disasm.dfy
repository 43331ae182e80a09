/** The disassembler itself (tools/disasm.py): `Analysis` and its worklists. */
module Disasm {
  import opened Wrappers
  import opened DisasmWalk

  // ---- jump tables ------------------------------------------------------------

  /** The comparison nearest the jump, among the last `n` instructions. */
  function LastBound(block: seq<Insn>, n: nat): (r: Option<nat>)
    ensures r.Some? ==> r.value > 0
  {
    if n == 0 || block == [] then None
    else
      var prev := block[|block| - 1];
      if prev.mnem == Cmp && |prev.operands| == 2 && prev.operands[1].Imm? && prev.operands[0].Reg? then
        Some(prev.operands[1].value + 1)
      else LastBound(block[..|block| - 1], n - 1)
  }

  /** The byte index table loaded nearest the jump, likewise. */
  function LastIndexTable(img: Image, block: seq<Insn>, n: nat): Option<nat>
  {
    if n == 0 || block == [] then None
    else
      var prev := block[|block| - 1];
      if prev.mnem == Move && |prev.operands| == 2 && prev.operands[1].Mem? && prev.operands[1].size == 1
         && prev.operands[1].base && !prev.operands[1].index
         && SectionOf(img.sections, prev.operands[1].disp).Some? then
        Some(prev.operands[1].disp)
      else LastIndexTable(img, block[..|block| - 1], n - 1)
  }

  /** The `i`-th word at `table` is a relocated code address. */
  predicate TableWord(img: Image, table: nat, i: nat)
  {
    table + 4 * i in img.relocs && IsCode(img, img.u32(table + 4 * i))
  }

  /** `n` words belong to the table at `va`: as many as the bound allows while
      each is a relocated code address; without a bound, at most 1025. */
  predicate TableExtent(img: Image, table: nat, bound: Option<nat>, n: nat)
  {
    && (forall i :: 0 <= i < n ==> TableWord(img, table, i))
    && (if bound.Some? then n <= bound.value && (n == bound.value || !TableWord(img, table, n))
        else n <= 1025 && (n == 1025 || !TableWord(img, table, n)))
  }

  function IndexByte(img: Image, table: nat, i: nat): nat
  {
    img.u8(table + i)
  }

  /** The largest of the first `n` bytes of an index table. */
  function HighestByte(img: Image, table: nat, n: nat): (top: nat)
    requires n > 0
    ensures forall i :: 0 <= i < n ==> IndexByte(img, table, i) <= top
    ensures exists i :: 0 <= i < n && IndexByte(img, table, i) == top
  {
    if n == 1 then IndexByte(img, table, 0)
    else
      var top := HighestByte(img, table, n - 1);
      if IndexByte(img, table, n - 1) > top then IndexByte(img, table, n - 1) else top
  }

  /** How many entries the instructions before the jump allow: one more than the largest
      index byte, when a bounded byte table is read, or what the comparison says. */
  function Bound(img: Image, block: seq<Insn>): (n: Option<nat>)
    ensures n.Some? ==> n.value > 0
  {
    var bound, idxtable := LastBound(block, 8), LastIndexTable(img, block, 4);
    if bound.Some? && idxtable.Some? then Some(HighestByte(img, idxtable.value, bound.value) + 1) else bound
  }

  /** The length of the run of relocated code addresses at `table`, up to `limit`. */
  function RunLength(img: Image, table: nat, limit: nat): (n: nat)
    ensures n <= limit && (n == limit || !TableWord(img, table, n))
    ensures forall i :: 0 <= i < n ==> TableWord(img, table, i)
  {
    if limit == 0 then 0
    else
      var n := RunLength(img, table, limit - 1);
      if n == limit - 1 && TableWord(img, table, n) then limit else n
  }

  /** A jump through memory that is no import: `jmp dword ptr [reg*4 + table]` and the
      like. */
  predicate IndirectJump(img: Image, ins: Insn)
  {
    ins.mnem == Jmp && ins.operands != [] && !ins.operands[0].Imm? && !IsImport(img, ins.operands[0])
  }

  /** The operand is `[reg*4 + table]`, with the table somewhere in the image. */
  predicate TableOperand(img: Image, ins: Insn)
  {
    && |ins.operands| == 1 && ins.operands[0].Mem?
    && !ins.operands[0].base && ins.operands[0].index && ins.operands[0].scale == 4
    && SectionOf(img.sections, ins.operands[0].disp).Some?
  }

  /** And the first word there is a relocated code address. */
  predicate HasTable(img: Image, ins: Insn)
  {
    TableOperand(img, ins) && TableWord(img, ins.operands[0].disp, 0)
  }

  /** The index table read for the bound, where there is one. */
  function IndexRange(img: Image, block: seq<Insn>): seq<(nat, nat)>
  {
    var bound, idxtable := LastBound(block, 8), LastIndexTable(img, block, 4);
    if bound.Some? && idxtable.Some? then [(idxtable.value, idxtable.value + bound.value)] else []
  }

  // ---- how large a table is, from the instructions before the jump ----------------------

  /** A register compared with a constant. */
  predicate Compares(ins: Insn)
  {
    ins.mnem == Cmp && |ins.operands| == 2 && ins.operands[0].Reg? && ins.operands[1].Imm?
  }

  /** A byte loaded from a table in the image, at the place a register says. */
  predicate LoadsByte(img: Image, ins: Insn)
  {
    && ins.mnem == Move && |ins.operands| == 2 && ins.operands[1].Mem? && ins.operands[1].size == 1
    && ins.operands[1].base && !ins.operands[1].index && SectionOf(img.sections, ins.operands[1].disp).Some?
  }

  /** Place `i` holds the last comparison of the block, no further than `n` from its end. */
  predicate LastCompare(block: seq<Insn>, n: nat, i: nat)
  {
    && i < |block| <= i + n && Compares(block[i])
    && forall j :: i < j < |block| ==> !Compares(block[j])
  }

  predicate LastLoad(img: Image, block: seq<Insn>, n: nat, i: nat)
  {
    && i < |block| <= i + n && LoadsByte(img, block[i])
    && forall j :: i < j < |block| ==> !LoadsByte(img, block[j])
  }

  /** The bound is one more than the constant of the last comparison, if there is one. */
  lemma {:induction false} LastBoundIs(block: seq<Insn>, n: nat)
    ensures forall i: nat :: LastCompare(block, n, i) ==>
              LastBound(block, n) == Some(block[i].operands[1].value + 1)
    ensures LastBound(block, n).Some? ==> exists i: nat :: LastCompare(block, n, i)
  {
    if n == 0 || block == [] {
    } else {
      var last := |block| - 1;
      var init := block[..last];
      LastBoundIs(init, n - 1);
      if Compares(block[last]) {
        assert LastCompare(block, n, last);
      } else {
        forall i: nat
          ensures LastCompare(block, n, i) <==> LastCompare(init, n - 1, i)
        {
          if i < last {
            assert block[i] == init[i];
          }
        }
        var m: nat := n - 1;
        if i: nat :| LastCompare(init, m, i) {
          assert LastCompare(block, n, i);
        }
      }
    }
  }

  lemma {:induction false} LastIndexTableIs(img: Image, block: seq<Insn>, n: nat)
    ensures forall i: nat :: LastLoad(img, block, n, i) ==>
              LastIndexTable(img, block, n) == Some(block[i].operands[1].disp)
    ensures LastIndexTable(img, block, n).Some? ==> exists i: nat :: LastLoad(img, block, n, i)
  {
    hide SectionOf;
    if n == 0 || block == [] {
    } else {
      var last := |block| - 1;
      var init := block[..last];
      LastIndexTableIs(img, init, n - 1);
      if LoadsByte(img, block[last]) {
        assert LastLoad(img, block, n, last);
      } else {
        forall i: nat
          ensures LastLoad(img, block, n, i) <==> LastLoad(img, init, n - 1, i)
        {
          if i < last {
            assert block[i] == init[i];
          }
        }
        var m: nat := n - 1;
        if i: nat :| LastLoad(img, init, m, i) {
          assert LastLoad(img, block, n, i);
        }
      }
    }
  }

  /** No more than `n` entries, and fewer only where the next word is no code address. */
  predicate UpTo(img: Image, table: nat, n: nat, count: nat)
  {
    count <= n && (count == n || !TableWord(img, table, count))
  }

  /** Some value of an index up to `top` takes the entry before `n`, and none one past it. */
  predicate IndexTop(img: Image, bytes: nat, top: nat, n: nat)
  {
    && (forall j :: 0 <= j <= top ==> IndexByte(img, bytes, j) < n)
    && exists j :: 0 <= j <= top && IndexByte(img, bytes, j) == n - 1
  }

  /** The entries of a table at the end of `block`: as many as the values the last of the
      eight instructions' comparisons lets through; where one of the last four turns that
      value into a byte of an index table, as many as those bytes call for; 1025 when
      nothing is compared. */
  ghost predicate TableSized(img: Image, table: nat, block: seq<Insn>, count: nat)
  {
    && (forall i: nat :: LastCompare(block, 8, i) && (forall k: nat :: !LastLoad(img, block, 4, k)) ==>
          UpTo(img, table, block[i].operands[1].value + 1, count))
    && (forall i: nat, k: nat :: LastCompare(block, 8, i) && LastLoad(img, block, 4, k) ==>
          exists n: nat :: IndexTop(img, block[k].operands[1].disp, block[i].operands[1].value, n)
                           && UpTo(img, table, n, count))
    && ((forall i: nat :: !LastCompare(block, 8, i)) ==> UpTo(img, table, 1025, count))
  }

  lemma ExtentSized(img: Image, table: nat, block: seq<Insn>, count: nat)
    requires TableExtent(img, table, Bound(img, block), count)
    ensures TableSized(img, table, block, count)
  {
    hide TableWord, LastBound, LastIndexTable, IndexByte, SectionOf;
    LastBoundIs(block, 8);
    LastIndexTableIs(img, block, 4);
    forall i: nat, k: nat | LastCompare(block, 8, i) && LastLoad(img, block, 4, k)
      ensures exists n: nat :: IndexTop(img, block[k].operands[1].disp, block[i].operands[1].value, n)
                               && UpTo(img, table, n, count)
    {
      var n := HighestByte(img, block[k].operands[1].disp, block[i].operands[1].value + 1) + 1;
      assert IndexTop(img, block[k].operands[1].disp, block[i].operands[1].value, n);
    }
  }

  /** The range noted for an index table is one byte for each value let through. */
  lemma IndexRangeIs(img: Image, block: seq<Insn>)
    ensures forall i: nat, k: nat :: LastCompare(block, 8, i) && LastLoad(img, block, 4, k) ==>
              var t := block[k].operands[1].disp;
              IndexRange(img, block) == [(t, t + block[i].operands[1].value + 1)]
    ensures (forall i: nat :: !LastCompare(block, 8, i)) || (forall k: nat :: !LastLoad(img, block, 4, k)) ==>
              IndexRange(img, block) == []
  {
    hide LastBound, LastIndexTable, SectionOf;
    LastBoundIs(block, 8);
    LastIndexTableIs(img, block, 4);
  }

  // ---- the table of a jump -----------------------------------------------------------

  /** The jump table of a jump at the end of `block`: the words at its operand as far as
      they are relocated code addresses and the bound allows. */
  function TableOf(img: Image, ins: Insn, block: seq<Insn>): (r: Option<(nat, seq<nat>)>)
    ensures r.Some? <==> HasTable(img, ins)
    ensures r.Some? ==> r.value.0 == ins.operands[0].disp && TableExtent(img, r.value.0, Bound(img, block), |r.value.1|)
    ensures r.Some? ==> forall i :: 0 <= i < |r.value.1| ==> r.value.1[i] == img.u32(r.value.0 + 4 * i)
    ensures r.Some? ==> TableSized(img, r.value.0, block, |r.value.1|)
  {
    if HasTable(img, ins) then
      var table, bound := ins.operands[0].disp, Bound(img, block);
      var n := RunLength(img, table, if bound.Some? then bound.value else 1025);
      ExtentSized(img, table, block, n);
      Some((table, seq(n, i requires 0 <= i < n => img.u32(table + 4 * i))))
    else None
  }

  /** A jump has a table exactly when its one operand is four times a register past an
      address in the image, and the word there is a relocated address in code. */
  lemma HasTableIff(img: Image, ins: Insn)
    ensures HasTable(img, ins) <==>
              exists t: nat, size: nat ::
                ins.operands == [Mem(false, true, 4, t, size)] && SectionOf(img.sections, t).Some?
                && t in img.relocs && IsCode(img, img.u32(t))
  {
    hide SectionOf, IsCode;
    if HasTable(img, ins) {
      var m := ins.operands[0];
      assert ins.operands == [Mem(false, true, 4, m.disp, m.size)];
    }
  }

  /** Where an operand in memory points, given what its registers hold. */
  function Address(op: Operand, base: nat, index: nat): nat
    requires op.Mem?
  {
    op.disp + (if op.base then base else 0) + (if op.index then op.scale * index else 0)
  }

  /** The byte an index table gives for a value is the one loaded with that value in the
      base register. */
  lemma IndexLoads(img: Image, block: seq<Insn>, k: nat, value: nat, index: nat)
    requires LastLoad(img, block, 4, k)
    ensures IndexByte(img, block[k].operands[1].disp, value) == img.u8(Address(block[k].operands[1], value, index))
  {
    hide SectionOf;
  }

  /** Whatever else the registers hold, with entry `i` in the index register the jump loads
      the `i`-th target. */
  lemma JumpLoads(img: Image, ins: Insn, block: seq<Insn>, base: nat, i: nat)
    requires HasTable(img, ins) && i < |TableOf(img, ins, block).value.1|
    ensures img.u32(Address(ins.operands[0], base, i)) == TableOf(img, ins, block).value.1[i]
  {
    hide TableWord, Bound;
  }

  /** The instructions of `block` follow one another up to `next`, from a block start of
      the function. */
  ghost predicate Straight(img: Image, f: Function, block: seq<Insn>, next: nat)
  {
    && (block != [] ==> block[0].addr in f.blocks)
    && forall i :: 0 <= i < |block| ==> StraightAt(img, f, block, next, i)
  }

  ghost predicate StraightAt(img: Image, f: Function, block: seq<Insn>, next: nat, i: nat)
    requires i < |block|
  {
    && block[i].addr in f.insns && At(img, block[i].addr) == Some(block[i])
    && block[i].End() == if i + 1 < |block| then block[i + 1].addr else next
  }

  /** A table recorded at `a` is that of the jump there, taken with some block that runs
      straight to it. */
  ghost predicate TableRight(img: Image, f: Function, a: nat)
    requires a in f.tables
  {
    exists block ::
      && block != [] && block[|block| - 1] == Got(img, a) && Straight(img, f, block, Got(img, a).End())
      && TableOf(img, Got(img, a), block) == Some(f.tables[a])
  }

  /** The jumps with a table are those that have one, each its own. */
  ghost predicate TablesRight(img: Image, f: Function)
  {
    && (forall a :: a in f.insns ==> (a in f.tables <==> IndirectJump(img, Got(img, a)) && HasTable(img, Got(img, a))))
    && (forall a :: a in f.tables ==> a in f.insns && TableRight(img, f, a))
  }

  lemma StraightOn(img: Image, f: Function, f': Function, block: seq<Insn>, ins: Insn)
    requires Straight(img, f, block, ins.addr) && At(img, ins.addr) == Some(ins)
    requires f.blocks <= f'.blocks && f.insns <= f'.insns && ins.addr in f'.insns
    requires block == [] ==> ins.addr in f'.blocks
    ensures Straight(img, f', block + [ins], ins.End())
  {
    var more := block + [ins];
    forall i | 0 <= i < |more|
      ensures StraightAt(img, f', more, ins.End(), i)
    {
      if i < |block| {
        assert StraightAt(img, f, block, ins.addr, i);
      }
    }
  }

  lemma StraightMore(img: Image, f: Function, f': Function, block: seq<Insn>, next: nat)
    requires Straight(img, f, block, next) && f.blocks <= f'.blocks && f.insns <= f'.insns
    ensures Straight(img, f', block, next)
  {
    forall i | 0 <= i < |block|
      ensures StraightAt(img, f', block, next, i)
    {
      assert StraightAt(img, f, block, next, i);
    }
  }

  lemma TablesRightMore(img: Image, f: Function, f': Function, a: nat)
    requires a in f.tables && TableRight(img, f, a)
    requires f.blocks <= f'.blocks && f.insns <= f'.insns && a in f'.tables && f'.tables[a] == f.tables[a]
    ensures TableRight(img, f', a)
  {
    var block :| && block != [] && block[|block| - 1] == Got(img, a) && Straight(img, f, block, Got(img, a).End())
                 && TableOf(img, Got(img, a), block) == Some(f.tables[a]);
    StraightMore(img, f, f', block, Got(img, a).End());
  }

  /** One more instruction, with the table of its own block if it has one. */
  lemma TablesRightStep(img: Image, f: Function, f': Function, block: seq<Insn>, ins: Insn)
    requires TablesRight(img, f) && ins.addr !in f.insns && At(img, ins.addr) == Some(ins)
    requires f'.insns == f.insns + {ins.addr} && f'.blocks == f.blocks
    requires f'.tables == f.tables
          || (ins.addr in f'.tables && f'.tables == f.tables[ins.addr := f'.tables[ins.addr]])
    requires ins.addr in f'.tables <==> IndirectJump(img, ins) && HasTable(img, ins)
    requires ins.addr in f'.tables ==> TableOf(img, ins, block) == Some(f'.tables[ins.addr])
    requires block != [] && block[|block| - 1] == ins && Straight(img, f', block, ins.End())
    ensures TablesRight(img, f')
  {
    hide TableOf, HasTable, IndirectJump, Straight, TableRight;
    assert Got(img, ins.addr) == ins;
    forall a | a in f'.tables
      ensures TableRight(img, f', a)
    {
      if a == ins.addr {
        OwnTableRight(img, f', block, ins);
      } else {
        TablesRightMore(img, f, f', a);
      }
    }
  }

  lemma OwnTableRight(img: Image, f: Function, block: seq<Insn>, ins: Insn)
    requires At(img, ins.addr) == Some(ins) && ins.addr in f.tables
    requires TableOf(img, ins, block) == Some(f.tables[ins.addr])
    requires block != [] && block[|block| - 1] == ins && Straight(img, f, block, ins.End())
    ensures TableRight(img, f, ins.addr)
  {
  }

  // ---- what one exploration leaves behind -------------------------------------

  /** `owner.setdefault(addr, entry)` for every address in `seen`. */
  ghost function Claim(owner: map<nat, nat>, seen: set<nat>, entry: nat): map<nat, nat>
  {
    map a | a in owner.Keys + seen :: if a in owner then owner[a] else entry
  }

  /** Who owned an address keeps it; what had no owner gets this one. */
  lemma ClaimFirst(owner: map<nat, nat>, seen: set<nat>, entry: nat, a: nat)
    ensures a in owner ==> a in Claim(owner, seen, entry) && Claim(owner, seen, entry)[a] == owner[a]
    ensures a !in owner ==> (a in Claim(owner, seen, entry) <==> a in seen)
    ensures a !in owner && a in seen ==> Claim(owner, seen, entry)[a] == entry
  {
  }

  lemma ClaimStep(owner: map<nat, nat>, seen: set<nat>, a: nat, entry: nat)
    ensures Claim(Claim(owner, seen, entry), {a}, entry) == Claim(owner, seen + {a}, entry)
  {
  }

  /** Every jump table a function used is among the recorded table ranges. */
  ghost predicate TablesRecorded(tables: map<nat, (nat, seq<nat>)>, ranges: seq<(nat, nat)>)
  {
    forall a :: a in tables ==> (tables[a].0, tables[a].0 + 4 * |tables[a].1|) in ranges
  }

  function RefsAt(refs: map<nat, set<nat>>, t: nat): set<nat>
  {
    if t in refs then refs[t] else {}
  }

  /** The instructions of `seen` that hold the code pointer `t`. */
  ghost function Holders(img: Image, seen: set<nat>, t: nat): set<nat>
  {
    set a | a in seen && t in CodeRefs(img, Got(img, a))
  }

  /** Every code pointer held by an instruction in `seen` is recorded against it,
      and nothing else is. */
  ghost predicate RefsAdded(img: Image, seen: set<nat>, refs: map<nat, set<nat>>, refs': map<nat, set<nat>>)
  {
    forall t :: RefAdded(refs, refs', t, Holders(img, seen, t))
  }

  ghost predicate RefAdded(refs: map<nat, set<nat>>, refs': map<nat, set<nat>>, t: nat, who: set<nat>)
  {
    && (t in refs' <==> t in refs || who != {})
    && RefsAt(refs', t) == RefsAt(refs, t) + who
  }

  lemma RefsStep(img: Image, seen: set<nat>, a: nat, refs: map<nat, set<nat>>,
                 mid: map<nat, set<nat>>, refs': map<nat, set<nat>>)
    requires RefsAdded(img, seen, refs, mid) && RefsAdded(img, {a}, mid, refs')
    ensures RefsAdded(img, seen + {a}, refs, refs')
  {
    forall t
      ensures RefAdded(refs, refs', t, Holders(img, seen + {a}, t))
    {
      HoldersSplit(img, seen, a, t);
      assert RefAdded(refs, mid, t, Holders(img, seen, t));
      assert RefAdded(mid, refs', t, Holders(img, {a}, t));
    }
  }

  lemma HoldersSplit(img: Image, seen: set<nat>, a: nat, t: nat)
    ensures Holders(img, seen + {a}, t) == Holders(img, seen, t) + Holders(img, {a}, t)
    ensures Holders(img, {a}, t) == if t in CodeRefs(img, Got(img, a)) then {a} else {}
  {
  }

  /** One instruction's pointers, the first few of its operands done. */
  ghost predicate RefsFrom(refs: map<nat, set<nat>>, refs': map<nat, set<nat>>, addr: nat, targets: set<nat>)
  {
    forall t :: RefAdded(refs, refs', t, if t in targets then {addr} else {})
  }

  lemma RefsFromStep(refs: map<nat, set<nat>>, mid: map<nat, set<nat>>, addr: nat, targets: set<nat>, v: nat)
    requires RefsFrom(refs, mid, addr, targets)
    ensures RefsFrom(refs, mid[v := RefsAt(mid, v) + {addr}], addr, targets + {v})
  {
    forall t
      ensures RefAdded(refs, mid[v := RefsAt(mid, v) + {addr}], t, if t in targets + {v} then {addr} else {})
    {
      assert RefAdded(refs, mid, t, if t in targets then {addr} else {});
    }
  }

  /** Data an instruction names: relocated displacements and relocated immediates. */
  ghost function DataRefs(img: Image, ins: Insn, n: nat): set<nat>
    requires n <= |ins.operands|
  {
    if n == 0 then {} else DataRefs(img, ins, n - 1) + DataRef(img, ins, ins.operands[n - 1])
  }

  ghost function DataRef(img: Image, ins: Insn, op: Operand): set<nat>
  {
    if op.Mem? && op.disp in Relocated(img, ins) then {op.disp}
    else if op.Imm? && op.value in Relocated(img, ins) then {op.value}
    else {}
  }

  /** Those of the displacements that lie in code: tables embedded there. */
  ghost function TextDataRefs(img: Image, ins: Insn, n: nat): set<nat>
    requires n <= |ins.operands|
  {
    if n == 0 then {} else TextDataRefs(img, ins, n - 1) + TextDataRef(img, ins, ins.operands[n - 1])
  }

  ghost function TextDataRef(img: Image, ins: Insn, op: Operand): set<nat>
  {
    if op.Mem? && op.disp in Relocated(img, ins) && IsCode(img, op.disp) then {op.disp} else {}
  }

  /** One of the bytes of the instruction starts a relocated word that holds `t`. */
  ghost predicate Stores(img: Image, ins: Insn, t: nat)
  {
    exists va :: ins.addr <= va < ins.addr + ins.size && va in img.relocs && img.u32(va) == t
  }

  /** Whether one of the first operands is the address `t`: as a value, or in memory. */
  ghost predicate HasImm(ins: Insn, n: nat, t: nat)
    requires n <= |ins.operands|
  {
    exists i :: 0 <= i < n && ins.operands[i] == Imm(t)
  }

  ghost predicate HasMem(ins: Insn, n: nat, t: nat)
    requires n <= |ins.operands|
  {
    exists i :: 0 <= i < n && ins.operands[i].Mem? && ins.operands[i].disp == t
  }

  /** What an instruction is recorded to name: code as a pointer, when it is a value and no
      call or jump goes there; data, as either; data inside code, when it is in memory. */
  lemma {:induction false} RefsAre(img: Image, ins: Insn, n: nat, t: nat)
    requires n <= |ins.operands|
    ensures t in CodeRefsUpTo(img, ins, n) <==>
              HasImm(ins, n, t) && Stores(img, ins, t) && IsCode(img, t) && ins.mnem !in {Call, Jmp, Jcc}
    ensures t in DataRefs(img, ins, n) <==> (HasImm(ins, n, t) || HasMem(ins, n, t)) && Stores(img, ins, t)
    ensures t in TextDataRefs(img, ins, n) <==> HasMem(ins, n, t) && Stores(img, ins, t) && IsCode(img, t)
  {
    hide IsCode;
    assert t in Relocated(img, ins) <==> Stores(img, ins, t);
    if n == 0 {
    } else {
      hide Relocated, Stores;
      RefsAre(img, ins, n - 1, t);
      OneMore(ins, n, t);
    }
  }

  lemma OneMore(ins: Insn, n: nat, t: nat)
    requires 0 < n <= |ins.operands|
    ensures HasImm(ins, n, t) <==> HasImm(ins, n - 1, t) || ins.operands[n - 1] == Imm(t)
    ensures HasMem(ins, n, t) <==>
              HasMem(ins, n - 1, t) || (ins.operands[n - 1].Mem? && ins.operands[n - 1].disp == t)
  {
  }

  lemma RefsFromNothing(refs: map<nat, set<nat>>, addr: nat)
    ensures RefsFrom(refs, refs, addr, {})
  {
  }

  lemma RefsFromDone(img: Image, refs: map<nat, set<nat>>, refs': map<nat, set<nat>>, ins: Insn)
    requires At(img, ins.addr) == Some(ins) && RefsFrom(refs, refs', ins.addr, CodeRefs(img, ins))
    ensures RefsAdded(img, {ins.addr}, refs, refs')
  {
    forall t
      ensures RefAdded(refs, refs', t, Holders(img, {ins.addr}, t))
    {
      HoldersSplit(img, {}, ins.addr, t);
      assert RefAdded(refs, refs', t, if t in CodeRefs(img, ins) then {ins.addr} else {});
    }
  }

  /** Ownership, code pointers and table ranges reflect the instructions walked. */
  ghost predicate Noted(img: Image, f: Function, owner0: map<nat, nat>, refs0: map<nat, set<nat>>,
                        owner: map<nat, nat>, refs: map<nat, set<nat>>, ranges: seq<(nat, nat)>)
  {
    && owner == Claim(owner0, f.insns, f.entry)
    && RefsAdded(img, f.insns, refs0, refs)
    && TablesRecorded(f.tables, ranges) && TablesRight(img, f)
  }

  /** A block start more is no instruction more. */
  lemma NotedBlock(img: Image, f: Function, f': Function, owner0: map<nat, nat>, refs0: map<nat, set<nat>>,
                   owner: map<nat, nat>, refs: map<nat, set<nat>>, ranges: seq<(nat, nat)>)
    requires Noted(img, f, owner0, refs0, owner, refs, ranges)
    requires f'.entry == f.entry && f'.insns == f.insns && f'.tables == f.tables && f.blocks <= f'.blocks
    ensures Noted(img, f', owner0, refs0, owner, refs, ranges)
  {
    hide TableRight, HasTable, IndirectJump;
    forall a | a in f'.tables
      ensures TableRight(img, f', a)
    {
      TablesRightMore(img, f, f', a);
    }
  }

  lemma NotedStep(img: Image, f: Function, f': Function, a: nat, owner0: map<nat, nat>, refs0: map<nat, set<nat>>,
                  owner: map<nat, nat>, refs: map<nat, set<nat>>, ranges: seq<(nat, nat)>,
                  owner': map<nat, nat>, refs': map<nat, set<nat>>, ranges': seq<(nat, nat)>)
    requires Noted(img, f, owner0, refs0, owner, refs, ranges)
    requires f'.entry == f.entry && f'.insns == f.insns + {a}
    requires owner' == Claim(owner, {a}, f.entry) && RefsAdded(img, {a}, refs, refs')
    requires TablesRecorded(f'.tables, ranges') && TablesRight(img, f')
    ensures Noted(img, f', owner0, refs0, owner', refs', ranges')
  {
    hide TablesRight;
    ClaimStep(owner0, f.insns, a, f.entry);
    RefsStep(img, f.insns, a, refs0, refs, refs');
  }

  /** The block starts on a worklist. */
  ghost function Todo(work: seq<nat>): set<nat>
  {
    set t | t in work
  }

  lemma TodoAppend(work: seq<nat>, more: seq<nat>)
    ensures Todo(work + more) == Todo(work) + Todo(more)
  {
  }

  lemma TodoPop(work: seq<nat>)
    requires work != []
    ensures Todo(work) == Todo(work[..|work| - 1]) + {work[|work| - 1]}
  {
    assert work == work[..|work| - 1] + [work[|work| - 1]];
  }

  /** How many addresses in code are still to be visited. */
  ghost function Left(img: Image, f: Function): nat
  {
    |Covered(img.sections) - f.insns|
  }

  lemma LeftDrops(img: Image, f: Function, f': Function, a: nat)
    requires f'.insns == f.insns + {a} && a !in f.insns && IsCode(img, a)
    ensures Left(img, f') < Left(img, f)
  {
    SectionCovers(img.sections, a);
    assert Covered(img.sections) - f'.insns == (Covered(img.sections) - f.insns) - {a};
  }

  /** A stretch of the walk visited something, or left everything as it was. */
  ghost predicate Onward(img: Image, f: Function, work: seq<nat>, f': Function, work': seq<nat>)
  {
    && f'.entry == f.entry && f'.blocks == f.blocks
    && ((f' == f && work' == work) || Left(img, f') < Left(img, f))
  }

  // ---- what a whole analysis leaves behind --------------------------------------

  /** Known entries are analysed or waiting, each analysis is exact for the entries
      known when it was made, and the code a function calls is analysed or waiting. */
  ghost predicate Analysed(img: Image, funcs: map<nat, Function>, entries: set<nat>, pending: set<nat>)
  {
    && entries <= funcs.Keys + pending
    && (forall e :: e in funcs ==> ExploredAt(img, entries, e, funcs[e]))
    && (forall e :: e in funcs ==> CalleesIn(img, funcs[e], funcs.Keys + pending))
  }

  ghost predicate ExploredAt(img: Image, entries: set<nat>, e: nat, f: Function)
  {
    f.entry == e && TablesRight(img, f) && exists es :: es <= entries && Explored(img, {}, es, f)
  }

  ghost predicate CalleesIn(img: Image, f: Function, s: set<nat>)
  {
    forall c :: c in f.calls + f.tailcalls && IsCode(img, c) ==> c in s
  }

  /** An address has an owner exactly if some function holds it, and the owner is
      one that does. */
  ghost predicate Owned(funcs: map<nat, Function>, owner: map<nat, nat>)
  {
    forall a :: OwnedAt(funcs, owner, a)
  }

  ghost predicate OwnedAt(funcs: map<nat, Function>, owner: map<nat, nat>, a: nat)
  {
    && (a in owner ==> owner[a] in funcs && a in funcs[owner[a]].insns)
    && (forall e :: e in funcs && a in funcs[e].insns ==> a in owner)
  }

  /** Every code pointer held by an analysed instruction is recorded. */
  ghost predicate RefsCover(img: Image, funcs: map<nat, Function>, refs: map<nat, set<nat>>)
  {
    forall e :: RefsCoverOf(img, funcs, e, refs)
  }

  ghost predicate RefsCoverOf(img: Image, funcs: map<nat, Function>, e: nat, refs: map<nat, set<nat>>)
  {
    forall a, t :: e in funcs && a in funcs[e].insns && t in CodeRefs(img, Got(img, a)) ==> t in refs
  }

  lemma AnalysedStep(img: Image, funcs: map<nat, Function>, entries: set<nat>, pending: set<nat>,
                     f: Function, entries': set<nat>, pending': set<nat>)
    requires Analysed(img, funcs, entries, pending + {f.entry}) && f.entry !in funcs
    requires Explored(img, {}, entries, f) && TablesRight(img, f)
    requires entries <= entries' <= entries + pending' && pending <= pending'
    requires forall c :: c in f.calls && IsCode(img, c) ==> c in entries' + funcs.Keys
    ensures Analysed(img, funcs[f.entry := f], entries', pending')
  {
    hide TablesRight, Explored;
    var funcs' := funcs[f.entry := f];
    forall e | e in funcs'
      ensures ExploredAt(img, entries', e, funcs'[e]) && CalleesIn(img, funcs'[e], funcs'.Keys + pending')
    {
      if e == f.entry {
        TailcallsKnown(img, entries, f);
      } else {
        assert ExploredAt(img, entries, e, funcs[e]) && CalleesIn(img, funcs[e], funcs.Keys + (pending + {f.entry}));
      }
    }
  }

  lemma TailcallsKnown(img: Image, entries: set<nat>, f: Function)
    requires Explored(img, {}, entries, f)
    ensures f.tailcalls <= entries
  {
  }

  lemma AnalysedMore(img: Image, funcs: map<nat, Function>, entries: set<nat>, pending: set<nat>, t: nat)
    requires Analysed(img, funcs, entries, pending)
    ensures Analysed(img, funcs, entries + {t}, pending + {t})
  {
    forall e | e in funcs
      ensures ExploredAt(img, entries + {t}, e, funcs[e]) && CalleesIn(img, funcs[e], funcs.Keys + (pending + {t}))
    {
      assert ExploredAt(img, entries, e, funcs[e]) && CalleesIn(img, funcs[e], funcs.Keys + pending);
    }
  }

  lemma OwnedStep(funcs: map<nat, Function>, owner0: map<nat, nat>, f: Function, owner: map<nat, nat>)
    requires Owned(funcs, owner0) && f.entry !in funcs && owner == Claim(owner0, f.insns, f.entry)
    ensures Owned(funcs[f.entry := f], owner)
  {
    var funcs' := funcs[f.entry := f];
    forall a
      ensures OwnedAt(funcs', owner, a)
    {
      assert OwnedAt(funcs, owner0, a);
    }
  }

  lemma RefsCoverStep(img: Image, funcs: map<nat, Function>, refs0: map<nat, set<nat>>, f: Function, refs: map<nat,
                      set<nat>>)
    requires RefsCover(img, funcs, refs0) && f.entry !in funcs && RefsAdded(img, f.insns, refs0, refs)
    ensures RefsCover(img, funcs[f.entry := f], refs)
    ensures refs0.Keys <= refs.Keys
  {
    forall t
      ensures t in refs0 || Holders(img, f.insns, t) != {} ==> t in refs
    {
      assert RefAdded(refs0, refs, t, Holders(img, f.insns, t));
    }
    forall a, t | a in f.insns && t in CodeRefs(img, Got(img, a))
      ensures t in refs
    {
      assert a in Holders(img, f.insns, t);
    }
    var funcs' := funcs[f.entry := f];
    forall e
      ensures RefsCoverOf(img, funcs', e, refs)
    {
      assert RefsCoverOf(img, funcs, e, refs0);
    }
  }

  // ---- why a function is analysed ------------------------------------------------

  /** Function `d` calls or tail-calls `e`, or one of its instructions holds `e` as a code
      pointer. */
  ghost predicate Leads(img: Image, funcs: map<nat, Function>, d: nat, e: nat)
  {
    d in funcs && (e in funcs[d].calls || e in funcs[d].tailcalls || Holders(img, funcs[d].insns, e) != {})
  }

  ghost predicate IsChain(img: Image, seeds: set<nat>, funcs: map<nat, Function>, p: seq<nat>)
  {
    && p != [] && p[0] in seeds
    && forall i :: 0 <= i < |p| - 1 ==> Leads(img, funcs, p[i], p[i + 1])
  }

  /** `e` is a seed, or some chain of analysed functions leads from one to it. */
  ghost predicate Known(img: Image, seeds: set<nat>, funcs: map<nat, Function>, e: nat)
  {
    exists p :: IsChain(img, seeds, funcs, p) && p[|p| - 1] == e
  }

  ghost predicate AllKnown(img: Image, seeds: set<nat>, funcs: map<nat, Function>, some: set<nat>)
  {
    forall e :: e in some ==> Known(img, seeds, funcs, e)
  }

  lemma KnownSeed(img: Image, seeds: set<nat>, funcs: map<nat, Function>, e: nat)
    requires e in seeds
    ensures Known(img, seeds, funcs, e)
  {
    assert IsChain(img, seeds, funcs, [e]);
  }

  lemma SeedsKnown(img: Image, seeds: set<nat>)
    ensures AllKnown(img, seeds, map[], seeds)
  {
    hide Known;
    forall e | e in seeds
      ensures Known(img, seeds, map[], e)
    {
      KnownSeed(img, seeds, map[], e);
    }
  }

  lemma KnownStep(img: Image, seeds: set<nat>, funcs: map<nat, Function>, d: nat, e: nat)
    requires Known(img, seeds, funcs, d) && Leads(img, funcs, d, e)
    ensures Known(img, seeds, funcs, e)
  {
    var p :| IsChain(img, seeds, funcs, p) && p[|p| - 1] == d;
    assert IsChain(img, seeds, funcs, p + [e]);
  }

  lemma KnownMore(img: Image, seeds: set<nat>, funcs: map<nat, Function>, f: Function, e: nat)
    requires f.entry !in funcs && Known(img, seeds, funcs, e)
    ensures Known(img, seeds, funcs[f.entry := f], e)
  {
    var p :| IsChain(img, seeds, funcs, p) && p[|p| - 1] == e;
    assert IsChain(img, seeds, funcs[f.entry := f], p) by {
      forall i | 0 <= i < |p| - 1
        ensures Leads(img, funcs[f.entry := f], p[i], p[i + 1])
      {
        assert Leads(img, funcs, p[i], p[i + 1]);
      }
    }
  }

  /** What one more function turns up is known too. */
  lemma KnownGrows(img: Image, seeds: set<nat>, funcs: map<nat, Function>, refs0: map<nat, set<nat>>,
                   pending: set<nat>, f: Function, refs: map<nat, set<nat>>, pending': set<nat>)
    requires AllKnown(img, seeds, funcs, funcs.Keys + refs0.Keys + pending + {f.entry}) && f.entry !in funcs
    requires RefsAdded(img, f.insns, refs0, refs)
    requires forall c :: c in pending' ==> c in pending || c in f.calls || c in f.tailcalls
    ensures AllKnown(img, seeds, funcs[f.entry := f], funcs.Keys + refs.Keys + pending' + {f.entry})
  {
    hide Known, Holders;
    var funcs' := funcs[f.entry := f];
    KnownMore(img, seeds, funcs, f, f.entry);
    forall e | e in funcs.Keys + refs.Keys + pending' + {f.entry}
      ensures Known(img, seeds, funcs', e)
    {
      if e in funcs.Keys + refs0.Keys + pending + {f.entry} {
        KnownMore(img, seeds, funcs, f, e);
      } else {
        assert RefAdded(refs0, refs, e, Holders(img, f.insns, e));
        KnownStep(img, seeds, funcs', f.entry, e);
      }
    }
  }

  /** No recorded jump table covers `t`. */
  predicate Untabled(ranges: seq<(nat, nat)>, t: nat)
  {
    forall k :: 0 <= k < |ranges| ==> !(ranges[k].0 <= t < ranges[k].1)
  }

  /** The code among `callees` that is not among `known`. */
  ghost function NewCode(img: Image, callees: set<nat>, known: set<nat>): set<nat>
  {
    set c | c in callees && c !in known && IsCode(img, c)
  }

  lemma NewCodeTake(img: Image, callees: set<nat>, known: set<nat>, c: nat)
    requires c in callees
    ensures NewCode(img, callees, known) ==
            NewCode(img, callees - {c}, known) + if c !in known && IsCode(img, c) then {c} else {}
  {
  }

  predicate IsDataPointer(img: Image, r: nat)
  {
    var s := SectionOf(img.sections, r);
    s.Some? && !s.value.isCode && IsCode(img, img.u32(r))
  }

  /** Code addresses stored, with a relocation, outside code: vtables, callback
      tables. */
  ghost function DataPointers(img: Image, at: set<nat>): set<nat>
  {
    set r | r in at && IsDataPointer(img, r) :: img.u32(r)
  }

  /** They are what the relocations outside code hold that lies in code, the first section
      covering an address saying which it is. */
  lemma DataPointersAre(img: Image, t: nat)
    ensures t in DataPointers(img, img.relocs) <==>
              exists r :: r in img.relocs && img.u32(r) == t && InSection(img.sections, r, false)
                          && InSection(img.sections, t, true)
  {
    forall r
      ensures IsDataPointer(img, r) <==>
                InSection(img.sections, r, false) && InSection(img.sections, img.u32(r), true)
    {
      InSectionIs(img.sections, r, false);
      InSectionIs(img.sections, img.u32(r), true);
    }
  }

  /** The first section that covers `a` is one of code, or is not. */
  predicate InSection(secs: seq<Section>, a: nat, code: bool)
  {
    exists i :: 0 <= i < |secs| && FirstCover(secs, a, i) && secs[i].isCode == code
  }

  predicate FirstCover(secs: seq<Section>, a: nat, i: nat)
    requires i < |secs|
  {
    Covers(secs[i], a) && forall j :: 0 <= j < i ==> !Covers(secs[j], a)
  }

  predicate Covers(s: Section, a: nat)
  {
    s.va <= a < s.end
  }

  lemma {:induction false} InSectionIs(secs: seq<Section>, a: nat, code: bool)
    ensures InSection(secs, a, code) <==> SectionOf(secs, a).Some? && SectionOf(secs, a).value.isCode == code
  {
    if secs == [] {
    } else if Covers(secs[0], a) {
      assert FirstCover(secs, a, 0);
    } else {
      var rest := secs[1..];
      InSectionIs(rest, a, code);
      if i :| 0 <= i < |rest| && FirstCover(rest, a, i) && rest[i].isCode == code {
        assert secs[i + 1] == rest[i];
        forall j | 0 <= j < i + 1
          ensures !Covers(secs[j], a)
        {
          assert j > 0 ==> secs[j] == rest[j - 1];
        }
        assert FirstCover(secs, a, i + 1);
      }
      if i :| 0 <= i < |secs| && FirstCover(secs, a, i) && secs[i].isCode == code {
        assert rest[i - 1] == secs[i];
        forall j | 0 <= j < i - 1
          ensures !Covers(rest[j], a)
        {
          assert secs[j + 1] == rest[j];
        }
        assert FirstCover(rest, a, i - 1);
      }
    }
  }

  lemma DataPointersTake(img: Image, at: set<nat>, r: nat)
    requires r in at
    ensures DataPointers(img, at) ==
            DataPointers(img, at - {r}) + if IsDataPointer(img, r) then {img.u32(r)} else {}
  {
    forall t | t in DataPointers(img, at)
      ensures t in DataPointers(img, at - {r}) || (IsDataPointer(img, r) && t == img.u32(r))
    {
      var q :| q in at && IsDataPointer(img, q) && img.u32(q) == t;
      assert q == r || q in at - {r};
    }
    forall t | t in DataPointers(img, at - {r})
      ensures t in DataPointers(img, at)
    {
      var q :| q in at - {r} && IsDataPointer(img, q) && img.u32(q) == t;
      assert q in at;
    }
  }

  lemma VisitedAs(w: Walk, f: Function, todo: set<nat>, ins: Insn, w': Walk, f': Function, todo': set<nat>)
    requires Visited(w, f, todo, ins, w', f', todo')
    ensures f'.entry == f.entry && f'.blocks == f.blocks && f'.insns == f.insns + {ins.addr}
    ensures f'.tables == f.tables
         || (ins.addr in f'.tables && f'.tables == f.tables[ins.addr := f'.tables[ins.addr]])
  {
  }

  lemma AtThere(img: Image, a: nat)
    requires ValidImage(img) && At(img, a).Some?
    ensures At(img, a).value.addr == a && At(img, a).value.size > 0
  {
  }

  lemma StraightNothing(img: Image, f: Function, next: nat)
    ensures Straight(img, f, [], next)
  {
  }

  lemma NotTabled(w: Walk, f: Function, todo: set<nat>, late: set<nat>, next: set<nat>, addr: nat)
    requires Walking(w, f, todo, late, next) && addr !in f.insns
    ensures addr !in f.tables
  {
  }

  lemma TableRead(img: Image, ins: Insn, block: seq<Insn>, targets: seq<nat>)
    requires TableOperand(img, ins) && targets != []
    requires TableExtent(img, ins.operands[0].disp, Bound(img, block), |targets|)
    requires forall i :: 0 <= i < |targets| ==> targets[i] == img.u32(ins.operands[0].disp + 4 * i)
    ensures TableOf(img, ins, block) == Some((ins.operands[0].disp, targets))
  {
    hide Bound, TableWord;
    var table := ins.operands[0].disp;
    assert TableWord(img, table, 0) && HasTable(img, ins);
    var r := TableOf(img, ins, block).value;
    var m: nat, n: nat := |r.1|, |targets|;
    assert m >= n || TableWord(img, table, m);
    assert n >= m || TableWord(img, table, n);
    assert r.1 == targets;
  }

  class Analysis {
    const img: Image
    var insns: map<nat, Insn>
    var bad: set<nat>
    var funcs: map<nat, Function>
    var owner: map<nat, nat>
    var jumptableRanges: seq<(nat, nat)>
    var indextableRanges: seq<(nat, nat)>
    var codePtrRefs: map<nat, set<nat>>
    var dataRefs: map<nat, set<nat>>
    var textDataRefs: map<nat, set<nat>>
    var noreturnFuncs: set<nat>

    ghost predicate Valid()
      reads this
    {
      && ValidImage(img)
      && (forall a :: a in insns ==> At(img, a) == Some(insns[a]))
      && (forall e :: e in funcs ==> funcs[e].insns <= insns.Keys)
    }

    constructor (img: Image)
      requires ValidImage(img)
      ensures Valid() && this.img == img && funcs == map[] && owner == map[] && codePtrRefs == map[]
      ensures jumptableRanges == [] && indextableRanges == []
    {
      this.img := img;
      insns, bad, funcs, owner := map[], {}, map[], map[];
      jumptableRanges, indextableRanges, codePtrRefs, noreturnFuncs := [], [], map[], {};
      dataRefs, textDataRefs := map[], map[];
    }

    method Decode(addr: nat) returns (ins: Option<Insn>)
      requires Valid()
      modifies this`insns, this`bad
      ensures Valid() && ins == At(img, addr)
      ensures insns == if ins.Some? then old(insns)[addr := ins.value] else old(insns)
    {
      if addr in insns {
        assert insns == insns[addr := insns[addr]];
        return Some(insns[addr]);
      }
      if !IsCode(img, addr) {
        return None;
      }
      ins := img.decode(addr);
      if ins.Some? {
        insns := insns[addr := ins.value];
      } else {
        bad := bad + {addr};
      }
    }

    method JumptableTargets(ins: Insn, block: seq<Insn>) returns (r: Option<(nat, seq<nat>)>)
      modifies this`jumptableRanges, this`indextableRanges
      ensures r == TableOf(img, ins, block)
      ensures jumptableRanges
              == old(jumptableRanges) + if r.Some? then [(r.value.0, r.value.0 + 4 * |r.value.1|)] else []
      ensures indextableRanges
              == old(indextableRanges) + if TableOperand(img, ins) then IndexRange(img, block) else []
    {
      hide TableOf, TableExtent, TableSized, TableWord, SectionOf, Bound, IndexRange;
      if |ins.operands| != 1 || !ins.operands[0].Mem? {
        return None;
      }
      var m := ins.operands[0];
      if m.base || !m.index || m.scale != 4 {
        return None;
      }
      if !IsCode(img, m.disp) && SectionOf(img.sections, m.disp).None? {
        return None;
      }
      var n := EntryBound(block);
      var targets := ReadTable(m.disp, n);
      if targets == [] {
        return None;
      }
      TableRead(img, ins, block, targets);
      jumptableRanges := jumptableRanges + [(m.disp, m.disp + 4 * |targets|)];
      return Some((m.disp, targets));
    }

    /** How many entries the comparison before the jump allows, and the index table read
        between them noted. */
    method EntryBound(block: seq<Insn>) returns (n: Option<nat>)
      modifies this`indextableRanges
      ensures n == Bound(img, block)
      ensures indextableRanges == old(indextableRanges) + IndexRange(img, block)
    {
      hide LastBound, LastIndexTable;
      var bound := LastBound(block, 8);
      var idxtable := LastIndexTable(img, block, 4);
      n := bound;
      if idxtable.Some? && bound.Some? {
        var top := MaxByte(idxtable.value, bound.value);
        n := Some(top + 1);
        indextableRanges := indextableRanges + [(idxtable.value, idxtable.value + bound.value)];
      }
    }

    method MaxByte(table: nat, bound: nat) returns (top: nat)
      requires bound > 0
      ensures top == HighestByte(img, table, bound)
    {
      top := IndexByte(img, table, 0);
      var i := 1;
      while i < bound
        invariant 1 <= i <= bound && top == HighestByte(img, table, i)
      {
        if IndexByte(img, table, i) > top {
          top := IndexByte(img, table, i);
        }
        i := i + 1;
      }
    }

    method ReadTable(disp: nat, n: Option<nat>) returns (targets: seq<nat>)
      ensures TableExtent(img, disp, n, |targets|)
      ensures forall i :: 0 <= i < |targets| ==> targets[i] == img.u32(disp + 4 * i)
    {
      targets := [];
      var va, i := disp, 0;
      while true
        invariant va == disp + 4 * i && i == |targets|
        invariant forall k :: 0 <= k < i ==> TableWord(img, disp, k) && targets[k] == img.u32(disp + 4 * k)
        invariant n.Some? ==> i <= n.value
        invariant n.None? ==> i <= 1024
        decreases (if n.Some? then n.value else 1025) - i
      {
        if n.Some? && i >= n.value {
          break;
        }
        if va !in img.relocs {
          break;
        }
        var t := img.u32(va);
        if !IsCode(img, t) {
          break;
        }
        targets := targets + [t];
        va := va + 4;
        i := i + 1;
        if n.None? && i > 1024 {
          break;
        }
      }
    }

    method InTable(va: nat) returns (r: bool)
      ensures r <==> exists k :: 0 <= k < |jumptableRanges| && jumptableRanges[k].0 <= va < jumptableRanges[k].1
    {
      var i := 0;
      while i < |jumptableRanges|
        invariant 0 <= i <= |jumptableRanges|
        invariant forall k :: 0 <= k < i ==> !(jumptableRanges[k].0 <= va < jumptableRanges[k].1)
      {
        if jumptableRanges[i].0 <= va < jumptableRanges[i].1 {
          return true;
        }
        i := i + 1;
      }
      return false;
    }

    /** Record the code pointers one instruction holds, and the data it names. */
    method RecordRefs(ins: Insn)
      requires Valid() && At(img, ins.addr) == Some(ins)
      modifies this`codePtrRefs, this`dataRefs, this`textDataRefs
      ensures RefsAdded(img, {ins.addr}, old(codePtrRefs), codePtrRefs)
      ensures RefsFrom(old(dataRefs), dataRefs, ins.addr, DataRefs(img, ins, |ins.operands|))
      ensures RefsFrom(old(textDataRefs), textDataRefs, ins.addr, TextDataRefs(img, ins, |ins.operands|))
    {
      hide RefsFrom, RefsAdded, RefsAt, IsCode, At, ValidImage;
      var relocated := RelocatedIn(ins);
      RefsFromNothing(codePtrRefs, ins.addr);
      RefsFromNothing(dataRefs, ins.addr);
      RefsFromNothing(textDataRefs, ins.addr);
      var i := 0;
      while i < |ins.operands|
        invariant 0 <= i <= |ins.operands|
        invariant RefsFrom(old(codePtrRefs), codePtrRefs, ins.addr, CodeRefsUpTo(img, ins, i))
        invariant RefsFrom(old(dataRefs), dataRefs, ins.addr, DataRefs(img, ins, i))
        invariant RefsFrom(old(textDataRefs), textDataRefs, ins.addr, TextDataRefs(img, ins, i))
      {
        NoteOperand(ins, i, relocated, old(codePtrRefs), old(dataRefs), old(textDataRefs));
        i := i + 1;
      }
      RefsFromDone(img, old(codePtrRefs), codePtrRefs, ins);
    }

    method RelocatedIn(ins: Insn) returns (relocated: set<nat>)
      ensures relocated == Relocated(img, ins)
    {
      relocated := {};
      var va := ins.addr;
      while va < ins.End()
        invariant ins.addr <= va <= ins.End()
        invariant relocated == set x | ins.addr <= x < va && x in img.relocs :: img.u32(x)
      {
        if va in img.relocs {
          relocated := relocated + {img.u32(va)};
        }
        va := va + 1;
      }
    }

    /** One operand: a displacement is data, an immediate data or a code pointer. */
    method NoteOperand(ins: Insn, i: nat, relocated: set<nat>, ghost code0: map<nat, set<nat>>,
                       ghost data0: map<nat, set<nat>>, ghost text0: map<nat, set<nat>>)
      requires i < |ins.operands| && relocated == Relocated(img, ins)
      requires RefsFrom(code0, codePtrRefs, ins.addr, CodeRefsUpTo(img, ins, i))
      requires RefsFrom(data0, dataRefs, ins.addr, DataRefs(img, ins, i))
      requires RefsFrom(text0, textDataRefs, ins.addr, TextDataRefs(img, ins, i))
      modifies this`codePtrRefs, this`dataRefs, this`textDataRefs
      ensures RefsFrom(code0, codePtrRefs, ins.addr, CodeRefsUpTo(img, ins, i + 1))
      ensures RefsFrom(data0, dataRefs, ins.addr, DataRefs(img, ins, i + 1))
      ensures RefsFrom(text0, textDataRefs, ins.addr, TextDataRefs(img, ins, i + 1))
    {
      hide RefsFrom, RefsAt, IsCode, Relocated;
      var op := ins.operands[i];
      assert CodeRefsUpTo(img, ins, i) + {} == CodeRefsUpTo(img, ins, i);
      assert DataRefs(img, ins, i) + {} == DataRefs(img, ins, i);
      assert TextDataRefs(img, ins, i) + {} == TextDataRefs(img, ins, i);
      RefsFromStep(code0, codePtrRefs, ins.addr, CodeRefsUpTo(img, ins, i), if op.Imm? then op.value else 0);
      RefsFromStep(data0, dataRefs, ins.addr, DataRefs(img, ins, i),
                   if op.Mem? then op.disp else if op.Imm? then op.value else 0);
      RefsFromStep(text0, textDataRefs, ins.addr, TextDataRefs(img, ins, i), if op.Mem? then op.disp else 0);
      if op.Mem? && op.disp in relocated {
        dataRefs := dataRefs[op.disp := RefsAt(dataRefs, op.disp) + {ins.addr}];
        if IsCode(img, op.disp) {
          textDataRefs := textDataRefs[op.disp := RefsAt(textDataRefs, op.disp) + {ins.addr}];
        }
      } else if op.Imm? && op.value in relocated {
        dataRefs := dataRefs[op.value := RefsAt(dataRefs, op.value) + {ins.addr}];
        if IsCode(img, op.value) && ins.mnem !in {Call, Jmp, Jcc} {
          codePtrRefs := codePtrRefs[op.value := RefsAt(codePtrRefs, op.value) + {ins.addr}];
        }
      }
    }

    /** An unconditional jump: a tail call, a jump within the function, an import,
        or a jump table. */
    method FlowJmp(ins: Insn, block: seq<Insn>, entries: set<nat>, f: Function, work: seq<nat>)
      returns (f': Function, work': seq<nat>)
      requires ins.mnem == Jmp && ins.operands != [] && ins.addr !in f.tables
      requires TablesRecorded(f.tables, jumptableRanges)
      modifies this`jumptableRanges, this`indextableRanges
      ensures old(jumptableRanges) <= jumptableRanges && TablesRecorded(f'.tables, jumptableRanges)
      ensures f' == f.(tables := f'.tables, tailcalls := f'.tailcalls, imports := f'.imports)
      ensures f'.tables == f.tables
           || (ins.addr in f'.tables && f'.tables == f.tables[ins.addr := f'.tables[ins.addr]])
      ensures ins.addr in f'.tables <==> IndirectJump(img, ins) && HasTable(img, ins)
      ensures ins.addr in f'.tables ==> TableOf(img, ins, block) == Some(f'.tables[ins.addr])
      ensures f'.tailcalls == f.tailcalls + WalkOf(img, {}, entries, f).TailTargets(ins)
      ensures Todo(work') == Todo(work) + WalkOf(img, {}, entries, f').Jumps(ins)
    {
      hide TableOf, HasTable, SectionOf, IndexRange;
      f', work' := f, work;
      var op := ins.operands[0];
      if op.Imm? {
        if op.value in entries && op.value != f.entry {
          f' := f'.(tailcalls := f'.tailcalls + {op.value});
        } else {
          TodoAppend(work, [op.value]);
          work' := work' + [op.value];
        }
      } else if IsImport(img, op) {
        f' := f'.(imports := f'.imports + {img.imports[op.disp]});
      } else {
        var jt := JumptableTargets(ins, block);
        if jt.Some? {
          f' := f'.(tables := f'.tables[ins.addr := jt.value]);
          TodoAppend(work, jt.value.1);
          work' := work' + jt.value.1;
        }
      }
    }

    /** Where control goes after the instruction; `on` is false where the source
        breaks. */
    method Flow(ins: Insn, block: seq<Insn>, entries: set<nat>, f: Function, work: seq<nat>, ghost w: Walk)
      returns (f': Function, work': seq<nat>, on: bool, ghost w': Walk)
      requires Valid() && At(img, ins.addr) == Some(ins) && ins.addr !in f.tables
      requires w == WalkOf(img, noreturnFuncs, entries, f)
      requires TablesRecorded(f.tables, jumptableRanges)
      modifies this`jumptableRanges, this`indextableRanges
      ensures w' == WalkOf(img, noreturnFuncs, entries, f') && Visited(w, f, Todo(work), ins, w', f', Todo(work'))
      ensures on == w'.FallsThrough(ins)
      ensures ins.addr in f'.tables <==> IndirectJump(img, ins) && HasTable(img, ins)
      ensures ins.addr in f'.tables ==> TableOf(img, ins, block) == Some(f'.tables[ins.addr])
      ensures old(jumptableRanges) <= jumptableRanges && TablesRecorded(f'.tables, jumptableRanges)
    {
      hide TableOf, HasTable;
      f', work', on := f.(insns := f.insns + {ins.addr}), work, false;
      match ins.mnem {
        case Ret =>
        case Call =>
          on := true;
          if ins.operands != [] && ins.operands[0].Imm? {
            f' := f'.(calls := f'.calls + {ins.operands[0].value});
            on := ins.operands[0].value !in noreturnFuncs;
          } else if ins.operands != [] && IsImport(img, ins.operands[0]) {
            var name := img.imports[ins.operands[0].disp];
            f' := f'.(imports := f'.imports + {name});
            on := name !in NORETURN_IMPORTS;
          }
        case Jmp =>
          f', work' := FlowJmp(ins, block, entries, f', work');
        case Jcc =>
          on := true;
          if ins.operands[0].Imm? {
            TodoAppend(work', [ins.operands[0].value]);
            work' := work' + [ins.operands[0].value];
          }
        case Trap =>
        case _ =>
          on := true;
      }
      w' := WalkOf(img, noreturnFuncs, entries, f');
    }

    /** One turn of the inner loop, from recording the instruction to deciding
        whether to go on, seen as a step of the walk. */
    method Visit(ins: Insn, block: seq<Insn>, entries: set<nat>, f: Function, work: seq<nat>, ghost w: Walk,
                 ghost late: set<nat>, ghost next: set<nat>,
                 ghost owner0: map<nat, nat>, ghost refs0: map<nat, set<nat>>)
      returns (f': Function, work': seq<nat>, on: bool, ghost w': Walk)
      requires Valid() && w == WalkOf(img, noreturnFuncs, entries, f)
      requires At(img, ins.addr) == Some(ins) && ins.addr !in f.insns && w.Reaches(ins.addr)
      requires Walking(w, f, Todo(work), late, next) && late <= {ins.addr} && next <= {ins.addr}
      requires Noted(img, f, owner0, refs0, owner, codePtrRefs, jumptableRanges)
      requires block != [] && block[|block| - 1] == ins
      requires Straight(img, f.(insns := f.insns + {ins.addr}), block, ins.End())
      modifies this`owner, this`codePtrRefs, this`dataRefs, this`textDataRefs,
        this`jumptableRanges, this`indextableRanges
      ensures Valid() && w' == WalkOf(img, noreturnFuncs, entries, f')
      ensures f'.entry == f.entry && f'.blocks == f.blocks && f'.insns == f.insns + {ins.addr}
      ensures Walking(w', f', Todo(work'), {}, if on then {ins.End()} else {})
      ensures on && !w'.Cut(ins.End()) ==> w'.Reaches(ins.End())
      ensures Noted(img, f', owner0, refs0, owner, codePtrRefs, jumptableRanges)
      ensures old(jumptableRanges) <= jumptableRanges
    {
      hide TableOf, HasTable, IndirectJump, Straight, TablesRight, Walking, RefsAdded, TablesRecorded, Visited, IsCode,
        Claim, ValidImage, RefsFrom, DataRefs, TextDataRefs, At, Todo;
      NotTabled(w, f, Todo(work), late, next, ins.addr);
      TakeOwnership(ins.addr, f.entry);
      RecordRefs(ins);
      f', work', on, w' := Flow(ins, block, entries, f, work, w);
      VisitStep(w, f, Todo(work), ins, late, next, w', f', Todo(work'));
      VisitedAs(w, f, Todo(work), ins, w', f', Todo(work'));
      StraightMore(img, f.(insns := f.insns + {ins.addr}), f', block, ins.End());
      TablesRightStep(img, f, f', block, ins);
      NotedStep(img, f, f', ins.addr, owner0, refs0, old(owner), old(codePtrRefs), old(jumptableRanges),
                owner, codePtrRefs, jumptableRanges);
    }

    method TakeOwnership(addr: nat, entry: nat)
      modifies this`owner
      ensures owner == Claim(old(owner), {addr}, entry)
    {
      if addr !in owner {
        owner := owner[addr := entry];
      }
    }

    /** One turn of the inner loop from `addr`; `on` is false where the source
        leaves the loop. */
    method Turn(addr: nat, block: seq<Insn>, entries: set<nat>, f: Function, work: seq<nat>, ghost w: Walk,
                ghost late: set<nat>, ghost next: set<nat>,
                ghost owner0: map<nat, nat>, ghost refs0: map<nat, set<nat>>)
      returns (addr': nat, block': seq<Insn>, f': Function, work': seq<nat>, on: bool, ghost w': Walk)
      requires Valid() && w == WalkOf(img, noreturnFuncs, entries, f)
      requires addr !in f.insns && w.Reaches(addr) && f.insns <= insns.Keys
      requires Walking(w, f, Todo(work), late, next) && late <= {addr} && next <= {addr}
      requires Noted(img, f, owner0, refs0, owner, codePtrRefs, jumptableRanges)
      requires Straight(img, f, block, addr) && (block == [] ==> addr in f.blocks)
      modifies this`insns, this`bad, this`owner, this`codePtrRefs, this`dataRefs, this`textDataRefs,
        this`jumptableRanges, this`indextableRanges
      ensures Valid() && w' == WalkOf(img, noreturnFuncs, entries, f')
      ensures Walking(w', f', Todo(work'), {}, if on then {addr'} else {})
      ensures on ==> addr < addr' && addr in f'.insns && (!w'.Cut(addr') ==> w'.Reaches(addr'))
      ensures on ==> Straight(img, f', block', addr') && block' != []
      ensures f'.insns <= insns.Keys && old(insns).Keys <= insns.Keys
      ensures Noted(img, f', owner0, refs0, owner, codePtrRefs, jumptableRanges)
      ensures old(jumptableRanges) <= jumptableRanges
      ensures Onward(img, f, work, f', work') && (on ==> f' != f)
    {
      hide Walking, Noted, Straight, Left, IsCode, Visited, ValidImage;
      addr', block', f', work', on, w' := addr, block, f, work, false, w;
      var ins := Decode(addr);
      if ins.None? {
        WalkingUndecodable(w, f, Todo(work), late, next, addr);
        return;
      }
      AtThere(img, addr);
      block' := block + [ins.value];
      addr' := ins.value.End();
      StraightOn(img, f, f.(insns := f.insns + {addr}), block, ins.value);
      f', work', on, w' := Visit(ins.value, block', entries, f, work, w, late, next, owner0, refs0);
      LeftDrops(img, f, f', addr);
      StraightMore(img, f.(insns := f.insns + {addr}), f', block', addr');
    }

    /** The inner loop: decode onwards from the block start `b`.  The two checks that
        spare the first instruction come after it. */
    method WalkBlock(b: nat, entries: set<nat>, f: Function, work: seq<nat>, ghost w: Walk,
                     ghost owner0: map<nat, nat>, ghost refs0: map<nat, set<nat>>)
      returns (f': Function, work': seq<nat>, ghost w': Walk)
      requires Valid() && w == WalkOf(img, noreturnFuncs, entries, f)
      requires b !in f.insns && w.Reaches(b) && Walking(w, f, Todo(work), {b}, {})
      requires b in f.blocks && f.insns <= insns.Keys
      requires Noted(img, f, owner0, refs0, owner, codePtrRefs, jumptableRanges)
      modifies this`insns, this`bad, this`owner, this`codePtrRefs, this`dataRefs, this`textDataRefs,
        this`jumptableRanges, this`indextableRanges
      ensures Valid() && w' == WalkOf(img, noreturnFuncs, entries, f') && w'.entry == w.entry
      ensures Walking(w', f', Todo(work'), {}, {})
      ensures Noted(img, f', owner0, refs0, owner, codePtrRefs, jumptableRanges)
      ensures old(jumptableRanges) <= jumptableRanges
      ensures Onward(img, f, work, f', work')
      ensures f'.insns <= insns.Keys && old(insns).Keys <= insns.Keys
    {
      hide Walking, Noted, Straight;
      var addr, block, on;
      StraightNothing(img, f, b);
      addr, block, f', work', on, w' := Turn(b, [], entries, f, work, w, {b}, {}, owner0, refs0);
      while on
        invariant Valid() && w' == WalkOf(img, noreturnFuncs, entries, f') && w'.entry == w.entry
        invariant Walking(w', f', Todo(work'), {}, if on then {addr} else {})
        invariant on && !w'.Cut(addr) ==> w'.Reaches(addr)
        invariant Noted(img, f', owner0, refs0, owner, codePtrRefs, jumptableRanges)
        invariant old(jumptableRanges) <= jumptableRanges
        invariant Onward(img, f, work, f', work') && (on ==> f' != f)
        invariant on ==> Straight(img, f', block, addr) && block != []
        invariant f'.insns <= insns.Keys && old(insns).Keys <= insns.Keys
        decreases Left(img, f'), on
      {
        if addr in entries && addr != f'.entry {
          WalkingNothingNext(w', f', Todo(work'), addr);
          break;
        }
        if addr in f'.insns {
          WalkingNothingNext(w', f', Todo(work'), addr);
          break;
        }
        addr, block, f', work', on, w' := Turn(addr, block, entries, f', work', w', {}, {addr}, owner0, refs0);
      }
    }

    /** The outer loop's turn for a block start not met before. */
    method WalkNewBlock(b: nat, entries: set<nat>, f: Function, rest: seq<nat>, ghost w: Walk,
                        ghost owner0: map<nat, nat>, ghost refs0: map<nat, set<nat>>)
      returns (f': Function, work': seq<nat>, ghost w': Walk)
      requires Valid() && w == WalkOf(img, noreturnFuncs, entries, f)
      requires b !in f.insns && Walking(w, f, Todo(rest) + {b}, {}, {}) && f.insns <= insns.Keys
      requires Noted(img, f, owner0, refs0, owner, codePtrRefs, jumptableRanges)
      modifies this`insns, this`bad, this`owner, this`codePtrRefs, this`dataRefs, this`textDataRefs,
        this`jumptableRanges, this`indextableRanges
      ensures Valid() && w' == WalkOf(img, noreturnFuncs, entries, f') && w'.entry == w.entry
      ensures Walking(w', f', Todo(work'), {}, {})
      ensures Noted(img, f', owner0, refs0, owner, codePtrRefs, jumptableRanges)
      ensures old(jumptableRanges) <= jumptableRanges
      ensures f'.entry == f.entry && f'.blocks == f.blocks + {b}
      ensures Left(img, f') < Left(img, f) || (f'.insns == f.insns && work' == rest)
      ensures f'.insns <= insns.Keys && old(insns).Keys <= insns.Keys
    {
      PopNew(w, f, b, Todo(rest));
      assert w.Reaches(b);
      var g := f.(blocks := f.blocks + {b});
      NotedBlock(img, f, g, owner0, refs0, owner, codePtrRefs, jumptableRanges);
      f', work', w' := WalkBlock(b, entries, g, rest, w, owner0, refs0);
    }

    /** Everything reachable from `entry`, other functions starting at `entries`; its jump
        tables are those its jumps have. */
    method ExploreFunction(entry: nat, entries: set<nat>) returns (f: Function)
      requires Valid()
      modifies this`insns, this`bad, this`owner, this`codePtrRefs, this`dataRefs, this`textDataRefs,
        this`jumptableRanges, this`indextableRanges
      ensures Valid()
      ensures f.entry == entry && Explored(img, noreturnFuncs, entries, f)
      ensures Noted(img, f, old(owner), old(codePtrRefs), owner, codePtrRefs, jumptableRanges)
      ensures old(jumptableRanges) <= jumptableRanges
      ensures f.insns <= insns.Keys && old(insns).Keys <= insns.Keys
    {
      f := Function(entry, {}, {}, {}, {}, {}, map[]);
      var work := [entry];
      var seenBlocks: set<nat> := {};
      ghost var w := WalkOf(img, noreturnFuncs, entries, f);
      ReachesEntry(w);
      NotedNothing(img, f, owner, codePtrRefs, jumptableRanges);
      while work != []
        invariant Valid() && w == WalkOf(img, noreturnFuncs, entries, f) && w.entry == entry
        invariant Walking(w, f, Todo(work), {}, {})
        invariant seenBlocks <= f.blocks
        invariant Noted(img, f, old(owner), old(codePtrRefs), owner, codePtrRefs, jumptableRanges)
        invariant old(jumptableRanges) <= jumptableRanges
        invariant f.insns <= insns.Keys && old(insns).Keys <= insns.Keys
        decreases Left(img, f), |work|
      {
        var b := work[|work| - 1];
        var rest := work[..|work| - 1];
        TodoPop(work);
        if b in seenBlocks || b in f.insns {
          PopSeen(w, f, b, Todo(rest));
          NotedBlock(img, f, f.(blocks := f.blocks + {b}), old(owner), old(codePtrRefs),
                     owner, codePtrRefs, jumptableRanges);
          f := f.(blocks := f.blocks + {b});
          work := rest;
        } else {
          seenBlocks := seenBlocks + {b};
          f, work, w := WalkNewBlock(b, entries, f, rest, w, old(owner), old(codePtrRefs));
        }
      }
      assert Todo(work) == {};
      WalkDone(w, f);
    }

    /** Queue the code in `callees` that is not `known`. */
    method Enqueue(callees: set<nat>, known: set<nat>, entries: set<nat>, pending: seq<nat>)
      returns (entries': set<nat>, pending': seq<nat>)
      ensures entries' == entries + NewCode(img, callees, known)
      ensures Todo(pending') == Todo(pending) + NewCode(img, callees, known)
    {
      entries', pending' := entries, pending;
      var rest := callees;
      ghost var all := NewCode(img, callees, known);
      while rest != {}
        invariant entries' + NewCode(img, rest, known) == entries + all
        invariant Todo(pending') + NewCode(img, rest, known) == Todo(pending) + all
        decreases |rest|
      {
        var c :| c in rest;
        NewCodeTake(img, rest, known, c);
        rest := rest - {c};
        if c !in known && IsCode(img, c) {
          entries' := entries' + {c};
          TodoAppend(pending', [c]);
          pending' := pending' + [c];
        }
      }
    }

    method ListOf(s: set<nat>) returns (list: seq<nat>)
      ensures Todo(list) == s
    {
      list := [];
      var rest := s;
      while rest != {}
        invariant rest <= s && Todo(list) == s - rest
        decreases |rest|
      {
        var x :| x in rest;
        rest := rest - {x};
        TodoAppend(list, [x]);
        list := list + [x];
      }
    }

    /** The state of an analysis under way. */
    ghost predicate Underway(entries: set<nat>, pending: set<nat>, seeds: set<nat>)
      reads this
    {
      && Valid() && noreturnFuncs == {}
      && Analysed(img, funcs, entries, pending)
      && Owned(funcs, owner) && RefsCover(img, funcs, codePtrRefs)
      && AllKnown(img, seeds, funcs, funcs.Keys + codePtrRefs.Keys + pending)
      && funcs.Keys + pending <= seeds + Covered(img.sections)
    }

    /** Analyse the function at `e`. */
    method Analyse(e: nat, entries: set<nat>) returns (f: Function)
      requires Valid() && noreturnFuncs == {} && e !in funcs
      requires Owned(funcs, owner) && RefsCover(img, funcs, codePtrRefs)
      modifies this
      ensures Valid() && noreturnFuncs == {} && funcs == old(funcs)[e := f]
      ensures f.entry == e && Explored(img, {}, entries, f) && TablesRight(img, f)
      ensures RefsAdded(img, f.insns, old(codePtrRefs), codePtrRefs)
      ensures Owned(funcs, owner) && RefsCover(img, funcs, codePtrRefs) && old(codePtrRefs).Keys <= codePtrRefs.Keys
    {
      f := ExploreFunction(e, entries);
      OwnedStep(funcs, old(owner), f, owner);
      RefsCoverStep(img, funcs, old(codePtrRefs), f, codePtrRefs);
      funcs := funcs[e := f];
    }

    /** `while pending`, one turn. */
    method DrainOne(e: nat, entries: set<nat>, todo: seq<nat>, ghost seeds: set<nat>)
      returns (entries': set<nat>, todo': seq<nat>)
      requires Underway(entries, Todo(todo) + {e}, seeds)
      modifies this
      ensures Underway(entries', Todo(todo'), seeds) && entries <= entries'
      ensures funcs.Keys == old(funcs).Keys + {e} && old(codePtrRefs).Keys <= codePtrRefs.Keys
      ensures if e in old(funcs) then Still() && todo' == todo
              else Unseen(img, seeds, funcs) < old(Unseen(img, seeds, funcs))
    {
      hide Analysed, Owned, RefsCover, RefsAdded, Explored, TablesRight, ValidImage, At, Unseen, Known;
      if e in funcs {
        AnalysedLess(img, funcs, entries, Todo(todo), e);
        return entries, todo;
      }
      var f := Analyse(e, entries);
      entries', todo' := Enqueue(f.calls + f.tailcalls, entries, entries, todo);
      AnalysedStep(img, old(funcs), entries, Todo(todo), f, entries', Todo(todo'));
      KnownGrows(img, seeds, old(funcs), old(codePtrRefs), Todo(todo), f, codePtrRefs, Todo(todo'));
      UniverseStep(img, seeds, old(funcs), Todo(todo), e, funcs, Todo(todo'));
    }

    /** The pass over the code pointers, one of them. */
    method ChaseOne(tgt: nat, entries: set<nat>, todo: seq<nat>, ghost seeds: set<nat>)
      returns (entries': set<nat>, todo': seq<nat>)
      requires Underway(entries, Todo(todo), seeds) && tgt !in funcs && IsCode(img, tgt)
      requires tgt in codePtrRefs && tgt !in owner && Untabled(jumptableRanges, tgt)
      modifies this
      ensures Underway(entries', Todo(todo'), seeds) && entries <= entries'
      ensures funcs.Keys == old(funcs).Keys + {tgt} && old(codePtrRefs).Keys <= codePtrRefs.Keys
    {
      hide Analysed, Owned, RefsCover, RefsAdded, Explored, TablesRight, ValidImage, Unseen, Known;
      SectionCovers(img.sections, tgt);
      AnalysedMore(img, funcs, entries, Todo(todo), tgt);
      var more := entries + {tgt};
      var f := Analyse(tgt, more);
      entries', todo' := Enqueue(f.calls, funcs.Keys, more, todo);
      AnalysedStep(img, old(funcs), more, Todo(todo), f, entries', Todo(todo'));
      KnownGrows(img, seeds, old(funcs), old(codePtrRefs), Todo(todo), f, codePtrRefs, Todo(todo'));
      UniverseStep(img, seeds, old(funcs), Todo(todo), tgt, funcs, Todo(todo'));
    }

    /** Nothing a pass could see has changed. */
    twostate predicate Still()
      reads this
    {
      && funcs == old(funcs) && codePtrRefs == old(codePtrRefs) && owner == old(owner)
      && jumptableRanges == old(jumptableRanges)
    }

    /** `while pending`: analyse what is waiting and what that turns up. */
    method Drain(entries: set<nat>, pending: seq<nat>, ghost seeds: set<nat>) returns (entries': set<nat>, any: bool)
      requires Underway(entries, Todo(pending), seeds)
      modifies this
      ensures Underway(entries', {}, seeds) && entries <= entries'
      ensures any ==> old(funcs).Keys < funcs.Keys
      ensures !any ==> Still()
      ensures old(codePtrRefs).Keys <= codePtrRefs.Keys
    {
      hide Underway, Unseen;
      entries', any := entries, false;
      var todo := pending;
      while todo != []
        invariant Underway(entries', Todo(todo), seeds) && entries <= entries'
        invariant old(funcs).Keys <= funcs.Keys && (any ==> old(funcs).Keys < funcs.Keys)
        invariant !any ==> Still()
        invariant old(codePtrRefs).Keys <= codePtrRefs.Keys
        decreases Unseen(img, seeds, funcs), |todo|
      {
        var e := todo[|todo| - 1];
        TodoPop(todo);
        any := any || e !in funcs;
        entries', todo := DrainOne(e, entries', todo[..|todo| - 1], seeds);
      }
      assert Todo(todo) == {};
    }

    /** One pass over the code pointers known when it starts. */
    method ChasePointers(entries: set<nat>, ghost seeds: set<nat>)
      returns (entries': set<nat>, pending: seq<nat>, any: bool)
      requires Underway(entries, {}, seeds)
      modifies this
      ensures Underway(entries', Todo(pending), seeds) && entries <= entries'
      ensures any ==> old(funcs).Keys < funcs.Keys
      ensures !any ==> Still() && pending == [] && forall t :: t in codePtrRefs ==> Accounted(t)
      ensures old(codePtrRefs).Keys <= codePtrRefs.Keys
    {
      hide Underway, IsCode;
      assert Todo([]) == {};
      entries', pending, any := entries, [], false;
      var rest := codePtrRefs.Keys;
      while rest != {}
        invariant Underway(entries', Todo(pending), seeds) && entries <= entries'
        invariant rest <= old(codePtrRefs).Keys <= codePtrRefs.Keys
        invariant old(funcs).Keys <= funcs.Keys && (any ==> old(funcs).Keys < funcs.Keys)
        invariant !any ==> Still() && pending == [] && forall t :: t in codePtrRefs && t !in rest ==> Accounted(t)
        decreases |rest|
      {
        var tgt :| tgt in rest;
        rest := rest - {tgt};
        var tabled := InTable(tgt);
        if tgt !in funcs && tgt !in owner && IsCode(img, tgt) && !tabled {
          entries', pending := ChaseOne(tgt, entries', pending, seeds);
          any := true;
        }
      }
    }

    /** A code pointer that needs no analysis of its own. */
    ghost predicate Accounted(t: nat)
      reads this
    {
      t in funcs || t in owner || !IsCode(img, t)
      || exists k :: 0 <= k < |jumptableRanges| && jumptableRanges[k].0 <= t < jumptableRanges[k].1
    }

    /** One relocation of the seed loop. */
    method NotePointer(r: nat, found: set<nat>, ghost rest: set<nat>) returns (found': set<nat>)
      requires r in rest && codePtrRefs.Keys == found
      modifies this`codePtrRefs
      ensures found' + DataPointers(img, rest - {r}) == found + DataPointers(img, rest)
      ensures codePtrRefs.Keys == found'
    {
      DataPointersTake(img, rest, r);
      found' := found;
      if IsDataPointer(img, r) {
        var t := img.u32(r);
        found' := found + {t};
        codePtrRefs := codePtrRefs[t := RefsAt(codePtrRefs, t) + {r}];
      }
    }

    method FindDataPointers() returns (found: set<nat>)
      requires codePtrRefs == map[]
      modifies this`codePtrRefs
      ensures found == DataPointers(img, img.relocs) == codePtrRefs.Keys
    {
      found := {};
      var rest := img.relocs;
      while rest != {}
        invariant found + DataPointers(img, rest) == DataPointers(img, img.relocs)
        invariant codePtrRefs.Keys == found
        decreases |rest|
      {
        var r :| r in rest;
        found := NotePointer(r, found, rest);
        rest := rest - {r};
      }
    }

    /** The whole analysis.  At the end every seed is analysed, so is all the code an
        analysed function calls or tail-calls, and every code pointer found in data
        or in analysed code is accounted for; and nothing is analysed that no chain of
        calls and code pointers leads to from a seed. */
    method Run(extraSeeds: set<nat>) returns (ghost entries: set<nat>)
      requires Valid() && funcs == map[] && owner == map[] && codePtrRefs == map[]
      modifies this
      ensures Valid() && Analysed(img, funcs, entries, {}) && Owned(funcs, owner)
      ensures {img.entry} + img.exports + extraSeeds + DataPointers(img, img.relocs) <= funcs.Keys
      ensures RefsCover(img, funcs, codePtrRefs) && DataPointers(img, img.relocs) <= codePtrRefs.Keys
      ensures forall t :: t in codePtrRefs ==> Accounted(t)
      ensures AllKnown(img, {img.entry} + img.exports + extraSeeds + DataPointers(img, img.relocs), funcs,
                       funcs.Keys + codePtrRefs.Keys)
    {
      var seeds, pending := Seed(extraSeeds);
      var known, any;
      known, any := Drain(seeds, pending, seeds);
      any := true;
      while any
        invariant Underway(known, {}, seeds) && seeds <= known
        invariant DataPointers(img, img.relocs) <= codePtrRefs.Keys
        invariant !any ==> forall t :: t in codePtrRefs ==> Accounted(t)
        decreases Unseen(img, seeds, funcs), any
      {
        known, any := Pass(known, seeds);
      }
      entries := known;
    }

    /** The functions known before any code has been read. */
    method Seed(extraSeeds: set<nat>) returns (seeds: set<nat>, pending: seq<nat>)
      requires Valid() && funcs == map[] && owner == map[] && codePtrRefs == map[]
      modifies this`noreturnFuncs, this`codePtrRefs
      ensures seeds == {img.entry} + img.exports + extraSeeds + DataPointers(img, img.relocs)
      ensures Underway(seeds, Todo(pending), seeds) && codePtrRefs.Keys == DataPointers(img, img.relocs)
    {
      hide Known, ExploredAt, ValidImage;
      noreturnFuncs := {};
      var found := FindDataPointers();
      seeds := {img.entry} + img.exports + extraSeeds + found;
      pending := ListOf(seeds);
      SeedsKnown(img, seeds);
    }

    /** `while changed`, one turn. */
    method Pass(entries: set<nat>, ghost seeds: set<nat>) returns (entries': set<nat>, changed: bool)
      requires Underway(entries, {}, seeds)
      modifies this
      ensures Underway(entries', {}, seeds) && entries <= entries'
      ensures old(codePtrRefs).Keys <= codePtrRefs.Keys
      ensures changed ==> Unseen(img, seeds, funcs) < old(Unseen(img, seeds, funcs))
      ensures !changed ==> funcs == old(funcs) && forall t :: t in codePtrRefs ==> Accounted(t)
    {
      var known, pending, chased := ChasePointers(entries, seeds);
      var drained;
      entries', drained := Drain(known, pending, seeds);
      changed := chased || drained;
      if changed {
        Shrinks(seeds + Covered(img.sections), old(funcs).Keys, funcs.Keys);
      }
    }
  }

  /** How many functions there are still to find. */
  ghost function Unseen(img: Image, seeds: set<nat>, funcs: map<nat, Function>): nat
  {
    |seeds + Covered(img.sections) - funcs.Keys|
  }

  lemma AnalysedLess(img: Image, funcs: map<nat, Function>, entries: set<nat>, pending: set<nat>, e: nat)
    requires Analysed(img, funcs, entries, pending + {e}) && e in funcs
    ensures Analysed(img, funcs, entries, pending)
  {
    assert funcs.Keys + (pending + {e}) == funcs.Keys + pending;
  }

  lemma Shrinks(u: set<nat>, s: set<nat>, t: set<nat>)
    requires s < t <= u
    ensures |u - t| < |u - s|
  {
    var x :| x in t && x !in s;
    SetSize(u - t, u - s - {x});
  }

  lemma SetSize(s: set<nat>, t: set<nat>)
    requires s <= t
    ensures |s| <= |t|
  {
    if s == {} {
    } else {
      var x :| x in s;
      SetSize(s - {x}, t - {x});
    }
  }

  lemma UniverseStep(img: Image, seeds: set<nat>, funcs0: map<nat, Function>, pending0: set<nat>, e: nat,
                     funcs: map<nat, Function>, pending: set<nat>)
    requires funcs0.Keys + (pending0 + {e}) <= seeds + Covered(img.sections)
    requires funcs.Keys == funcs0.Keys + {e} && e !in funcs0
    requires forall c :: c in pending ==> c in pending0 || IsCode(img, c)
    ensures funcs.Keys + pending <= seeds + Covered(img.sections)
    ensures Unseen(img, seeds, funcs) < Unseen(img, seeds, funcs0)
  {
    forall c | c in pending && c !in pending0
      ensures c in Covered(img.sections)
    {
      SectionCovers(img.sections, c);
    }
    Shrinks(seeds + Covered(img.sections), funcs0.Keys, funcs.Keys);
  }

  lemma NotedNothing(img: Image, f: Function, owner: map<nat, nat>, refs: map<nat, set<nat>>, ranges: seq<(nat, nat)>)
    requires f.insns == {} && f.tables == map[]
    ensures Noted(img, f, owner, refs, owner, refs, ranges)
  {
  }
}