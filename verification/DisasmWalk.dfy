/** What the recursive-descent disassembler (tools/disasm.py) computes: the
    edges of its walk, reachability along them, and the invariant of the walk. */
module DisasmWalk {
  // Instruction decoding is a parameter of the image: a partial function from
  // addresses to instructions.  Everything the walk decides from an instruction
  // (does it end the block, what does it jump to, which code pointers does it
  // hold, where is its jump table) is computed here from its operands.

  import opened Wrappers

  // ---- images and instructions -------------------------------------------------

  /** `base` and `index` say only whether the register is present. */
  datatype Operand =
    | Reg
    | Imm(value: nat)
    | Mem(base: bool, index: bool, scale: nat, disp: nat, size: nat)

  /** Ret covers ret, retf and iret; Jcc every other jump; Move mov and movzx;
      Trap int3 and hlt. */
  datatype Mnemonic = Call | Jmp | Jcc | Ret | Trap | Cmp | Move | Other

  datatype Insn = Insn(addr: nat, size: nat, mnem: Mnemonic, operands: seq<Operand>)
  {
    function End(): nat { addr + size }
  }

  datatype Section = Section(va: nat, end: nat, isCode: bool)

  datatype Image = Image(sections: seq<Section>, relocs: set<nat>, imports: map<nat, string>,
                         entry: nat, exports: set<nat>,
                         decode: nat -> Option<Insn>, u8: nat -> nat, u32: nat -> nat)

  const NORETURN_IMPORTS := {"KERNEL32!ExitProcess", "KERNEL32!ExitThread",
                             "KERNEL32!FatalAppExitA", "KERNEL32!RaiseException"}

  function SectionOf(secs: seq<Section>, va: nat): Option<Section>
  {
    if secs == [] then None
    else if secs[0].va <= va < secs[0].end then Some(secs[0])
    else SectionOf(secs[1..], va)
  }

  predicate IsCode(img: Image, va: nat)
  {
    var s := SectionOf(img.sections, va);
    s.Some? && s.value.isCode
  }

  /** What the decoder promises: an instruction sits where it was decoded, takes
      up room, and a jump has an operand. */
  ghost predicate ValidImage(img: Image)
  {
    forall a :: img.decode(a).Some? ==>
      var ins := img.decode(a).value;
      ins.addr == a && ins.size > 0 && (ins.mnem == Jmp || ins.mnem == Jcc ==> ins.operands != [])
  }

  /** The instruction at `a`, if it lies in code and decodes. */
  function At(img: Image, a: nat): Option<Insn>
  {
    if IsCode(img, a) then img.decode(a) else None
  }

  /** Every address some section covers. */
  ghost function Covered(secs: seq<Section>): set<nat>
  {
    if secs == [] then {}
    else Span(secs[0].va, secs[0].end) + Covered(secs[1..])
  }

  ghost function Span(lo: nat, hi: nat): (s: set<nat>)
    ensures forall a :: a in s <==> lo <= a < hi
    decreases hi - lo
  {
    if lo < hi then {lo} + Span(lo + 1, hi) else {}
  }

  lemma {:induction false} SectionCovers(secs: seq<Section>, va: nat)
    requires SectionOf(secs, va).Some?
    ensures va in Covered(secs)
  {
    if secs[0].va <= va < secs[0].end {
    } else {
      SectionCovers(secs[1..], va);
    }
  }

  // ---- what one instruction says ----------------------------------------------

  /** The addresses stored, with a relocation, inside the instruction's bytes. */
  ghost function Relocated(img: Image, ins: Insn): set<nat>
  {
    set va | ins.addr <= va < ins.End() && va in img.relocs :: img.u32(va)
  }

  /** Code pointers the instruction materialises: relocated immediates into code,
      other than the target of a call or jump. */
  ghost function CodeRefs(img: Image, ins: Insn): set<nat>
  {
    CodeRefsUpTo(img, ins, |ins.operands|)
  }

  ghost function CodeRefsUpTo(img: Image, ins: Insn, n: nat): set<nat>
    requires n <= |ins.operands|
  {
    if n == 0 then {}
    else CodeRefsUpTo(img, ins, n - 1) + if IsCodeRef(img, ins, n - 1) then {ins.operands[n - 1].value} else {}
  }

  ghost predicate IsCodeRef(img: Image, ins: Insn, i: nat)
    requires i < |ins.operands|
  {
    && ins.operands[i].Imm? && ins.operands[i].value in Relocated(img, ins)
    && IsCode(img, ins.operands[i].value) && ins.mnem !in {Call, Jmp, Jcc}
  }

  /** An operand naming an import slot directly. */
  predicate IsImport(img: Image, op: Operand)
  {
    op.Mem? && !op.base && !op.index && op.disp in img.imports
  }

  function CallTargets(ins: Insn): set<nat>
  {
    if ins.mnem == Call && ins.operands != [] && ins.operands[0].Imm? then {ins.operands[0].value} else {}
  }

  /** One exploration: what it was started with, and the jump tables it found. */
  datatype Walk = Walk(img: Image, noreturn: set<nat>, entries: set<nat>, entry: nat,
                       tables: map<nat, (nat, seq<nat>)>)
  {
    /** Another function starts at `t`. */
    predicate Cut(t: nat) { t in entries && t != entry }

    /** Where the instruction jumps within the function. */
    ghost function Jumps(ins: Insn): set<nat>
    {
      if ins.mnem == Jmp && ins.operands != [] then
        if ins.operands[0].Imm? then
          if Cut(ins.operands[0].value) then {} else {ins.operands[0].value}
        else if IsImport(img, ins.operands[0]) then {}
        else if ins.addr in tables then set t | t in tables[ins.addr].1
        else {}
      else if ins.mnem == Jcc && ins.operands != [] && ins.operands[0].Imm? then {ins.operands[0].value}
      else {}
    }

    function TailTargets(ins: Insn): set<nat>
    {
      if ins.mnem == Jmp && ins.operands != [] && ins.operands[0].Imm? && Cut(ins.operands[0].value)
      then {ins.operands[0].value} else {}
    }

    /** Execution can go on to the next instruction. */
    predicate FallsThrough(ins: Insn)
    {
      match ins.mnem
      case Ret => false
      case Jmp => false
      case Trap => false
      case Call =>
        ins.operands == [] ||
        (if ins.operands[0].Imm? then ins.operands[0].value !in noreturn
         else IsImport(img, ins.operands[0]) ==> img.imports[ins.operands[0].disp] !in NORETURN_IMPORTS)
      case _ => true
    }

    /** Jumps are always followed; falling through stops where another function
        starts. */
    ghost function Follow(ins: Insn): set<nat>
    {
      Jumps(ins) + if FallsThrough(ins) && !Cut(ins.End()) then {ins.End()} else {}
    }

    ghost predicate Edge(a: nat, b: nat)
    {
      At(img, a).Some? && b in Follow(At(img, a).value)
    }

    ghost predicate IsPath(p: seq<nat>)
    {
      && p != [] && p[0] == entry
      && forall i :: 0 <= i < |p| - 1 ==> Edge(p[i], p[i + 1])
    }

    ghost predicate Reaches(a: nat)
    {
      exists p :: IsPath(p) && p[|p| - 1] == a
    }
  }

  lemma ReachesEntry(w: Walk)
    ensures w.Reaches(w.entry)
  {
    assert w.IsPath([w.entry]);
  }

  lemma ReachesStep(w: Walk, a: nat, b: nat)
    requires w.Reaches(a) && w.Edge(a, b)
    ensures w.Reaches(b)
  {
    var p :| w.IsPath(p) && p[|p| - 1] == a;
    assert w.IsPath(p + [b]);
  }

  /** A set that holds the entry and is closed along the edges holds everything
      reachable. */
  lemma {:induction false} ClosedHoldsPath(w: Walk, s: set<nat>, p: seq<nat>)
    requires w.entry in s && forall a, b :: a in s && w.Edge(a, b) ==> b in s
    requires w.IsPath(p)
    ensures p[|p| - 1] in s
  {
    if |p| <= 1 {
    } else {
      var q := p[..|p| - 1];
      assert w.IsPath(q);
      ClosedHoldsPath(w, s, q);
      assert w.Edge(p[|p| - 2], p[|p| - 1]);
    }
  }

  /** Recording one more jump table only adds edges. */
  lemma ReachesGrows(w: Walk, v: Walk, a: nat)
    requires v == w.(tables := v.tables) && w.tables.Keys <= v.tables.Keys
    requires forall k :: k in w.tables ==> v.tables[k] == w.tables[k]
    requires w.Reaches(a)
    ensures v.Reaches(a)
  {
    var p :| w.IsPath(p) && p[|p| - 1] == a;
    forall i | 0 <= i < |p| - 1
      ensures v.Edge(p[i], p[i + 1])
    {
      assert w.Edge(p[i], p[i + 1]);
    }
    assert v.IsPath(p);
  }

  // ---- one function --------------------------------------------------------------

  datatype Function = Function(entry: nat, blocks: set<nat>, insns: set<nat>, calls: set<nat>,
                               tailcalls: set<nat>, imports: set<string>,
                               tables: map<nat, (nat, seq<nat>)>)

  ghost function WalkOf(img: Image, noreturn: set<nat>, entries: set<nat>, f: Function): Walk
  {
    Walk(img, noreturn, entries, f.entry, f.tables)
  }

  /** The instruction at `a`, which a function's instruction list is known to hold. */
  function Got(img: Image, a: nat): Insn
  {
    if At(img, a).Some? then At(img, a).value else Insn(a, 1, Other, [])
  }

  /** What an exploration finds: exactly the decodable addresses reachable from
      the entry, the blocks are the entry and everything jumped to, and the call
      lists are what those instructions call. */
  ghost predicate Explored(img: Image, noreturn: set<nat>, entries: set<nat>, f: Function)
  {
    var w := WalkOf(img, noreturn, entries, f);
    && (forall a :: a in f.insns <==> w.Reaches(a) && At(img, a).Some?)
    && (forall t :: t in f.blocks <==> t == f.entry || exists a :: a in f.insns && t in w.Jumps(Got(img, a)))
    && (forall t :: t in f.calls <==> exists a :: a in f.insns && t in CallTargets(Got(img, a)))
    && (forall t :: t in f.tailcalls <==> exists a :: a in f.insns && t in w.TailTargets(Got(img, a)))
    && f.tables.Keys <= f.insns
  }

  /** The state of a walk between two steps.  `late` is a block start taken off the
      worklist and not yet decoded, `next` an address fallen through to. */
  ghost predicate Walking(w: Walk, f: Function, todo: set<nat>, late: set<nat>, next: set<nat>)
  {
    && w == WalkOf(w.img, w.noreturn, w.entries, f)
    && f.tables.Keys <= f.insns
    && Sound(w, f, todo)
    && Closed(w, f, todo, late, next)
    && Recorded(w, f)
  }

  ghost predicate Sound(w: Walk, f: Function, todo: set<nat>)
  {
    && (forall a :: a in f.insns ==> At(w.img, a).Some? && w.Reaches(a))
    && (forall t :: t in f.blocks || t in todo ==>
          w.Reaches(t) && (t == w.entry || exists a :: a in f.insns && t in w.Jumps(Got(w.img, a))))
  }

  ghost predicate Closed(w: Walk, f: Function, todo: set<nat>, late: set<nat>, next: set<nat>)
  {
    && (w.entry in f.blocks || w.entry in todo)
    && (forall a, t :: a in f.insns && t in w.Jumps(Got(w.img, a)) ==> t in f.blocks || t in todo)
    && (forall t :: t in f.blocks && At(w.img, t).Some? ==> t in f.insns || t in late)
    && (forall a :: a in f.insns && w.FallsThrough(Got(w.img, a)) ==>
          var e := Got(w.img, a).End();
          !w.Cut(e) && At(w.img, e).Some? ==> e in f.insns || e in next)
  }

  ghost predicate Recorded(w: Walk, f: Function)
  {
    && (forall a :: a in f.insns ==>
          CallTargets(Got(w.img, a)) <= f.calls && w.TailTargets(Got(w.img, a)) <= f.tailcalls)
    && (forall t :: t in f.calls ==> exists a :: a in f.insns && t in CallTargets(Got(w.img, a)))
    && (forall t :: t in f.tailcalls ==> exists a :: a in f.insns && t in w.TailTargets(Got(w.img, a)))
  }

  /** What a walk has visited, jumped to or fallen through to. */
  ghost function Met(w: Walk, f: Function): set<nat>
  {
    f.insns + f.blocks
    + set a | a in f.insns && w.FallsThrough(Got(w.img, a)) && !w.Cut(Got(w.img, a).End()) :: Got(w.img, a).End()
  }

  /** When nothing is left to do that is closed along the edges. */
  lemma MetClosed(w: Walk, f: Function, a: nat, b: nat)
    requires Walking(w, f, {}, {}, {}) && a in Met(w, f) && w.Edge(a, b)
    ensures a in f.insns && b in Met(w, f)
  {
  }

  /** With an empty worklist and nothing pending the walk has found everything. */
  lemma WalkDone(w: Walk, f: Function)
    requires Walking(w, f, {}, {}, {})
    ensures Explored(w.img, w.noreturn, w.entries, f)
  {
    forall a | w.Reaches(a) && At(w.img, a).Some?
      ensures a in f.insns
    {
      var p :| w.IsPath(p) && p[|p| - 1] == a;
      forall x, y | x in Met(w, f) && w.Edge(x, y)
        ensures y in Met(w, f)
      {
        MetClosed(w, f, x, y);
      }
      ClosedHoldsPath(w, Met(w, f), p);
      MetDecoded(w, f, a);
    }
  }

  lemma MetDecoded(w: Walk, f: Function, a: nat)
    requires Walking(w, f, {}, {}, {}) && a in Met(w, f) && At(w.img, a).Some?
    ensures a in f.insns
  {
  }

  /** Taking a block start off the worklist leaves it pending... */
  lemma PopNew(w: Walk, f: Function, b: nat, rest: set<nat>)
    requires Walking(w, f, rest + {b}, {}, {})
    ensures Walking(w, f.(blocks := f.blocks + {b}), rest, {b}, {})
  {
    var g := f.(blocks := f.blocks + {b});
    assert forall t :: t in g.blocks || t in rest <==> t in f.blocks || t in rest + {b};
  }

  /** ...unless it has been decoded, or tried, before. */
  lemma PopSeen(w: Walk, f: Function, b: nat, rest: set<nat>)
    requires Walking(w, f, rest + {b}, {}, {}) && (b in f.insns || b in f.blocks)
    ensures Walking(w, f.(blocks := f.blocks + {b}), rest, {}, {})
  {
    PopNew(w, f, b, rest);
  }

  /** An address fallen through to that another function owns, or that has been
      visited, need not be followed. */
  lemma WalkingNothingNext(w: Walk, f: Function, todo: set<nat>, addr: nat)
    requires Walking(w, f, todo, {}, {addr}) && (w.Cut(addr) || addr in f.insns)
    ensures Walking(w, f, todo, {}, {})
  {
  }

  lemma WalkingUndecodable(w: Walk, f: Function, todo: set<nat>, late: set<nat>, next: set<nat>, addr: nat)
    requires Walking(w, f, todo, late, next) && late <= {addr} && next <= {addr} && At(w.img, addr).None?
    ensures Walking(w, f, todo, {}, {})
  {
  }

  /** What visiting one instruction does to the function and the worklist. */
  ghost predicate Visited(w: Walk, f: Function, todo: set<nat>, ins: Insn,
                          w': Walk, f': Function, todo': set<nat>)
  {
    && w' == w.(tables := f'.tables)
    && (f'.tables == f.tables
        || (ins.addr in f'.tables && f'.tables == f.tables[ins.addr := f'.tables[ins.addr]]))
    && f'.entry == f.entry && f'.blocks == f.blocks
    && f'.insns == f.insns + {ins.addr}
    && f'.calls == f.calls + CallTargets(ins)
    && f'.tailcalls == f.tailcalls + w.TailTargets(ins)
    && todo' == todo + w'.Jumps(ins)
  }

  lemma VisitKeeps(w: Walk, f: Function, todo: set<nat>, ins: Insn, late: set<nat>, next: set<nat>,
                   w': Walk, f': Function, todo': set<nat>)
    requires Walking(w, f, todo, late, next) && late <= {ins.addr} && next <= {ins.addr}
    requires At(w.img, ins.addr) == Some(ins) && ins.addr !in f.insns && w.Reaches(ins.addr)
    requires Visited(w, f, todo, ins, w', f', todo')
    requires ValidImage(w.img)
    ensures Walking(w', f', todo', {}, if w'.FallsThrough(ins) then {ins.End()} else {})
  {
    VisitSound(w, f, todo, ins, w', f', todo');
    VisitClosed(w, f, todo, ins, late, next, w', f', todo');
    VisitRecorded(w, f, ins, w', f');
  }

  lemma VisitStep(w: Walk, f: Function, todo: set<nat>, ins: Insn, late: set<nat>, next: set<nat>,
                  w': Walk, f': Function, todo': set<nat>)
    requires Walking(w, f, todo, late, next) && late <= {ins.addr} && next <= {ins.addr}
    requires At(w.img, ins.addr) == Some(ins) && ins.addr !in f.insns && w.Reaches(ins.addr)
    requires Visited(w, f, todo, ins, w', f', todo')
    requires ValidImage(w.img)
    ensures Walking(w', f', todo', {}, if w'.FallsThrough(ins) then {ins.End()} else {})
    ensures w'.FallsThrough(ins) && !w'.Cut(ins.End()) ==> w'.Reaches(ins.End())
  {
    VisitKeeps(w, f, todo, ins, late, next, w', f', todo');
    if w'.FallsThrough(ins) && !w'.Cut(ins.End()) {
      ReachesStep(w', ins.addr, ins.End());
    }
  }

  /** Instructions already visited jump where they did. */
  lemma JumpsKept(w: Walk, f: Function, ins: Insn, w': Walk, f': Function, a: nat)
    requires w == WalkOf(w.img, w.noreturn, w.entries, f) && w' == w.(tables := f'.tables)
    requires f'.tables == f.tables
          || (ins.addr in f'.tables && f'.tables == f.tables[ins.addr := f'.tables[ins.addr]])
    requires a != ins.addr && (At(w.img, a).Some? ==> At(w.img, a).value.addr == a)
    ensures w'.Jumps(Got(w.img, a)) == w.Jumps(Got(w.img, a))
  {
  }

  lemma VisitSound(w: Walk, f: Function, todo: set<nat>, ins: Insn, w': Walk, f': Function, todo': set<nat>)
    requires w == WalkOf(w.img, w.noreturn, w.entries, f) && f.tables.Keys <= f.insns && Sound(w, f, todo)
    requires At(w.img, ins.addr) == Some(ins) && ins.addr !in f.insns && w.Reaches(ins.addr)
    requires Visited(w, f, todo, ins, w', f', todo')
    requires ValidImage(w.img)
    ensures Sound(w', f', todo')
  {
    forall a | w.Reaches(a)
      ensures w'.Reaches(a)
    {
      ReachesGrows(w, w', a);
    }
    forall t | t in f'.blocks || t in todo'
      ensures w'.Reaches(t)
      ensures t == w'.entry || exists a :: a in f'.insns && t in w'.Jumps(Got(w.img, a))
    {
      if t in f.blocks || t in todo {
        if t != w.entry {
          var a :| a in f.insns && t in w.Jumps(Got(w.img, a));
          JumpsKept(w, f, ins, w', f', a);
        }
      } else {
        assert t in w'.Jumps(Got(w.img, ins.addr));
        ReachesStep(w', ins.addr, t);
      }
    }
  }

  lemma VisitClosed(w: Walk, f: Function, todo: set<nat>, ins: Insn, late: set<nat>, next: set<nat>,
                    w': Walk, f': Function, todo': set<nat>)
    requires w == WalkOf(w.img, w.noreturn, w.entries, f) && late <= {ins.addr} && next <= {ins.addr}
    requires Sound(w, f, todo) && Closed(w, f, todo, late, next)
    requires At(w.img, ins.addr) == Some(ins) && ins.addr !in f.insns
    requires Visited(w, f, todo, ins, w', f', todo')
    requires ValidImage(w.img)
    ensures Closed(w', f', todo', {}, if w'.FallsThrough(ins) then {ins.End()} else {})
  {
    forall a, t | a in f'.insns && t in w'.Jumps(Got(w.img, a))
      ensures t in f'.blocks || t in todo'
    {
      if a == ins.addr {
      } else {
        JumpsKept(w, f, ins, w', f', a);
      }
    }
  }

  lemma VisitRecorded(w: Walk, f: Function, ins: Insn, w': Walk, f': Function)
    requires w == WalkOf(w.img, w.noreturn, w.entries, f) && w' == w.(tables := f'.tables)
    requires At(w.img, ins.addr) == Some(ins)
    requires f'.insns == f.insns + {ins.addr}
    requires f'.calls == f.calls + CallTargets(ins) && f'.tailcalls == f.tailcalls + w.TailTargets(ins)
    requires Recorded(w, f)
    ensures Recorded(w', f')
  {
    assert Got(w.img, ins.addr) == ins;
    forall a
      ensures w'.TailTargets(Got(w.img, a)) == w.TailTargets(Got(w.img, a))
    {
    }
    forall t | t in f'.calls
      ensures exists a :: a in f'.insns && t in CallTargets(Got(w.img, a))
    {
      if t in f.calls {
        var a :| a in f.insns && t in CallTargets(Got(w.img, a));
        assert a in f'.insns;
      } else {
        assert ins.addr in f'.insns;
      }
    }
    forall t | t in f'.tailcalls
      ensures exists a :: a in f'.insns && t in w'.TailTargets(Got(w.img, a))
    {
      if t in f.tailcalls {
        var a :| a in f.insns && t in w.TailTargets(Got(w.img, a));
        assert a in f'.insns;
      } else {
        assert ins.addr in f'.insns;
      }
    }
  }
}
