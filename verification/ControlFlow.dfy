/** Where control can go from one instruction to the next, told from its operands alone,
    and that the analysis (tools/disasm.py) has found all of it. */
module ControlFlow {
  import opened Wrappers
  import opened DisasmWalk
  import Disasm

  /** A call of an import that never comes back. */
  predicate NeverReturns(img: Image, ins: Insn)
  {
    && ins.operands != [] && ins.operands[0].Mem? && !ins.operands[0].base && !ins.operands[0].index
    && ins.operands[0].disp in img.imports
    && img.imports[ins.operands[0].disp]
       in {"KERNEL32!ExitProcess", "KERNEL32!ExitThread", "KERNEL32!FatalAppExitA", "KERNEL32!RaiseException"}
  }

  /** The instruction names `b` as the place to go. */
  predicate Names(ins: Insn, b: nat)
  {
    ins.operands != [] && ins.operands[0] == Imm(b)
  }

  /** Control can pass from `ins` to `b`; `table` is what its jump table holds, if it has
      one.  A call comes back after itself. */
  predicate GoesTo(img: Image, ins: Insn, table: seq<nat>, b: nat)
  {
    match ins.mnem
    case Ret => false
    case Trap => false
    case Jmp => Names(ins, b) || b in table
    case Jcc => Names(ins, b) || b == ins.addr + ins.size
    case Call => Names(ins, b) || (b == ins.addr + ins.size && !NeverReturns(img, ins))
    case _ => b == ins.addr + ins.size
  }

  /** The words of the table recorded for the jump at `a`. */
  function TableAt(f: Function, a: nat): seq<nat>
  {
    if a in f.tables then f.tables[a].1 else []
  }

  /** Control can pass from `a`, in an analysed function, to `b`. */
  ghost predicate Passes(img: Image, funcs: map<nat, Function>, a: nat, b: nat)
  {
    exists e :: e in funcs && PassesIn(img, funcs[e], a, b)
  }

  ghost predicate PassesIn(img: Image, f: Function, a: nat, b: nat)
  {
    a in f.insns && GoesTo(img, Got(img, a), TableAt(f, a), b)
  }

  ghost predicate Found(funcs: map<nat, Function>, b: nat)
  {
    exists e :: e in funcs && b in funcs[e].insns
  }

  /** Where an instruction goes, its walk follows it, unless another function known then
      starts there. */
  lemma Followed(img: Image, es: set<nat>, f: Function, a: nat, b: nat)
    requires ValidImage(img) && Explored(img, {}, es, f) && PassesIn(img, f, a, b)
    ensures b in WalkOf(img, {}, es, f).Follow(Got(img, a)) || b in CallTargets(Got(img, a)) || b in es
          || (Got(img, a).mnem == Jmp && !Names(Got(img, a), b))
  {
  }

  lemma StartFound(img: Image, es: set<nat>, f: Function)
    requires Explored(img, {}, es, f) && At(img, f.entry).Some?
    ensures f.entry in f.insns
  {
    ReachesEntry(WalkOf(img, {}, es, f));
  }

  lemma StepFound(img: Image, es: set<nat>, f: Function, a: nat, b: nat)
    requires ValidImage(img) && Explored(img, {}, es, f) && a in f.insns && At(img, b).Some?
    requires b in WalkOf(img, {}, es, f).Follow(Got(img, a))
    ensures b in f.insns
  {
    ReachesStep(WalkOf(img, {}, es, f), a, b);
  }

  /** A recorded table belongs to a jump through memory. */
  lemma TableFollowed(img: Image, es: set<nat>, f: Function, a: nat, b: nat)
    requires ValidImage(img) && Explored(img, {}, es, f) && Disasm.TablesRight(img, f)
    requires a in f.insns && b in TableAt(f, a)
    ensures b in WalkOf(img, {}, es, f).Jumps(Got(img, a))
  {
    hide Disasm.TableRight, Disasm.HasTable;
    assert Disasm.IndirectJump(img, Got(img, a));
  }

  /** Wherever control can pass from code the analysis knows, if an instruction is there
      at all, the analysis knows it too. */
  lemma AllFound(img: Image, funcs: map<nat, Function>, entries: set<nat>, a: nat, b: nat)
    requires ValidImage(img) && Disasm.Analysed(img, funcs, entries, {})
    requires Passes(img, funcs, a, b) && At(img, b).Some?
    ensures Found(funcs, b)
  {
    hide Explored, Disasm.TablesRight, GoesTo;
    var e :| e in funcs && PassesIn(img, funcs[e], a, b);
    var f := funcs[e];
    assert Disasm.ExploredAt(img, entries, e, f) && Disasm.CalleesIn(img, f, funcs.Keys + {});
    var es :| es <= entries && Explored(img, {}, es, f);
    PassedOn(img, es, f, a, b);
    if b !in f.insns {
      assert b in funcs && Disasm.ExploredAt(img, entries, b, funcs[b]);
      var es' :| es' <= entries && Explored(img, {}, es', funcs[b]);
      StartFound(img, es', funcs[b]);
    }
  }

  lemma PassedOn(img: Image, es: set<nat>, f: Function, a: nat, b: nat)
    requires ValidImage(img) && Explored(img, {}, es, f) && Disasm.TablesRight(img, f)
    requires PassesIn(img, f, a, b) && At(img, b).Some?
    ensures b in f.insns || b in es || b in f.calls
  {
    hide Disasm.TablesRight;
    Followed(img, es, f, a, b);
    if b in WalkOf(img, {}, es, f).Follow(Got(img, a)) {
      StepFound(img, es, f, a, b);
    } else if Got(img, a).mnem == Jmp && !Names(Got(img, a), b) {
      TableFollowed(img, es, f, a, b);
      StepFound(img, es, f, a, b);
    }
  }

  lemma FollowGoes(img: Image, es: set<nat>, f: Function, a: nat, b: nat)
    requires ValidImage(img) && At(img, a).Some?
    requires b in WalkOf(img, {}, es, f).Follow(Got(img, a))
    ensures GoesTo(img, Got(img, a), TableAt(f, a), b)
  {
  }

  /** And it knows nothing else: control can pass to every instruction of a function, but
      the one it starts with, from another of its own. */
  lemma OnlyFollowed(img: Image, es: set<nat>, f: Function, b: nat)
    requires ValidImage(img) && Explored(img, {}, es, f) && b in f.insns && b != f.entry
    ensures exists a :: PassesIn(img, f, a, b)
  {
    hide GoesTo;
    var w := WalkOf(img, {}, es, f);
    var p :| w.IsPath(p) && p[|p| - 1] == b;
    var q := p[..|p| - 1];
    var a := q[|q| - 1];
    assert w.Edge(p[|p| - 2], p[|p| - 1]);
    assert w.IsPath(q) && w.Reaches(a);
    FollowGoes(img, es, f, a, b);
    assert PassesIn(img, f, a, b);
  }

  /** Both over a whole analysis: an instruction is known exactly when it starts a
      function or control can pass to it from one that is known. */
  lemma FoundIff(img: Image, funcs: map<nat, Function>, entries: set<nat>, b: nat)
    requires ValidImage(img) && Disasm.Analysed(img, funcs, entries, {}) && At(img, b).Some?
    ensures Found(funcs, b) <==> b in funcs || exists a :: Passes(img, funcs, a, b)
  {
    hide Explored, Disasm.TablesRight, GoesTo;
    if e :| e in funcs && b in funcs[e].insns {
      assert Disasm.ExploredAt(img, entries, e, funcs[e]);
      if b != e {
        var es :| es <= entries && Explored(img, {}, es, funcs[e]);
        OnlyFollowed(img, es, funcs[e], b);
        var a :| PassesIn(img, funcs[e], a, b);
        assert Passes(img, funcs, a, b);
      }
    } else if b in funcs {
      assert Disasm.ExploredAt(img, entries, b, funcs[b]);
      var es :| es <= entries && Explored(img, {}, es, funcs[b]);
      StartFound(img, es, funcs[b]);
    } else if a :| Passes(img, funcs, a, b) {
      AllFound(img, funcs, entries, a, b);
    }
  }

  /** A function's calls are the addresses its call instructions name, its tail calls those
      its jumps name where another known function starts, and its blocks begin at its entry
      and wherever else a jump of its own goes. */
  lemma ListsAre(img: Image, es: set<nat>, f: Function, t: nat)
    requires ValidImage(img) && Explored(img, {}, es, f) && Disasm.TablesRight(img, f)
    ensures t in f.calls <==> exists a :: a in f.insns && Got(img, a).mnem == Call && Names(Got(img, a), t)
    ensures t in f.tailcalls <==>
              t in es && t != f.entry && exists a :: a in f.insns && Got(img, a).mnem == Jmp && Names(Got(img, a), t)
    ensures t in f.blocks <==> t == f.entry || exists a :: a in f.insns && GoesByJump(img, es, f, a, t)
  {
    hide Disasm.TablesRight;
    forall a | a in f.insns
      ensures t in CallTargets(Got(img, a)) <==> Got(img, a).mnem == Call && Names(Got(img, a), t)
      ensures t in WalkOf(img, {}, es, f).TailTargets(Got(img, a)) <==>
                t in es && t != f.entry && Got(img, a).mnem == Jmp && Names(Got(img, a), t)
      ensures t in WalkOf(img, {}, es, f).Jumps(Got(img, a)) <==> GoesByJump(img, es, f, a, t)
    {
      JumpsAre(img, es, f, a, t);
    }
  }

  /** The jump at `a` names `t`, and either depends on a condition or does not leave for
      another known function; or `t` is in its table. */
  ghost predicate GoesByJump(img: Image, es: set<nat>, f: Function, a: nat, t: nat)
  {
    var ins := Got(img, a);
    || (ins.mnem == Jcc && Names(ins, t))
    || (ins.mnem == Jmp && Names(ins, t) && (t == f.entry || t !in es))
    || t in TableAt(f, a)
  }

  lemma JumpsAre(img: Image, es: set<nat>, f: Function, a: nat, t: nat)
    requires ValidImage(img) && Explored(img, {}, es, f) && Disasm.TablesRight(img, f) && a in f.insns
    ensures t in WalkOf(img, {}, es, f).Jumps(Got(img, a)) <==> GoesByJump(img, es, f, a, t)
  {
    hide Disasm.TableRight, Disasm.HasTable, Explored;
    TabledJump(img, f, a);
    assert Got(img, a).addr == a;
  }

  lemma TabledJump(img: Image, f: Function, a: nat)
    requires Disasm.TablesRight(img, f) && a in f.insns
    ensures a in f.tables ==> Disasm.IndirectJump(img, Got(img, a))
  {
    hide Disasm.TableRight, Disasm.HasTable;
  }
}
