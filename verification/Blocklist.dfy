/** The addresses the coverage mode may arm (tools/blocklist.py). */
module Blocklist {
  import opened Wrappers
  import opened DisasmWalk
  import ControlFlow
  import Coverage
  import Disasm

  /** Where a block of `f` may start: the blocks found, every jump-table target, and
      what follows a call or a conditional jump. */
  ghost function Starts(insns: map<nat, Insn>, f: Function): set<nat>
  {
    f.blocks + TableStarts(f, f.tables.Keys) + After(insns, f.insns)
  }

  ghost function TableStarts(f: Function, at: set<nat>): set<nat>
  {
    set a, t | a in at && a in f.tables && t in f.tables[a].1 :: t
  }

  ghost function After(insns: map<nat, Insn>, at: set<nat>): set<nat>
  {
    set a | a in at && a in insns && insns[a].mnem in {Jcc, Call} :: insns[a].End()
  }

  predicate InRanges(ranges: seq<(nat, nat)>, b: nat)
  {
    exists i :: 0 <= i < |ranges| && ranges[i].0 <= b < ranges[i].1
  }

  /** A decoded, owned instruction that no jump or index table covers. */
  predicate Eligible(insns: map<nat, Insn>, owner: map<nat, nat>, ranges: seq<(nat, nat)>, b: nat)
  {
    b in insns && !InRanges(ranges, b) && b in owner
  }

  lemma Least(s: set<nat>) returns (m: nat)
    requires s != {}
    ensures m in s && forall x :: x in s ==> m <= x
  {
    var x :| x in s;
    if s == {x} {
      m := x;
    } else {
      var rest := s - {x};
      m := Least(rest);
      assert s == rest + {x};
      if x < m {
        m := x;
      }
    }
  }

  /** `e` is the first function, by entry, among `done` that has a block at `b`. */
  ghost predicate FirstWith(an: Disasm.Analysis, done: set<nat>, b: nat, e: nat)
    reads an
  {
    && e in Holding(an, done, b)
    && forall d :: d in Holding(an, done, b) ==> e <= d
  }

  ghost function Holding(an: Disasm.Analysis, done: set<nat>, b: nat): set<nat>
    reads an
  {
    set d | d in done && d in an.funcs && b in Starts(an.insns, an.funcs[d])
  }

  predicate MayArm(an: Disasm.Analysis, b: nat)
    reads an
  {
    Eligible(an.insns, an.owner, an.jumptableRanges + an.indextableRanges, b)
  }

  predicate DistinctRows(rows: seq<(nat, nat)>)
  {
    forall i, j :: 0 <= i < j < |rows| ==> rows[i].0 != rows[j].0
  }

  ghost function Listed(rows: seq<(nat, nat)>): set<nat>
  {
    set i | 0 <= i < |rows| :: rows[i].0
  }

  lemma ListedSnoc(rows: seq<(nat, nat)>, b: nat, e: nat)
    ensures Listed(rows + [(b, e)]) == Listed(rows) + {b}
  {
    var more := rows + [(b, e)];
    assert more[|rows|].0 == b;
    forall x | x in Listed(rows)
      ensures x in Listed(more)
    {
      var i :| 0 <= i < |rows| && rows[i].0 == x;
      assert more[i].0 == x;
    }
  }

  lemma DistinctSnoc(rows: seq<(nat, nat)>, b: nat, e: nat)
    requires DistinctRows(rows) && b !in Listed(rows)
    ensures DistinctRows(rows + [(b, e)])
  {
  }

  /** Every eligible block start of a function in `done` has exactly one row, under
      the first function it belongs to, and nothing else has. */
  ghost predicate RowsFor(an: Disasm.Analysis, done: set<nat>, rows: seq<(nat, nat)>)
    reads an
  {
    && DistinctRows(rows)
    && (forall i :: 0 <= i < |rows| ==> RowFor(an, done, rows[i]))
    && (forall b :: HasRow(an, done, rows, b))
  }

  ghost predicate RowFor(an: Disasm.Analysis, done: set<nat>, row: (nat, nat))
    reads an
  {
    MayArm(an, row.0) && FirstWith(an, done, row.0, row.1)
  }

  ghost predicate HasRow(an: Disasm.Analysis, done: set<nat>, rows: seq<(nat, nat)>, b: nat)
    reads an
  {
    MayArm(an, b) && Holding(an, done, b) != {} ==> b in Listed(rows)
  }

  ghost predicate Below(s: set<nat>, t: set<nat>)
  {
    forall d, e :: d in s && e in t ==> d < e
  }

  lemma BelowStep(s: set<nat>, t: set<nat>, m: nat)
    requires Below(s, t) && m in t && forall x :: x in t ==> m <= x
    ensures Below(s + {m}, t - {m}) && forall d :: d in s ==> d < m
  {
  }

  /** Rows made for earlier functions stand when a later one is taken up. */
  lemma FirstStays(an: Disasm.Analysis, done: set<nat>, entry: nat, b: nat, e: nat)
    requires FirstWith(an, done, b, e) && forall d :: d in done ==> d < entry
    ensures FirstWith(an, done + {entry}, b, e)
  {
    assert Holding(an, done, b) <= Holding(an, done + {entry}, b) <= Holding(an, done, b) + {entry};
  }

  lemma FirstHere(an: Disasm.Analysis, done: set<nat>, entry: nat, b: nat)
    requires Holding(an, done, b) == {} && entry in an.funcs && b in Starts(an.insns, an.funcs[entry])
    ensures FirstWith(an, done + {entry}, b, entry)
  {
    assert Holding(an, done + {entry}, b) == Holding(an, done, b) + {entry};
  }

  method Rows(an: Disasm.Analysis) returns (rows: seq<(nat, nat)>)
    requires an.Valid()
    ensures RowsFor(an, an.funcs.Keys, rows)
  {
    rows := [];
    var seen: set<nat> := {};
    var todo := an.funcs.Keys;
    ghost var done: set<nat> := {};
    while todo != {}
      invariant todo <= an.funcs.Keys && done == an.funcs.Keys - todo
      invariant Below(done, todo)
      invariant RowsFor(an, done, rows) && seen == Listed(rows)
      decreases |todo|
    {
      ghost var first := Least(todo);
      var entry :| entry in todo && forall e :: e in todo ==> entry <= e;
      BelowStep(done, todo, entry);
      rows, seen := FunctionRows(an, entry, rows, seen, done);
      todo := todo - {entry};
      done := done + {entry};
      assert done == an.funcs.Keys - todo;
    }
    assert done == an.funcs.Keys;
  }

  /** The rows from the `n`-th on are of function `entry`, at its starts, and may be armed. */
  ghost predicate NewRows(an: Disasm.Analysis, entry: nat, all: set<nat>, seen: set<nat>, rows: seq<(nat, nat)>, n: nat)
    reads an
  {
    forall i :: n <= i < |rows| ==>
      rows[i].1 == entry && rows[i].0 in all && rows[i].0 !in seen && MayArm(an, rows[i].0)
  }

  lemma NewRowsSnoc(an: Disasm.Analysis, entry: nat, all: set<nat>, seen: set<nat>, rows: seq<(nat, nat)>, n: nat,
                    b: nat)
    requires NewRows(an, entry, all, seen, rows, n) && b in all && b !in seen && MayArm(an, b) && n <= |rows|
    ensures NewRows(an, entry, all, seen, rows + [(b, entry)], n)
  {
    hide MayArm;
  }

  /** The rows of one function: its starts in order, skipping those already listed
      and those that may not be armed. */
  method FunctionRows(an: Disasm.Analysis, entry: nat, rows: seq<(nat, nat)>, seen: set<nat>, ghost done: set<nat>)
    returns (rows': seq<(nat, nat)>, seen': set<nat>)
    requires entry in an.funcs && an.funcs[entry].insns <= an.insns.Keys
    requires RowsFor(an, done, rows) && seen == Listed(rows) && forall d :: d in done ==> d < entry
    ensures RowsFor(an, done + {entry}, rows') && seen' == Listed(rows')
  {
    assert DistinctRows(rows);
    assert NewRows(an, entry, Starts(an.insns, an.funcs[entry]), seen, rows, |rows|);
    hide MayArm, RowsFor, NewRows, Starts, DistinctRows, Listed;
    var starts := StartsOf(an.insns, an.funcs[entry]);
    ghost var all := starts;
    rows', seen' := rows, seen;
    while starts != {}
      invariant starts <= all && DistinctRows(rows') && seen' == Listed(rows') && rows <= rows'
      invariant NewRows(an, entry, all, seen, rows', |rows|)
      invariant forall b :: b in all - starts && MayArm(an, b) ==> b in seen'
      decreases |starts|
    {
      ghost var first := Least(starts);
      var b :| b in starts && forall x :: x in starts ==> b <= x;
      starts := starts - {b};
      if b !in seen' && MayArm(an, b) {
        ListedSnoc(rows', b, entry);
        DistinctSnoc(rows', b, entry);
        NewRowsSnoc(an, entry, all, seen, rows', |rows|, b);
        rows', seen' := rows' + [(b, entry)], seen' + {b};
      }
    }
    RowsExtend(an, entry, rows, done, rows');
  }

  lemma RowsExtend(an: Disasm.Analysis, entry: nat, rows: seq<(nat, nat)>, done: set<nat>, rows': seq<(nat, nat)>)
    requires entry in an.funcs && RowsFor(an, done, rows) && forall d :: d in done ==> d < entry
    requires DistinctRows(rows') && rows <= rows'
    requires NewRows(an, entry, Starts(an.insns, an.funcs[entry]), Listed(rows), rows', |rows|)
    requires forall b :: b in Starts(an.insns, an.funcs[entry]) && MayArm(an, b) ==> b in Listed(rows')
    ensures RowsFor(an, done + {entry}, rows')
  {
    forall i | 0 <= i < |rows'|
      ensures RowFor(an, done + {entry}, rows'[i])
    {
      if i < |rows| {
        assert rows'[i] == rows[i] && RowFor(an, done, rows[i]);
        FirstStays(an, done, entry, rows[i].0, rows[i].1);
      } else {
        assert HasRow(an, done, rows, rows'[i].0);
        FirstHere(an, done, entry, rows'[i].0);
      }
    }
    var now := done + {entry};
    forall b
      ensures HasRow(an, now, rows', b)
    {
      if MayArm(an, b) && Holding(an, now, b) != {} {
        var d :| d in Holding(an, now, b);
        if d != entry {
          assert d in Holding(an, done, b) && HasRow(an, done, rows, b);
          var i :| 0 <= i < |rows| && rows[i].0 == b;
          assert rows'[i].0 == b;
        }
      }
    }
  }

  method StartsOf(insns: map<nat, Insn>, f: Function) returns (starts: set<nat>)
    requires f.insns <= insns.Keys
    ensures starts == Starts(insns, f)
    ensures forall t :: t in starts <==>
              || t in f.blocks || (exists a :: a in f.tables && t in f.tables[a].1)
              || (exists a :: a in f.insns && insns[a].mnem in {Jcc, Call} && t == insns[a].addr + insns[a].size)
  {
    starts := f.blocks;
    starts := AddTables(f, starts);
    starts := AddAfter(insns, f.insns, starts);
  }

  method AddTables(f: Function, starts: set<nat>) returns (starts': set<nat>)
    ensures starts' == starts + TableStarts(f, f.tables.Keys)
  {
    starts' := starts;
    var keys := f.tables.Keys;
    while keys != {}
      invariant keys <= f.tables.Keys
      invariant starts' + TableStarts(f, keys) == starts + TableStarts(f, f.tables.Keys)
      decreases |keys|
    {
      var k :| k in keys;
      TableStartsTake(f, keys, k);
      keys := keys - {k};
      starts' := starts' + set t | t in f.tables[k].1;
    }
  }

  method AddAfter(insns: map<nat, Insn>, at: set<nat>, starts: set<nat>) returns (starts': set<nat>)
    requires at <= insns.Keys
    ensures starts' == starts + After(insns, at)
  {
    starts' := starts;
    var rest := at;
    while rest != {}
      invariant rest <= at && starts' + After(insns, rest) == starts + After(insns, at)
      decreases |rest|
    {
      var a :| a in rest;
      AfterTake(insns, rest, a);
      rest := rest - {a};
      if insns[a].mnem in {Jcc, Call} {
        starts' := starts' + {insns[a].End()};
      }
    }
  }

  lemma TableStartsTake(f: Function, at: set<nat>, k: nat)
    requires k in at && k in f.tables
    ensures TableStarts(f, at) == TableStarts(f, at - {k}) + set t | t in f.tables[k].1
  {
  }

  lemma AfterTake(insns: map<nat, Insn>, at: set<nat>, a: nat)
    requires a in at && a in insns
    ensures After(insns, at) ==
            After(insns, at - {a}) + if insns[a].mnem in {Jcc, Call} then {insns[a].End()} else {}
  {
    forall t | t in After(insns, at)
      ensures t in After(insns, at - {a}) || (insns[a].mnem in {Jcc, Call} && t == insns[a].End())
    {
      var x :| x in at && x in insns && insns[x].mnem in {Jcc, Call} && insns[x].End() == t;
      assert x == a || x in at - {a};
    }
    forall t | t in After(insns, at - {a})
      ensures t in After(insns, at)
    {
      var x :| x in at - {a} && x in insns && insns[x].mnem in {Jcc, Call} && insns[x].End() == t;
      assert x in at;
    }
  }

  // ---- what the list is for -----------------------------------------------------------

  /** The only step that begins no block: running on after an instruction that is neither
      a call nor a jump. */
  predicate RunsOn(ins: Insn)
  {
    ins.mnem !in {Call, Jmp, Jcc}
  }

  /** Some row lists `b`. */
  predicate IsListed(rows: seq<(nat, nat)>, b: nat)
  {
    exists i :: 0 <= i < |rows| && rows[i].0 == b
  }

  /** Wherever control can turn to, out of an analysed function, has a row if an
      instruction is there at all and no table covers it; and so has every function. */
  ghost predicate TurnsListed(an: Disasm.Analysis, rows: seq<(nat, nat)>)
    reads an
  {
    && (forall a, b :: ControlFlow.Passes(an.img, an.funcs, a, b) && !RunsOn(Got(an.img, a)) && MayStand(an, b) ==>
          IsListed(rows, b))
    && (forall e :: e in an.funcs && MayStand(an, e) ==> IsListed(rows, e))
  }

  predicate MayStand(an: Disasm.Analysis, b: nat)
    reads an
  {
    && At(an.img, b).Some?
    && !InRanges(an.jumptableRanges, b) && !InRanges(an.indextableRanges, b)
  }

  /** A place found that no table covers may be armed. */
  lemma FoundMayArm(an: Disasm.Analysis, b: nat)
    requires an.Valid() && Disasm.Owned(an.funcs, an.owner) && ControlFlow.Found(an.funcs, b) && MayStand(an, b)
    ensures MayArm(an, b)
  {
    assert Disasm.OwnedAt(an.funcs, an.owner, b);
  }

  lemma HeldListed(an: Disasm.Analysis, rows: seq<(nat, nat)>, e: nat, b: nat)
    requires an.Valid() && RowsFor(an, an.funcs.Keys, rows) && MayArm(an, b)
    requires e in an.funcs && b in Starts(an.insns, an.funcs[e])
    ensures IsListed(rows, b)
  {
    hide MayArm, Starts;
    assert HasRow(an, an.funcs.Keys, rows, b) && e in Holding(an, an.funcs.Keys, b);
  }

  /** Where a call or jump goes is a start of its function, or the entry of another. */
  lemma TurnStarts(an: Disasm.Analysis, es: set<nat>, f: Function, a: nat, b: nat)
    requires an.Valid() && f.insns <= an.insns.Keys && Explored(an.img, {}, es, f) && Disasm.TablesRight(an.img, f)
    requires ControlFlow.PassesIn(an.img, f, a, b) && !RunsOn(Got(an.img, a))
    ensures b in Starts(an.insns, f) || b in es || b in f.calls
  {
    hide Disasm.TablesRight;
    ControlFlow.Followed(an.img, es, f, a, b);
    if Got(an.img, a).mnem == Jmp && !ControlFlow.Names(Got(an.img, a), b) {
      ControlFlow.TableFollowed(an.img, es, f, a, b);
    }
  }

  /** So the list misses no place where control can turn to. */
  lemma AllTurnsListed(an: Disasm.Analysis, entries: set<nat>, rows: seq<(nat, nat)>)
    requires an.Valid() && Disasm.Analysed(an.img, an.funcs, entries, {}) && Disasm.Owned(an.funcs, an.owner)
    requires RowsFor(an, an.funcs.Keys, rows)
    ensures TurnsListed(an, rows)
  {
    hide Disasm.Owned, RowsFor, MayStand, MayArm, Starts, IsListed, RunsOn;
    forall e | e in an.funcs && MayStand(an, e)
      ensures IsListed(rows, e)
    {
      EntryListed(an, entries, rows, e);
    }
    forall a, b | ControlFlow.Passes(an.img, an.funcs, a, b) && !RunsOn(Got(an.img, a)) && MayStand(an, b)
      ensures IsListed(rows, b)
    {
      TurnListed(an, entries, rows, a, b);
    }
  }

  lemma EntryListed(an: Disasm.Analysis, entries: set<nat>, rows: seq<(nat, nat)>, e: nat)
    requires an.Valid() && Disasm.Analysed(an.img, an.funcs, entries, {}) && Disasm.Owned(an.funcs, an.owner)
    requires RowsFor(an, an.funcs.Keys, rows) && e in an.funcs && MayStand(an, e)
    ensures IsListed(rows, e)
  {
    hide Disasm.Owned, RowsFor, MayArm;
    assert Disasm.ExploredAt(an.img, entries, e, an.funcs[e]);
    var es :| es <= entries && Explored(an.img, {}, es, an.funcs[e]);
    ControlFlow.StartFound(an.img, es, an.funcs[e]);
    FoundMayArm(an, e);
    HeldListed(an, rows, e, e);
  }

  lemma TurnListed(an: Disasm.Analysis, entries: set<nat>, rows: seq<(nat, nat)>, a: nat, b: nat)
    requires an.Valid() && Disasm.Analysed(an.img, an.funcs, entries, {}) && Disasm.Owned(an.funcs, an.owner)
    requires RowsFor(an, an.funcs.Keys, rows) && MayStand(an, b)
    requires ControlFlow.Passes(an.img, an.funcs, a, b) && !RunsOn(Got(an.img, a))
    ensures IsListed(rows, b)
  {
    hide Disasm.Owned, Disasm.TablesRight, RowsFor, MayArm, Starts, Explored, ControlFlow.PassesIn, RunsOn;
    var e :| e in an.funcs && ControlFlow.PassesIn(an.img, an.funcs[e], a, b);
    var f := an.funcs[e];
    assert Disasm.ExploredAt(an.img, entries, e, f) && Disasm.CalleesIn(an.img, f, an.funcs.Keys + {});
    var es :| es <= entries && Explored(an.img, {}, es, f);
    TurnStarts(an, es, f, a, b);
    if b in Starts(an.insns, f) {
      ControlFlow.AllFound(an.img, an.funcs, entries, a, b);
      FoundMayArm(an, b);
      HeldListed(an, rows, e, b);
    } else {
      EntryListed(an, entries, rows, b);
    }
  }

  /** `b` begins a block of function `e`: it starts there, one of its calls or jumps goes
      there, or it comes after one of them that could go on. */
  ghost predicate BeginsBlock(an: Disasm.Analysis, e: nat, b: nat)
    reads an
  {
    e in an.funcs && (b == e || exists a :: TurnsTo(an.img, an.funcs[e], a, b))
  }

  ghost predicate TurnsTo(img: Image, f: Function, a: nat, b: nat)
  {
    && a in f.insns && !RunsOn(Got(img, a))
    && (ControlFlow.GoesTo(img, Got(img, a), ControlFlow.TableAt(f, a), b)
        || (Got(img, a).mnem != Jmp && b == Got(img, a).addr + Got(img, a).size))
  }

  lemma JumpTurns(img: Image, es: set<nat>, f: Function, a: nat, b: nat)
    requires a in f.insns && b in WalkOf(img, {}, es, f).Jumps(Got(img, a)) && ValidImage(img)
    ensures TurnsTo(img, f, a, b)
  {
  }

  lemma TableTurns(img: Image, f: Function, a: nat, b: nat)
    requires Disasm.TablesRight(img, f) && a in f.tables && b in f.tables[a].1
    ensures TurnsTo(img, f, a, b)
  {
    hide Disasm.TableRight, Disasm.HasTable;
    assert Disasm.IndirectJump(img, Got(img, a));
  }

  lemma AfterTurns(an: Disasm.Analysis, f: Function, a: nat, b: nat)
    requires an.Valid() && a in f.insns && a in an.insns && an.insns[a].mnem in {Jcc, Call} && an.insns[a].End() == b
    ensures TurnsTo(an.img, f, a, b)
  {
  }

  lemma StartBegins(an: Disasm.Analysis, es: set<nat>, f: Function, b: nat)
    requires an.Valid() && Explored(an.img, {}, es, f) && Disasm.TablesRight(an.img, f)
    requires b in Starts(an.insns, f)
    ensures b == f.entry || exists a :: TurnsTo(an.img, f, a, b)
  {
    hide Disasm.TablesRight, TurnsTo;
    if b in TableStarts(f, f.tables.Keys) {
      var x :| x in f.tables && b in f.tables[x].1;
      TableTurns(an.img, f, x, b);
    } else if b in After(an.insns, f.insns) {
      var x :| x in f.insns && x in an.insns && an.insns[x].mnem in {Jcc, Call} && an.insns[x].End() == b;
      AfterTurns(an, f, x, b);
    } else if b != f.entry {
      var x :| x in f.insns && b in WalkOf(an.img, {}, es, f).Jumps(Got(an.img, x));
      JumpTurns(an.img, es, f, x, b);
    }
  }

  /** A row lists an instruction no table covers, under a function it begins a block of,
      and no function before that one has it among its blocks. */
  ghost predicate RowRight(an: Disasm.Analysis, b: nat, e: nat)
    reads an
  {
    && MayStand(an, b) && BeginsBlock(an, e, b)
    && forall d :: d in an.funcs && b in an.funcs[d].blocks ==> e <= d
  }

  lemma MayArmStands(an: Disasm.Analysis, b: nat)
    requires an.Valid() && MayArm(an, b)
    ensures MayStand(an, b)
  {
    var both := an.jumptableRanges + an.indextableRanges;
    forall i | 0 <= i < |an.jumptableRanges|
      ensures both[i] == an.jumptableRanges[i]
    {
    }
    forall i | 0 <= i < |an.indextableRanges|
      ensures both[|an.jumptableRanges| + i] == an.indextableRanges[i]
    {
    }
  }

  lemma FirstOfBlocks(an: Disasm.Analysis, b: nat, e: nat)
    requires FirstWith(an, an.funcs.Keys, b, e)
    ensures forall d :: d in an.funcs && b in an.funcs[d].blocks ==> e <= d
  {
    forall d | d in an.funcs && b in an.funcs[d].blocks
      ensures e <= d
    {
      assert d in Holding(an, an.funcs.Keys, b);
    }
  }

  /** And it lists nothing else. */
  lemma OnlyBlocksListed(an: Disasm.Analysis, entries: set<nat>, rows: seq<(nat, nat)>)
    requires an.Valid() && Disasm.Analysed(an.img, an.funcs, entries, {}) && RowsFor(an, an.funcs.Keys, rows)
    ensures forall i :: 0 <= i < |rows| ==> RowRight(an, rows[i].0, rows[i].1)
  {
    hide Disasm.TablesRight, TurnsTo, Explored, MayArm, Starts, MayStand;
    forall i | 0 <= i < |rows|
      ensures RowRight(an, rows[i].0, rows[i].1)
    {
      MayArmStands(an, rows[i].0);
      FirstOfBlocks(an, rows[i].0, rows[i].1);
      assert RowFor(an, an.funcs.Keys, rows[i]);
      var e := rows[i].1;
      assert Disasm.ExploredAt(an.img, entries, e, an.funcs[e]);
      var es :| es <= entries && Explored(an.img, {}, es, an.funcs[e]);
      StartBegins(an, es, an.funcs[e], rows[i].0);
    }
  }

  // ---- from the list to the breakpoints -----------------------------------------

  /** The coverage mode's blocks are the rows, in some order. */
  ghost predicate LoadedFrom(rows: seq<(nat, nat)>, bs: seq<Coverage.Block>)
  {
    multiset(rows) == multiset(seq(|bs|, i requires 0 <= i < |bs| => (bs[i].va, bs[i].func)))
  }

  /** So no address is armed twice, which is what makes arming undoable. */
  lemma LoadedDistinct(rows: seq<(nat, nat)>, bs: seq<Coverage.Block>)
    requires DistinctRows(rows) && LoadedFrom(rows, bs)
    ensures Coverage.Distinct(bs)
  {
    var ps := seq(|bs|, i requires 0 <= i < |bs| => (bs[i].va, bs[i].func));
    forall i, j | 0 <= i < j < |bs|
      ensures bs[i].va != bs[j].va
    {
      if bs[i].va == bs[j].va {
        assert ps[i] in multiset(ps) && ps[j] in multiset(ps);
        var x :| 0 <= x < |rows| && rows[x] == ps[i];
        var y :| 0 <= y < |rows| && rows[y] == ps[j];
        assert x == y;
        CountedTwice(ps, i, j);
        CountedOnce(rows, x);
      }
    }
  }

  lemma CountedTwice(s: seq<(nat, nat)>, i: nat, j: nat)
    requires i < j < |s| && s[i] == s[j]
    ensures multiset(s)[s[i]] >= 2
  {
    assert s == s[..j] + [s[j]] + s[j + 1..];
    assert s[i] in s[..j];
  }

  lemma CountedOnce(s: seq<(nat, nat)>, i: nat)
    requires i < |s| && DistinctRows(s)
    ensures multiset(s)[s[i]] == 1
  {
    assert s == s[..i] + [s[i]] + s[i + 1..];
    assert s[i] !in s[..i] && s[i] !in s[i + 1..];
  }

  /** Every block address is where an instruction of an analysed function starts. */
  ghost predicate AtInsns(an: Disasm.Analysis, bs: seq<Coverage.Block>)
    reads an
  {
    forall i :: 0 <= i < |bs| ==> AtInsn(an, bs[i].va)
  }

  ghost predicate AtInsn(an: Disasm.Analysis, va: nat)
    reads an
  {
    At(an.img, va).Some? && exists e :: e in an.funcs && va in an.funcs[e].insns
  }

  lemma LoadedAtInsns(an: Disasm.Analysis, rows: seq<(nat, nat)>, bs: seq<Coverage.Block>)
    requires an.Valid() && Disasm.Owned(an.funcs, an.owner)
    requires RowsFor(an, an.funcs.Keys, rows) && LoadedFrom(rows, bs)
    ensures AtInsns(an, bs)
  {
    var ps := seq(|bs|, i requires 0 <= i < |bs| => (bs[i].va, bs[i].func));
    forall i | 0 <= i < |bs|
      ensures AtInsn(an, bs[i].va)
    {
      assert ps[i] in multiset(ps);
      var x :| 0 <= x < |rows| && rows[x] == ps[i];
      assert RowFor(an, an.funcs.Keys, rows[x]);
      assert Disasm.OwnedAt(an.funcs, an.owner, bs[i].va);
    }
  }

  /** From an image to the breakpoints: whatever the analysis finds, the list misses no
      place control can turn to, the blocks loaded from it are at instructions of the
      functions, and planting and lifting them leaves every memory as it was. */
  method BlockList(img: Image, extraSeeds: set<nat>) returns (an: Disasm.Analysis, rows: seq<(nat, nat)>)
    requires ValidImage(img)
    ensures fresh(an) && an.img == img && an.Valid() && RowsFor(an, an.funcs.Keys, rows)
    ensures {img.entry} + img.exports + extraSeeds <= an.funcs.Keys && TurnsListed(an, rows)
    ensures forall i :: 0 <= i < |rows| ==> RowRight(an, rows[i].0, rows[i].1)
    ensures forall bs :: LoadedFrom(rows, bs) ==> AtInsns(an, bs) && Coverage.Distinct(bs)
    ensures forall bs, mem :: LoadedFrom(rows, bs) && Coverage.Fresh(bs) && Coverage.InRange(mem, bs) ==>
              Coverage.RoundTrip(mem, bs) == mem
  {
    an := new Disasm.Analysis(img);
    ghost var entries := an.Run(extraSeeds);
    rows := Rows(an);
    AllTurnsListed(an, entries, rows);
    OnlyBlocksListed(an, entries, rows);
    hide TurnsListed, RowRight, RowsFor, Disasm.Owned, Disasm.Analysed;
    forall bs | LoadedFrom(rows, bs)
      ensures AtInsns(an, bs) && Coverage.Distinct(bs)
    {
      LoadedAtInsns(an, rows, bs);
      LoadedDistinct(rows, bs);
    }
    forall bs, mem | LoadedFrom(rows, bs) && Coverage.Fresh(bs) && Coverage.InRange(mem, bs)
      ensures Coverage.RoundTrip(mem, bs) == mem
    {
      Coverage.ArmDisarmRestoresIff(mem, bs);
    }
  }
}
