/** Running a program under the coverage breakpoints (harness/coverage.c)
    against running it plainly, for every processor and every program. */
module TracedRun {
  // A processor is a pair of functions: the bytes an instruction reads and what
  // it then does.  The plain machine stops at a breakpoint of the program's own;
  // the traced machine first asks the handler.

  import opened Bytes
  import opened Coverage
  import opened Wrappers

  datatype Outcome<R> = Next(regs: R, writes: map<nat, byte>) | Stop

  /** `touched` covers the bytes fetched and the data read; `exec` sees no other. */
  datatype Isa<!R(!new)> = Isa(pc: R -> nat,
                               touched: (R, seq<byte>) -> set<nat>,
                               exec: (R, seq<byte>) -> Outcome<R>)

  datatype Plain<R> = Plain(regs: R, mem: seq<byte>)
  datatype Traced<R> = Traced(regs: R, mem: seq<byte>, blocks: seq<Block>, traps: nat)

  predicate AgreeOn(m: seq<byte>, n: seq<byte>, at: set<nat>)
  {
    |m| == |n| && forall a :: a in at && a < |m| ==> m[a] == n[a]
  }

  /** An instruction depends on the bytes it reads and on nothing else in memory. */
  ghost predicate Local<R(!new)>(isa: Isa<R>)
  {
    forall r, m, n :: LocalAt(isa, r, m, n)
  }

  ghost predicate LocalAt<R(!new)>(isa: Isa<R>, r: R, m: seq<byte>, n: seq<byte>)
  {
    AgreeOn(m, n, isa.touched(r, m)) ==>
      isa.touched(r, n) == isa.touched(r, m) && isa.exec(r, n) == isa.exec(r, m)
  }

  function Store(m: seq<byte>, w: map<nat, byte>): seq<byte>
  {
    seq(|m|, i requires 0 <= i < |m| => if i in w then w[i] else m[i])
  }

  function PlainStep<R(!new)>(isa: Isa<R>, c: Plain<R>): Option<Plain<R>>
  {
    var pc := isa.pc(c.regs);
    if pc >= |c.mem| || c.mem[pc] == INT3 then None
    else match isa.exec(c.regs, c.mem)
      case Stop => None
      case Next(r, w) => Some(Plain(r, Store(c.mem, w)))
  }

  /** A trap runs the handler and resumes at the same address; the registers are
      as they were. */
  ghost function TracedStep<R(!new)>(isa: Isa<R>, c: Traced<R>): Option<Traced<R>>
    requires InRange(c.mem, c.blocks)
  {
    var pc := isa.pc(c.regs);
    if pc >= |c.mem| then None
    else if c.mem[pc] == INT3 then
      match Handled(c.mem, c.blocks, pc)
      case None => None
      case Some(h) => Some(Traced(c.regs, h.0, h.1, c.traps + 1))
    else match isa.exec(c.regs, c.mem)
      case Stop => None
      case Next(r, w) => Some(Traced(r, Store(c.mem, w), c.blocks, c.traps))
  }

  function RunPlain<R(!new)>(isa: Isa<R>, c: Plain<R>, n: nat): Option<Plain<R>>
  {
    if n == 0 then Some(c)
    else match RunPlain(isa, c, n - 1)
      case None => None
      case Some(d) => PlainStep(isa, d)
  }

  ghost function RunTraced<R(!new)>(isa: Isa<R>, c: Traced<R>, n: nat): (r: Option<Traced<R>>)
    requires InRange(c.mem, c.blocks)
    ensures r.Some? ==> InRange(r.value.mem, r.value.blocks)
  {
    if n == 0 then Some(c)
    else match RunTraced(isa, c, n - 1)
      case None => None
      case Some(d) => TracedStep(isa, d)
  }

  /** Control is at `va` after some number of plain steps up to `j`. */
  ghost predicate Reached<R(!new)>(isa: Isa<R>, c: Plain<R>, j: nat, va: nat)
  {
    exists i: nat :: i <= j && RunPlain(isa, c, i).Some? && isa.pc(RunPlain(isa, c, i).value.regs) == va
  }

  /** The listed addresses control has not come to: their INT3s still stand. */
  ghost function Unreached<R(!new)>(isa: Isa<R>, c: Plain<R>, vas: set<nat>, j: nat): set<nat>
  {
    set va | va in vas && !Reached(isa, c, j, va)
  }

  /** Of the bytes away from the program, only those read that are INT3 anyway... */
  predicate ReadsClean(mem: seq<byte>, seen: set<nat>, away: set<nat>)
  {
    forall a :: a in seen && a in away && a < |mem| ==> mem[a] == INT3
  }

  /** ...and only those written that stay INT3. */
  predicate WritesClean(mem: seq<byte>, w: map<nat, byte>, away: set<nat>)
  {
    forall a :: a in w && a in away && a < |mem| ==> mem[a] == INT3 && w[a] == INT3
  }

  /** The instruction the program is about to execute, if any, leaves the bytes in
      `away` alone. */
  ghost predicate Clean<R(!new)>(isa: Isa<R>, away: set<nat>, c: Plain<R>)
  {
    isa.pc(c.regs) < |c.mem| && c.mem[isa.pc(c.regs)] != INT3 ==>
      && ReadsClean(c.mem, isa.touched(c.regs, c.mem), away)
      && match isa.exec(c.regs, c.mem)
         case Stop => true
         case Next(_, w) => WritesClean(c.mem, w, away)
  }

  /** No instruction reads or writes the planted byte of a block control has yet to
      come to; the blocks control has come to may be read and written freely. */
  ghost predicate CleanRun<R(!new)>(isa: Isa<R>, vas: set<nat>, c: Plain<R>)
  {
    forall n: nat :: CleanAt(isa, vas, c, n)
  }

  ghost predicate CleanAt<R(!new)>(isa: Isa<R>, vas: set<nat>, c: Plain<R>, n: nat)
  {
    RunPlain(isa, c, n).Some? ==> Clean(isa, Unreached(isa, c, vas, n), RunPlain(isa, c, n).value)
  }

  /** Two runs side by side: same registers, same memory but for the INT3s still
      standing, and each of those remembers the byte the plain memory has there. */
  ghost predicate Alongside<R(!new)>(p: Plain<R>, t: Traced<R>)
  {
    && p.regs == t.regs
    && |p.mem| == |t.mem|
    && InRange(t.mem, t.blocks) && Distinct(t.blocks)
    && t.traps == CountHit(t.blocks)
    && (forall i :: 0 <= i < |t.blocks| && !t.blocks[i].hit ==> t.blocks[i].orig == p.mem[t.blocks[i].va])
    && (forall i :: 0 <= i < |t.blocks| && !t.blocks[i].hit ==> t.mem[t.blocks[i].va] == INT3)
    && (forall a :: 0 <= a < |p.mem| && a !in Standing(t.blocks) ==> t.mem[a] == p.mem[a])
  }

  /** Addresses whose INT3 has not been taken yet. */
  ghost function Standing(bs: seq<Block>): set<nat>
  {
    set i | 0 <= i < |bs| && !bs[i].hit :: bs[i].va
  }

  /** The next thing the traced machine does is not a handled trap. */
  ghost predicate Settled<R(!new)>(isa: Isa<R>, t: Traced<R>)
  {
    isa.pc(t.regs) !in Standing(t.blocks)
  }

  function Start<R>(regs: R, mem: seq<byte>, bs: seq<Block>): Traced<R>
    requires InRange(mem, bs)
  {
    var (m, b) := Armed(mem, bs);
    Traced(regs, m, b, 0)
  }

  lemma StartAlongside<R(!new)>(regs: R, mem: seq<byte>, bs: seq<Block>)
    requires InRange(mem, bs) && Distinct(bs) && Fresh(bs)
    ensures Alongside(Plain(regs, mem), Start(regs, mem, bs))
    ensures Vas(Start(regs, mem, bs).blocks) == Vas(bs)
  {
    var t := Start(regs, mem, bs);
    ArmTurnsEffect(mem, bs, |bs|);
    CountHitBound(t.blocks);
    SameVas(bs, t.blocks);
    assert bs[..|bs|] == bs;
    forall i | 0 <= i < |bs|
      ensures t.blocks[i].orig == mem[bs[i].va] && t.mem[bs[i].va] == INT3
    {
      assert bs[i].va in Vas(bs);
      assert bs[i].va !in Vas(bs[..i]);
    }
    forall a | 0 <= a < |mem| && a !in Standing(t.blocks)
      ensures t.mem[a] == mem[a]
    {
      assert forall i :: 0 <= i < |bs| ==> !t.blocks[i].hit && t.blocks[i].va == bs[i].va;
    }
  }

  lemma SameVas(bs: seq<Block>, cs: seq<Block>)
    requires SameAddresses(bs, cs)
    ensures Vas(bs) == Vas(cs)
  {
    forall a
      ensures a in Vas(bs) <==> a in Vas(cs)
    {
      if a in Vas(bs) {
        var i :| 0 <= i < |bs| && bs[i].va == a;
        assert cs[i].va == a;
      }
      if a in Vas(cs) {
        var i :| 0 <= i < |cs| && cs[i].va == a;
        assert bs[i].va == a;
      }
    }
  }

  /** A standing INT3 is taken once: the handler finds its block, puts the byte
      back, and the plain run has not moved. */
  lemma TrapStep<R(!new)>(isa: Isa<R>, p: Plain<R>, t: Traced<R>)
    requires Alongside(p, t) && !Settled(isa, t)
    ensures TracedStep(isa, t).Some?
    ensures var u := TracedStep(isa, t).value;
            && Alongside(p, u) && Settled(isa, u) && u.traps == t.traps + 1
            && SameAddresses(t.blocks, u.blocks)
            && Standing(u.blocks) == Standing(t.blocks) - {isa.pc(t.regs)}
  {
    var pc := isa.pc(t.regs);
    var i := TrapFound(isa, t);
    TrapTaken(p, t, i);
    StandingAfterHit(t.blocks, i, t.blocks[i].(hit := true));
  }

  lemma TrapFound<R(!new)>(isa: Isa<R>, t: Traced<R>) returns (i: nat)
    requires InRange(t.mem, t.blocks) && Distinct(t.blocks) && !Settled(isa, t)
    ensures i < |t.blocks| && !t.blocks[i].hit && t.blocks[i].va == isa.pc(t.regs)
    ensures IndexOf(t.blocks, isa.pc(t.regs)) == Some(i)
  {
    i :| 0 <= i < |t.blocks| && !t.blocks[i].hit && t.blocks[i].va == isa.pc(t.regs);
  }

  /** Marking block `i` and restoring its byte keeps the runs alongside. */
  lemma TrapTaken<R(!new)>(p: Plain<R>, t: Traced<R>, i: nat)
    requires Alongside(p, t) && i < |t.blocks| && !t.blocks[i].hit
    ensures Alongside(p, Traced(t.regs, t.mem[t.blocks[i].va := t.blocks[i].orig],
                                t.blocks[i := t.blocks[i].(hit := true)], t.traps + 1))
  {
    var va := t.blocks[i].va;
    var hit := t.blocks[i].(hit := true);
    var (m, bs) := (t.mem[va := t.blocks[i].orig], t.blocks[i := hit]);
    CountHitSet(t.blocks, i, hit);
    StandingAfterHit(t.blocks, i, hit);
    forall a | 0 <= a < |p.mem| && a !in Standing(bs)
      ensures m[a] == p.mem[a]
    {
      assert a != va ==> a !in Standing(t.blocks);
    }
  }

  lemma StandingAfterHit(bs: seq<Block>, i: nat, hit: Block)
    requires Distinct(bs) && i < |bs| && hit.hit && hit.va == bs[i].va
    ensures Standing(bs[i := hit]) == Standing(bs) - {hit.va}
  {
    var cs := bs[i := hit];
    forall a | a in Standing(bs) && a != hit.va
      ensures a in Standing(cs)
    {
      var k :| 0 <= k < |bs| && !bs[k].hit && bs[k].va == a;
      assert cs[k] == bs[k];
    }
  }

  /** Away from a standing INT3 the two machines do the same thing, including
      stopping. */
  lemma SettledStep<R(!new)>(isa: Isa<R>, p: Plain<R>, t: Traced<R>)
    requires Local(isa) && Alongside(p, t) && Settled(isa, t) && Clean(isa, Standing(t.blocks), p)
    ensures PlainStep(isa, p).Some? <==> TracedStep(isa, t).Some?
    ensures PlainStep(isa, p).Some? ==>
              var u := TracedStep(isa, t).value;
              Alongside(PlainStep(isa, p).value, u) && u.blocks == t.blocks && u.traps == t.traps
  {
    var pc := isa.pc(t.regs);
    if pc < |p.mem| {
      assert t.mem[pc] == p.mem[pc];
      if t.mem[pc] != INT3 {
        assert AgreeOn(p.mem, t.mem, isa.touched(p.regs, p.mem)) by {
          forall a | a in isa.touched(p.regs, p.mem) && a < |p.mem|
            ensures p.mem[a] == t.mem[a]
          {
            if a in Standing(t.blocks) {
              var i :| 0 <= i < |t.blocks| && !t.blocks[i].hit && t.blocks[i].va == a;
            }
          }
        }
        assert LocalAt(isa, p.regs, p.mem, t.mem);
        if isa.exec(p.regs, p.mem).Next? {
          StoreAlongside(p, t, isa.exec(p.regs, p.mem).regs, isa.exec(p.regs, p.mem).writes);
        }
      }
    }
  }

  lemma StoreAlongside<R(!new)>(p: Plain<R>, t: Traced<R>, r: R, w: map<nat, byte>)
    requires Alongside(p, t) && WritesClean(p.mem, w, Standing(t.blocks))
    ensures Alongside(Plain(r, Store(p.mem, w)), Traced(r, Store(t.mem, w), t.blocks, t.traps))
  {
    forall i | 0 <= i < |t.blocks| && !t.blocks[i].hit && t.blocks[i].va in w
      ensures p.mem[t.blocks[i].va] == INT3 == w[t.blocks[i].va]
    {
      assert t.blocks[i].va in Standing(t.blocks);
    }
  }

  /** The blocks hit are exactly those the plain run has started executing, with
      the current one counted once its trap is behind it. */
  ghost predicate HitsAre<R(!new)>(isa: Isa<R>, c: Plain<R>, j: nat, t: Traced<R>)
  {
    forall i :: 0 <= i < |t.blocks| ==> HitIs(isa, c, j, t, i)
  }

  ghost predicate HitIs<R(!new)>(isa: Isa<R>, c: Plain<R>, j: nat, t: Traced<R>, i: nat)
    requires i < |t.blocks|
  {
    t.blocks[i].hit <==> Reached(isa, c, j, t.blocks[i].va) && t.blocks[i].va !in Pending(isa, t)
  }

  ghost function Pending<R(!new)>(isa: Isa<R>, t: Traced<R>): set<nat>
  {
    if Settled(isa, t) then {} else {isa.pc(t.regs)}
  }

  /** What holds of every pair of states the two runs reach together. */
  ghost predicate InStep<R(!new)>(isa: Isa<R>, c: Plain<R>, bs: seq<Block>, j: nat, k: nat, t: Traced<R>)
  {
    && RunPlain(isa, c, j).Some?
    && Alongside(RunPlain(isa, c, j).value, t)
    && SameAddresses(bs, t.blocks)
    && j + t.traps == k
    && HitsAre(isa, c, j, t)
  }

  lemma StartInStep<R(!new)>(isa: Isa<R>, c: Plain<R>, bs: seq<Block>)
    requires InRange(c.mem, bs) && Distinct(bs) && Fresh(bs)
    ensures InStep(isa, c, bs, 0, 0, Start(c.regs, c.mem, bs))
  {
    StartAlongside(c.regs, c.mem, bs);
    var t := Start(c.regs, c.mem, bs);
    forall i | 0 <= i < |t.blocks|
      ensures HitIs(isa, c, 0, t, i)
    {
      assert t.blocks[i].va in Standing(t.blocks);
      if Reached(isa, c, 0, t.blocks[i].va) {
        var z: nat :| z <= 0 && RunPlain(isa, c, z).Some? && isa.pc(RunPlain(isa, c, z).value.regs) == t.blocks[i].va;
        assert isa.pc(t.regs) == t.blocks[i].va;
      }
    }
  }

  lemma TrapInStep<R(!new)>(isa: Isa<R>, c: Plain<R>, bs: seq<Block>, j: nat, k: nat, t: Traced<R>)
    requires InStep(isa, c, bs, j, k, t) && !Settled(isa, t)
    ensures TracedStep(isa, t).Some? && Settled(isa, TracedStep(isa, t).value)
    ensures InStep(isa, c, bs, j, k + 1, TracedStep(isa, t).value)
  {
    var p := RunPlain(isa, c, j).value;
    TrapStep(isa, p, t);
    var u := TracedStep(isa, t).value;
    var pc := isa.pc(t.regs);
    assert Reached(isa, c, j, pc);
    forall i | 0 <= i < |u.blocks|
      ensures HitIs(isa, c, j, u, i)
    {
      assert HitIs(isa, c, j, t, i);
      HitFromStanding(t.blocks, i);
      HitFromStanding(u.blocks, i);
    }
  }

  lemma HitFromStanding(bs: seq<Block>, i: nat)
    requires i < |bs| && Distinct(bs)
    ensures bs[i].va in Standing(bs) <==> !bs[i].hit
  {
    if bs[i].va in Standing(bs) {
      var j :| 0 <= j < |bs| && !bs[j].hit && bs[j].va == bs[i].va;
    }
  }

  /** Once settled, the INT3s standing are those control has not come to. */
  lemma StandingUnreached<R(!new)>(isa: Isa<R>, c: Plain<R>, bs: seq<Block>, j: nat, k: nat, t: Traced<R>)
    requires InStep(isa, c, bs, j, k, t) && Settled(isa, t)
    ensures Standing(t.blocks) == Unreached(isa, c, Vas(bs), j)
  {
    SameVas(bs, t.blocks);
    StandingListed(t.blocks);
    forall va | va in Vas(t.blocks)
      ensures va in Standing(t.blocks) <==> va in Unreached(isa, c, Vas(bs), j)
    {
      var i :| 0 <= i < |t.blocks| && t.blocks[i].va == va;
      HitFromStanding(t.blocks, i);
      assert HitIs(isa, c, j, t, i);
    }
  }

  lemma StandingListed(bs: seq<Block>)
    ensures Standing(bs) <= Vas(bs)
  {
    forall a | a in Standing(bs)
      ensures a in Vas(bs)
    {
      var i :| 0 <= i < |bs| && !bs[i].hit && bs[i].va == a;
    }
  }

  lemma PlainInStep<R(!new)>(isa: Isa<R>, c: Plain<R>, bs: seq<Block>, j: nat, k: nat, t: Traced<R>)
    requires Local(isa) && CleanRun(isa, Vas(bs), c)
    requires InStep(isa, c, bs, j, k, t) && Settled(isa, t)
    ensures TracedStep(isa, t).Some? <==> RunPlain(isa, c, j + 1).Some?
    ensures TracedStep(isa, t).Some? ==> InStep(isa, c, bs, j + 1, k + 1, TracedStep(isa, t).value)
  {
    var p := RunPlain(isa, c, j).value;
    assert CleanAt(isa, Vas(bs), c, j);
    StandingUnreached(isa, c, bs, j, k, t);
    SettledStep(isa, p, t);
    if TracedStep(isa, t).Some? {
      var u := TracedStep(isa, t).value;
      var j1 := j + 1;
      assert RunPlain(isa, c, j1) == PlainStep(isa, p);
      forall i | 0 <= i < |u.blocks|
        ensures HitIs(isa, c, j1, u, i)
      {
        HitCarries(isa, c, j, t, u, i);
      }
    }
  }

  lemma HitCarries<R(!new)>(isa: Isa<R>, c: Plain<R>, j: nat, t: Traced<R>, u: Traced<R>, i: nat)
    requires HitsAre(isa, c, j, t) && Settled(isa, t) && Distinct(t.blocks)
    requires u.blocks == t.blocks && i < |t.blocks|
    requires RunPlain(isa, c, j + 1).Some? && RunPlain(isa, c, j + 1).value.regs == u.regs
    ensures HitIs(isa, c, j + 1, u, i)
  {
    assert HitIs(isa, c, j, t, i);
    var va := t.blocks[i].va;
    HitFromStanding(t.blocks, i);
    assert t.blocks[i].hit <==> Reached(isa, c, j, va);
    assert Reached(isa, c, j + 1, va) <==> Reached(isa, c, j, va) || isa.pc(u.regs) == va;
  }

  lemma {:induction false} RunsStayInStep<R(!new)>(isa: Isa<R>, c: Plain<R>, bs: seq<Block>, s: Traced<R>,
                                                   k: nat, t: Traced<R>)
    requires Local(isa) && CleanRun(isa, Vas(bs), c)
    requires InStep(isa, c, bs, 0, 0, s)
    requires RunTraced(isa, s, k) == Some(t)
    ensures t.traps <= k && InStep(isa, c, bs, k - t.traps, k, t)
  {
    hide *;
    InStepCounts(isa, c, bs, 0, 0, s);
    LastStep(isa, s, k, t);
    if k == 0 {
    } else {
      var u := RunTraced(isa, s, k - 1).value;
      RunsStayInStep(isa, c, bs, s, k - 1, u);
      StepInStep(isa, c, bs, k, u, t);
    }
  }

  lemma LastStep<R(!new)>(isa: Isa<R>, s: Traced<R>, k: nat, t: Traced<R>)
    requires InRange(s.mem, s.blocks) && RunTraced(isa, s, k) == Some(t)
    ensures k == 0 ==> t == s
    ensures k > 0 ==> RunTraced(isa, s, k - 1).Some? && TracedStep(isa, RunTraced(isa, s, k - 1).value) == Some(t)
  {
    hide TracedStep;
  }

  lemma InStepCounts<R(!new)>(isa: Isa<R>, c: Plain<R>, bs: seq<Block>, j: nat, k: nat, t: Traced<R>)
    requires InStep(isa, c, bs, j, k, t)
    ensures j + t.traps == k && InRange(t.mem, t.blocks)
  {
  }

  lemma StepInStep<R(!new)>(isa: Isa<R>, c: Plain<R>, bs: seq<Block>, k: nat, t: Traced<R>, u: Traced<R>)
    requires Local(isa) && CleanRun(isa, Vas(bs), c)
    requires 0 < k && t.traps <= k - 1 && InStep(isa, c, bs, k - 1 - t.traps, k - 1, t)
    requires TracedStep(isa, t) == Some(u)
    ensures u.traps <= k && InStep(isa, c, bs, k - u.traps, k, u)
  {
    hide InStep, Local, CleanRun, TracedStep, RunPlain, Settled;
    var j := k - 1 - t.traps;
    InStepCounts(isa, c, bs, j, k - 1, t);
    if Settled(isa, t) {
      PlainInStep(isa, c, bs, j, k - 1, t);
      InStepCounts(isa, c, bs, j + 1, k, u);
    } else {
      TrapInStep(isa, c, bs, j, k - 1, t);
      InStepCounts(isa, c, bs, j, k, u);
    }
  }

  lemma DisarmAlongside<R(!new)>(p: Plain<R>, t: Traced<R>)
    requires Alongside(p, t)
    ensures Disarmed(t.mem, t.blocks) == p.mem
  {
    forall a: nat | a < |p.mem|
      ensures Disarmed(t.mem, t.blocks)[a] == p.mem[a]
    {
      DisarmTurnsEffect(t.mem, t.blocks, |t.blocks|, a);
      if a in Standing(t.blocks) {
        var i :| 0 <= i < |t.blocks| && !t.blocks[i].hit && t.blocks[i].va == a;
      }
    }
  }

  lemma {:induction false} EveryStepTraced<R(!new)>(isa: Isa<R>, c: Plain<R>, bs: seq<Block>, s: Traced<R>, j: nat)
    returns (k: nat, t: Traced<R>)
    requires Local(isa) && CleanRun(isa, Vas(bs), c)
    requires InStep(isa, c, bs, 0, 0, s)
    requires RunPlain(isa, c, j).Some?
    ensures RunTraced(isa, s, k) == Some(t)
    ensures InStep(isa, c, bs, j, k, t) && Settled(isa, t)
  {
    if j == 0 {
      k, t := Settle(isa, c, bs, s, 0, 0, s);
    } else {
      k, t := EveryStepTraced(isa, c, bs, s, j - 1);
      k, t := Advance(isa, c, bs, s, j, k, t);
    }
  }

  lemma Advance<R(!new)>(isa: Isa<R>, c: Plain<R>, bs: seq<Block>, s: Traced<R>, j: nat, k: nat, t: Traced<R>)
    returns (k': nat, t': Traced<R>)
    requires Local(isa) && CleanRun(isa, Vas(bs), c)
    requires InRange(s.mem, s.blocks) && RunTraced(isa, s, k) == Some(t)
    requires 0 < j && InStep(isa, c, bs, j - 1, k, t) && Settled(isa, t)
    requires RunPlain(isa, c, j).Some?
    ensures RunTraced(isa, s, k') == Some(t')
    ensures InStep(isa, c, bs, j, k', t') && Settled(isa, t')
  {
    hide InStep, Local, CleanRun, TracedStep, Settled;
    InStepCounts(isa, c, bs, j - 1, k, t);
    PlainInStep(isa, c, bs, j - 1, k, t);
    var u := TracedStep(isa, t).value;
    assert RunTraced(isa, s, k + 1) == Some(u);
    k', t' := Settle(isa, c, bs, s, j, k + 1, u);
  }

  lemma Settle<R(!new)>(isa: Isa<R>, c: Plain<R>, bs: seq<Block>, s: Traced<R>, j: nat, k: nat, t: Traced<R>)
    returns (k': nat, t': Traced<R>)
    requires InRange(s.mem, s.blocks) && RunTraced(isa, s, k) == Some(t)
    requires InStep(isa, c, bs, j, k, t)
    ensures RunTraced(isa, s, k') == Some(t')
    ensures InStep(isa, c, bs, j, k', t') && Settled(isa, t')
  {
    k', t' := k, t;
    if !Settled(isa, t) {
      TrapInStep(isa, c, bs, j, k, t);
      k', t' := k + 1, TracedStep(isa, t).value;
    }
  }

  // ---- the main results --------------------------------------------------------

  /** After `k` transitions of which `traps` were traps, the program is where it is
      after `k - traps` plain steps, exactly the blocks control has reached are
      marked, there was one trap for each of them, and disarming at this point
      gives the plain run's memory back byte for byte. */
  ghost predicate ErasesTo<R(!new)>(isa: Isa<R>, c: Plain<R>, bs: seq<Block>, k: nat, t: Traced<R>)
  {
    && t.traps == CountHit(t.blocks) <= |bs|
    && t.traps <= k
    && InStep(isa, c, bs, k - t.traps, k, t)
    && Disarmed(t.mem, t.blocks) == RunPlain(isa, c, k - t.traps).value.mem
  }

  lemma InStepErases<R(!new)>(isa: Isa<R>, c: Plain<R>, bs: seq<Block>, k: nat, t: Traced<R>)
    requires t.traps <= k && InStep(isa, c, bs, k - t.traps, k, t)
    ensures ErasesTo(isa, c, bs, k, t)
  {
    CountHitBound(t.blocks);
    DisarmAlongside(RunPlain(isa, c, k - t.traps).value, t);
  }

  /** Erasing the trap steps of any traced run leaves a plain run. */
  lemma TracedRunErases<R(!new)>(isa: Isa<R>, c: Plain<R>, bs: seq<Block>, k: nat, t: Traced<R>)
    requires Local(isa) && InRange(c.mem, bs) && Distinct(bs) && Fresh(bs) && CleanRun(isa, Vas(bs), c)
    requires RunTraced(isa, Start(c.regs, c.mem, bs), k) == Some(t)
    ensures ErasesTo(isa, c, bs, k, t)
  {
    StartInStep(isa, c, bs);
    RunsStayInStep(isa, c, bs, Start(c.regs, c.mem, bs), k, t);
    InStepErases(isa, c, bs, k, t);
  }

  /** Conversely no plain step is lost: every plain run is the erasure of a traced
      run longer by at most the number of blocks, which ends settled, and one
      machine stops there exactly when the other does. */
  lemma PlainRunTraced<R(!new)>(isa: Isa<R>, c: Plain<R>, bs: seq<Block>, j: nat)
    returns (k: nat, t: Traced<R>)
    requires Local(isa) && InRange(c.mem, bs) && Distinct(bs) && Fresh(bs) && CleanRun(isa, Vas(bs), c)
    requires RunPlain(isa, c, j).Some?
    ensures j <= k <= j + |bs|
    ensures RunTraced(isa, Start(c.regs, c.mem, bs), k) == Some(t)
    ensures InStep(isa, c, bs, j, k, t) && Settled(isa, t)
    ensures TracedStep(isa, t).Some? <==> RunPlain(isa, c, j + 1).Some?
  {
    StartInStep(isa, c, bs);
    k, t := EveryStepTraced(isa, c, bs, Start(c.regs, c.mem, bs), j);
    CountHitBound(t.blocks);
    PlainInStep(isa, c, bs, j, k, t);
  }

  // ---- no wider condition will do ---------------------------------------------------

  datatype Cpu = Cpu(pc: nat, acc: byte)

  /** A processor whose instructions read `seen`, write `w`, and load one of the bytes
      read, if asked to. */
  function Probe(seen: set<nat>, w: map<nat, byte>, load: Option<nat>): Isa<Cpu>
  {
    Isa((r: Cpu) => r.pc,
        (r: Cpu, m: seq<byte>) => seen,
        (r: Cpu, m: seq<byte>) =>
          Next(Cpu(r.pc + 1, if load.Some? && load.value < |m| then m[load.value] else r.acc), w))
  }

  /** A processor whose instruction here reads `seen` and writes `w`. */
  ghost predicate HasFootprint(isa: Isa<Cpu>, p: Plain<Cpu>, seen: set<nat>, w: map<nat, byte>)
  {
    && Local(isa) && isa.pc(p.regs) == p.regs.pc && isa.touched(p.regs, p.mem) == seen
    && isa.exec(p.regs, p.mem).Next? && isa.exec(p.regs, p.mem).writes == w
  }

  /** Neither machine moves without the other, and they stay alongside. */
  ghost predicate StayAlongside(isa: Isa<Cpu>, p: Plain<Cpu>, t: Traced<Cpu>)
    requires InRange(t.mem, t.blocks)
  {
    && (PlainStep(isa, p).Some? <==> TracedStep(isa, t).Some?)
    && (PlainStep(isa, p).Some? ==> Alongside(PlainStep(isa, p).value, TracedStep(isa, t).value))
  }

  lemma ProbeFootprint(p: Plain<Cpu>, seen: set<nat>, w: map<nat, byte>, load: Option<nat>)
    requires load.Some? ==> load.value in seen
    ensures HasFootprint(Probe(seen, w, load), p, seen, w)
  {
    var isa := Probe(seen, w, load);
    forall r, m, n
      ensures LocalAt(isa, r, m, n)
    {
    }
  }

  lemma StandingByte<R(!new)>(p: Plain<R>, t: Traced<R>, va: nat) returns (i: nat)
    requires Alongside(p, t) && va in Standing(t.blocks)
    ensures i < |t.blocks| && !t.blocks[i].hit && t.blocks[i].va == va < |p.mem|
    ensures t.blocks[i].orig == p.mem[va] && t.mem[va] == INT3
  {
    i :| 0 <= i < |t.blocks| && !t.blocks[i].hit && t.blocks[i].va == va;
  }

  /** Reading a standing byte that is not INT3 in the plain memory: where the plain
      program loads it, the traced one loads 0xCC. */
  lemma ReadPartsRuns(p: Plain<Cpu>, t: Traced<Cpu>, seen: set<nat>, w: map<nat, byte>, va: nat)
    requires Alongside(p, t) && p.regs.pc < |p.mem| && p.mem[p.regs.pc] != INT3
    requires p.regs.pc !in Standing(t.blocks)
    requires va in seen && va in Standing(t.blocks) && va < |p.mem| && p.mem[va] != INT3
    ensures
      var isa := Probe(seen, w, Some(va));
      && PlainStep(isa, p).Some? && TracedStep(isa, t).Some?
      && PlainStep(isa, p).value.regs.acc == p.mem[va]
      && TracedStep(isa, t).value.regs.acc == INT3
  {
    var i := StandingByte(p, t, va);
  }

  /** Writing a standing byte: either disarming undoes the write, or the INT3 is gone
      with its block unmarked, and will not be taken. */
  lemma WritePartsRuns(p: Plain<Cpu>, t: Traced<Cpu>, seen: set<nat>, w: map<nat, byte>, va: nat)
    requires Alongside(p, t) && p.regs.pc < |p.mem| && p.mem[p.regs.pc] != INT3
    requires p.regs.pc !in Standing(t.blocks)
    requires va in w && va in Standing(t.blocks) && va < |p.mem| && !(p.mem[va] == INT3 == w[va])
    ensures
      var isa := Probe(seen, w, None);
      && PlainStep(isa, p).Some? && TracedStep(isa, t).Some?
      && var (p', t') := (PlainStep(isa, p).value, TracedStep(isa, t).value);
         && va in Standing(t'.blocks) && !Alongside(p', t')
         && (Disarmed(t'.mem, t'.blocks) != p'.mem || t'.mem[va] != INT3)
  {
    var isa := Probe(seen, w, None);
    var i := StandingByte(p, t, va);
    var (p', t') := (PlainStep(isa, p).value, TracedStep(isa, t).value);
    assert t'.blocks == t.blocks && p'.mem[va] == w[va] == t'.mem[va];
    if p.mem[va] != w[va] {
      DisarmTurnsEffect(t'.mem, t'.blocks, |t'.blocks|, va);
    }
  }

  /** The condition is exact at every step: from any settled pair of states, the runs
      stay alongside on every processor whose instruction reads and writes the same
      bytes, if and only if those bytes are clean. */
  lemma StepCleanIff(p: Plain<Cpu>, t: Traced<Cpu>, seen: set<nat>, w: map<nat, byte>)
    requires Alongside(p, t) && p.regs.pc < |p.mem| && p.mem[p.regs.pc] != INT3
    requires p.regs.pc !in Standing(t.blocks)
    ensures ReadsClean(p.mem, seen, Standing(t.blocks)) && WritesClean(p.mem, w, Standing(t.blocks))
            <==> forall isa :: HasFootprint(isa, p, seen, w) ==> StayAlongside(isa, p, t)
  {
    if ReadsClean(p.mem, seen, Standing(t.blocks)) && WritesClean(p.mem, w, Standing(t.blocks)) {
      forall isa | HasFootprint(isa, p, seen, w)
        ensures StayAlongside(isa, p, t)
      {
        SettledStep(isa, p, t);
      }
    } else if va :| va in seen && va in Standing(t.blocks) && va < |p.mem| && p.mem[va] != INT3 {
      ProbeFootprint(p, seen, w, Some(va));
      ReadPartsRuns(p, t, seen, w, va);
      assert !StayAlongside(Probe(seen, w, Some(va)), p, t);
    } else {
      var va :| va in w && va in Standing(t.blocks) && va < |p.mem| && !(p.mem[va] == INT3 == w[va]);
      ProbeFootprint(p, seen, w, None);
      WritePartsRuns(p, t, seen, w, va);
      assert !StayAlongside(Probe(seen, w, None), p, t);
    }
  }
}
