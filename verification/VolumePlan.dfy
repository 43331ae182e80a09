/** Which volumes the attenuation curve is compared at (harness/unit_es.c).  The curve
    itself, `orig_atten`, is any function; what is proved is what comparing two curves at
    the planned volumes tells about all 2^32 of them. */
module VolumePlan {
  import opened Wrappers

  newtype u32 = x: int | 0 <= x < 0x1_0000_0000

  const TOP: u32 := 0xffff_ffff
  const AUDIBLE: u32 := 0x50
  const LOW_END := 0x2000

  type Curve = u32 -> int

  /** From the first audible volume on, louder never attenuates more. */
  ghost predicate Falling(f: Curve)
  {
    forall v: u32, w: u32 :: AUDIBLE <= v <= w ==> f(v) >= f(w)
  }

  // ---- the steps of a curve ---------------------------------------------------------

  /** The largest volume up to `hi` that still reaches attenuation `k`: the definition
      by trying one after another, against which the bisection is proved. */
  function Last(f: Curve, k: int, hi: u32): (b: u32)
    requires AUDIBLE <= hi && f(AUDIBLE) >= k
    ensures AUDIBLE <= b <= hi && f(b) >= k
    ensures forall v: u32 :: b < v <= hi ==> f(v) < k
    decreases hi as int
  {
    if f(hi) >= k then hi else Last(f, k, hi - 1)
  }

  method Bisect(f: Curve, k: int) returns (b: u32)
    requires Falling(f) && f(AUDIBLE) >= k > f(TOP)
    ensures b == Last(f, k, TOP)
  {
    var lo, hi: u32 := AUDIBLE, TOP;
    while lo < hi
      invariant AUDIBLE <= lo <= hi
      invariant f(lo) >= k
      invariant forall v: u32 :: hi < v ==> f(v) < k
    {
      var mid := lo + (hi - lo + 1) / 2;
      if f(mid) >= k {
        lo := mid;
      } else {
        hi := mid - 1;
      }
    }
    b := lo;
  }

  // ---- the plan ---------------------------------------------------------------------

  /** Both sides of the step below attenuation `k`, when any volume reaches it. */
  function StepProbes(f: Curve, k: int): seq<u32>
  {
    if f(AUDIBLE) < k then []
    else
      var b := Last(f, k, TOP);
      [b - 1, b] + (if b != TOP then [b + 1] else [])
  }

  function StepsFrom(f: Curve, k: int, n: nat, max: nat): seq<u32>
    decreases k + 49
  {
    if k < -48 || n + 4 >= max then []
    else StepProbes(f, k) + StepsFrom(f, k - 1, n + |StepProbes(f, k)|, max)
  }

  function LowProbes(count: nat): seq<u32>
    requires count <= LOW_END
  {
    seq(count, i requires 0 <= i < count => i as u32)
  }

  function LowCount(max: nat): nat
  {
    if max < LOW_END then max else LOW_END
  }

  /** What fits into `max` entries. */
  function Plan(f: Curve, max: nat): seq<u32>
  {
    LowProbes(LowCount(max)) + StepsFrom(f, 15, LowCount(max), max)
  }

  method VolumeArgs(f: Curve, out: array<u32>, max: nat) returns (n: nat)
    requires Falling(f) && max <= out.Length
    modifies out
    ensures n <= max && out[..n] == Plan(f, max)
    ensures forall i :: n <= i < out.Length ==> out[i] == old(out[i])
  {
    hide Last, StepProbes, StepsFrom, LowProbes;
    n := EmitLow(out, max);
    var k := 15;
    while k >= -48 && n + 4 < max
      invariant -49 <= k <= 15 && n <= max
      invariant out[..n] + StepsFrom(f, k, n, max) == Plan(f, max)
      invariant forall j :: n <= j < out.Length ==> out[j] == old(out[j])
      decreases k + 49
    {
      NextSteps(f, k, n, max);
      Regroup(out[..n], StepProbes(f, k), StepsFrom(f, k - 1, n + |StepProbes(f, k)|, max));
      n := EmitStep(f, out, n, k);
      k := k - 1;
    }
    NoMoreSteps(f, k, n, max);
    assert out[..n] + [] == out[..n];
  }

  lemma NextSteps(f: Curve, k: int, n: nat, max: nat)
    requires -48 <= k && n + 4 < max
    ensures |StepProbes(f, k)| <= 3
    ensures StepsFrom(f, k, n, max) == StepProbes(f, k) + StepsFrom(f, k - 1, n + |StepProbes(f, k)|, max)
  {
  }

  lemma NoMoreSteps(f: Curve, k: int, n: nat, max: nat)
    requires k < -48 || n + 4 >= max
    ensures StepsFrom(f, k, n, max) == []
  {
  }

  method EmitLow(out: array<u32>, max: nat) returns (n: nat)
    requires max <= out.Length
    modifies out
    ensures n == LowCount(max) && out[..n] == LowProbes(n)
    ensures forall i :: n <= i < out.Length ==> out[i] == old(out[i])
  {
    n := 0;
    var i := 0;
    while i < LOW_END && n < max
      invariant 0 <= i == n <= LowCount(max)
      invariant out[..n] == LowProbes(n)
      invariant forall j :: n <= j < out.Length ==> out[j] == old(out[j])
    {
      out[n] := i as u32;
      n := n + 1;
      i := i + 1;
    }
  }

  method EmitStep(f: Curve, out: array<u32>, start: nat, k: int) returns (n: nat)
    requires Falling(f) && start + 4 < out.Length
    modifies out
    ensures n == start + |StepProbes(f, k)| <= start + 3
    ensures out[..n] == old(out[..start]) + StepProbes(f, k)
    ensures forall i :: n <= i < out.Length ==> out[i] == old(out[i])
  {
    n := start;
    if f(AUDIBLE) < k {
      return;
    }
    var b;
    if f(TOP) >= k {
      b := TOP;
    } else {
      b := Bisect(f, k);
    }
    out[n] := b - 1;
    out[n + 1] := b;
    n := n + 2;
    if b != TOP {
      out[n] := b + 1;
      n := n + 1;
    }
  }

  // ---- what probing a curve tells ---------------------------------------------------

  ghost predicate Agree(f: Curve, g: Curve, probes: seq<u32>)
  {
    forall p :: p in probes ==> f(p) == g(p)
  }

  /** A probe at or below `v`, and one at or above it, where the curve is what it is
      at `v`. */
  ghost predicate Pinned(f: Curve, probes: seq<u32>, v: u32)
  {
    && (exists p :: p in probes && AUDIBLE <= p <= v && f(p) == f(v))
    && (exists q :: q in probes && v <= q && f(q) == f(v))
  }

  /** Agreement at the probes is agreement everywhere, among falling curves. */
  ghost predicate Decides(f: Curve, probes: seq<u32>)
  {
    forall g: Curve, v: u32 :: Falling(g) && Agree(f, g, probes) && AUDIBLE <= v ==> g(v) == f(v)
  }

  /** Exactly which sets of probes decide a falling curve: those with a probe at each end
      of every stretch where it is constant. */
  lemma DecidesIff(f: Curve, probes: seq<u32>)
    requires Falling(f)
    ensures Decides(f, probes) <==> forall v: u32 :: AUDIBLE <= v ==> Pinned(f, probes, v)
  {
    if forall v: u32 :: AUDIBLE <= v ==> Pinned(f, probes, v) {
      forall g: Curve, v: u32 | Falling(g) && Agree(f, g, probes) && AUDIBLE <= v
        ensures g(v) == f(v)
      {
        PinnedDecides(f, g, probes, v);
      }
    } else {
      var v: u32 :| AUDIBLE <= v && !Pinned(f, probes, v);
      var g := Impostor(f, probes, v);
      assert Falling(g) && Agree(f, g, probes) && g(v) != f(v);
    }
  }

  lemma PinnedDecides(f: Curve, g: Curve, probes: seq<u32>, v: u32)
    requires Falling(g) && Agree(f, g, probes) && AUDIBLE <= v && Pinned(f, probes, v)
    ensures g(v) == f(v)
  {
    var p :| p in probes && AUDIBLE <= p <= v && f(p) == f(v);
    var q :| q in probes && v <= q && f(q) == f(v);
    assert g(p) >= g(v) >= g(q);
  }

  /** A curve with one step moved past `v`, which the probes cannot tell from `f`. */
  lemma Impostor(f: Curve, probes: seq<u32>, v: u32) returns (g: Curve)
    requires Falling(f) && AUDIBLE <= v && !Pinned(f, probes, v)
    ensures Falling(g) && Agree(f, g, probes) && g(v) != f(v)
  {
    if exists p :: p in probes && AUDIBLE <= p <= v && f(p) == f(v) {
      g := (x: u32) => if x >= v && f(x) == f(v) then f(x) - 1 else f(x);
    } else {
      g := (x: u32) => if AUDIBLE <= x <= v && f(x) == f(v) then f(x) + 1 else f(x);
    }
  }

  // ---- the plan decides the curve ---------------------------------------------------

  /** The steps from `k` down are all probed. */
  lemma {:induction false} StepProbed(f: Curve, k: int, n: nat, max: nat, a: int, p: u32)
    requires -48 <= a <= k && n + 3 * (k + 48) + 4 < max && p in StepProbes(f, a)
    ensures p in StepsFrom(f, k, n, max)
    decreases k + 49
  {
    hide StepProbes, StepsFrom;
    NextSteps(f, k, n, max);
    if a == k {
    } else {
      StepProbed(f, k - 1, n + |StepProbes(f, k)|, max, a, p);
    }
  }

  lemma PlanProbesSteps(f: Curve, max: nat, a: int, p: u32)
    requires max > 8385 && -48 <= a <= 15 && p in StepProbes(f, a)
    ensures p in Plan(f, max)
  {
    StepProbed(f, 15, LOW_END, max, a, p);
  }

  lemma PlanProbesLow(f: Curve, max: nat, p: u32)
    requires max >= LOW_END && p as int < LOW_END
    ensures p in Plan(f, max)
  {
    assert LowProbes(LOW_END)[p as int] == p;
  }

  /** The step below attenuation `k` is probed on both sides. */
  lemma StepHas(f: Curve, k: int)
    requires f(AUDIBLE) >= k
    ensures Last(f, k, TOP) in StepProbes(f, k)
    ensures Last(f, k, TOP) < TOP ==> Last(f, k, TOP) + 1 in StepProbes(f, k)
  {
  }

  lemma PlanPins(f: Curve, max: nat, v: u32)
    requires Falling(f) && max > 8385 && AUDIBLE <= v
    requires f(0x1fff) <= 15 && f(TOP) >= -48
    ensures Pinned(f, Plan(f, max), v)
  {
    if v as int < LOW_END {
      PlanProbesLow(f, max, v);
    } else {
      var a := f(v);
      StepHas(f, a);
      PlanProbesSteps(f, max, a, Last(f, a, TOP));
      PinBelow(f, max, v);
    }
  }

  lemma PinBelow(f: Curve, max: nat, v: u32)
    requires Falling(f) && max > 8385 && v as int >= LOW_END
    requires f(0x1fff) <= 15 && f(TOP) >= -48
    ensures exists p :: p in Plan(f, max) && AUDIBLE <= p <= v && f(p) == f(v)
  {
    hide Last, StepProbes, Plan;
    var a := f(v);
    if f(AUDIBLE) == a {
      PlanProbesLow(f, max, AUDIBLE);
    } else if a == 15 {
      PlanProbesLow(f, max, 0x1fff);
    } else {
      var b := Last(f, a + 1, TOP);
      StepHas(f, a + 1);
      assert b < v && f(b + 1) == a;
      PlanProbesSteps(f, max, a + 1, b + 1);
    }
  }

  /** With room for 8386 entries or more (the harness gives 0x2200), a curve within the
      range of attenuations the plan walks is decided by it: any other falling curve
      that agrees at the planned volumes is the same at every volume. */
  lemma PlanDecides(f: Curve, g: Curve, max: nat, v: u32)
    requires Falling(f) && Falling(g) && max > 8385
    requires f(0x1fff) <= 15 && f(TOP) >= -48
    requires Agree(f, g, Plan(f, max))
    ensures g(v) == f(v)
  {
    if v < AUDIBLE {
      PlanProbesLow(f, max, v);
    } else {
      PlanPins(f, max, v);
      PinnedDecides(f, g, Plan(f, max), v);
    }
  }
}
