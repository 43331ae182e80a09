/** What a stop and a pause do to what is heard (gui/speakwin.c), whatever the
    interleaving of the worker, the device and the window. */
module AudioRingStops {
  import opened Wrappers
  import opened AudioRing
  import opened AudioRingProof
  import opened AudioRingRuns

  // ---- a stop -----------------------------------------------------------------------

  /** How many blocks a worker that has been told to stop can still submit: the one it is
      filling, has filled or was about to submit, if there is one. */
  function Yet(s: State): nat
  {
    match s.worker
    case Absent => 0
    case Starting => 0
    case Finished => 0
    case Filling(_) => 1
    case Submit(at, _) => if at == Leave || at == Wait || at == After then 0 else 1
    case Ending(_) => 0
    case _ => if s.ring.fill > 0 then 1 else 0
  }

  /** The actions can happen one after another, without the window coming back from
      waiting for the worker. */
  predicate Unjoined(s: State, actions: seq<Action>)
    decreases |actions|
  {
    actions != [] ==>
      && Shaped(s.ring) && !(actions[0].Window? && s.ui.Join?)
      && Step(s, actions[0]).Some? && Unjoined(Step(s, actions[0]).value, actions[1..])
  }

  lemma {:induction false} UnjoinedRuns(s: State, actions: seq<Action>)
    requires Unjoined(s, actions)
    ensures Run(s, actions).Some?
    decreases |actions|
  {
    if actions == [] {
    } else {
      UnjoinedRuns(Step(s, actions[0]).value, actions[1..]);
    }
  }

  lemma SubmitSpends(s: State, t: State)
    requires Shaped(s.ring) && Room(s) && s.worker.Submit? && s.abort
    requires SubmitStep(s, s.worker.at, s.worker.back) == Some(t)
    ensures |t.ring.sent| + Yet(t) <= |s.ring.sent| + Yet(s)
  {
    hide Shaped, Unprepared;
    match s.worker.at
    case Write =>
    case After =>
    case _ =>
  }

  lemma OpenQueues(s: State, c: Choice, t: State)
    requires OpenStep(s, c) == Some(t)
    ensures t.ring.played == s.ring.played && t.ring.sent == s.ring.sent && t.ring.queue == s.ring.queue
  {
    match s.worker
    case Starting =>
    case _ =>
  }

  lemma RenderQueues(s: State, c: Choice, t: State)
    requires RenderStep(s, c) == Some(t)
    ensures t.ring == s.ring
  {
    match c
    case Event(_, _) =>
    case _ =>
  }

  lemma FillQueues(s: State, rest: seq<Sample>)
    requires Shaped(s.ring)
    ensures
      var t := FillStep(s, rest);
      t.ring.played == s.ring.played && t.ring.sent == s.ring.sent && t.ring.queue == s.ring.queue
  {
  }

  lemma MakingQueues(s: State, c: Choice, t: State)
    requires Shaped(s.ring) && WorkerStep(s, c) == Some(t) && !s.worker.Ending? && !s.worker.Submit?
    ensures t.ring.played == s.ring.played && t.ring.sent == s.ring.sent && t.ring.queue == s.ring.queue
  {
    hide Shaped, OpenStep, RenderStep, FillStep;
    match s.worker
    case Rendering => RenderQueues(s, c, t);
    case Filling(rest) => FillQueues(s, rest);
    case _ => OpenQueues(s, c, t);
  }

  lemma RenderSpends(s: State, c: Choice, t: State)
    requires s.abort && s.worker.Rendering? && RenderStep(s, c) == Some(t)
    ensures t.abort && Yet(t) <= Yet(s)
  {
    match c
    case Event(_, _) =>
    case _ =>
  }

  lemma FillSpends(s: State, rest: seq<Sample>)
    requires Shaped(s.ring)
    ensures FillStep(s, rest).abort == s.abort && Yet(FillStep(s, rest)) <= 1
  {
    hide Shaped, Filled;
  }

  lemma OpenSpends(s: State, c: Choice, t: State)
    requires OpenStep(s, c) == Some(t)
    ensures t.abort == s.abort && Yet(t) <= Yet(s)
  {
    match s.worker
    case Starting =>
    case _ =>
  }

  lemma MakingSpends(s: State, c: Choice, t: State)
    requires Shaped(s.ring) && s.abort && WorkerStep(s, c) == Some(t)
    requires !s.worker.Ending? && !s.worker.Submit?
    ensures t.abort && |t.ring.sent| + Yet(t) <= |s.ring.sent| + Yet(s)
  {
    MakingQueues(s, c, t);
    hide Shaped, OpenStep, RenderStep, FillStep;
    match s.worker
    case Rendering => RenderSpends(s, c, t);
    case Filling(rest) => FillSpends(s, rest);
    case _ => OpenSpends(s, c, t);
  }

  lemma WorkerSpends(s: State, c: Choice, t: State)
    requires Shaped(s.ring) && Room(s) && s.abort && WorkerStep(s, c) == Some(t)
    ensures t.abort && |t.ring.sent| + Yet(t) <= |s.ring.sent| + Yet(s)
  {
    hide Shaped, Room, Yet;
    match s.worker
    case Submit(_, _) =>
      SubmitSpends(s, t);
    case Ending(_) =>
      EndSame(s, t);
      EndingSpends(s, t);
    case _ =>
      MakingSpends(s, c, t);
  }

  lemma EndingSpends(s: State, t: State)
    requires Shaped(s.ring) && s.worker.Ending? && EndStep(s, s.worker.end) == Some(t)
    ensures Yet(t) == 0
  {
    hide Shaped, Reset, SetHdr;
    match s.worker.end
    case CloseHdr(_) =>
    case Scan(_, _) =>
    case _ =>
  }

  /** Every step spends of it what it submits. */
  lemma StepSpends(s: State, a: Action, t: State)
    requires Good(s) && Shaped(s.ring) && s.abort && Step(s, a) == Some(t) && !(a.Window? && s.ui.Join?)
    ensures t.abort && |t.ring.sent| + Yet(t) <= |s.ring.sent| + Yet(s)
  {
    assert Room(s);
    hide Good, Room, Shaped;
    match a
    case Worker(c) =>
      WorkerSpends(s, c, t);
    case Window(p) =>
      WindowSendsNothing(s, p, t);
      WindowKeepsWorker(s, p, t);
    case Device =>
  }

  lemma WindowKeepsWorker(s: State, p: Press, t: State)
    requires WindowStep(s, p) == Some(t) && !s.ui.Join?
    ensures Yet(t) == Yet(s) && (s.abort ==> t.abort)
  {
    match s.ui
    case StopReset(_) =>
    case _ =>
  }

  /** Since the ring was emptied when `n` blocks had been submitted and `heard` played: at
      most one more has been submitted, and nothing but that one played. */
  predicate Quieted(s: State, n: nat, heard: seq<Sample>)
  {
    && s.abort && n <= |s.ring.sent| && |s.ring.sent| + Yet(s) <= n + 1
    && ((s.ring.played == heard && |s.ring.queue| <= |s.ring.sent| - n)
        || (|s.ring.sent| == n + 1 && s.ring.queue == [] && s.ring.played == heard + s.ring.sent[n]))
  }

  /** What any step but the device's can do to the queue. */
  lemma QueueFollowsSent(s: State, a: Action, t: State)
    requires Good(s) && Shaped(s.ring) && Step(s, a) == Some(t) && !(a.Window? && s.ui.Join?) && !a.Device?
    ensures t.ring.played == s.ring.played && s.ring.sent <= t.ring.sent
    ensures |t.ring.queue| - |s.ring.queue| <= |t.ring.sent| - |s.ring.sent|
  {
    assert s.worker.Starting? ==> s.ring.sent == [] && s.ring.played == [];
    hide Good, Shaped;
    match a
    case Window(p) =>
      WindowQueues(s, p, t);
    case Worker(c) =>
      match s.worker
      case Submit(_, _) =>
        SubmitQueues(s, t);
      case Ending(_) =>
        EndSame(s, t);
        EndQueues(s, t);
      case _ =>
        MakingQueues(s, c, t);
  }

  lemma HeaderQueues(r: Ring, h: Hdr)
    requires Shaped(r)
    ensures SetHdr(r, r.cur, h) == r.(hdr := SetHdr(r, r.cur, h).hdr)
  {
  }

  lemma WriteQueues(r: Ring)
    requires Shaped(r)
    ensures Written(r).played == r.played && r.sent <= Written(r).sent && r.queue <= Written(r).queue
    ensures |Written(r).queue| - |r.queue| == |Written(r).sent| - |r.sent|
  {
  }

  lemma SubmitQueues(s: State, t: State)
    requires Shaped(s.ring) && s.worker.Submit? && SubmitStep(s, s.worker.at, s.worker.back) == Some(t)
    ensures t.ring.played == s.ring.played && s.ring.sent <= t.ring.sent
    ensures |t.ring.queue| - |s.ring.queue| <= |t.ring.sent| - |s.ring.sent| && s.ring.queue <= t.ring.queue
  {
    var r := s.ring;
    assert r.cur < |r.hdr|;
    hide Shaped, SetHdr, Written, Unprepared;
    match s.worker.at
    case Unprepare => HeaderQueues(r, Unprepared(r.hdr[r.cur]));
    case Zero => HeaderQueues(r, NoHdr.(len := r.fill));
    case Prepare => HeaderQueues(r, r.hdr[r.cur].(prepared := true));
    case Write => WriteQueues(r);
    case _ =>
  }

  lemma ResetQueues(r: Ring)
    ensures Reset(r).played == r.played && Reset(r).sent == r.sent && Reset(r).queue == []
  {
  }

  lemma EndQueues(s: State, t: State)
    requires Shaped(s.ring) && s.worker.Ending? && EndStep(s, s.worker.end) == Some(t)
    ensures t.ring.played == s.ring.played && t.ring.sent == s.ring.sent && |t.ring.queue| <= |s.ring.queue|
    ensures !s.worker.end.CloseReset? ==> t.ring.queue == s.ring.queue
  {
    assert s.worker.end.CloseHdr? && s.worker.end.i < NBLK ==> s.worker.end.i < |s.ring.hdr|;
    hide Shaped, Unprepared, Reset;
    match s.worker.end
    case CloseReset => ResetQueues(s.ring);
    case CloseHdr(_) =>
    case Scan(_, _) =>
    case _ =>
  }

  lemma WindowQueues(s: State, p: Press, t: State)
    requires WindowStep(s, p) == Some(t) && !s.ui.Join?
    ensures t.ring.played == s.ring.played && t.ring.sent == s.ring.sent && |t.ring.queue| <= |s.ring.queue|
  {
    match s.ui
    case StopReset(_) =>
    case _ =>
  }

  lemma StepQuiets(s: State, a: Action, t: State, n: nat, heard: seq<Sample>)
    requires Good(s) && Shaped(s.ring) && Step(s, a) == Some(t) && !(a.Window? && s.ui.Join?)
    requires Quieted(s, n, heard)
    ensures Quieted(t, n, heard)
  {
    StepSpends(s, a, t);
    if a.Device? {
      PlayOk(s.ring);
      hide Good, Shaped, Yet;
    } else {
      hide Good, Shaped, Yet;
      QueueFollowsSent(s, a, t);
    }
  }

  lemma {:induction false} RunQuiets(s: State, actions: seq<Action>, n: nat, heard: seq<Sample>)
    requires Good(s) && Unjoined(s, actions) && Quieted(s, n, heard)
    ensures Run(s, actions).Some? && Quieted(Run(s, actions).value, n, heard)
    decreases |actions|
  {
    hide Good, Quieted;
    if actions == [] {
    } else {
      var t := Step(s, actions[0]).value;
      StepKeeps(s, actions[0]);
      StepQuiets(s, actions[0], t, n, heard);
      RunQuiets(t, actions[1..], n, heard);
    }
  }

  /** Once a stop has emptied the device, and until the window has waited the worker out,
      at most one more block is submitted, and nothing is played but that one, whole,
      if it is; it is never longer than a block. */
  lemma StopSilences(s: State, p: Press, actions: seq<Action>)
    requires Reachable(s) && s.ui.StopReset? && WindowStep(s, p).Some?
    requires Unjoined(WindowStep(s, p).value, actions)
    ensures Run(WindowStep(s, p).value, actions).Some? && (s.wave ==> !WindowStep(s, p).value.paused)
    ensures
      var r, n := Run(WindowStep(s, p).value, actions).value.ring, |s.ring.sent|;
      && n <= |r.sent| <= n + 1
      && (r.played == s.ring.played
          || (|r.sent| == n + 1 && r.queue == [] && r.played == s.ring.played + r.sent[n] && |r.sent[n]| <= 2048))
  {
    ReachableGood(s);
    var t := WindowStep(s, p).value;
    StepKeeps(s, Window(p));
    YetOne(t);
    RunQuiets(t, actions, |s.ring.sent|, s.ring.played);
    RunKeeps(t, actions);
    var u := Run(t, actions).value;
    BlocksFit(u);
  }

  lemma YetOne(s: State)
    ensures Yet(s) <= 1
  {
  }

  lemma BlocksFit(s: State)
    requires Good(s)
    ensures forall n :: 0 <= n < |s.ring.sent| ==> |s.ring.sent[n]| <= 2048
  {
  }

  // ---- a pause ----------------------------------------------------------------------

  /** The device is held, the window has let go of it, and the worker is past opening it. */
  predicate Held(s: State)
  {
    && s.paused && (s.ui.Idle? || s.ui.PauseLeave?)
    && !s.worker.Starting? && !s.worker.OpenEnter? && !s.worker.OpenDo?
  }

  predicate HandsOff(actions: seq<Action>)
  {
    forall i :: 0 <= i < |actions| && actions[i].Window? ==> actions[i].press == NoPress
  }

  lemma WorkerHeld(s: State, c: Choice, t: State)
    requires Shaped(s.ring) && Held(s) && WorkerStep(s, c) == Some(t)
    ensures Held(t) && t.abort == s.abort
  {
    hide Shaped, Restarted, Filled, SetHdr, Unprepared, Written, Turned, Reset;
    match s.worker
    case Submit(_, _) => SubmitHeld(s, t);
    case Ending(_) => EndHeld(s, t);
    case Rendering =>
    case Filling(_) =>
    case _ =>
  }

  lemma SubmitHeld(s: State, t: State)
    requires Shaped(s.ring) && s.worker.Submit? && SubmitStep(s, s.worker.at, s.worker.back) == Some(t)
    ensures t.paused == s.paused && t.ui == s.ui && t.abort == s.abort && t.job == s.job
    ensures t.worker.Submit? || t.worker.Ending? || t.worker.Rendering? || t.worker.Filling?
  {
    hide Shaped, SetHdr, Unprepared, Written, Turned;
    match s.worker.at
    case After =>
    case _ =>
  }

  lemma EndHeld(s: State, t: State)
    requires Shaped(s.ring) && s.worker.Ending? && EndStep(s, s.worker.end) == Some(t)
    ensures t.paused == s.paused && t.ui == s.ui && t.abort == s.abort && t.job == s.job
    ensures t.worker.Ending? || t.worker.Finished?
  {
    hide Shaped, SetHdr, Unprepared, Reset;
    match s.worker.end
    case CloseHdr(_) =>
    case Scan(_, _) =>
    case _ =>
  }

  /** Nothing that is queued leaves the queue while the device is held and nobody stops it. */
  lemma WorkerDropsNothing(s: State, c: Choice, t: State)
    requires Good(s) && Shaped(s.ring) && !s.abort && WorkerStep(s, c) == Some(t)
    ensures s.ring.queue <= t.ring.queue
  {
    assert s.worker == Ending(CloseReset) ==> s.ring.queue == [];
    hide Good, Shaped;
    match s.worker
    case Submit(_, _) => SubmitQueues(s, t);
    case Ending(_) => EndQueues(s, t);
    case _ => MakingQueues(s, c, t);
  }

  lemma {:induction false} HeldSilent(s: State, actions: seq<Action>)
    requires Good(s) && Held(s) && !s.abort && HandsOff(actions) && Run(s, actions).Some?
    ensures Run(s, actions).value.ring.played == s.ring.played
    ensures s.ring.queue <= Run(s, actions).value.ring.queue
    decreases |actions|
  {
    hide Good;
    if actions == [] {
    } else {
      var a, t := actions[0], Step(s, actions[0]).value;
      StepKeeps(s, a);
      if a.Worker? {
        hide Held;
        WorkerHeld(s, a.choice, t);
        WorkerDropsNothing(s, a.choice, t);
        QueueFollowsSent(s, a, t);
      }
      HeldSilent(t, actions[1..]);
    }
  }

  /** From when the window pauses the device, and until somebody resumes or stops it,
      nothing is played, and nothing that waits to be played is lost. */
  lemma PauseSilences(s: State, p: Press, actions: seq<Action>)
    requires Reachable(s) && s.ui == PauseDo(true) && s.wave && !s.abort
    requires WindowStep(s, p).Some? && HandsOff(actions) && Run(WindowStep(s, p).value, actions).Some?
    ensures Run(WindowStep(s, p).value, actions).value.ring.played == s.ring.played
    ensures s.ring.queue <= Run(WindowStep(s, p).value, actions).value.ring.queue
  {
    ReachableGood(s);
    StepKeeps(s, Window(p));
    HeldSilent(WindowStep(s, p).value, actions);
  }

  /** When it resumes the device, what waits can be played at once. */
  lemma ResumePlays(s: State, p: Press)
    requires Reachable(s) && s.ui == PauseDo(false) && s.wave && s.ring.queue != []
    ensures WindowStep(s, p).Some?
    ensures
      var t := WindowStep(s, p).value;
      Shaped(t.ring) && Step(t, Device).Some?
  {
    ReachableGood(s);
    HeadCanPlay(s.ring);
  }

  lemma HeadCanPlay(r: Ring)
    requires RingOk(r) && r.queue != []
    ensures CanPlay(r)
  {
    assert Holds(r, Oldest(r));
    assert r.queue[0] == (Oldest(r) + 0) % NBLK;
  }

  // ---- the next job -----------------------------------------------------------------

  /** Nobody asks for a stop. */
  predicate NoStop(actions: seq<Action>)
  {
    forall i :: 0 <= i < |actions| && actions[i].Window? ==> !actions[i].press.Stop?
  }

  /** A job under way that nothing has stopped. */
  predicate Going(s: State, job: Job)
  {
    !s.abort && s.job == job && !Stopping(s.ui) && !s.worker.Absent?
  }

  lemma GoesOn(s: State, a: Action, t: State, job: Job)
    requires Shaped(s.ring) && Going(s, job) && Step(s, a) == Some(t) && !(a.Window? && a.press.Stop?)
    ensures Going(t, job)
  {
    hide Shaped;
    match a
    case Window(p) =>
    case Device =>
    case Worker(c) => WorkerGoesOn(s, c, t, job);
  }

  lemma WorkerGoesOn(s: State, c: Choice, t: State, job: Job)
    requires Shaped(s.ring) && Going(s, job) && WorkerStep(s, c) == Some(t)
    ensures Going(t, job)
  {
    hide Shaped, Restarted, Filled, SetHdr, Unprepared, Written, Turned, Reset;
    match s.worker
    case Submit(_, _) => SubmitHeld(s, t);
    case Ending(_) => EndHeld(s, t);
    case Rendering =>
    case Filling(_) =>
    case _ =>
  }

  lemma {:induction false} RunGoesOn(s: State, actions: seq<Action>, job: Job)
    requires Good(s) && Going(s, job) && NoStop(actions) && Run(s, actions).Some?
    ensures Good(Run(s, actions).value) && Going(Run(s, actions).value, job)
    decreases |actions|
  {
    hide Good, Going;
    if actions == [] {
    } else {
      var t := Step(s, actions[0]).value;
      StepKeeps(s, actions[0]);
      GoesOn(s, actions[0], t, job);
      RunGoesOn(t, actions[1..], job);
    }
  }

  /** What is started after a stop plays to its end: once the window has waited the old job
      out and until somebody stops the new one, a worker that finishes leaves every sample
      made for it heard, or collected when it is an export the heap had room for. */
  lemma NextJobPlaysAll(s: State, p: Press, job: Job, actions: seq<Action>)
    requires Reachable(s) && s.ui == Join(Some(job)) && WindowStep(s, p).Some?
    requires NoStop(actions) && Run(WindowStep(s, p).value, actions).Some?
    ensures
      var u := Run(WindowStep(s, p).value, actions).value;
      && !u.abort && u.job == job
      && (u.worker.Finished? && job == Play ==> u.ring.played == u.given)
      && (u.worker.Finished? && job == Export && !u.refused ==> u.pcm == u.given)
  {
    ReachableGood(s);
    var t := WindowStep(s, p).value;
    StepKeeps(s, Window(p));
    RunGoesOn(t, actions, job);
    if Run(t, actions).value.worker.Finished? {
      AllPlayed(Run(t, actions).value);
    }
  }
}
