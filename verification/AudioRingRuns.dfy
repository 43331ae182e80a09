/** What holds of every run of the audio ring (gui/speakwin.c), whatever the
    interleaving of the worker, the device and the window. */
module AudioRingRuns {
  import opened Wrappers
  import opened AudioRing
  import opened AudioRingProof

  /** The actions one after another; None when one of them cannot happen. */
  function Run(s: State, actions: seq<Action>): Option<State>
    decreases |actions|
  {
    if actions == [] then Some(s)
    else if !Shaped(s.ring) then None
    else
      match Step(s, actions[0])
      case None => None
      case Some(t) => Run(t, actions[1..])
  }

  ghost predicate Reachable(s: State)
  {
    exists start: State, actions: seq<Action> :: Init(start) && Run(start, actions) == Some(s)
  }

  lemma InitGood(s: State)
    requires Init(s)
    ensures Good(s)
  {
    forall i | 0 <= i < NBLK
      ensures FlagOk(s.ring.hdr[i], i, 0, 0)
    {
    }
    assert RingOk(s.ring);
    assert Flat(s.ring.sent) == [] && s.ring.sent[..Oldest(s.ring)] == [];
  }

  lemma {:induction false} RunKeeps(s: State, actions: seq<Action>)
    requires Good(s) && Run(s, actions).Some?
    ensures Good(Run(s, actions).value)
    decreases |actions|
  {
    if actions == [] {
    } else {
      StepKeeps(s, actions[0]);
      RunKeeps(Step(s, actions[0]).value, actions[1..]);
    }
  }

  lemma ReachableGood(s: State)
    requires Reachable(s)
    ensures Good(s)
  {
    var start, actions :| Init(start) && Run(start, actions) == Some(s);
    InitGood(start);
    RunKeeps(start, actions);
  }

  // ---- safety -----------------------------------------------------------------------

  /** The device still has block `i`, with the same samples, and nothing before it has
      left the queue. */
  predicate Untouched(r: Ring, t: Ring, i: nat)
  {
    && |r.hdr| == |r.blk| == |t.hdr| == |t.blk| == NBLK && i < NBLK
    && t.blk[i] == r.blk[i] && t.hdr[i] == r.hdr[i] && r.queue <= t.queue
  }

  /** No step of the worker writes a block, or changes a header, that the device still
      holds, even after a stop has cut short the wait for it; only the reset that
      closes the device, after the worker has nothing more to submit, takes blocks out
      of the queue, and it leaves their samples alone. */
  lemma QueuedUntouched(s: State, c: Choice, t: State, i: nat)
    requires Reachable(s) && Shaped(s.ring) && WorkerStep(s, c) == Some(t)
    requires i < NBLK && s.ring.hdr[i].inQueue
    ensures Shaped(t.ring) && t.ring.blk[i] == s.ring.blk[i] && t.ring.hdr[i].len == s.ring.hdr[i].len
    ensures s.worker == Ending(CloseReset) || Untouched(s.ring, t.ring, i)
  {
    ReachableGood(s);
    StepKeeps(s, Worker(c));
    NotEmpty(s, i);
    match s.worker
    case Filling(rest) => FillUntouched(s, i);
    case Submit(at, back) => SubmitUntouched(s, t, i);
    case _ =>
  }

  /** When a header is queued the device is open, and not in the midst of closing. */
  lemma NotEmpty(s: State, i: nat)
    requires Good(s) && i < NBLK && s.ring.hdr[i].inQueue
    ensures s.ring.queue != [] && s.wave && s.worker != Starting
    ensures s.worker.Ending? ==> !s.worker.end.CloseHdr? && !s.worker.end.CloseDev?
    ensures i != |s.ring.sent| % NBLK || |s.ring.queue| == NBLK
  {
    hide Holds, History;
    NextIsFree(s.ring);
    assert FlagOk(s.ring.hdr[i], i, Oldest(s.ring), |s.ring.queue|);
  }

  lemma FillUntouched(s: State, i: nat)
    requires Good(s) && Shaped(s.ring) && s.worker.Filling? && i < NBLK && s.ring.hdr[i].inQueue
    ensures Untouched(s.ring, FillStep(s, s.worker.rest).ring, i)
  {
    hide RingOk, History;
    NotEmpty(s, i);
  }

  lemma SubmitUntouched(s: State, t: State, i: nat)
    requires Good(s) && Shaped(s.ring) && s.worker.Submit? && i < NBLK && s.ring.hdr[i].inQueue
    requires SubmitStep(s, s.worker.at, s.worker.back) == Some(t)
    ensures Untouched(s.ring, t.ring, i)
  {
    hide RingOk, History, Locked, Opened, Begun;
    NotEmpty(s, i);
    match s.worker.at
    case Write =>
    case Leave =>
    case _ =>
  }

  /** A block is submitted to the slot its number says, and is what was in the current
      block; no other step counts anything as sent, but the window's when it has waited
      the old job out and starts afresh. */
  lemma SubmittedInTurn(s: State, a: Action, t: State)
    requires Reachable(s) && Shaped(s.ring) && Step(s, a) == Some(t) && !(a.Window? && s.ui.Join?)
    ensures t.ring.sent == s.ring.sent
            || (&& a.Worker? && s.worker.Submit? && s.worker.at == Write && s.wave
                && t.ring.queue == s.ring.queue + [|s.ring.sent| % 8]
                && t.ring.sent == s.ring.sent + [s.ring.blk[|s.ring.sent| % 8][..s.ring.fill]])
  {
    ReachableGood(s);
    SentByWrite(s, a, t);
  }

  lemma SentByWrite(s: State, a: Action, t: State)
    requires Shaped(s.ring) && Opened(s) && Placed(s) && (s.worker.Submit? ==> s.job == Play)
    requires Step(s, a) == Some(t) && !(a.Window? && s.ui.Join?)
    ensures t.ring.sent == s.ring.sent
            || (&& a.Worker? && s.worker.Submit? && s.worker.at == Write && s.wave
                && t.ring.queue == s.ring.queue + [|s.ring.sent| % 8]
                && t.ring.sent == s.ring.sent + [s.ring.blk[|s.ring.sent| % 8][..s.ring.fill]])
  {
    if a.Worker? && s.worker.Submit? {
      SubmitSends(s, t);
    } else {
      hide Opened, Placed, Shaped;
      OthersSendNothing(s, a, t);
    }
  }

  lemma SubmitSends(s: State, t: State)
    requires Shaped(s.ring) && s.worker.Submit? && SubmitStep(s, s.worker.at, s.worker.back) == Some(t)
    ensures t.ring.sent == s.ring.sent
            || (s.worker.at == Write && t.ring.queue == s.ring.queue + [s.ring.cur]
                && t.ring.sent == s.ring.sent + [s.ring.blk[s.ring.cur][..s.ring.fill]])
  {
    match s.worker.at
    case Write =>
    case _ =>
  }

  lemma OthersSendNothing(s: State, a: Action, t: State)
    requires Shaped(s.ring) && Step(s, a) == Some(t) && !(a.Window? && s.ui.Join?) && !(a.Worker? && s.worker.Submit?)
    ensures t.ring.sent == s.ring.sent
  {
    hide Shaped;
    match a
    case Window(p) => WindowSendsNothing(s, p, t);
    case Device =>
    case Worker(c) =>
      match s.worker
      case Ending(end) => EndSame(s, t);
      case Filling(rest) =>
      case _ => MakingSendsNothing(s, c, t);
  }

  lemma WindowSendsNothing(s: State, p: Press, t: State)
    requires WindowStep(s, p) == Some(t) && !s.ui.Join?
    ensures t.ring.sent == s.ring.sent
  {
    match s.ui
    case StopReset(_) =>
    case _ =>
  }

  lemma MakingSendsNothing(s: State, c: Choice, t: State)
    requires Shaped(s.ring) && WorkerStep(s, c) == Some(t)
    requires !s.worker.Ending? && !s.worker.Submit? && !s.worker.Filling?
    ensures t.ring.sent == s.ring.sent
  {
    hide Shaped;
    match s.worker
    case Rendering =>
    case Starting =>
    case _ =>
  }

  /** What the device plays next is the oldest submission it has not played, as it was
      when it was submitted. */
  lemma PlaysWhatWasSubmitted(s: State, t: State)
    requires Reachable(s) && Shaped(s.ring) && Step(s, Device) == Some(t)
    ensures |s.ring.queue| <= |s.ring.sent|
    ensures t.ring.played == s.ring.played + s.ring.sent[|s.ring.sent| - |s.ring.queue|]
    ensures |t.ring.queue| == |s.ring.queue| - 1
  {
    ReachableGood(s);
    PlayOk(s.ring);
  }

  /** When a worker has finished, the device is closed, nothing is queued and no header
      is left prepared, however the job ended. */
  lemma FinishedLeavesNothing(s: State, i: nat)
    requires Reachable(s) && s.worker.Finished? && i < NBLK
    ensures !s.wave && s.ring.queue == [] && s.lock != ByWorker
    ensures |s.ring.hdr| == NBLK && !s.ring.hdr[i].prepared && !s.ring.hdr[i].inQueue
  {
    ReachableGood(s);
    assert FlagOk(s.ring.hdr[i], i, Oldest(s.ring), |s.ring.queue|);
  }

  /** Nothing is queued on, or prepared for, a device that is not open. */
  lemma QueuedOnlyWhenOpen(s: State, i: nat)
    requires Reachable(s) && i < NBLK && !s.wave
    ensures |s.ring.hdr| == NBLK && !s.ring.hdr[i].prepared && s.ring.queue == []
  {
    ReachableGood(s);
  }

  // ---- what is heard ----------------------------------------------------------------

  /** While a job plays, the blocks submitted, the filled part of the current block and
      what is left of the event being copied are, in order, all the audio the engine
      has made; after a stop they are a first part of it.  Every block is full but,
      once speech is over, the last. */
  lemma SpeechInOrder(s: State)
    requires Reachable(s) && s.job == Play && !s.worker.Starting?
    ensures Shaped(s.ring)
    ensures Flat(s.ring.sent) + Part(s.ring, s.worker) + Rest(s.worker) <= s.given
    ensures !s.abort ==> Flat(s.ring.sent) + Part(s.ring, s.worker) + Rest(s.worker) == s.given
    ensures forall n :: 0 <= n < |s.ring.sent| ==>
              |s.ring.sent[n]| == 2048
              || (SpeechOver(s.worker) && n == |s.ring.sent| - 1 && 0 < |s.ring.sent[n]| < 2048)
  {
    ReachableGood(s);
  }

  lemma AllPlayed(s: State)
    requires Good(s) && s.worker.Finished? && !s.abort
    ensures s.job == Play ==> s.ring.played == s.given
    ensures s.job == Export && !s.refused ==> s.pcm == s.given
  {
    if s.job == Play {
      assert s.ring.sent[..Oldest(s.ring)] == s.ring.sent;
      assert Taken(s) == Flat(s.ring.sent);
    }
  }

  /** A playing job that nobody stopped ends with every sample heard, in order and once. */
  lemma FinishedPlayedAll(s: State)
    requires Reachable(s) && s.worker.Finished? && s.job == Play && !s.abort
    ensures s.ring.played == s.given
  {
    ReachableGood(s);
    AllPlayed(s);
  }

  /** An export submits nothing and never opens the device; while the heap has room it
      collects every sample, and never more than there were. */
  lemma ExportCollectsAll(s: State)
    requires Reachable(s) && s.job == Export && !s.worker.Starting?
    ensures !s.wave && s.ring.sent == [] && |s.pcm| <= |s.given|
    ensures !s.refused ==> s.pcm <= s.given && (!s.abort ==> s.pcm == s.given)
  {
    ReachableGood(s);
  }

  // ---- stopping ---------------------------------------------------------------------

  /** An upper bound on the steps left to a worker that has been told to stop. */
  function WorkerRank(pc: Pc): int
  {
    match pc
    case Absent => 0
    case Finished => 0
    case Ending(end) => EndRank(end)
    case Submit(at, back) => SubRank(at) + (if back.Tail? then 24 else 33)
    case Rendering => 32
    case Filling(rest) => 41 + |rest|
    case OpenLeave => 33
    case OpenDo => 34
    case OpenEnter => 35
    case Starting => 36
  }

  function EndRank(end: End): int
  {
    match end
    case CloseLeave => 1
    case CloseDev => 2
    case CloseHdr(i) => 11 - i
    case CloseReset => 12
    case CloseEnter => 13
    case Drain => 14
    case Scan(i, _) => 23 - i
  }

  function SubRank(at: Sub): nat
  {
    match at
    case After => 0
    case Wait => 1
    case Leave => 2
    case Write => 3
    case Prepare => 4
    case Zero => 5
    case Unprepare => 6
    case Enter => 7
  }

  function WindowRank(ui: Ui): nat
  {
    match ui
    case StopEnter(_) => 4
    case StopReset(_) => 3
    case StopLeave(_) => 2
    case Join(_) => 1
    case _ => 0
  }

  function Rank(s: State): int
  {
    WorkerRank(s.worker) + WindowRank(s.ui)
  }

  /** The engine, told by the callback's result to stop, makes no more audio. */
  predicate Heeds(a: Action)
  {
    a.Worker? ==> !a.choice.Event?
  }

  lemma EndNearer(s: State, t: State)
    requires Shaped(s.ring) && Room(s) && s.abort && s.worker.Ending? && EndStep(s, s.worker.end) == Some(t)
    ensures t.ui == s.ui && t.abort && 0 <= WorkerRank(t.worker) < WorkerRank(s.worker)
  {
    var i := if s.worker.end.CloseHdr? then s.worker.end.i else 0;
    assert i <= NBLK;
    hide Room, Shaped, Reset, SetHdr;
    match s.worker.end
    case CloseHdr(_) =>
    case Scan(_, _) =>
    case _ =>
  }

  lemma SubmitNearer(s: State, t: State)
    requires Shaped(s.ring) && s.abort && s.worker.Submit? && SubmitStep(s, s.worker.at, s.worker.back) == Some(t)
    ensures t.ui == s.ui && t.abort && 0 <= WorkerRank(t.worker) < WorkerRank(s.worker)
  {
    hide Shaped, SetHdr, Written, Turned, Unprepared;
    match s.worker.at
    case After =>
    case _ =>
  }

  /** Once told to stop, every step of the worker brings it nearer its end. */
  lemma WorkerNearer(s: State, c: Choice, t: State)
    requires Shaped(s.ring) && Room(s) && s.abort && !c.Event? && WorkerStep(s, c) == Some(t)
    ensures t.ui == s.ui && t.abort && 0 <= WorkerRank(t.worker) < WorkerRank(s.worker)
  {
    hide Shaped, Room;
    match s.worker
    case Ending(_) => EndNearer(s, t);
    case Submit(_, _) => SubmitNearer(s, t);
    case Filling(_) => FillNearer(s, t);
    case _ =>
  }

  lemma FillNearer(s: State, t: State)
    requires Shaped(s.ring) && Room(s) && s.abort && s.worker.Filling? && FillStep(s, s.worker.rest) == t
    ensures t.ui == s.ui && t.abort && 0 <= WorkerRank(t.worker) < WorkerRank(s.worker)
  {
  }

  lemma WindowNearer(s: State, t: State)
    requires Stopping(s.ui) && WindowStep(s, NoPress) == Some(t)
    ensures s.ui.Join? ==> t.ui.Idle? && (t.worker.Absent? || t.worker.Starting?)
    ensures !s.ui.Join? ==> Stopping(t.ui) && t.worker == s.worker && WindowRank(t.ui) < WindowRank(s.ui)
  {
  }

  /** A stop is never stuck: the window can move, or the worker can whatever the engine
      and the device answer. */
  lemma StopNeverStuck(s: State, c: Choice)
    requires Reachable(s) && Stopping(s.ui) && c == (if s.worker.OpenDo? then Open(false) else Return)
    ensures Shaped(s.ring) && (WindowStep(s, NoPress).Some? || WorkerStep(s, c).Some?)
  {
    ReachableGood(s);
    NeverStuck(s, c);
  }

  lemma NeverStuck(s: State, c: Choice)
    requires Shaped(s.ring) && Locked(s) && Stopping(s.ui) && c == (if s.worker.OpenDo? then Open(false) else Return)
    ensures WindowStep(s, NoPress).Some? || WorkerStep(s, c).Some?
  {
  }

  /** The steps of the worker and the window; what the device does in between is free. */
  function Moves(actions: seq<Action>): nat
  {
    if actions == [] then 0 else (if actions[0].Device? then 0 else 1) + Moves(actions[1..])
  }

  /** The window has not yet come back from the stop anywhere along these actions. */
  predicate StillStopping(s: State, actions: seq<Action>)
    decreases |actions|
  {
    && Stopping(s.ui)
    && (actions != [] ==>
          && Heeds(actions[0]) && Shaped(s.ring) && Step(s, actions[0]).Some?
          && StillStopping(Step(s, actions[0]).value, actions[1..]))
  }

  /** A stop always gets through: whatever the order of the threads, and whatever the
      device does or fails to do, the window is back after a bounded number of steps. */
  lemma {:induction false} StopGetsThrough(s: State, actions: seq<Action>)
    requires Reachable(s) && StillStopping(s, actions)
    ensures Moves(actions) <= Rank(s)
  {
    ReachableGood(s);
    StopBounded(s, actions);
  }

  lemma {:induction false} StopBounded(s: State, actions: seq<Action>)
    requires Good(s) && StillStopping(s, actions)
    ensures Moves(actions) <= Rank(s)
    decreases |actions|
  {
    RankNatural(s);
    if actions == [] {
    } else {
      var t := Step(s, actions[0]).value;
      StepKeeps(s, actions[0]);
      StopBounded(t, actions[1..]);
      match actions[0]
      case Worker(c) => WorkerNearer(s, c, t);
      case Window(p) => WindowNearer(s, t);
      case Device =>
    }
  }

  lemma RankNatural(s: State)
    requires Good(s)
    ensures 0 <= Rank(s)
  {
    hide Good;
    RoomBounds(s);
  }

  /** The counters of the scans stay within the ring. */
  lemma RoomBounds(s: State)
    requires Good(s)
    ensures s.worker.Ending? && s.worker.end.Scan? ==> s.worker.end.i <= NBLK
    ensures s.worker.Ending? && s.worker.end.CloseHdr? ==> s.worker.end.i <= NBLK
  {
    assert Shaped(s.ring);
    hide RingOk, Locked, Opened, Begun, Placed, History;
  }
}
