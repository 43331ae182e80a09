/** Playing speech while it is made (gui/speakwin.c): a worker thread fills a ring of
    eight blocks, the device plays them in order, and the window may pause, stop or
    start something else at any moment.

    One step is one thing a thread does that another can see; every interleaving of
    steps is a run.  The device is a queue: writing a header puts it in, blocks
    complete in order, a reset empties it.  Waiting for the thread is a true join. */
module AudioRing {
  import opened Wrappers

  const NBLK := 8
  const BLKSAMP := 2048

  type Sample = int

  /** The flags a header carries and its length in samples. */
  datatype Hdr = Hdr(prepared: bool, inQueue: bool, len: nat)

  const NoHdr := Hdr(false, false, 0)

  /** The blocks, their headers and the device's queue; and what has happened since the
      job began: the blocks submitted, the samples played. */
  datatype Ring = Ring(
    hdr: seq<Hdr>, blk: seq<seq<Sample>>, cur: nat, fill: nat, queue: seq<nat>,
    sent: seq<seq<Sample>>, played: seq<Sample>)

  predicate Shaped(r: Ring)
  {
    && |r.hdr| == |r.blk| == NBLK && r.cur < NBLK && r.fill <= BLKSAMP
    && forall i :: 0 <= i < NBLK ==> |r.blk[i]| == BLKSAMP
  }

  // ---- what happens to the ring -----------------------------------------------------

  function Restarted(r: Ring): Ring
  {
    r.(cur := 0, fill := 0, hdr := seq(NBLK, i => NoHdr))
  }

  /** Samples copied into the current block. */
  function Filled(r: Ring, samples: seq<Sample>): Ring
    requires Shaped(r) && r.fill + |samples| <= BLKSAMP
  {
    var b := r.blk[r.cur];
    r.(blk := r.blk[r.cur := b[..r.fill] + samples + b[r.fill + |samples|..]], fill := r.fill + |samples|)
  }

  function SetHdr(r: Ring, i: nat, h: Hdr): Ring
    requires i < |r.hdr|
  {
    r.(hdr := r.hdr[i := h])
  }

  /** waveOutUnprepareHeader, called for a prepared header; it refuses one still queued. */
  function Unprepared(h: Hdr): Hdr
  {
    if h.prepared && !h.inQueue then h.(prepared := false) else h
  }

  /** waveOutWrite of the current block. */
  function Written(r: Ring): Ring
    requires Shaped(r)
  {
    r.(hdr := r.hdr[r.cur := r.hdr[r.cur].(inQueue := true)], queue := r.queue + [r.cur],
       sent := r.sent + [r.blk[r.cur][..r.fill]])
  }

  function Turned(r: Ring): Ring
  {
    r.(cur := (r.cur + 1) % NBLK, fill := 0)
  }

  /** The device has a block it can play. */
  predicate CanPlay(r: Ring)
  {
    && r.queue != [] && r.queue[0] < |r.hdr| && r.queue[0] < |r.blk|
    && r.hdr[r.queue[0]].len <= |r.blk[r.queue[0]]|
  }

  /** The block at the head of the queue has been played. */
  function Played(r: Ring): Ring
    requires CanPlay(r)
  {
    var i := r.queue[0];
    r.(queue := r.queue[1..],
       hdr := r.hdr[i := r.hdr[i].(inQueue := false)],
       played := r.played + r.blk[i][..r.hdr[i].len])
  }

  /** waveOutReset: nothing is queued any more. */
  function Reset(r: Ring): Ring
  {
    r.(queue := [], hdr := seq(|r.hdr|, i requires 0 <= i < |r.hdr| => r.hdr[i].(inQueue := false)))
  }

  // ---- the program ------------------------------------------------------------------

  datatype Lock = Free | ByWorker | ByUi

  datatype Job = Play | Export

  /** Where a submission goes back to: the event being copied, or the end of speech. */
  datatype Back = More(rest: seq<Sample>) | Tail

  /** Inside `submit_block`, and the wait at its end. */
  datatype Sub = Enter | Unprepare | Zero | Prepare | Write | Leave | Wait | After

  /** The end of `worker`: letting the queue play out, then closing the device. */
  datatype End = Drain | Scan(i: nat, busy: bool) | CloseEnter | CloseReset | CloseHdr(i: nat) | CloseDev | CloseLeave

  datatype Pc =
    | Absent
    | Starting | OpenEnter | OpenDo | OpenLeave
    | Rendering
    | Filling(rest: seq<Sample>)
    | Submit(at: Sub, back: Back)
    | Ending(end: End)
    | Finished

  /** Where the window is: `Stop*` is `stop_speech`, `next` what it will start after. */
  datatype Ui =
    | Idle
    | StopEnter(next: Option<Job>) | StopReset(next: Option<Job>) | StopLeave(next: Option<Job>)
    | Join(next: Option<Job>)
    | PauseEnter(hold: bool) | PauseDo(hold: bool) | PauseLeave

  /** The program's globals.  Since the job began, `given` is all the engine has made, and
      `refused` whether the heap has refused an export room for more. */
  datatype State = State(
    worker: Pc, ui: Ui, job: Job, lock: Lock, abort: bool, wave: bool, paused: bool,
    ring: Ring, pcm: seq<Sample>, given: seq<Sample>, refused: bool)

  predicate Init(s: State)
  {
    && s.worker == Absent && s.ui == Idle && s.lock == Free && !s.abort && !s.wave && !s.refused
    && Shaped(s.ring) && s.ring.cur == 0 && s.ring.fill == 0 && s.ring.queue == [] && s.ring.sent == []
    && (forall i :: 0 <= i < NBLK ==> s.ring.hdr[i] == NoHdr)
    && s.pcm == s.given == s.ring.played == []
  }

  // ---- the worker -------------------------------------------------------------------

  /** What the worker cannot decide itself: whether the device opens, what the engine
      does next, and whether there is room in the heap for what it has made. */
  datatype Choice = Open(ok: bool) | Event(samples: seq<Sample>, room: bool) | Return | Nothing

  function WorkerStep(s: State, c: Choice): Option<State>
    requires Shaped(s.ring)
  {
    match s.worker
    case Absent => None
    case Finished => None
    case Rendering => RenderStep(s, c)
    case Filling(rest) => Some(FillStep(s, rest))
    case Submit(at, back) => SubmitStep(s, at, back)
    case Ending(end) => EndStep(s, end)
    case _ => OpenStep(s, c)
  }

  function OpenStep(s: State, c: Choice): Option<State>
  {
    match s.worker
    case Starting =>
      Some(s.(ring := Restarted(s.ring), pcm := [], worker := if s.job == Export then Rendering else OpenEnter))
    case OpenEnter => if s.lock == Free then Some(s.(lock := ByWorker, worker := OpenDo)) else None
    case OpenDo => if c.Open? then Some(s.(wave := c.ok, paused := false, worker := OpenLeave)) else None
    case OpenLeave => Some(s.(lock := Free, worker := if s.wave then Rendering else Finished))
    case _ => None
  }

  /** The engine makes audio and calls `on_audio` with it, or returns. */
  function RenderStep(s: State, c: Choice): Option<State>
  {
    match c
    case Event(samples, room) =>
      var t := s.(given := s.given + samples);
      Some(if s.abort then t
           else if s.job == Export then if room then t.(pcm := s.pcm + samples) else t.(refused := true)
           else t.(worker := Filling(samples)))
    case Return =>
      Some(s.(worker := if s.job == Export then Finished
                        else if s.ring.fill == 0 then Ending(Drain)
                        else Submit(Enter, Tail)))
    case _ => None
  }

  /** One turn of the copying loop, and on to submitting the block when it is full. */
  function FillStep(s: State, rest: seq<Sample>): State
    requires Shaped(s.ring)
  {
    if rest == [] then s.(worker := Rendering)
    else
      var room := BLKSAMP - s.ring.fill;
      var take := if |rest| < room then |rest| else room;
      var r := Filled(s.ring, rest[..take]);
      s.(ring := r, worker := if r.fill == BLKSAMP then Submit(Enter, More(rest[take..])) else Filling(rest[take..]))
  }

  function SubmitStep(s: State, at: Sub, back: Back): Option<State>
    requires Shaped(s.ring)
  {
    var r := s.ring;
    match at
    case Enter =>
      if s.lock == Free then Some(s.(lock := ByWorker, worker := Submit(if s.wave then Unprepare else Leave, back)))
      else None
    case Unprepare => Some(s.(ring := SetHdr(r, r.cur, Unprepared(r.hdr[r.cur])), worker := Submit(Zero, back)))
    case Zero => Some(s.(ring := SetHdr(r, r.cur, NoHdr.(len := r.fill)), worker := Submit(Prepare, back)))
    case Prepare => Some(s.(ring := SetHdr(r, r.cur, r.hdr[r.cur].(prepared := true)), worker := Submit(Write, back)))
    case Write => Some(s.(ring := Written(r), worker := Submit(Leave, back)))
    case Leave => Some(s.(lock := Free, ring := Turned(r), worker := Submit(Wait, back)))
    case Wait => Some(if !r.hdr[r.cur].inQueue || s.abort then s.(worker := Submit(After, back)) else s)
    case After =>
      Some(s.(worker := if back.Tail? then Ending(Drain) else if s.abort then Rendering else Filling(back.rest)))
  }

  function EndStep(s: State, end: End): Option<State>
    requires Shaped(s.ring)
  {
    var r := s.ring;
    match end
    case Drain => Some(s.(worker := Ending(if s.abort then CloseEnter else Scan(0, false))))
    case Scan(i, busy) =>
      Some(s.(worker := Ending(if i < NBLK then Scan(i + 1, busy || r.hdr[i].inQueue)
                               else if busy then Drain else CloseEnter)))
    case CloseEnter =>
      if s.lock == Free then Some(s.(lock := ByWorker, worker := Ending(if s.wave then CloseReset else CloseLeave)))
      else None
    case CloseReset => Some(s.(ring := Reset(r), worker := Ending(CloseHdr(0))))
    case CloseHdr(i) =>
      Some(if i < NBLK then s.(ring := SetHdr(r, i, Unprepared(r.hdr[i])), worker := Ending(CloseHdr(i + 1)))
           else s.(worker := Ending(CloseDev)))
    case CloseDev => Some(s.(wave := s.wave && r.queue != [], worker := Ending(CloseLeave)))
    case CloseLeave => Some(s.(lock := Free, worker := Finished))
  }

  // ---- the window -------------------------------------------------------------------

  /** What the user asks for: stop (and perhaps start a job), or pause and resume. */
  datatype Press = Stop(next: Option<Job>) | Pause(hold: bool) | NoPress

  function WindowStep(s: State, p: Press): Option<State>
  {
    match s.ui
    case Idle =>
      (match p
       case Stop(next) => Some(s.(abort := true, ui := StopEnter(next)))
       case Pause(hold) => Some(s.(ui := PauseEnter(hold)))
       case NoPress => None)
    case StopEnter(next) => if s.lock == Free then Some(s.(lock := ByUi, ui := StopReset(next))) else None
    case StopReset(next) =>
      Some(if s.wave then s.(ring := Reset(s.ring), paused := false, ui := StopLeave(next))
           else s.(ui := StopLeave(next)))
    case StopLeave(next) => Some(s.(lock := Free, ui := Join(next)))
    case Join(next) => if s.worker.Absent? || s.worker.Finished? then Some(Joined(s, next)) else None
    case PauseEnter(hold) => if s.lock == Free then Some(s.(lock := ByUi, ui := PauseDo(hold))) else None
    case PauseDo(hold) => Some(s.(paused := if s.wave then hold else s.paused, ui := PauseLeave))
    case PauseLeave => Some(s.(lock := Free, ui := Idle))
  }

  /** The old thread is gone; a new job begins with nothing made, sent or played. */
  function Joined(s: State, next: Option<Job>): State
  {
    match next
    case None => s.(worker := Absent, ui := Idle)
    case Some(job) =>
      s.(worker := Starting, ui := Idle, abort := false, job := job, given := [], refused := false,
         ring := s.ring.(sent := [], played := []))
  }

  // ---- runs -------------------------------------------------------------------------

  datatype Action = Worker(choice: Choice) | Window(press: Press) | Device

  function Step(s: State, a: Action): Option<State>
    requires Shaped(s.ring)
  {
    match a
    case Worker(c) => WorkerStep(s, c)
    case Window(p) => WindowStep(s, p)
    case Device => if s.wave && !s.paused && CanPlay(s.ring) then Some(s.(ring := Played(s.ring))) else None
  }
}
