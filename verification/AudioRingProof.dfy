/** What every run of the audio ring keeps (gui/speakwin.c): the invariant, and that every
    step of the worker, the device and the window keeps it.

    The invariant has three parts.  The ring itself: the queue is the last submissions,
    each in its slot as it was made, and the headers' flags say so.  Control: who holds
    the lock, when the device is open, how full the current block is, and that it is
    free whenever samples may go into it.  History: what was submitted, what is in the
    current block and what is left of the event are all the audio there has been, and
    what is not queued any more has been played.

    The ring's part is kept by each change to the ring; the other parts by each kind of
    step, one small lemma at a time. */
module AudioRingProof {
  import opened Wrappers
  import opened AudioRing

  function Flat(blocks: seq<seq<Sample>>): seq<Sample>
  {
    if blocks == [] then [] else Flat(blocks[..|blocks| - 1]) + blocks[|blocks| - 1]
  }

  lemma FlatPush(blocks: seq<seq<Sample>>, b: seq<Sample>)
    ensures Flat(blocks + [b]) == Flat(blocks) + b
  {
    assert (blocks + [b])[..|blocks|] == blocks;
  }

  lemma FlatNext(blocks: seq<seq<Sample>>, k: nat)
    requires k < |blocks|
    ensures Flat(blocks[..k + 1]) == Flat(blocks[..k]) + blocks[k]
  {
    assert blocks[..k + 1] == blocks[..k] + [blocks[k]];
    FlatPush(blocks[..k], blocks[k]);
  }

  // ---- the ring ---------------------------------------------------------------------

  /** The submissions still queued are the last |queue| of them; this is the first. */
  function Oldest(r: Ring): int
  {
    |r.sent| - |r.queue|
  }

  /** Header `i` is queued exactly when one of the submissions m..m+q went to slot `i`. */
  predicate FlagOk(h: Hdr, i: nat, m: int, q: nat)
  {
    && (h.inQueue <==> (i - m) % NBLK < q)
    && (h.inQueue ==> h.prepared)
  }

  /** Submission `n` is still in its slot as it was made. */
  predicate Holds(r: Ring, n: nat)
    requires Shaped(r) && n < |r.sent|
  {
    && r.hdr[n % NBLK].len == |r.sent[n]| <= BLKSAMP
    && r.blk[n % NBLK][..|r.sent[n]|] == r.sent[n]
  }

  /** The queue is the last submissions, each in its slot, and the flags say so. */
  predicate RingOk(r: Ring)
  {
    && Shaped(r) && |r.queue| <= NBLK && 0 <= Oldest(r)
    && (forall k :: 0 <= k < |r.queue| ==> r.queue[k] == (Oldest(r) + k) % NBLK)
    && (forall i :: 0 <= i < NBLK ==> FlagOk(r.hdr[i], i, Oldest(r), |r.queue|))
    && (forall n :: Oldest(r) <= n < |r.sent| ==> Holds(r, n))
  }

  lemma NextIsFree(r: Ring)
    requires RingOk(r)
    ensures |r.queue| <= NBLK
    ensures r.hdr[|r.sent| % NBLK].inQueue <==> |r.queue| == NBLK
  {
    assert FlagOk(r.hdr[|r.sent| % NBLK], |r.sent| % NBLK, Oldest(r), |r.queue|);
  }

  predicate Quiet(r: Ring, k: nat)
  {
    k <= |r.hdr| && forall i :: 0 <= i < k ==> !r.hdr[i].inQueue
  }

  predicate Unready(r: Ring, k: nat)
  {
    k <= |r.hdr| && forall i :: 0 <= i < k ==> !r.hdr[i].prepared
  }

  lemma OldestIsBusy(r: Ring)
    requires RingOk(r) && r.queue != []
    ensures r.hdr[Oldest(r) % NBLK].inQueue
  {
    var i := Oldest(r) % NBLK;
    assert FlagOk(r.hdr[i], i, Oldest(r), |r.queue|);
  }

  lemma QuietIsEmpty(r: Ring)
    requires RingOk(r) && Quiet(r, NBLK)
    ensures r.queue == []
  {
    if r.queue != [] {
      OldestIsBusy(r);
    }
  }

  /** Two submissions less than eight apart are in different slots. */
  lemma SlotsApart(a: nat, b: nat)
    requires a < b < a + NBLK
    ensures a % NBLK != b % NBLK
  {
  }

  lemma RestartOk(r: Ring)
    requires Shaped(r) && r.queue == [] && r.sent == []
    ensures RingOk(Restarted(r))
  {
    var t := Restarted(r);
    forall i | 0 <= i < NBLK
      ensures FlagOk(t.hdr[i], i, 0, 0)
    {
    }
  }

  /** Filling the next block touches nothing that is queued. */
  lemma FillOk(r: Ring, samples: seq<Sample>)
    requires RingOk(r) && |r.queue| < NBLK && r.cur == |r.sent| % NBLK && r.fill + |samples| <= BLKSAMP
    ensures RingOk(Filled(r, samples))
    ensures Filled(r, samples).blk[r.cur][..r.fill + |samples|] == r.blk[r.cur][..r.fill] + samples
  {
    var t := Filled(r, samples);
    forall n | Oldest(t) <= n < |t.sent|
      ensures Holds(t, n)
    {
      assert Holds(r, n);
      SlotsApart(n, |r.sent|);
    }
  }

  /** Nor does changing the next block's header. */
  lemma SetNextOk(r: Ring, h: Hdr)
    requires RingOk(r) && |r.queue| < NBLK && r.cur == |r.sent| % NBLK && !h.inQueue
    ensures !r.hdr[r.cur].inQueue
    ensures RingOk(SetHdr(r, r.cur, h))
  {
    var t := SetHdr(r, r.cur, h);
    NextIsFree(r);
    forall i | 0 <= i < NBLK
      ensures FlagOk(t.hdr[i], i, Oldest(t), |t.queue|)
    {
      assert FlagOk(r.hdr[i], i, Oldest(r), |r.queue|);
    }
    forall n | Oldest(t) <= n < |t.sent|
      ensures Holds(t, n)
    {
      assert Holds(r, n);
      SlotsApart(n, |r.sent|);
    }
  }

  /** The flags after the next submission. */
  lemma FlagPushed(h: Hdr, i: nat, m: nat, q: nat)
    requires FlagOk(h, i, m, q) && q < NBLK && i < NBLK && (i == (m + q) % NBLK ==> h.prepared)
    ensures FlagOk(if i == (m + q) % NBLK then h.(inQueue := true) else h, i, m, q + 1)
  {
  }

  lemma WriteOk(r: Ring)
    requires RingOk(r) && |r.queue| < NBLK && r.cur == |r.sent| % NBLK
    requires r.hdr[r.cur].prepared && r.hdr[r.cur].len == r.fill
    ensures RingOk(Written(r)) && Oldest(Written(r)) == Oldest(r)
  {
    var t := Written(r);
    forall i | 0 <= i < NBLK
      ensures FlagOk(t.hdr[i], i, Oldest(t), |t.queue|)
    {
      FlagPushed(r.hdr[i], i, Oldest(r), |r.queue|);
    }
    forall n | Oldest(t) <= n < |t.sent|
      ensures Holds(t, n)
    {
      if n < |r.sent| {
        assert Holds(r, n);
        SlotsApart(n, |r.sent|);
      }
    }
  }

  lemma TurnOk(r: Ring)
    requires RingOk(r)
    ensures RingOk(Turned(r))
  {
    var t := Turned(r);
    forall n | Oldest(t) <= n < |t.sent|
      ensures Holds(t, n)
    {
      assert Holds(r, n);
    }
  }

  /** The flags after the head of the queue has gone. */
  lemma FlagPopped(h: Hdr, i: nat, m: nat, q: nat)
    requires FlagOk(h, i, m, q) && 0 < q <= NBLK && i < NBLK
    ensures FlagOk(if i == m % NBLK then h.(inQueue := false) else h, i, m + 1, q - 1)
  {
  }

  lemma PlayOk(r: Ring)
    requires RingOk(r) && CanPlay(r)
    ensures r.queue[0] == Oldest(r) % NBLK && Played(r).played == r.played + r.sent[Oldest(r)]
    ensures RingOk(Played(r)) && Oldest(Played(r)) == Oldest(r) + 1
  {
    var t := Played(r);
    assert r.queue[0] == (Oldest(r) + 0) % NBLK;
    assert Holds(r, Oldest(r));
    forall i | 0 <= i < NBLK
      ensures FlagOk(t.hdr[i], i, Oldest(t), |t.queue|)
    {
      FlagPopped(r.hdr[i], i, Oldest(r), |r.queue|);
    }
    forall k | 0 <= k < |t.queue|
      ensures t.queue[k] == (Oldest(t) + k) % NBLK
    {
      assert r.queue[k + 1] == (Oldest(r) + (k + 1)) % NBLK;
    }
    forall n | Oldest(t) <= n < |t.sent|
      ensures Holds(t, n)
    {
      assert Holds(r, n);
    }
  }

  lemma ResetOk(r: Ring)
    requires RingOk(r)
    ensures RingOk(Reset(r))
  {
    var t := Reset(r);
    forall i | 0 <= i < NBLK
      ensures FlagOk(t.hdr[i], i, Oldest(t), |t.queue|)
    {
    }
  }

  /** Headers may be unprepared once nothing is queued. */
  lemma UnprepareOk(r: Ring, k: nat)
    requires RingOk(r) && r.queue == [] && k < NBLK && Unready(r, k)
    ensures RingOk(SetHdr(r, k, Unprepared(r.hdr[k])))
    ensures Unready(SetHdr(r, k, Unprepared(r.hdr[k])), k + 1)
  {
    var t := SetHdr(r, k, Unprepared(r.hdr[k]));
    forall i | 0 <= i < NBLK
      ensures FlagOk(t.hdr[i], i, Oldest(t), |t.queue|)
    {
      assert FlagOk(r.hdr[i], i, Oldest(r), |r.queue|);
    }
    assert FlagOk(r.hdr[k], k, Oldest(r), |r.queue|);
  }

  /** A job may begin when nothing is queued. */
  lemma AfreshOk(r: Ring)
    requires RingOk(r) && r.queue == []
    ensures RingOk(r.(sent := [], played := []))
  {
    var t := r.(sent := [], played := []);
    forall i | 0 <= i < NBLK
      ensures FlagOk(t.hdr[i], i, 0, 0)
    {
      assert FlagOk(r.hdr[i], i, Oldest(r), |r.queue|);
    }
  }

  // ---- the invariant ----------------------------------------------------------------

  predicate WorkerLocked(pc: Pc)
  {
    match pc
    case OpenDo => true
    case OpenLeave => true
    case Submit(at, _) => at != Enter && at != Wait && at != After
    case Ending(end) => end.CloseReset? || end.CloseHdr? || end.CloseDev? || end.CloseLeave?
    case _ => false
  }

  predicate WindowLocked(ui: Ui)
  {
    ui.StopReset? || ui.StopLeave? || ui.PauseDo? || ui.PauseLeave?
  }

  predicate Stopping(ui: Ui)
  {
    ui.StopEnter? || ui.StopReset? || ui.StopLeave? || ui.Join?
  }

  predicate Locked(s: State)
  {
    && (s.lock == ByWorker <==> WorkerLocked(s.worker))
    && (s.lock == ByUi <==> WindowLocked(s.ui))
    && (Stopping(s.ui) ==> s.abort)
  }

  /** Between opening the device and closing it. */
  predicate Open(pc: Pc)
  {
    pc.Rendering? || pc.Filling? || pc.Submit? || (pc.Ending? && !pc.end.CloseLeave?)
  }

  /** When the device is open, and that nothing is queued or prepared when it is not. */
  predicate Opened(s: State)
    requires Shaped(s.ring)
  {
    && (s.wave ==> s.worker.OpenLeave? || Open(s.worker))
    && (s.job == Play && Open(s.worker) ==> s.wave)
    && (!s.wave ==> s.ring.queue == [] && Unready(s.ring, NBLK))
  }

  /** How full the current block is, and that it is free whenever samples may go into
      it, though the wait for it may have been given up. */
  predicate Room(s: State)
    requires Shaped(s.ring)
  {
    var r := s.ring;
    match s.worker
    case Rendering => r.fill < BLKSAMP && (|r.queue| < NBLK || (s.abort && r.fill == 0))
    case Filling(_) => r.fill < BLKSAMP && |r.queue| < NBLK
    case Submit(at, back) =>
      && (at == Wait || at == After ==> r.fill == 0)
      && (at != Wait && at != After ==> 0 < r.fill && (r.fill == BLKSAMP <==> back.More?))
      && (at == Wait || at == Leave || |r.queue| < NBLK || (at == After && s.abort))
      && (at == Prepare || at == Write ==> r.hdr[r.cur].len == r.fill)
      && (at == Write ==> r.hdr[r.cur].prepared)
    case Ending(end) => r.fill == 0 && EndRoom(s, end)
    case _ => r.fill == 0
  }

  predicate EndRoom(s: State, end: End)
    requires Shaped(s.ring)
  {
    match end
    case Drain => true
    case Scan(i, busy) => i <= NBLK && (busy || Quiet(s.ring, i))
    case CloseEnter => s.abort || s.ring.queue == []
    case CloseReset => s.abort || s.ring.queue == []
    case CloseHdr(i) => s.ring.queue == [] && Unready(s.ring, i)
    case CloseDev => s.ring.queue == [] && Unready(s.ring, NBLK)
    case CloseLeave => true
  }

  /** What a job has done before it opens, and that an export never submits. */
  predicate Begun(s: State)
  {
    && (s.worker.Starting? || s.worker.OpenEnter? || s.worker.OpenDo? || s.worker.OpenLeave? ==>
          s.ring.sent == [] && s.ring.played == [] && s.given == [])
    && (s.refused ==> s.job == Export)
    && (s.job == Export ==>
          !s.wave && s.ring.sent == [] && s.ring.fill == 0
          && (s.worker.Absent? || s.worker.Starting? || s.worker.Rendering? || s.worker.Finished?))
  }

  /** Which slot is next. */
  predicate Placed(s: State)
  {
    match s.worker
    case Absent => true
    case Starting => true
    case Finished => true
    case Submit(at, _) =>
      if at == Leave then s.ring.sent != [] && s.ring.cur == (|s.ring.sent| - 1) % NBLK
      else s.ring.cur == |s.ring.sent| % NBLK
    case _ => s.ring.cur == |s.ring.sent| % NBLK
  }

  predicate Control(s: State)
    requires Shaped(s.ring)
  {
    Locked(s) && Opened(s) && Room(s) && Begun(s) && Placed(s)
  }

  /** The last block may be short only once speech has ended. */
  predicate SpeechOver(pc: Pc)
  {
    match pc
    case Submit(at, back) => back.Tail? && (at == Leave || at == Wait || at == After)
    case Ending(_) => true
    case Finished => true
    case Absent => true
    case _ => false
  }

  predicate Sized(sent: seq<seq<Sample>>, over: bool)
  {
    forall n :: 0 <= n < |sent| ==>
      |sent[n]| == BLKSAMP || (over && n == |sent| - 1 && 0 < |sent[n]| < BLKSAMP)
  }

  /** The samples of the event being copied that are not yet in a block. */
  function Rest(pc: Pc): seq<Sample>
  {
    match pc
    case Filling(rest) => rest
    case Submit(_, More(rest)) => rest
    case _ => []
  }

  /** The current block as far as it is filled; once written it counts as sent. */
  function Part(r: Ring, pc: Pc): seq<Sample>
    requires Shaped(r)
  {
    if pc.Submit? && pc.at == Leave then [] else r.blk[r.cur][..r.fill]
  }

  /** Everything taken from the engine: submitted, in the current block, still to copy. */
  function Taken(s: State): seq<Sample>
    requires Shaped(s.ring)
  {
    if s.job == Export then s.pcm else Flat(s.ring.sent) + Part(s.ring, s.worker) + Rest(s.worker)
  }

  /** A step that leaves the blocks and the event alone takes nothing more. */
  lemma SameTaken(s: State, t: State)
    requires Shaped(s.ring) && Shaped(t.ring) && t.job == s.job && t.pcm == s.pcm
    requires t.ring.blk == s.ring.blk && t.ring.cur == s.ring.cur && t.ring.fill == s.ring.fill
    requires t.ring.sent == s.ring.sent && Rest(t.worker) == Rest(s.worker)
    requires s.worker.Submit? && s.worker.at == Leave <==> t.worker.Submit? && t.worker.at == Leave
    ensures Taken(t) == Taken(s)
  {
  }

  predicate Kept(taken: seq<Sample>, given: seq<Sample>, abort: bool)
  {
    taken <= given && (!abort ==> taken == given)
  }

  /** What the device has played when nobody has stopped it: all but what is queued. */
  predicate Heard(r: Ring)
  {
    0 <= Oldest(r) && r.played == Flat(r.sent[..Oldest(r)])
  }

  predicate History(s: State)
    requires Shaped(s.ring)
  {
    && Sized(s.ring.sent, SpeechOver(s.worker))
    && (s.worker.Starting? || s.refused || Kept(Taken(s), s.given, s.abort))
    && (s.worker.Starting? || |s.pcm| <= |s.given|)
    && (s.abort || Heard(s.ring))
  }

  /** A step that leaves the blocks, the event and the queue alone keeps the history. */
  lemma SameHistory(s: State, t: State)
    requires Shaped(s.ring) && Shaped(t.ring) && !s.worker.Starting? && History(s)
    requires t.job == s.job && t.pcm == s.pcm && t.given == s.given && (s.abort ==> t.abort)
    requires (s.refused ==> t.refused)
    requires t.ring.blk == s.ring.blk && t.ring.cur == s.ring.cur && t.ring.fill == s.ring.fill
    requires t.ring.sent == s.ring.sent && Rest(t.worker) == Rest(s.worker)
    requires s.worker.Submit? && s.worker.at == Leave <==> t.worker.Submit? && t.worker.at == Leave
    requires t.abort || (t.ring.queue == s.ring.queue && t.ring.played == s.ring.played)
    requires SpeechOver(s.worker) ==> SpeechOver(t.worker)
    ensures History(t)
  {
    hide Taken, Flat;
    SameTaken(s, t);
  }

  predicate Good(s: State)
  {
    RingOk(s.ring) && Control(s) && History(s)
  }

  // ---- the worker's steps -----------------------------------------------------------

  lemma OpenKeeps(s: State, c: Choice)
    requires Good(s) && OpenStep(s, c).Some?
    ensures Good(OpenStep(s, c).value)
  {
    if s.worker.Starting? {
      RestartOk(s.ring);
      StartKeeps(s);
    } else {
      EnterKeeps(s, c);
    }
  }

  lemma EnterKeeps(s: State, c: Choice)
    requires Good(s) && Shaped(s.ring) && !s.worker.Starting? && OpenStep(s, c).Some?
    ensures Good(OpenStep(s, c).value)
  {
    hide Heard, Kept, Taken;
    SameTaken(s, OpenStep(s, c).value);
  }

  lemma StartKeeps(s: State)
    requires Good(s) && s.worker.Starting?
    ensures Control(OpenStep(s, Nothing).value) && History(OpenStep(s, Nothing).value)
  {
  }

  lemma KeptMore(taken: seq<Sample>, given: seq<Sample>, abort: bool, more: seq<Sample>)
    requires Kept(taken, given, abort)
    ensures abort ==> Kept(taken, given + more, abort)
    ensures !abort ==> Kept(taken + more, given + more, abort)
  {
  }

  lemma EventKeeps(s: State, c: Choice)
    requires Good(s) && s.worker.Rendering? && c.Event?
    ensures Good(RenderStep(s, c).value)
  {
    assert Shaped(s.ring);
    hide Flat, RingOk, Kept, Sized, Heard;
    var t := RenderStep(s, c).value;
    if !s.refused {
      KeptMore(Taken(s), s.given, s.abort, c.samples);
    }
    assert !t.refused ==> Taken(t) == if s.abort then Taken(s) else Taken(s) + c.samples;
  }

  lemma ReturnKeeps(s: State)
    requires Good(s) && s.worker.Rendering?
    ensures Good(RenderStep(s, Return).value)
  {
    assert Shaped(s.ring);
    hide Flat, RingOk, Kept, Heard;
    assert Taken(RenderStep(s, Return).value) == Taken(s);
  }

  lemma RenderKeeps(s: State, c: Choice)
    requires Good(s) && s.worker.Rendering? && RenderStep(s, c).Some?
    ensures Good(RenderStep(s, c).value)
  {
    hide Good;
    if c.Event? {
      EventKeeps(s, c);
    } else {
      ReturnKeeps(s);
    }
  }

  lemma FillTakes(s: State)
    requires Shaped(s.ring) && s.worker.Filling? && s.ring.fill < BLKSAMP
    ensures Shaped(FillStep(s, s.worker.rest).ring) && Taken(FillStep(s, s.worker.rest)) == Taken(s)
  {
    hide Flat;
    var rest := s.worker.rest;
    var t := FillStep(s, rest);
    if rest == [] {
      SameTaken(s, t);
    } else {
      CopyTakes(s, rest, t.ring.fill - s.ring.fill, t);
    }
  }

  lemma CopyTakes(s: State, rest: seq<Sample>, take: nat, t: State)
    requires Shaped(s.ring) && s.worker == Filling(rest) && take <= |rest| && s.ring.fill + take <= BLKSAMP
    requires t.job == s.job && t.pcm == s.pcm && t.ring == Filled(s.ring, rest[..take])
    requires Rest(t.worker) == rest[take..]
    requires t.worker.Submit? ==> t.worker.at == Enter
    ensures Shaped(t.ring) && Taken(t) == Taken(s)
  {
    hide Flat;
    FilledTakes(s, rest, take);
  }

  lemma FillControl(s: State)
    requires RingOk(s.ring) && Shaped(s.ring) && Control(s) && s.worker.Filling?
    ensures var t := FillStep(s, s.worker.rest); RingOk(t.ring) && Control(t)
  {
    hide RingOk;
    var rest := s.worker.rest;
    if rest != [] {
      FillOk(s.ring, rest[..FillStep(s, rest).ring.fill - s.ring.fill]);
    }
  }

  lemma FillHistory(s: State)
    requires Shaped(s.ring) && s.worker.Filling? && s.ring.fill < BLKSAMP && History(s)
    ensures Shaped(FillStep(s, s.worker.rest).ring) && History(FillStep(s, s.worker.rest))
  {
    hide Flat, Taken, Kept;
    FillTakes(s);
  }

  lemma FillKeeps(s: State)
    requires Good(s) && s.worker.Filling?
    ensures Good(FillStep(s, s.worker.rest))
  {
    FillControl(s);
    FillHistory(s);
  }

  /** What is copied leaves the event and enters the block. */
  lemma FilledTakes(s: State, rest: seq<Sample>, take: nat)
    requires Shaped(s.ring) && take <= |rest| && s.ring.fill + take <= BLKSAMP
    ensures Flat(s.ring.sent) + Filled(s.ring, rest[..take]).blk[s.ring.cur][..s.ring.fill + take] + rest[take..]
            == Flat(s.ring.sent) + s.ring.blk[s.ring.cur][..s.ring.fill] + rest
  {
    var r := s.ring;
    assert Filled(r, rest[..take]).blk[r.cur][..r.fill + take] == r.blk[r.cur][..r.fill] + rest[..take];
    assert rest == rest[..take] + rest[take..];
  }

  predicate Readying(at: Sub)
  {
    at == Unprepare || at == Zero || at == Prepare
  }

  /** Getting the header ready: each stage leaves what the next one needs. */
  lemma ReadyControl(s: State, t: State)
    requires Good(s) && Shaped(s.ring) && s.worker.Submit? && Readying(s.worker.at)
    requires SubmitStep(s, s.worker.at, s.worker.back) == Some(t)
    ensures RingOk(t.ring) && Control(t)
  {
    hide Sized, Heard, Kept, Flat, History, RingOk;
    var r := s.ring;
    NextIsFree(r);
    if s.worker.at == Unprepare {
      SetNextOk(r, Unprepared(r.hdr[r.cur]));
    } else if s.worker.at == Zero {
      SetNextOk(r, NoHdr.(len := r.fill));
    } else {
      SetNextOk(r, r.hdr[r.cur].(prepared := true));
    }
  }

  lemma WriteControl(s: State, t: State)
    requires Good(s) && Shaped(s.ring) && s.worker.Submit? && s.worker.at == Write
    requires SubmitStep(s, Write, s.worker.back) == Some(t)
    ensures RingOk(t.ring) && Control(t)
  {
    hide Sized, Heard, Kept, Flat, History, RingOk;
    WriteOk(s.ring);
  }

  /** Around it: taking the lock... */
  lemma EnterControl(s: State, t: State)
    requires Good(s) && Shaped(s.ring) && s.worker.Submit? && s.worker.at == Enter
    requires SubmitStep(s, Enter, s.worker.back) == Some(t)
    ensures RingOk(t.ring) && Control(t)
  {
    hide Sized, Heard, Kept, Flat, History, RingOk, Shaped, Unready;
  }

  /** ...moving on to the next block... */
  lemma LeaveControl(s: State, t: State)
    requires Good(s) && Shaped(s.ring) && s.worker.Submit? && s.worker.at == Leave
    requires SubmitStep(s, Leave, s.worker.back) == Some(t)
    ensures RingOk(t.ring) && Control(t)
  {
    hide Sized, Heard, Kept, Flat, History, RingOk;
    TurnOk(s.ring);
  }

  /** ...and waiting for it. */
  lemma WaitControl(s: State, t: State)
    requires Good(s) && Shaped(s.ring) && s.worker.Submit? && (s.worker.at == Wait || s.worker.at == After)
    requires SubmitStep(s, s.worker.at, s.worker.back) == Some(t)
    ensures RingOk(t.ring) && Control(t)
  {
    hide Sized, Heard, Kept, Flat, History, RingOk, Unready;
    NextIsFree(s.ring);
  }

  lemma SubmitControl(s: State, t: State)
    requires Good(s) && Shaped(s.ring) && s.worker.Submit? && !Readying(s.worker.at) && s.worker.at != Write
    requires SubmitStep(s, s.worker.at, s.worker.back) == Some(t)
    ensures RingOk(t.ring) && Control(t)
  {
    hide RingOk, Control, Good, Shaped, SubmitStep;
    match s.worker.at
    case Enter => EnterControl(s, t);
    case Leave => LeaveControl(s, t);
    case _ => WaitControl(s, t);
  }

  lemma WriteHistory(s: State)
    requires Good(s) && s.worker.Submit? && s.worker.at == Write
    ensures History(SubmitStep(s, Write, s.worker.back).value)
  {
    var r := s.ring;
    var t := SubmitStep(s, Write, s.worker.back).value;
    FlatPush(r.sent, r.blk[r.cur][..r.fill]);
    assert Taken(t) == Taken(s);
    assert t.ring.sent[..Oldest(t.ring)] == r.sent[..Oldest(r)];
  }

  /** What the history is made of, but for the flags and the queue. */
  predicate SameSpeech(s: State, t: State)
  {
    && t.job == s.job && t.pcm == s.pcm && t.given == s.given && t.abort == s.abort && t.refused == s.refused
    && t.ring.blk == s.ring.blk && t.ring.cur == s.ring.cur && t.ring.fill == s.ring.fill
    && t.ring.sent == s.ring.sent && t.ring.played == s.ring.played
  }

  /** Getting the header ready, and waiting, leave the blocks and the event alone. */
  lemma ReadySame(s: State, t: State)
    requires Shaped(s.ring) && s.worker.Submit? && SubmitStep(s, s.worker.at, s.worker.back) == Some(t)
    requires Readying(s.worker.at) || s.worker.at == Wait || (s.worker.at == Enter && s.wave)
    ensures SameSpeech(s, t) && t.worker.Submit? && t.worker.at != Leave && t.worker.back == s.worker.back
  {
    hide Shaped, Unprepared;
    match s.worker.at
    case Enter =>
    case Unprepare =>
    case Zero =>
    case Prepare =>
    case Wait =>
  }

  /** Moving on: the block left behind counts as sent, the next is empty. */
  lemma LeaveTakes(s: State, t: State)
    requires Shaped(s.ring) && Shaped(t.ring) && s.worker.Submit? && s.worker.at == Leave
    requires SubmitStep(s, Leave, s.worker.back) == Some(t)
    ensures Taken(t) == Taken(s)
  {
    hide Shaped, Flat;
    assert Part(t.ring, t.worker) == [] == Part(s.ring, s.worker);
  }

  /** Coming back: after a stop the rest of the event is given up. */
  lemma AfterTakes(s: State, t: State)
    requires Shaped(s.ring) && Shaped(t.ring) && s.worker.Submit? && s.worker.at == After
    requires SubmitStep(s, After, s.worker.back) == Some(t)
    ensures Taken(s) == Taken(t) || (s.abort && s.worker.back.More? && Taken(s) == Taken(t) + s.worker.back.rest)
  {
    hide Shaped, Flat;
  }

  lemma SubmitTakes(s: State, t: State)
    requires Good(s) && Shaped(s.ring) && s.worker.Submit? && s.worker.at != Write && Shaped(t.ring)
    requires SubmitStep(s, s.worker.at, s.worker.back) == Some(t)
    ensures Taken(s) == Taken(t)
            || (s.abort && s.worker.at == After && s.worker.back.More? && Taken(s) == Taken(t) + s.worker.back.rest)
  {
    SubmitOpen(s);
    hide Good, Shaped, SubmitStep, Taken;
    match s.worker.at
    case Leave => LeaveTakes(s, t);
    case After => AfterTakes(s, t);
    case _ =>
      ReadySame(s, t);
      SameTaken(s, t);
  }

  lemma SubmitOpen(s: State)
    requires Good(s) && s.worker.Submit?
    ensures s.wave
  {
    hide RingOk, Locked, Room, Placed, History;
  }

  lemma KeptLess(taken: seq<Sample>, dropped: seq<Sample>, given: seq<Sample>)
    requires Kept(taken + dropped, given, true)
    ensures Kept(taken, given, true)
  {
  }

  lemma SubmitHistory(s: State, t: State)
    requires Good(s) && Shaped(s.ring) && s.worker.Submit? && s.worker.at != Write && Shaped(t.ring)
    requires SubmitStep(s, s.worker.at, s.worker.back) == Some(t)
    ensures History(t)
  {
    hide RingOk, Control, Flat, Taken, Kept;
    SubmitTakes(s, t);
    if Taken(s) != Taken(t) && !s.refused {
      KeptLess(Taken(t), s.worker.back.rest, s.given);
    }
  }

  predicate Closing(end: End)
  {
    end.CloseReset? || end.CloseHdr? || end.CloseDev?
  }

  lemma DrainControl(s: State, t: State)
    requires Good(s) && Shaped(s.ring) && s.worker.Ending? && !Closing(s.worker.end)
    requires EndStep(s, s.worker.end) == Some(t)
    ensures RingOk(t.ring) && Control(t)
  {
    hide Sized, Heard, Kept, Flat, History, RingOk;
    var end := s.worker.end;
    if end.Scan? && end.i == NBLK && !end.busy {
      QuietIsEmpty(s.ring);
    }
  }

  lemma CloseControl(s: State, t: State)
    requires Good(s) && Shaped(s.ring) && s.worker.Ending? && Closing(s.worker.end)
    requires EndStep(s, s.worker.end) == Some(t)
    ensures RingOk(t.ring) && Control(t)
  {
    hide Sized, Heard, Kept, Flat, History, RingOk;
    var end := s.worker.end;
    if end.CloseReset? {
      ResetOk(s.ring);
    } else if end.CloseHdr? && end.i < NBLK {
      UnprepareOk(s.ring, end.i);
    }
  }

  /** The device is closed only after a stop, or with nothing queued. */
  lemma ClosingEmpty(s: State)
    requires Good(s) && s.worker.Ending? && s.worker.end.CloseReset?
    ensures s.abort || s.ring.queue == []
  {
    hide RingOk, Locked, Opened, Begun, Placed, History;
  }

  /** Draining and closing leave the blocks alone. */
  lemma EndSame(s: State, t: State)
    requires Shaped(s.ring) && s.worker.Ending? && EndStep(s, s.worker.end) == Some(t)
    ensures SameSpeech(s, t) && (t.worker.Ending? || t.worker.Finished?)
    ensures s.worker.end.CloseReset? || t.ring.queue == s.ring.queue
  {
    hide Shaped, Unprepared;
    match s.worker.end
    case CloseReset =>
    case CloseHdr(i) =>
    case CloseDev =>
    case _ =>
  }

  lemma EndHistory(s: State, t: State)
    requires Good(s) && Shaped(s.ring) && s.worker.Ending? && Shaped(t.ring) && EndStep(s, s.worker.end) == Some(t)
    ensures History(t)
  {
    assert History(s);
    hide Good, EndStep, History, Shaped;
    EndSame(s, t);
    if s.worker.end.CloseReset? {
      ClosingEmpty(s);
      ResetQueue(s, t);
    }
    SameHistory(s, t);
  }

  lemma ResetQueue(s: State, t: State)
    requires Shaped(s.ring) && s.worker == Ending(CloseReset) && EndStep(s, CloseReset) == Some(t)
    ensures t.ring.queue == []
  {
  }

  lemma SubmitKeeps(s: State, t: State)
    requires Good(s) && s.worker.Submit? && SubmitStep(s, s.worker.at, s.worker.back) == Some(t)
    ensures Good(t)
  {
    hide Control, History;
    if s.worker.at == Write {
      WriteControl(s, t);
      WriteHistory(s);
    } else {
      if Readying(s.worker.at) {
        ReadyControl(s, t);
      } else {
        SubmitControl(s, t);
      }
      SubmitHistory(s, t);
    }
  }

  lemma EndKeeps(s: State, t: State)
    requires Good(s) && s.worker.Ending? && EndStep(s, s.worker.end) == Some(t)
    ensures Good(t)
  {
    if Closing(s.worker.end) {
      CloseControl(s, t);
    } else {
      DrainControl(s, t);
    }
    EndHistory(s, t);
  }

  lemma WorkerKeeps(s: State, c: Choice)
    requires Good(s) && WorkerStep(s, c).Some?
    ensures Good(WorkerStep(s, c).value)
  {
    match s.worker
    case Absent =>
    case Finished =>
    case Rendering => RenderKeeps(s, c);
    case Filling(_) => FillKeeps(s);
    case Submit(_, _) => SubmitKeeps(s, WorkerStep(s, c).value);
    case Ending(_) => EndKeeps(s, WorkerStep(s, c).value);
    case _ => OpenKeeps(s, c);
  }

  // ---- the device and the window ----------------------------------------------------

  lemma DeviceKeeps(s: State)
    requires Good(s) && Step(s, Device).Some?
    ensures Good(Step(s, Device).value)
  {
    var t := Step(s, Device).value;
    PlayOk(s.ring);
    FlatNext(s.ring.sent, Oldest(s.ring));
    PlayControl(s);
    assert Taken(t) == Taken(s);
  }

  /** A block played leaves the others, and every header but for its being queued. */
  lemma PlayedLeaves(r: Ring)
    requires RingOk(r) && CanPlay(r)
    ensures Shaped(Played(r))
    ensures
      var t := Played(r);
      && t.blk == r.blk && t.cur == r.cur && t.fill == r.fill && t.sent == r.sent && |t.queue| < |r.queue| <= NBLK
      && forall i :: 0 <= i < NBLK ==> t.hdr[i].(inQueue := r.hdr[i].inQueue) == r.hdr[i]
                                       && (t.hdr[i].inQueue ==> r.hdr[i].inQueue)
  {
    hide FlagOk, Holds;
  }

  lemma PlayControl(s: State)
    requires Good(s) && s.wave && CanPlay(s.ring)
    ensures Control(s.(ring := Played(s.ring)))
  {
    assert Begun(s) && s.wave;
    var t := s.(ring := Played(s.ring));
    PlayedLeaves(s.ring);
    hide RingOk, History, Played, Begun, CanPlay;
    PlayRoom(s, t);
    assert Locked(t) && Opened(t) && Placed(t);
    assert Begun(t) by {
      PlayBegun(s, t);
    }
  }

  /** What is played was submitted, so the job has begun. */
  lemma PlayBegun(s: State, t: State)
    requires Good(s) && s.wave && CanPlay(s.ring) && t == s.(ring := Played(s.ring))
    ensures Begun(t)
  {
    hide Locked, Room, Placed, History, Holds, FlagOk;
  }

  lemma PlayRoom(s: State, t: State)
    requires Shaped(s.ring) && Shaped(t.ring) && Room(s) && t == s.(ring := t.ring)
    requires t.ring.cur == s.ring.cur && t.ring.fill == s.ring.fill && |t.ring.queue| < |s.ring.queue|
    requires forall i :: 0 <= i < NBLK ==> t.ring.hdr[i].(inQueue := s.ring.hdr[i].inQueue) == s.ring.hdr[i]
                                           && (t.ring.hdr[i].inQueue ==> s.ring.hdr[i].inQueue)
    ensures Room(t)
  {
    match s.worker
    case Submit(at, back) =>
      assert t.ring.hdr[t.ring.cur].len == s.ring.hdr[s.ring.cur].len;
    case Ending(end) =>
    case _ =>
  }

  lemma ResetKeeps(s: State)
    requires Good(s) && s.ui.StopReset?
    ensures Good(WindowStep(s, NoPress).value)
  {
    var t := WindowStep(s, NoPress).value;
    ResetOk(s.ring);
    assert Taken(t) == Taken(s);
  }

  /** Giving up only widens what the invariant allows. */
  lemma SameRoom(s: State, t: State)
    requires Shaped(s.ring) && Room(s) && t.worker == s.worker && t.ring == s.ring && (s.abort ==> t.abort)
    ensures Room(t)
  {
  }

  lemma PressSame(s: State, p: Press, t: State)
    requires !s.ui.StopReset? && !s.ui.Join? && WindowStep(s, p) == Some(t)
    ensures t.ring == s.ring && t.worker == s.worker && t.job == s.job && t.pcm == s.pcm && t.given == s.given
    ensures t.refused == s.refused && t.wave == s.wave && (s.abort ==> t.abort)
  {
  }

  lemma PressLocked(s: State, p: Press, t: State)
    requires Locked(s) && !s.ui.StopReset? && !s.ui.Join? && WindowStep(s, p) == Some(t)
    ensures Locked(t)
  {
    hide WorkerLocked;
    PressSame(s, p, t);
  }

  lemma PressControl(s: State, p: Press, t: State)
    requires Shaped(s.ring) && Control(s) && !s.ui.StopReset? && !s.ui.Join? && WindowStep(s, p) == Some(t)
    ensures Shaped(t.ring) && Control(t)
  {
    hide Shaped, Room, Locked, WindowStep;
    PressSame(s, p, t);
    PressLocked(s, p, t);
    SameRoom(s, t);
  }

  lemma PressHistory(s: State, p: Press, t: State)
    requires Shaped(s.ring) && History(s) && !s.ui.StopReset? && !s.ui.Join? && WindowStep(s, p) == Some(t)
    requires Shaped(t.ring)
    ensures History(t)
  {
    hide Sized, Heard, Kept, Taken, Shaped, WindowStep;
    PressSame(s, p, t);
    if s.worker.Starting? {
    } else {
      SameHistory(s, t);
    }
  }

  lemma PressKeeps(s: State, p: Press)
    requires Good(s) && !s.ui.StopReset? && !s.ui.Join? && WindowStep(s, p).Some?
    ensures Good(WindowStep(s, p).value)
  {
    hide Control, History;
    PressControl(s, p, WindowStep(s, p).value);
    PressHistory(s, p, WindowStep(s, p).value);
  }

  lemma WindowKeeps(s: State, p: Press)
    requires Good(s) && WindowStep(s, p).Some?
    ensures Good(WindowStep(s, p).value)
  {
    if s.ui.Join? {
      JoinKeeps(s, s.ui.next);
    } else if s.ui.StopReset? {
      ResetKeeps(s);
    } else {
      PressKeeps(s, p);
    }
  }

  lemma JoinKeeps(s: State, next: Option<Job>)
    requires Good(s) && s.ui == Join(next) && (s.worker.Absent? || s.worker.Finished?)
    ensures Good(Joined(s, next))
  {
    AfreshOk(s.ring);
  }

  lemma StepKeeps(s: State, a: Action)
    requires Good(s) && Step(s, a).Some?
    ensures Good(Step(s, a).value)
  {
    match a
    case Worker(c) => WorkerKeeps(s, c);
    case Window(p) => WindowKeeps(s, p);
    case Device => DeviceKeeps(s);
  }
}
