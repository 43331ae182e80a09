/** What the site receives of one utterance (sapi5/tvsapi.c): the audio in order until
    something stops it, and each bookmark by its own name at the place it belongs. */
module SapiEvents {
  import opened Wrappers
  import opened Escapes
  import opened Utterance
  import opened UtteranceRight
  import opened SapiSpeak

  const NOTHING := Log(0, [], [], false, false)

  /** The engine delivers events, and the site answers each, until one stops it. */
  function RunTo(names: NameList, interested: bool, evs: seq<EngineEvent>, answers: seq<Answer>, n: nat): (Log, bool)
    requires n <= |evs| == |answers|
  {
    if n == 0 then (NOTHING, false)
    else
      var before := RunTo(names, interested, evs, answers, n - 1);
      if before.1 then before else Handled(names, interested, before.0, evs[n - 1], answers[n - 1])
  }

  /** All the audio of the first `n` events. */
  function AudioTo(evs: seq<EngineEvent>, n: nat): seq<int>
    requires n <= |evs|
  {
    if n == 0 then [] else AudioTo(evs, n - 1) + if evs[n - 1].Audio? then evs[n - 1].samples else []
  }

  /** The bookmark events the first `n` events call for: the name kept under the mark's
      number, placed at the bytes of all the audio before it. */
  function ReportsTo(names: NameList, interested: bool, evs: seq<EngineEvent>, n: nat): seq<BookmarkEvent>
    requires n <= |evs|
  {
    if n == 0 then []
    else
      match evs[n - 1]
      case Mark(m) =>
        if 1 <= m <= |names| && names[m - 1].Some? && interested then
          ReportsTo(names, interested, evs, n - 1)
          + [BookmarkEvent(names[m - 1].value, Spells(names[m - 1].value), 2 * |AudioTo(evs, n - 1)|)]
        else ReportsTo(names, interested, evs, n - 1)
      case _ => ReportsTo(names, interested, evs, n - 1)
  }

  /** The site answers audio with an abort, or asks for items to be skipped. */
  predicate CalledOff(ev: EngineEvent, a: Answer)
  {
    ev.Audio? && ev.samples != [] && (a.abort || (a.skip.Some? && a.skip.value != 0))
  }

  /** The answer to this event stops the engine: the call is off, or the audio is not taken. */
  predicate Stopping(ev: EngineEvent, a: Answer)
  {
    ev.Audio? && ev.samples != [] && (CalledOff(ev, a) || !a.wrote)
  }

  predicate FirstStop(evs: seq<EngineEvent>, answers: seq<Answer>, i: nat)
    requires i < |evs| == |answers|
  {
    Stopping(evs[i], answers[i]) && forall k :: 0 <= k < i ==> !Stopping(evs[k], answers[k])
  }

  /** The engine is stopped exactly by the first answer that calls the utterance off or
      refuses its audio.  The site has received exactly the audio and the bookmarks of the
      events before that one, or of all of them, and the call counts as aborted or as
      failed by what that answer was. */
  lemma {:induction false} SiteReceives(names: NameList, interested: bool, evs: seq<EngineEvent>,
                                        answers: seq<Answer>, n: nat)
    requires n <= |evs| == |answers|
    ensures
      var (log, stopped) := RunTo(names, interested, evs, answers, n);
      && (stopped <==> exists i :: 0 <= i < n && Stopping(evs[i], answers[i]))
      && (stopped <==> exists i :: 0 <= i < n && FirstStop(evs, answers, i))
      && (!stopped ==> log == Log(2 * |AudioTo(evs, n)|, ReportsTo(names, interested, evs, n), AudioTo(evs, n),
                                  false, false))
      && forall i :: 0 <= i < n && FirstStop(evs, answers, i) ==>
           log == Log(2 * |AudioTo(evs, i)|, ReportsTo(names, interested, evs, i), AudioTo(evs, i),
                      CalledOff(evs[i], answers[i]), !CalledOff(evs[i], answers[i]))
  {
    hide Spells;
    if n == 0 {
    } else {
      SiteReceives(names, interested, evs, answers, n - 1);
      if RunTo(names, interested, evs, answers, n - 1).1 {
        var i :| 0 <= i < n - 1 && FirstStop(evs, answers, i);
        assert Stopping(evs[i], answers[i]);
      } else if Stopping(evs[n - 1], answers[n - 1]) {
        assert FirstStop(evs, answers, n - 1);
      }
    }
  }

  /** Who has not asked for bookmarks is sent none. */
  lemma {:induction false} UnaskedNoReports(names: NameList, evs: seq<EngineEvent>, n: nat)
    requires n <= |evs|
    ensures ReportsTo(names, false, evs, n) == []
  {
    if n == 0 {
    } else {
      UnaskedNoReports(names, evs, n - 1);
    }
  }

  /** A mark with a name, once delivered, is reported: by that name, and placed where all the
      audio before it ends. */
  lemma {:induction false} ReportAt(names: NameList, evs: seq<EngineEvent>, n: nat, i: nat)
    requires i < n <= |evs| && evs[i].Mark? && 1 <= evs[i].n <= |names| && names[evs[i].n - 1].Some?
    ensures
      var all, k := ReportsTo(names, true, evs, n), |ReportsTo(names, true, evs, i)|;
      var name := names[evs[i].n - 1].value;
      k < |all| && all[k] == BookmarkEvent(name, Spells(name), 2 * |AudioTo(evs, i)|)
  {
    hide Spells, AudioTo;
    if i == n - 1 {
    } else {
      ReportAt(names, evs, n - 1, i);
    }
  }

  /** Bookmarks are reported at offsets that never go back, none past what is written. */
  lemma {:induction false} OffsetsInOrder(names: NameList, interested: bool, evs: seq<EngineEvent>, n: nat, i: nat)
    requires n <= |evs| && i < |ReportsTo(names, interested, evs, n)|
    ensures ReportsTo(names, interested, evs, n)[i].offset <= 2 * |AudioTo(evs, n)|
    ensures i > 0 ==>
              ReportsTo(names, interested, evs, n)[i - 1].offset <= ReportsTo(names, interested, evs, n)[i].offset
  {
    hide Spells;
    var before := ReportsTo(names, interested, evs, n - 1);
    if i < |before| {
      OffsetsInOrder(names, interested, evs, n - 1, i);
    } else if i > 0 {
      OffsetsInOrder(names, interested, evs, n - 1, i - 1);
    }
  }

  function MarksTo(evs: seq<EngineEvent>, n: nat): seq<int>
    requires n <= |evs|
  {
    if n == 0 then [] else MarksTo(evs, n - 1) + if evs[n - 1].Mark? then [evs[n - 1].n] else []
  }

  function NamesOf(events: seq<BookmarkEvent>): seq<seq<WChar>>
  {
    seq(|events|, i requires 0 <= i < |events| => events[i].name)
  }

  /** Marks delivered 1, 2, ... are reported by the names kept, in order. */
  lemma {:induction false} CountedByName(names: seq<seq<WChar>>, evs: seq<EngineEvent>, n: nat, k: nat)
    requires n <= |evs| && k <= |names| && MarksTo(evs, n) == Count(k)
    ensures NamesOf(ReportsTo(AllKept(names), true, evs, n)) == names[..k]
  {
    hide Spells, AudioTo;
    if n == 0 {
    } else {
      if evs[n - 1].Mark? {
        assert k > 0 && MarksTo(evs, n)[k - 1] == k;
        assert MarksTo(evs, n - 1) == MarksTo(evs, n)[..k - 1] == Count(k - 1);
        CountedByName(names, evs, n - 1, k - 1);
      } else {
        assert MarksTo(evs, n - 1) == MarksTo(evs, n);
        CountedByName(names, evs, n - 1, k);
      }
    }
  }

  /** When the engine delivers the marks of the utterance in the order it hears them, as
      far as it gets, each bookmark event carries the name its fragment gave. */
  lemma BookmarksByName(v: Voice, frags: seq<Fragment>, evs: seq<EngineEvent>, n: nat)
    requires n <= |evs| && MarksTo(evs, n) <= MarksIn(HeardTo(v, frags, |frags|))
    ensures |MarksTo(evs, n)| <= |Names(frags, |frags|)|
    ensures NamesOf(ReportsTo(AllKept(Names(frags, |frags|)), true, evs, n))
            == Names(frags, |frags|)[..|MarksTo(evs, n)|]
  {
    hide HeardTo, Names, MarksTo, ReportsTo, MarksIn;
    MarksInOrder(v, frags, |frags|);
    var k := |MarksTo(evs, n)|;
    assert MarksTo(evs, n) == Count(k);
    CountedByName(Names(frags, |frags|), evs, n, k);
  }
}
