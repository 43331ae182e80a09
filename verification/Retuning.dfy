/** The pitch and rate commands of an utterance (sapi5/tvsapi.c): that only what changed
    is asked for, when a command changes nothing all the same, and what outlives it. */
module Retuning {
  import opened Escapes
  import opened Utterance
  import opened SeamRule
  import opened UtteranceRight

  // ---- the commands in a text -------------------------------------------------------

  /** The parameters of each command with that letter, as the reader comes to it. */
  function Commands(r: Reader, s: seq<WChar>, letter: WChar, x: Extensions): seq<seq<int>>
    decreases |s|
  {
    if s == [] then []
    else
      var init := s[..|s| - 1];
      var mode := HearAll(r, init, x).mode;
      Commands(r, init, letter, x) + if mode.InCommand? && s[|s| - 1] == letter then [mode.params] else []
  }

  lemma {:induction false} CommandsConcat(r: Reader, s: seq<WChar>, t: seq<WChar>, letter: WChar, x: Extensions)
    ensures Commands(r, s + t, letter, x) == Commands(r, s, letter, x) + Commands(HearAll(r, s, x), t, letter, x)
    decreases |t|
  {
    hide HearAll;
    if t == [] {
      assert s + t == s;
    } else {
      var init := t[..|t| - 1];
      assert (s + t)[..|s + t| - 1] == s + init;
      CommandsConcat(r, s, init, letter, x);
      HearConcat(r, s, init, x);
    }
  }

  lemma {:induction false} NoneWithout(r: Reader, s: seq<WChar>, letter: WChar, x: Extensions)
    requires forall i :: 0 <= i < |s| ==> s[i] != letter
    ensures Commands(r, s, letter, x) == []
    decreases |s|
  {
    hide HearAll;
    if s == [] {
    } else {
      NoneWithout(r, s[..|s| - 1], letter, x);
    }
  }

  lemma {:induction false} NoneInText(r: Reader, s: seq<WChar>, letter: WChar, x: Extensions)
    requires r.mode.Plain? && Clean(s)
    ensures Commands(r, s, letter, x) == []
    decreases |s|
  {
    hide HearAll, SaidAll;
    if s == [] {
    } else {
      var init := s[..|s| - 1];
      assert Clean(init);
      NoneInText(r, init, letter, x);
      HearText(r, init, x);
    }
  }

  lemma OneInEscape(r: Reader, n: nat, given: char, letter: char, x: Extensions)
    requires r.mode.Plain? && 'a' <= letter <= 'z' && 0 <= given as int < 0x80
    ensures Commands(r, Escape(n, Letter(given)), Letter(letter), x) == if given == letter then [[n]] else []
  {
    hide HearAll, Decimal;
    var l := Letter(letter);
    CommandsConcat(r, [ESC, BRACKET] + Decimal(n), [Letter(given)], l, x);
    assert forall i :: 0 <= i < |Decimal(n)| ==> Decimal(n)[i] in Decimal(n);
    NoneWithout(r, [ESC, BRACKET] + Decimal(n), l, x);
    AtLetter(r, n, x);
    var inside := HearAll(r, [ESC, BRACKET] + Decimal(n), x);
    assert [Letter(given)][..0] == [];
    assert HearAll(inside, [], x) == inside by {
      NothingHeard(inside, x);
    }
  }

  lemma NothingHeard(r: Reader, x: Extensions)
    ensures HearAll(r, [], x) == r
  {
  }

  /** Having read the digits, the reader stands inside a command with that parameter. */
  lemma AtLetter(r: Reader, n: nat, x: Extensions)
    requires r.mode.Plain?
    ensures HearAll(r, [ESC, BRACKET] + Decimal(n), x).mode == InCommand([n], n > 255)
  {
    hide HearAll, Decimal;
    HearConcat(r, [ESC, BRACKET], Decimal(n), x);
    assert [ESC, BRACKET] == [ESC] + [BRACKET];
    HearConcat(r, [ESC], [BRACKET], x);
    HearOne(r, ESC, x);
    HearOne(r.(mode := AfterEsc), BRACKET, x);
    HearDecimal(r.(mode := InCommand([-1], false)), n, x);
  }

  // ---- one command for each change --------------------------------------------------

  /** For every fragment that asks for another pitch than the one before it, its half. */
  function PitchSent(v: Voice, frags: seq<Fragment>, n: nat): seq<seq<int>>
    requires n <= |frags|
  {
    if n == 0 then []
    else
      PitchSent(v, frags, n - 1)
      + if AskedPitch(v, frags, n) != AskedPitch(v, frags, n - 1) then [[PitchArg(AskedPitch(v, frags, n))]] else []
  }

  /** And for every fragment that asks for another rate, the rate as far as it is said. */
  function RateSent(v: Voice, frags: seq<Fragment>, n: nat): seq<seq<int>>
    requires n <= |frags|
  {
    if n == 0 then []
    else
      RateSent(v, frags, n - 1)
      + if AskedRate(v, frags, n) != AskedRate(v, frags, n - 1) then [[RateArg(AskedRate(v, frags, n), v.x)]] else []
  }

  lemma InTuning(v: Voice, frags: seq<Fragment>, n: nat, r: Reader)
    requires 0 < n <= |frags| && r.mode.Plain?
    ensures HearAll(r, Tuning(v, frags, n), v.x).mode.Plain?
    ensures PitchSent(v, frags, n)
            == PitchSent(v, frags, n - 1) + Commands(r, Tuning(v, frags, n), Letter('p'), v.x)
    ensures RateSent(v, frags, n)
            == RateSent(v, frags, n - 1) + Commands(r, Tuning(v, frags, n), Letter('r'), v.x)
  {
    hide HearAll, Escape, Commands, MapPitch, MapRate, PitchSent, RateSent, AskedPitch, AskedRate, RowHeard;
    var pitch, rate := AskedPitch(v, frags, n), AskedRate(v, frags, n);
    var p := if pitch != AskedPitch(v, frags, n - 1) then PitchEscape(pitch) else [];
    var q := if rate != AskedRate(v, frags, n - 1) then RateEscape(rate, v.x) else [];
    var mid := HearAll(r, p, v.x);
    NothingHeard(r, v.x);
    HearPitch(r, pitch, v.x);
    assert mid.mode.Plain?;
    NothingHeard(mid, v.x);
    HearRate(mid, rate, v.x);
    HearConcat(r, p, q, v.x);
    InTwo(r, p, q, v.x);
    NoneWithout(r, [], Letter('p'), v.x);
    NoneWithout(r, [], Letter('r'), v.x);
    NoneWithout(mid, [], Letter('p'), v.x);
    NoneWithout(mid, [], Letter('r'), v.x);
    OneInEscape(r, PitchArg(pitch), 'p', 'p', v.x);
    OneInEscape(r, PitchArg(pitch), 'p', 'r', v.x);
    OneInEscape(mid, RateArg(rate, v.x), 'r', 'p', v.x);
    OneInEscape(mid, RateArg(rate, v.x), 'r', 'r', v.x);
    SentNext(v, frags, n);
  }

  lemma InTwo(r: Reader, p: seq<WChar>, q: seq<WChar>, x: Extensions)
    ensures Commands(r, p + q, Letter('p'), x)
            == Commands(r, p, Letter('p'), x) + Commands(HearAll(r, p, x), q, Letter('p'), x)
    ensures Commands(r, p + q, Letter('r'), x)
            == Commands(r, p, Letter('r'), x) + Commands(HearAll(r, p, x), q, Letter('r'), x)
  {
    CommandsConcat(r, p, q, Letter('p'), x);
    CommandsConcat(r, p, q, Letter('r'), x);
  }

  lemma SentNext(v: Voice, frags: seq<Fragment>, n: nat)
    requires 0 < n <= |frags|
    ensures PitchSent(v, frags, n) == PitchSent(v, frags, n - 1)
              + if AskedPitch(v, frags, n) == AskedPitch(v, frags, n - 1) then []
                else [[PitchArg(AskedPitch(v, frags, n))]]
    ensures RateSent(v, frags, n) == RateSent(v, frags, n - 1)
              + if AskedRate(v, frags, n) == AskedRate(v, frags, n - 1) then []
                else [[RateArg(AskedRate(v, frags, n), v.x)]]
  {
  }

  /** Nothing else in a fragment is a pitch or a rate command. */
  lemma InBody(f: Fragment, space: bool, mark: nat, r: Reader, letter: char, x: Extensions)
    requires r.mode.Plain? && Clean(f.text) && (letter == 'p' || letter == 'r')
    requires space ==> f.action.Speak?
    ensures Commands(r, SpaceIf(space) + Body(f, mark), Letter(letter), x) == []
  {
    hide HearAll, Escape, Commands, Clean;
    match f.action
    case Bookmark =>
      assert [] + MarkEscape(mark) == MarkEscape(mark);
      OneInEscape(r, mark, 'i', letter, x);
    case Silence(ms) =>
      assert [] + BreakEscape(ms) == BreakEscape(ms);
      OneInEscape(r, BreakArg(ms), 's', letter, x);
    case _ =>
      SpokenClean(f, space);
      NoneInText(r, SpaceIf(space) + Words(f), Letter(letter), x);
  }

  lemma SpokenClean(f: Fragment, space: bool)
    requires Clean(f.text)
    ensures Clean(SpaceIf(space) + Words(f))
  {
    SpelledClean(f.text);
  }

  lemma InStart(v: Voice, punctuation: bool)
    ensures Commands(Fresh(v), Start(v, punctuation).out, Letter('p'), v.x) == []
    ensures Commands(Fresh(v), Start(v, punctuation).out, Letter('r'), v.x) == []
  {
    hide Escape, HearAll;
    OneInEscape(Fresh(v), 2, 'N', 'p', v.x);
    OneInEscape(Fresh(v), 2, 'N', 'r', v.x);
  }

  /** One more fragment: its tuning, then itself. */
  lemma SentByNext(v: Voice, frags: seq<Fragment>, n: nat, start: Reader, out: seq<WChar>, space: bool, mark: nat)
    requires 0 < n <= |frags| && Clean(frags[n - 1].text) && (space ==> frags[n - 1].action.Speak?)
    requires HearAll(start, out, v.x).mode.Plain?
    requires Commands(start, out, Letter('p'), v.x) == PitchSent(v, frags, n - 1)
    requires Commands(start, out, Letter('r'), v.x) == RateSent(v, frags, n - 1)
    ensures
      var next := out + Tuning(v, frags, n) + (SpaceIf(space) + Body(frags[n - 1], mark));
      && Commands(start, next, Letter('p'), v.x) == PitchSent(v, frags, n)
      && Commands(start, next, Letter('r'), v.x) == RateSent(v, frags, n)
  {
    hide Commands, PitchSent, RateSent, Tuning, Body, SpaceIf, HearAll, Clean;
    var tuning, rest := Tuning(v, frags, n), SpaceIf(space) + Body(frags[n - 1], mark);
    var r := HearAll(start, out, v.x);
    InTuning(v, frags, n, r);
    InTwo(start, out, tuning, v.x);
    InTwo(start, out + tuning, rest, v.x);
    HearConcat(start, out, tuning, v.x);
    InBody(frags[n - 1], space, mark, HearAll(r, tuning, v.x), 'p', v.x);
    InBody(frags[n - 1], space, mark, HearAll(r, tuning, v.x), 'r', v.x);
  }

  /** The pitch and rate commands of an utterance are one for each change of what is
      asked for, in order, and no more. */
  lemma {:induction false} OneForEachChange(v: Voice, frags: seq<Fragment>, n: nat, punctuation: bool)
    requires n <= |frags| && CleanText(frags)
    ensures Commands(Fresh(v), BuildTo(v, frags, n, punctuation).out, Letter('p'), v.x) == PitchSent(v, frags, n)
    ensures Commands(Fresh(v), BuildTo(v, frags, n, punctuation).out, Letter('r'), v.x) == RateSent(v, frags, n)
  {
    hide Commands, PitchSent, RateSent, Tuning, Body, SpaceIf, Start, BuildTo, HearAll, Spaced, Fresh, Clean,
      CleanText, Names;
    if n == 0 {
      InStart(v, punctuation);
      NothingSent(v, frags);
      assert BuildTo(v, frags, 0, punctuation) == Start(v, punctuation) by {
        StartBuilt(v, frags, punctuation);
      }
    } else {
      OneForEachChange(v, frags, n - 1, punctuation);
      PlainAfter(v, frags, n - 1, punctuation);
      SpacedSpeaks(frags, n - 1);
      CleanOne(frags, n - 1);
      SentByNext(v, frags, n, Fresh(v), BuildTo(v, frags, n - 1, punctuation).out, Spaced(frags, n - 1),
                 |Names(frags, n - 1)| + 1);
      BuiltOut(v, frags, n - 1, punctuation);
    }
  }

  lemma PlainAfter(v: Voice, frags: seq<Fragment>, n: nat, punctuation: bool)
    requires n <= |frags| && CleanText(frags)
    ensures HearAll(Fresh(v), BuildTo(v, frags, n, punctuation).out, v.x).mode.Plain?
  {
    hide HearAll, Keeps, HeardTo, PitchAt, RowAt, BuildTo;
    UtteranceHeard(v, frags, n, punctuation);
  }

  lemma CleanOne(frags: seq<Fragment>, n: nat)
    requires n < |frags| && CleanText(frags)
    ensures Clean(frags[n].text)
  {
  }

  lemma StartBuilt(v: Voice, frags: seq<Fragment>, punctuation: bool)
    ensures BuildTo(v, frags, 0, punctuation) == Start(v, punctuation)
  {
  }

  lemma NothingSent(v: Voice, frags: seq<Fragment>)
    ensures PitchSent(v, frags, 0) == [] == RateSent(v, frags, 0)
  {
  }

  lemma SpacedSpeaks(frags: seq<Fragment>, n: nat)
    requires n < |frags|
    ensures Spaced(frags, n) ==> frags[n].action.Speak?
  {
  }

  // ---- commands that change nothing -------------------------------------------------

  /** A pitch command leaves the pitch as it was exactly when half of what is asked for
      is half of what was asked for before; and, if no pitch has been said yet, when
      saying the voice's own would have kept it. */
  lemma PitchIdleIff(v: Voice, frags: seq<Fragment>, n: nat)
    requires 0 < n <= |frags| && Plausible(v) && AskedPitch(v, frags, n) != AskedPitch(v, frags, n - 1)
    ensures
      var before := AskedPitch(v, frags, n - 1);
      PitchAt(v, frags, n) == PitchAt(v, frags, n - 1)
      <==> PitchArg(AskedPitch(v, frags, n)) == PitchArg(before)
           && (PitchLeft(v, frags, n - 1) ==> before % 2 == 0 && 50 <= before <= 400)
  {
    hide MapPitch, PitchArg, PitchLeft, AskedPitch;
    PitchReached(v, frags, n - 1);
    AskedPitchRange(v, frags, n - 1);
    PitchHeardIff(AskedPitch(v, frags, n - 1));
    PitchArgRange(AskedPitch(v, frags, n));
    PitchNext(v, frags, n);
  }

  lemma PitchArgRange(pitch: int)
    ensures 25 <= PitchArg(pitch) <= 200
  {
  }

  lemma PitchNext(v: Voice, frags: seq<Fragment>, n: nat)
    requires 0 < n <= |frags| && AskedPitch(v, frags, n) != AskedPitch(v, frags, n - 1)
    ensures PitchAt(v, frags, n) == PitchHeard(AskedPitch(v, frags, n))
  {
  }

  /** The row the last command read has set. */
  function RowSaid(v: Voice, frags: seq<Fragment>, n: nat): int
    requires n <= |frags| && !RateLeft(v, frags, n)
  {
    var wpm := AskedRate(v, frags, n);
    if wpm != AskedRate(v, frags, n - 1) && RateRead(wpm, v.x) then RowOf26(wpm, v.x) else RowSaid(v, frags, n - 1)
  }

  /** The row of a rate, as far as the 26 rows go. */
  function RowOf26(wpm: int, x: Extensions): int
  {
    Clamp(RateRow(wpm, x), 0, ROWS - 1)
  }

  lemma {:induction false} RowReadLast(v: Voice, frags: seq<Fragment>, n: nat)
    requires n <= |frags| && !RateLeft(v, frags, n)
    ensures RowAt(v, frags, n) == RowSaid(v, frags, n)
  {
    hide MapRate, RateRow, RateRead;
    ReadOrDropped(RowAt(v, frags, n - 1), AskedRate(v, frags, n), v.x);
    if RateLeft(v, frags, n - 1) {
    } else {
      RowReadLast(v, frags, n - 1);
    }
  }

  /** A rate command leaves the row as it was exactly when it is not read, or gives the
      row Speak set or the last command read gave. */
  lemma RateIdleIff(v: Voice, frags: seq<Fragment>, n: nat)
    requires 0 < n <= |frags| && AskedRate(v, frags, n) != AskedRate(v, frags, n - 1)
    ensures
      var wpm := AskedRate(v, frags, n);
      RowAt(v, frags, n) == RowAt(v, frags, n - 1)
      <==> !RateRead(wpm, v.x)
           || RowOf26(wpm, v.x) == if RateLeft(v, frags, n - 1) then RateRow(AskedRate(v, frags, 0), v.x)
                                   else RowSaid(v, frags, n - 1)
  {
    hide MapRate, RateRow, RateRead, AskedRate, RateLeft, RowSaid;
    RowReached(v, frags, n - 1);
    if !RateLeft(v, frags, n - 1) {
      RowReadLast(v, frags, n - 1);
    }
    ReadOrDropped(RowAt(v, frags, n - 1), AskedRate(v, frags, n), v.x);
  }

  /** A voice at 144 asked for ten steps down, then nine: 50 and then 51 are the same
      command, given twice. */
  lemma PitchRepeated(v: Voice, a: Fragment, b: Fragment)
    requires v.pitch == 144 && a.pitchAdj == -10 && b.pitchAdj == -9
    ensures PitchSent(v, [a, b], 2) == [[25], [25]] && PitchAt(v, [a, b], 1) == PitchAt(v, [a, b], 2) == 50
  {
    assert FragPitch(v, a) == 50 && FragPitch(v, b) == 51;
    assert PitchSent(v, [a, b], 1) == [[25]];
  }

  /** A voice at 150 asked for five steps up, then six: two commands, neither read. */
  lemma RateRepeated(v: Voice, a: Fragment, b: Fragment)
    requires v.x.rate && v.rate == 150 && v.siteRate == 0 && a.rateAdj == 5 && b.rateAdj == 6
    ensures RateSent(v, [a, b], 2) == [[275], [300]] && RowAt(v, [a, b], 2) == RowAt(v, [a, b], 0) == ROW_USUAL
  {
    assert FragRate(v, a) == 275 && FragRate(v, b) == 300;
    assert RateSent(v, [a, b], 1) == [[275]];
    assert RowAt(v, [a, b], 1) == 13;
  }

  // ---- no markup --------------------------------------------------------------------

  /** A fragment that asks for nothing new is given no command. */
  lemma Unmoved(v: Voice, b: Built, f: Fragment)
    requires FragPitch(v, f) == b.pitch && FragRate(v, f) == b.rate
    ensures Retuned(v, b, f) == b
  {
    assert b.out + [] + [] == b.out;
  }

  function Texts(frags: seq<Fragment>, n: nat): seq<WChar>
    requires n <= |frags|
  {
    if n == 0 then [] else Texts(frags, n - 1) + frags[n - 1].text
  }

  /** An utterance with no markup carries none. */
  lemma {:induction false} PlainStaysPlain(v: Voice, frags: seq<Fragment>, n: nat)
    requires n <= |frags|
    requires forall i :: 0 <= i < n ==> frags[i].action.Speak? && FragPitch(v, frags[i]) == MapPitch(v.pitch, 0)
                                        && FragRate(v, frags[i]) == MapRate(v.rate, v.siteRate)
    ensures BuildTo(v, frags, n, false) == Start(v, false).(out := Texts(frags, n))
  {
    hide FragPitch, FragRate, MapPitch, MapRate, Escape, Retuned;
    if n == 0 {
    } else {
      PlainStaysPlain(v, frags, n - 1);
      Unmoved(v, BuildTo(v, frags, n - 1, false), frags[n - 1]);
      assert Texts(frags, n - 1) + [] + frags[n - 1].text == Texts(frags, n);
    }
  }

  // ---- from one utterance to the next -----------------------------------------------

  /** The rate between utterances: the words per minute the speak loop last sent or was
      told of, and the row in force. */
  datatype RateState = RateState(told: int, row: int)

  /** A rate command read tells the speak loop its row's rate, rounded down to tens. */
  function AfterCommand(row: nat): RateState
  {
    RateState((row * 8 + 50) / 10 * 10, row)
  }

  /** The next utterance sends its rate only if it is not the one told. */
  function NextUtterance(s: RateState, wpm: int, x: Extensions): RateState
  {
    if s.told == wpm then s else RateState(wpm, RateRow(wpm, x))
  }

  /** The next utterance starts at the row of its own rate, unless that rate is what the
      last command was rounded to and the rounding has lost a row. */
  lemma CarriedOverIff(row: nat, wpm: int, x: Extensions)
    requires row < ROWS && wpm >= RATE_MIN
    ensures NextUtterance(AfterCommand(row), wpm, x).row == RateRow(wpm, x)
            <==> wpm != (row * 8 + 50) / 10 * 10 || (row % 5 != 1 && row % 5 != 2)
  {
    var k, c := row / 5, row % 5;
    assert row * 8 + 50 == 10 * (4 * k + 5) + 8 * c;
    assert (row * 8 + 50) / 10 == 4 * k + 5 + 8 * c / 10;
  }
}
