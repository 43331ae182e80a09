/** Turning a list of SAPI fragments into one string for the engine
    (sapi5/tvsapi.c), and what the engine hears in it. */
module Utterance {
  import opened Escapes

  // ---- parameters -------------------------------------------------------------------

  const PITCH_MIN := 50
  const PITCH_MAX := 500

  const PITCH_STEP: seq<int> := [
    316, 355, 398, 447, 501, 562, 631, 708, 794, 891, 1000,
    1122, 1259, 1413, 1585, 1778, 1995, 2239, 2512, 2818, 3162]

  /** C's division, which truncates toward zero. */
  function Quot(a: int, b: int): int
    requires b > 0
  {
    if a >= 0 then a / b else -(-a / b)
  }

  function MapPitch(base: int, adj: int): int
  {
    Clamp(Quot(base * PITCH_STEP[Clamp(adj, -10, 10) + 10], 1000), PITCH_MIN, PITCH_MAX)
  }

  function MapRate(base: int, adj: int): int
  {
    var n := Clamp(adj, -10, 10);
    if n == 0 then base
    else if n < 0 then base + Quot((base - RATE_MIN) * n, 10)
    else base + Quot((RATE_MAX_EXT - base) * n, 10)
  }

  /** The ends of SAPI's scale are the ends of the engine's, zero is the voice's own, and
      more never gives less. */
  lemma MapRateMonotone(base: int, low: int, high: int)
    requires RATE_MIN <= base <= RATE_MAX_EXT && low <= high
    ensures RATE_MIN <= MapRate(base, low) <= MapRate(base, high) <= RATE_MAX_EXT
    ensures MapRate(base, -10) == RATE_MIN && MapRate(base, 0) == base && MapRate(base, 10) == RATE_MAX_EXT
  {
    hide Quot;
    var a, b := Clamp(low, -10, 10), Clamp(high, -10, 10);
    Tenths(base - RATE_MIN, a, b);
    Tenths(RATE_MAX_EXT - base, a, b);
    Tenths(base - RATE_MIN, -10, 10);
    Tenths(RATE_MAX_EXT - base, -10, 10);
  }

  lemma Tenths(d: int, a: int, b: int)
    requires 0 <= d && -10 <= a <= b <= 10
    ensures -d <= Quot(d * a, 10) <= Quot(d * b, 10) <= d
    ensures Quot(d * -10, 10) == -d && Quot(d * 10, 10) == d
    ensures a <= 0 ==> Quot(d * a, 10) <= 0
    ensures a >= 0 ==> Quot(d * a, 10) >= 0
    ensures b <= 0 ==> Quot(d * b, 10) <= 0
    ensures b >= 0 ==> Quot(d * b, 10) >= 0
  {
    Scaled(d, a, b);
  }

  lemma Scaled(d: int, a: int, b: int)
    requires 0 <= d && -10 <= a <= b <= 10
    ensures -10 * d <= d * a <= d * b <= 10 * d
    ensures a <= 0 ==> d * a <= 0
    ensures a >= 0 ==> d * a >= 0
    ensures b <= 0 ==> d * b <= 0
    ensures b >= 0 ==> d * b >= 0
  {
  }

  // ---- fragments --------------------------------------------------------------------

  datatype Action = Speak | SpellOut | Silence(ms: nat) | Bookmark | Other

  datatype Fragment = Fragment(action: Action, text: seq<WChar>, pitchAdj: int, rateAdj: int)

  /** The voice's own settings, what the site adds to the rate, the extensions on. */
  datatype Voice = Voice(pitch: int, rate: int, siteRate: int, x: Extensions)

  predicate Plausible(v: Voice)
  {
    PITCH_MIN <= v.pitch <= PITCH_MAX && RATE_MIN <= v.rate <= RATE_MAX_EXT
  }

  function FragPitch(v: Voice, f: Fragment): int
  {
    MapPitch(v.pitch, f.pitchAdj)
  }

  function FragRate(v: Voice, f: Fragment): int
  {
    MapRate(v.rate, f.rateAdj + v.siteRate)
  }

  // ---- the utterance ----------------------------------------------------------------

  /** What `build_utterance` has after some fragments: the text, the pitch and rate it
      has asked for last, whether a seam is open, and the bookmarks' names. */
  datatype Built = Built(out: seq<WChar>, pitch: int, rate: int, gap: bool, marks: seq<seq<WChar>>)

  function Start(v: Voice, punctuation: bool): Built
  {
    Built(if punctuation then Escape(2, Letter('N')) else [],
          MapPitch(v.pitch, 0), MapRate(v.rate, v.siteRate), false, [])
  }

  function Spelled(text: seq<WChar>): seq<WChar>
  {
    if text == [] then [] else Spelled(text[..|text| - 1]) + [text[|text| - 1], SPACE]
  }

  /** Every letter stands on its own, a space after each. */
  lemma {:induction false} SpelledIs(text: seq<WChar>)
    ensures |Spelled(text)| == 2 * |text|
    ensures forall i :: 0 <= i < |text| ==> Spelled(text)[2 * i] == text[i] && Spelled(text)[2 * i + 1] == 0x20
  {
    if text == [] {
    } else {
      SpelledIs(text[..|text| - 1]);
    }
  }

  /** The pitch and rate commands a fragment needs before it. */
  function Retuned(v: Voice, b: Built, f: Fragment): Built
  {
    var p, r := FragPitch(v, f), FragRate(v, f);
    b.(out := b.out + (if p != b.pitch then PitchEscape(p) else []) + (if r != b.rate then RateEscape(r, v.x) else []),
       pitch := p, rate := r)
  }

  /** Whether a space is put back between what is built and `text`. */
  predicate NeedsSpace(b: Built, text: seq<WChar>)
  {
    b.gap && b.out != [] && b.out[|b.out| - 1] != SPACE && text != [] && text[0] != SPACE
  }

  function Added(b: Built, f: Fragment): Built
  {
    match f.action
    case Bookmark => b.(out := b.out + MarkEscape(|b.marks| + 1), marks := b.marks + [f.text], gap := true)
    case Silence(ms) => b.(out := b.out + BreakEscape(ms), gap := true)
    case SpellOut => b.(out := b.out + Spelled(f.text), gap := false)
    case Speak => b.(out := b.out + (if NeedsSpace(b, f.text) then [SPACE] else []) + f.text, gap := false)
    case Other => b
  }

  function BuildTo(v: Voice, frags: seq<Fragment>, n: nat, punctuation: bool): Built
    requires n <= |frags|
  {
    if n == 0 then Start(v, punctuation)
    else Added(Retuned(v, BuildTo(v, frags, n - 1, punctuation), frags[n - 1]), frags[n - 1])
  }

  // ---- what is heard ----------------------------------------------------------------

  /** The pitch and rate `build_utterance` last asked for, before fragment `n`. */
  function AskedPitch(v: Voice, frags: seq<Fragment>, n: nat): int
    requires n <= |frags|
  {
    if n == 0 then MapPitch(v.pitch, 0) else FragPitch(v, frags[n - 1])
  }

  function AskedRate(v: Voice, frags: seq<Fragment>, n: nat): int
    requires n <= |frags|
  {
    if n == 0 then MapRate(v.rate, v.siteRate) else FragRate(v, frags[n - 1])
  }

  /** The pitch and the row of the rate in force once fragment `n` has been read (for 0, at the start):
      what Speak set, until a command changes it. */
  function PitchAt(v: Voice, frags: seq<Fragment>, n: nat): int
    requires n <= |frags|
  {
    if n == 0 then v.pitch
    else if AskedPitch(v, frags, n) == AskedPitch(v, frags, n - 1) then PitchAt(v, frags, n - 1)
    else PitchHeard(AskedPitch(v, frags, n))
  }

  function RowAt(v: Voice, frags: seq<Fragment>, n: nat): int
    requires n <= |frags|
  {
    if n == 0 then RateRow(MapRate(v.rate, v.siteRate), v.x)
    else if AskedRate(v, frags, n) == AskedRate(v, frags, n - 1) then RowAt(v, frags, n - 1)
    else RowHeard(RowAt(v, frags, n - 1), AskedRate(v, frags, n), v.x)
  }

  /** A seam is open after fragment `n` when the last that spoke or marked, marked. */
  predicate SeamAfter(frags: seq<Fragment>, n: nat)
    requires n <= |frags|
  {
    if n == 0 then false
    else
      match frags[n - 1].action
      case Bookmark => true
      case Silence(_) => true
      case SpellOut => false
      case Speak => false
      case Other => SeamAfter(frags, n - 1)
  }

  /** The bookmarks' names in order. */
  function Names(frags: seq<Fragment>, n: nat): seq<seq<WChar>>
    requires n <= |frags|
  {
    if n == 0 then []
    else Names(frags, n - 1) + if frags[n - 1].action.Bookmark? then [frags[n - 1].text] else []
  }

  /** What a fragment gives the ear: its words, preceded by a space across an open seam
      unless they bring one; its letters one by one; its pause; or its mark, numbered. */
  function Spoken(f: Fragment, seam: bool, mark: nat, pitch: int, row: int): seq<Heard>
  {
    match f.action
    case Speak => SaidAll((if seam && f.text != [] && f.text[0] != SPACE then [SPACE] else []) + f.text, pitch, row)
    case SpellOut => SaidAll(Spelled(f.text), pitch, row)
    case Silence(ms) => [Paused(PauseHeard(ms))]
    case Bookmark => if mark > 255 then [] else [Marked(mark)]
    case Other => []
  }

  function HeardTo(v: Voice, frags: seq<Fragment>, n: nat): seq<Heard>
    requires n <= |frags|
  {
    if n == 0 then []
    else
      HeardTo(v, frags, n - 1)
      + Spoken(frags[n - 1], SeamAfter(frags, n - 1), |Names(frags, n - 1)| + 1,
               PitchAt(v, frags, n), RowAt(v, frags, n))
  }

  predicate CleanText(frags: seq<Fragment>)
  {
    forall i :: 0 <= i < |frags| ==> Clean(frags[i].text)
  }

  /** The engine as Speak has set it up. */
  function Fresh(v: Voice): Reader
  {
    Reader(Plain, v.pitch, RateRow(MapRate(v.rate, v.siteRate), v.x), false, [])
  }

  lemma SpelledClean(text: seq<WChar>)
    requires Clean(text)
    ensures Clean(Spelled(text))
  {
    if text == [] {
    } else {
      assert Clean(text[..|text| - 1]);
      SpelledClean(text[..|text| - 1]);
    }
  }

  /** After a mark or a pause the text ends in the letter of a command, so across a seam
      the test for a space already there never finds one. */
  predicate SeamShown(b: Built)
  {
    b.gap ==> b.out != [] && b.out[|b.out| - 1] != SPACE
  }

  lemma EscapeEnds(n: nat, letter: WChar)
    ensures Escape(n, letter) != []
    ensures Escape(n, letter)[|Escape(n, letter)| - 1] == letter
  {
  }

  lemma RetunedShown(v: Voice, b: Built, f: Fragment)
    requires SeamShown(b)
    ensures SeamShown(Retuned(v, b, f))
  {
    EscapeEnds(PitchArg(FragPitch(v, f)), Letter('p'));
    EscapeEnds(RateArg(FragRate(v, f), v.x), Letter('r'));
  }

  lemma AddedShown(b: Built, f: Fragment)
    requires SeamShown(b)
    ensures SeamShown(Added(b, f))
  {
    EscapeEnds(|b.marks| + 1, Letter('i'));
    match f.action
    case Silence(ms) => EscapeEnds(BreakArg(ms), Letter('s'));
    case _ =>
  }

  /** The commands before a fragment are heard as its pitch and rate. */
  lemma HearRetuned(v: Voice, b: Built, f: Fragment, start: Reader, r: Reader)
    requires HearAll(start, b.out, v.x) == r && r.mode.Plain?
    ensures HearAll(start, Retuned(v, b, f).out, v.x)
            == r.(pitch := if FragPitch(v, f) != b.pitch then PitchHeard(FragPitch(v, f)) else r.pitch,
                  row := if FragRate(v, f) != b.rate then RowHeard(r.row, FragRate(v, f), v.x) else r.row)
  {
    var p := if FragPitch(v, f) != b.pitch then PitchEscape(FragPitch(v, f)) else [];
    var q := if FragRate(v, f) != b.rate then RateEscape(FragRate(v, f), v.x) else [];
    HearConcat(start, b.out + p, q, v.x);
    HearConcat(start, b.out, p, v.x);
    HearPitch(r, FragPitch(v, f), v.x);
    HearRate(HearAll(r, p, v.x), FragRate(v, f), v.x);
  }

  /** Words across a seam are heard with a space before them. */
  lemma HearSpeak(v: Voice, b: Built, text: seq<WChar>, start: Reader, r: Reader)
    requires HearAll(start, b.out, v.x) == r && r.mode.Plain? && SeamShown(b) && Clean(text)
    ensures
      var said := (if b.gap && text != [] && text[0] != SPACE then [SPACE] else []) + text;
      && b.out + (if NeedsSpace(b, text) then [SPACE] else []) + text == b.out + said
      && HearAll(start, b.out + said, v.x) == r.(heard := r.heard + SaidAll(said, r.pitch, r.row))
  {
    var said := (if b.gap && text != [] && text[0] != SPACE then [SPACE] else []) + text;
    assert Clean(said);
    hide HearAll, Clean, SaidAll;
    HearConcat(start, b.out, said, v.x);
    HearText(r, said, v.x);
  }

  /** The fragment itself is heard as it should be. */
  lemma HearAdded(v: Voice, b: Built, f: Fragment, start: Reader, r: Reader)
    requires HearAll(start, b.out, v.x) == r && r.mode.Plain? && SeamShown(b) && Clean(f.text)
    ensures HearAll(start, Added(b, f).out, v.x)
            == r.(heard := r.heard + Spoken(f, b.gap, |b.marks| + 1, r.pitch, r.row))
  {
    hide HearAll, Escape, Clean, SaidAll, Spelled, NeedsSpace;
    match f.action
    case Bookmark =>
      HearConcat(start, b.out, MarkEscape(|b.marks| + 1), v.x);
      HearMark(r, |b.marks| + 1, v.x);
    case Silence(ms) =>
      HearConcat(start, b.out, BreakEscape(ms), v.x);
      HearBreak(r, ms, v.x);
    case SpellOut =>
      HearConcat(start, b.out, Spelled(f.text), v.x);
      SpelledClean(f.text);
      HearText(r, Spelled(f.text), v.x);
    case Speak => HearSpeak(v, b, f.text, start, r);
    case Other =>
      assert r.heard + [] == r.heard;
  }

  lemma HearStart(v: Voice, punctuation: bool)
    ensures HearAll(Fresh(v), Start(v, punctuation).out, v.x) == Fresh(v).(punctuation := punctuation)
  {
    HearEscape(Fresh(v), 2, Letter('N'), v.x);
  }

  /** What the loop carries from fragment to fragment. */
  predicate Keeps(v: Voice, frags: seq<Fragment>, n: nat, b: Built)
    requires n <= |frags|
  {
    && b.marks == Names(frags, n) && b.gap == SeamAfter(frags, n)
    && b.pitch == AskedPitch(v, frags, n) && b.rate == AskedRate(v, frags, n)
    && SeamShown(b)
  }

  lemma KeepsNext(v: Voice, frags: seq<Fragment>, n: nat, b: Built)
    requires n < |frags| && Keeps(v, frags, n, b)
    ensures Keeps(v, frags, n + 1, Added(Retuned(v, b, frags[n]), frags[n]))
  {
    hide MapPitch, MapRate, Escape, Spelled, NeedsSpace, SeamShown;
    RetunedShown(v, b, frags[n]);
    AddedShown(Retuned(v, b, frags[n]), frags[n]);
  }

  lemma {:induction false} BuiltKeeps(v: Voice, frags: seq<Fragment>, n: nat, punctuation: bool)
    requires n <= |frags|
    ensures Keeps(v, frags, n, BuildTo(v, frags, n, punctuation))
  {
    hide Added, Retuned;
    if n == 0 {
    } else {
      BuiltKeeps(v, frags, n - 1, punctuation);
      KeepsNext(v, frags, n - 1, BuildTo(v, frags, n - 1, punctuation));
    }
  }

  /** What is built and what is heard of it agree with the first `n` fragments. */
  predicate Tracks(v: Voice, frags: seq<Fragment>, n: nat, punctuation: bool, b: Built)
    requires n <= |frags|
  {
    && HearAll(Fresh(v), b.out, v.x)
       == Reader(Plain, PitchAt(v, frags, n), RowAt(v, frags, n), punctuation, HeardTo(v, frags, n))
    && Keeps(v, frags, n, b)
  }

  lemma TracksStart(v: Voice, frags: seq<Fragment>, punctuation: bool)
    ensures Tracks(v, frags, 0, punctuation, Start(v, punctuation))
  {
    hide HearAll, Escape;
    HearStart(v, punctuation);
  }

  lemma TracksNext(v: Voice, frags: seq<Fragment>, n: nat, punctuation: bool, b: Built)
    requires n < |frags| && Clean(frags[n].text) && Tracks(v, frags, n, punctuation, b)
    ensures Tracks(v, frags, n + 1, punctuation, Added(Retuned(v, b, frags[n]), frags[n]))
  {
    KeepsNext(v, frags, n, b);
    hide HearAll, MapPitch, MapRate, PitchHeard, RowHeard, RateRow, Clean, SeamShown, Spoken, Escape;
    var f := frags[n];
    var r := HearAll(Fresh(v), b.out, v.x);
    RetunedShown(v, b, f);
    HearRetuned(v, b, f, Fresh(v), r);
    HearAdded(v, Retuned(v, b, f), f, Fresh(v), HearAll(Fresh(v), Retuned(v, b, f).out, v.x));
  }

  /** Reading the whole utterance back gives every fragment's words, letters, pauses and
      marks in order, each with the pitch and row in force for its fragment; and the
      names kept are the bookmarks', in order. */
  lemma {:induction false} UtteranceHeard(v: Voice, frags: seq<Fragment>, n: nat, punctuation: bool)
    requires n <= |frags| && CleanText(frags)
    ensures Tracks(v, frags, n, punctuation, BuildTo(v, frags, n, punctuation))
  {
    hide Tracks, Added, Retuned, Clean, Start;
    if n == 0 {
      TracksStart(v, frags, punctuation);
    } else {
      UtteranceHeard(v, frags, n - 1, punctuation);
      TracksNext(v, frags, n - 1, punctuation, BuildTo(v, frags, n - 1, punctuation));
    }
  }
}
