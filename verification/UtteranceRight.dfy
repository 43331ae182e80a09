/** When the engine hears what the fragments asked for (sapi5/tvsapi.c): exactly which
    pitches, rates, spaces and bookmarks come through unharmed. */
module UtteranceRight {
  import opened Escapes
  import opened Utterance
  import opened SeamRule

  // ---- pitch ------------------------------------------------------------------------

  /** No fragment up to `n` has asked for another pitch than the voice's own. */
  predicate PitchLeft(v: Voice, frags: seq<Fragment>, n: nat)
    requires n <= |frags|
  {
    n == 0 || (AskedPitch(v, frags, n) == v.pitch && PitchLeft(v, frags, n - 1))
  }

  /** The pitch asked for comes through: nothing needed saying, or half of it says it. */
  predicate PitchTold(v: Voice, frags: seq<Fragment>, n: nat)
    requires n <= |frags|
  {
    var p := AskedPitch(v, frags, n);
    PitchLeft(v, frags, n) || (p % 2 == 0 && 50 <= p <= 400)
  }

  lemma OwnPitch(v: Voice)
    requires Plausible(v)
    ensures MapPitch(v.pitch, 0) == v.pitch
  {
  }

  lemma LeftAsked(v: Voice, frags: seq<Fragment>, n: nat)
    requires n <= |frags| && Plausible(v) && PitchLeft(v, frags, n)
    ensures AskedPitch(v, frags, n) == v.pitch
  {
    OwnPitch(v);
  }

  /** The pitch in force is the voice's own until another is asked for, and then what
      half of the last one asked for says. */
  lemma {:induction false} PitchReached(v: Voice, frags: seq<Fragment>, n: nat)
    requires n <= |frags| && Plausible(v)
    ensures PitchAt(v, frags, n)
            == if PitchLeft(v, frags, n) then AskedPitch(v, frags, n) else PitchHeard(AskedPitch(v, frags, n))
  {
    hide MapPitch, PitchHeard;
    OwnPitch(v);
    if n == 0 {
    } else {
      PitchReached(v, frags, n - 1);
      if PitchLeft(v, frags, n - 1) {
        LeftAsked(v, frags, n - 1);
      }
    }
  }

  /** The pitch in force is the one asked for exactly when `PitchTold`. */
  lemma {:induction false} PitchRightIff(v: Voice, frags: seq<Fragment>, n: nat)
    requires n <= |frags| && Plausible(v)
    ensures PitchAt(v, frags, n) == AskedPitch(v, frags, n) <==> PitchTold(v, frags, n)
  {
    hide PitchAt, PitchLeft, AskedPitch, PitchHeard;
    PitchReached(v, frags, n);
    AskedPitchRange(v, frags, n);
    PitchHeardIff(AskedPitch(v, frags, n));
  }

  lemma AskedPitchRange(v: Voice, frags: seq<Fragment>, n: nat)
    requires n <= |frags|
    ensures PITCH_MIN <= AskedPitch(v, frags, n) <= PITCH_MAX
  {
  }

  // ---- rate -------------------------------------------------------------------------

  /** A rate command the engine reads: only the extension lets a parameter past 255, where
      it is none. */
  predicate RateRead(wpm: int, x: Extensions)
  {
    !x.rate || wpm <= 255
  }

  /** No rate command up to fragment `n` has been read: none was needed, or only ones
      too fast to be said. */
  predicate RateLeft(v: Voice, frags: seq<Fragment>, n: nat)
    requires n <= |frags|
  {
    n == 0
    || (&& (AskedRate(v, frags, n) == AskedRate(v, frags, n - 1) || !RateRead(AskedRate(v, frags, n), v.x))
        && RateLeft(v, frags, n - 1))
  }

  /** The row of the rate asked for is in force: while no command has been read, when it
      is the row of the rate Speak set; after that, when the 26 rows have it. */
  predicate RateTold(v: Voice, frags: seq<Fragment>, n: nat)
    requires n <= |frags|
  {
    if RateLeft(v, frags, n) then RateRow(AskedRate(v, frags, n), v.x) == RateRow(AskedRate(v, frags, 0), v.x)
    else AskedRate(v, frags, n) <= 253
  }

  lemma RowsEnd(wpm: int, x: Extensions)
    ensures RateRow(wpm, x) < 26 <==> wpm <= 253
    ensures wpm <= 253 ==> RateRead(wpm, x)
  {
  }

  /** Once a command has been read the row is one of the 26: that of the rate last asked
      for, unless that rate is too fast for them. */
  lemma {:induction false} RowReached(v: Voice, frags: seq<Fragment>, n: nat)
    requires n <= |frags|
    ensures RateLeft(v, frags, n) ==> RowAt(v, frags, n) == RateRow(AskedRate(v, frags, 0), v.x)
    ensures !RateLeft(v, frags, n) ==> RowAt(v, frags, n) < ROWS
    ensures !RateLeft(v, frags, n) && AskedRate(v, frags, n) <= RATE_MAX ==>
              RowAt(v, frags, n) == RateRow(AskedRate(v, frags, n), v.x)
  {
    hide MapRate, RateRow, RateRead;
    if n == 0 {
    } else {
      RowReached(v, frags, n - 1);
      RowsEnd(AskedRate(v, frags, n), v.x);
      ReadOrDropped(RowAt(v, frags, n - 1), AskedRate(v, frags, n), v.x);
    }
  }

  lemma ReadOrDropped(before: int, wpm: int, x: Extensions)
    ensures RowHeard(before, wpm, x)
            == if !RateRead(wpm, x) then before else if RateRow(wpm, x) < ROWS then RateRow(wpm, x) else ROWS - 1
  {
  }

  /** The row in force is that of the rate asked for exactly when `RateTold`. */
  lemma RateRightIff(v: Voice, frags: seq<Fragment>, n: nat)
    requires n <= |frags|
    ensures RowAt(v, frags, n) == RateRow(AskedRate(v, frags, n), v.x) <==> RateTold(v, frags, n)
  {
    hide MapRate, RowAt, RateRow, RateLeft;
    RowReached(v, frags, n);
    RowsEnd(AskedRate(v, frags, n), v.x);
  }

  // ---- marks ------------------------------------------------------------------------

  /** The mark numbers among what is heard. */
  function MarksIn(heard: seq<Heard>): seq<int>
  {
    if heard == [] then []
    else
      var last := heard[|heard| - 1];
      MarksIn(heard[..|heard| - 1]) + if last.Marked? then [last.n] else []
  }

  lemma {:induction false} MarksInConcat(a: seq<Heard>, b: seq<Heard>)
    ensures MarksIn(a + b) == MarksIn(a) + MarksIn(b)
    decreases |b|
  {
    if b == [] {
      assert a + b == a;
    } else {
      assert (a + b)[..|a + b| - 1] == a + b[..|b| - 1];
      MarksInConcat(a, b[..|b| - 1]);
    }
  }

  lemma {:induction false} NoMarksInSaid(s: seq<WChar>, pitch: int, row: int)
    ensures MarksIn(SaidAll(s, pitch, row)) == []
    decreases |s|
  {
    if s == [] {
    } else {
      NoMarksInSaid(s[..|s| - 1], pitch, row);
      assert SaidAll(s, pitch, row)[..|s| - 1] == SaidAll(s[..|s| - 1], pitch, row);
    }
  }

  /** One, two, and so on. */
  function Count(n: nat): seq<int>
  {
    seq(n, i => i + 1)
  }

  lemma CountNext(n: nat)
    ensures Count(n + 1) == Count(n) + [n + 1] && Count(n) == Count(n) + []
  {
  }

  lemma NoMarks()
    ensures MarksIn([]) == [] && Count(0) == []
  {
  }

  lemma MarksInSpoken(f: Fragment, seam: bool, mark: nat, pitch: int, row: int)
    ensures MarksIn(Spoken(f, seam, mark, pitch, row)) == if f.action.Bookmark? && mark <= 255 then [mark] else []
  {
    match f.action
    case Speak =>
      NoMarksInSaid((if seam && f.text != [] && f.text[0] != SPACE then [SPACE] else []) + f.text, pitch, row);
    case SpellOut => NoMarksInSaid(Spelled(f.text), pitch, row);
    case Silence(ms) =>
      assert [Paused(PauseHeard(ms))][..0] == [];
    case Bookmark =>
      assert [Marked(mark)][..0] == [];
    case Other =>
  }

  /** The engine reports the bookmarks 1, 2, ... in fragment order; from the 256th on a
      bookmark is not reported. */
  lemma {:induction false} MarksInOrder(v: Voice, frags: seq<Fragment>, n: nat)
    requires n <= |frags|
    ensures MarksIn(HeardTo(v, frags, n)) == Count(if |Names(frags, n)| < 255 then |Names(frags, n)| else 255)
  {
    hide PitchAt, RowAt, Spoken, MarksIn, Count, SeamAfter;
    if n == 0 {
      NoMarks();
    } else {
      var mark := |Names(frags, n - 1)| + 1;
      CountNext(if mark <= 255 then mark - 1 else 255);
      var said := Spoken(frags[n - 1], SeamAfter(frags, n - 1), mark, PitchAt(v, frags, n), RowAt(v, frags, n));
      MarksInOrder(v, frags, n - 1);
      MarksInConcat(HeardTo(v, frags, n - 1), said);
      MarksInSpoken(frags[n - 1], SeamAfter(frags, n - 1), mark, PitchAt(v, frags, n), RowAt(v, frags, n));
    }
  }

  // ---- the whole utterance ----------------------------------------------------------

  /** What a fragment asks for: its words at the pitch and rate its own state maps to,
      after a space exactly when one is due, its pause as long as it says, and its mark
      whatever its number. */
  function Meant(f: Fragment, due: bool, mark: nat, pitch: int, row: int): seq<Heard>
  {
    match f.action
    case Bookmark => [Marked(mark)]
    case Silence(ms) => [Paused(ms)]
    case _ => SaidAll(SpaceIf(due) + Words(f), pitch, row)
  }

  function MeantTo(v: Voice, frags: seq<Fragment>, n: nat, opening: bool): seq<Heard>
    requires n <= |frags|
  {
    if n == 0 then []
    else
      MeantTo(v, frags, n - 1, opening)
      + Meant(frags[n - 1], Due(frags, n - 1, opening), |Names(frags, n - 1)| + 1,
              FragPitch(v, frags[n - 1]), RateRow(FragRate(v, frags[n - 1]), v.x))
  }

  predicate Speaks(f: Fragment)
  {
    (f.action.Speak? || f.action.SpellOut?) && f.text != []
  }

  lemma SpeaksWords(f: Fragment)
    ensures Words(f) != [] <==> Speaks(f)
  {
    if f.action.SpellOut? && f.text != [] {
      SpelledHead(f.text);
    }
  }

  /** The same words at the same pitch and rate, or not the same for good. */
  lemma SaidSameIff(s: seq<WChar>, t: seq<WChar>, p: int, r: int, q: int, u: int)
    requires s == t || Parted(s, t)
    ensures
      var same := s == t && (s != [] ==> p == q && r == u);
      if same then SaidAll(s, p, r) == SaidAll(t, q, u) else Parted(SaidAll(s, p, r), SaidAll(t, q, u))
  {
    var a, b := SaidAll(s, p, r), SaidAll(t, q, u);
    if s != t {
      var k :| 0 <= k < |s| && k < |t| && s[k] != t[k];
      assert a[k] == Said(s[k], p, r) && b[k] == Said(t[k], q, u);
    } else if s != [] {
      assert a[0] == Said(s[0], p, r) && b[0] == Said(t[0], q, u);
    }
  }

  lemma SpokenSaid(f: Fragment, seam: bool, mark: nat, p: int, r: int)
    requires f.action.Speak? || f.action.SpellOut? || f.action.Other?
    ensures Spoken(f, seam, mark, p, r)
            == SaidAll(SpaceIf(PutsSpace(f, seam)) + Words(f), p, r)
  {
    hide Spelled;
    match f.action
    case SpellOut => assert [] + Spelled(f.text) == Spelled(f.text);
    case _ =>
  }

  /** A pause the command can make as long as it is asked to be. */
  predicate PauseTold(f: Fragment)
  {
    f.action.Silence? ==> f.action.ms % 10 == 0 && f.action.ms <= 2060
  }

  /** A fragment is heard as meant exactly when it speaks at the right pitch and rate
      with the space that is due, if any, and pauses as long as it says; a bookmark of the
      first 255 always is. */
  lemma SpokenAsMeantIff(f: Fragment, seam: bool, due: bool, mark: nat, p: int, r: int, q: int, u: int)
    requires f.action.Bookmark? ==> mark <= 255
    requires PutsSpace(f, seam) || due ==> Words(f) != [] && Words(f)[0] != SPACE
    ensures
      var right := PauseTold(f) && (Speaks(f) ==> PutsSpace(f, seam) == due && p == q && r == u);
      if right then Spoken(f, seam, mark, p, r) == Meant(f, due, mark, q, u)
      else Parted(Spoken(f, seam, mark, p, r), Meant(f, due, mark, q, u))
  {
    hide Words, SaidAll, Parted, SpaceIf, PutsSpace;
    match f.action
    case Bookmark =>
    case Silence(ms) =>
      PauseHeardIff(ms);
      if PauseHeard(ms) != ms {
        PausesPart(PauseHeard(ms), ms);
      }
    case _ =>
      var spaced := PutsSpace(f, seam);
      SpeaksWords(f);
      SpokenSaid(f, seam, mark, p, r);
      SpacePartsIff(spaced, due, Words(f));
      SpacedEmptyIff(spaced, Words(f));
      SaidSameIff(SpaceIf(spaced) + Words(f), SpaceIf(due) + Words(f), p, r, q, u);
  }

  lemma PausesPart(m: int, n: int)
    requires m != n
    ensures Parted([Paused(m)], [Paused(n)])
  {
    assert [Paused(m)][0] != [Paused(n)][0];
  }

  lemma SpacedEmptyIff(spaced: bool, words: seq<WChar>)
    requires spaced ==> words != []
    ensures SpaceIf(spaced) + words == [] <==> words == []
  {
  }

  /** What a caller can check of fragment `i` before speaking. */
  predicate FragmentTellable(v: Voice, frags: seq<Fragment>, i: nat, opening: bool)
    requires i < |frags|
  {
    && (Speaks(frags[i]) ==> PitchTold(v, frags, i + 1) && RateTold(v, frags, i + 1))
    && PauseTold(frags[i]) && SeamFits(frags, i, opening)
  }

  predicate Tellable(v: Voice, frags: seq<Fragment>, n: nat, opening: bool)
    requires n <= |frags|
  {
    && (forall i :: 0 <= i < n ==> FragmentTellable(v, frags, i, opening))
    && |Names(frags, n)| <= 255
  }

  /** One more fragment heard as meant. */
  lemma NextAsMeantIff(v: Voice, frags: seq<Fragment>, n: nat, opening: bool)
    requires n < |frags| && Plausible(v) && |Names(frags, n + 1)| <= 255
    ensures
      var f, mark := frags[n], |Names(frags, n)| + 1;
      var h := Spoken(f, SeamAfter(frags, n), mark, PitchAt(v, frags, n + 1), RowAt(v, frags, n + 1));
      var m := Meant(f, Due(frags, n, opening), mark, FragPitch(v, f), RateRow(FragRate(v, f), v.x));
      if FragmentTellable(v, frags, n, opening) then h == m else Parted(h, m)
  {
    hide PitchAt, RowAt, Spoken, Meant, PitchTold, RateTold, MapPitch, MapRate, SeamAfter, RateRow, Parted, Due,
      SeamFits,
      Words, PutsSpace;
    var f, mark := frags[n], |Names(frags, n)| + 1;
    PitchRightIff(v, frags, n + 1);
    RateRightIff(v, frags, n + 1);
    SpacedWhenDueIff(frags, n, opening);
    if !Speaks(f) {
      SilentFits(frags, n, opening);
    }
    SpokenAsMeantIff(f, SeamAfter(frags, n), Due(frags, n, opening), mark, PitchAt(v, frags, n + 1),
                     RowAt(v, frags, n + 1), FragPitch(v, f), RateRow(FragRate(v, f), v.x));
  }

  lemma SilentFits(frags: seq<Fragment>, n: nat, opening: bool)
    requires n < |frags| && !Speaks(frags[n])
    ensures SeamFits(frags, n, opening)
  {
  }

  lemma MarksInMeant(f: Fragment, due: bool, mark: nat, pitch: int, row: int)
    ensures MarksIn(Meant(f, due, mark, pitch, row)) == if f.action.Bookmark? then [mark] else []
  {
    match f.action
    case Bookmark => assert [Marked(mark)][..0] == [];
    case Silence(ms) => assert [Paused(ms)][..0] == [];
    case _ => NoMarksInSaid(SpaceIf(due) + Words(f), pitch, row);
  }

  /** Every bookmark is meant to be reported, by its number. */
  lemma {:induction false} MarksMeant(v: Voice, frags: seq<Fragment>, n: nat, opening: bool)
    requires n <= |frags|
    ensures MarksIn(MeantTo(v, frags, n, opening)) == Count(|Names(frags, n)|)
  {
    hide Meant, MarksIn, Count, Due, RateRow, MapPitch, MapRate;
    if n == 0 {
      NoMarks();
    } else {
      var f, mark := frags[n - 1], |Names(frags, n - 1)| + 1;
      MarksMeant(v, frags, n - 1, opening);
      CountNext(mark - 1);
      MarksInConcat(MeantTo(v, frags, n - 1, opening),
                    Meant(f, Due(frags, n - 1, opening), mark, FragPitch(v, f), RateRow(FragRate(v, f), v.x)));
      MarksInMeant(f, Due(frags, n - 1, opening), mark, FragPitch(v, f), RateRow(FragRate(v, f), v.x));
    }
  }

  /** With no more than 255 bookmarks: heard as meant, or not as meant for good. */
  lemma {:induction false} MeantOrParted(v: Voice, frags: seq<Fragment>, n: nat, opening: bool)
    requires n <= |frags| && Plausible(v) && |Names(frags, n)| <= 255
    ensures
      var h, m := HeardTo(v, frags, n), MeantTo(v, frags, n, opening);
      if Tellable(v, frags, n, opening) then h == m else Parted(h, m)
  {
    hide PitchAt, RowAt, Spoken, Meant, FragmentTellable, MapPitch, MapRate, SeamAfter, RateRow, Parted, Due;
    if n == 0 {
    } else {
      var f, mark := frags[n - 1], |Names(frags, n - 1)| + 1;
      var h, m := HeardTo(v, frags, n - 1), MeantTo(v, frags, n - 1, opening);
      var x := Spoken(f, SeamAfter(frags, n - 1), mark, PitchAt(v, frags, n), RowAt(v, frags, n));
      var y := Meant(f, Due(frags, n - 1, opening), mark, FragPitch(v, f), RateRow(FragRate(v, f), v.x));
      MeantOrParted(v, frags, n - 1, opening);
      if !Tellable(v, frags, n - 1, opening) {
        PartedStays(h, m, x, y);
      } else {
        NextAsMeantIff(v, frags, n - 1, opening);
        if !FragmentTellable(v, frags, n - 1, opening) {
          PartedAfter(h, x, y);
        }
      }
    }
  }

  /** The utterance means what its fragments ask for exactly when every pitch and rate it
      speaks at and every pause can be told, every seam gets the space that is due and no
      other, and there are no more than 255 bookmarks. */
  lemma UtteranceRightIff(v: Voice, frags: seq<Fragment>, punctuation: bool, opening: bool)
    requires CleanText(frags) && Plausible(v)
    ensures HearAll(Fresh(v), BuildTo(v, frags, |frags|, punctuation).out, v.x).heard
            == MeantTo(v, frags, |frags|, opening)
            <==> Tellable(v, frags, |frags|, opening)
  {
    hide FragmentTellable, HearAll, MeantTo, HeardTo, BuildTo, Keeps, Parted, MarksIn;
    UtteranceHeard(v, frags, |frags|, punctuation);
    if |Names(frags, |frags|)| <= 255 {
      MeantOrParted(v, frags, |frags|, opening);
      if !Tellable(v, frags, |frags|, opening) {
        PartedDiffer(HeardTo(v, frags, |frags|), MeantTo(v, frags, |frags|, opening));
      }
    } else {
      MarksMeant(v, frags, |frags|, opening);
      MarksInOrder(v, frags, |frags|);
    }
  }

  // ---- examples ---------------------------------------------------------------------

  /** An odd pitch is not what is heard: a voice at 85 whose state asks for two steps up
      is asked for 107, and speaks at 106. */
  lemma OddPitchLost(v: Voice, f: Fragment)
    requires v.pitch == 85 && f.pitchAdj == 2
    ensures FragPitch(v, f) == 107 && PitchAt(v, [f], 1) == 106
  {
  }

  /** A rate above 255 is not heard at all, though the extension allows it: a voice at
      150 asked for five steps up, 275, goes on at its own. */
  lemma FastRateLost(v: Voice, f: Fragment)
    requires v.x.rate && v.rate == 150 && v.siteRate == 0 && f.rateAdj == 5
    ensures FragRate(v, f) == 275 && RateRow(275, v.x) == 28 && RowAt(v, [f], 1) == RateRow(150, v.x) == 13
  {
  }

  /** 254 can be said, but is spoken a row too slow. */
  lemma RowCut(v: Voice, f: Fragment)
    requires v.x.rate && v.rate == 157 && v.siteRate == 0 && f.rateAdj == 4
    ensures FragRate(v, f) == 254 && RateRow(254, v.x) == 26 && RowAt(v, [f], 1) == 25
  {
  }
}
