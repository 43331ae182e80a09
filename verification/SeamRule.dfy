/** Spaces across seams (sapi5/tvsapi.c): what the comment above `build_utterance` asks
    for, defined on the fragments, and exactly when the code does it. */
module SeamRule {
  import opened Escapes
  import opened Utterance

  // ---- the rule ---------------------------------------------------------------------

  /** The text a fragment puts into the utterance to be spoken. */
  function Words(f: Fragment): seq<WChar>
  {
    match f.action
    case Speak => f.text
    case SpellOut => Spelled(f.text)
    case _ => []
  }

  /** The last words before fragment `n`; none when nothing has been said yet. */
  function WordsBefore(frags: seq<Fragment>, n: nat): seq<WChar>
    requires n <= |frags|
  {
    if n == 0 then []
    else if Words(frags[n - 1]) != [] then Words(frags[n - 1])
    else WordsBefore(frags, n - 1)
  }

  /** A bookmark or a pause stands between those words and fragment `n`. */
  predicate Seam(frags: seq<Fragment>, n: nat)
    requires n <= |frags|
  {
    && n > 0 && Words(frags[n - 1]) == []
    && (frags[n - 1].action.Bookmark? || frags[n - 1].action.Silence? || Seam(frags, n - 1))
  }

  /** The words before bring no space.  Where there are none the comment does not say
      whether one is due: `opening` is either answer. */
  predicate Bare(words: seq<WChar>, opening: bool)
  {
    if words == [] then opening else words[|words| - 1] != SPACE
  }

  /** A space is restored at the seam when neither side brought one. */
  predicate Due(frags: seq<Fragment>, n: nat, opening: bool)
    requires n < |frags|
  {
    var words := Words(frags[n]);
    && Seam(frags, n) && words != [] && words[0] != SPACE
    && Bare(WordsBefore(frags, n), opening)
  }

  /** The pitch and rate commands before fragment `n`, counting from one. */
  function Tuning(v: Voice, frags: seq<Fragment>, n: nat): seq<WChar>
    requires 0 < n <= |frags|
  {
    (if AskedPitch(v, frags, n) != AskedPitch(v, frags, n - 1) then PitchEscape(AskedPitch(v, frags, n)) else [])
    + (if AskedRate(v, frags, n) != AskedRate(v, frags, n - 1) then RateEscape(AskedRate(v, frags, n), v.x) else [])
  }

  function Body(f: Fragment, mark: nat): seq<WChar>
  {
    match f.action
    case Bookmark => MarkEscape(mark)
    case Silence(ms) => BreakEscape(ms)
    case _ => Words(f)
  }

  function SpaceIf(b: bool): seq<WChar>
  {
    if b then [SPACE] else []
  }

  /** The text with exactly the spaces that are due. */
  function Ruled(v: Voice, frags: seq<Fragment>, n: nat, punctuation: bool, opening: bool): seq<WChar>
    requires n <= |frags|
  {
    if n == 0 then Start(v, punctuation).out
    else
      Ruled(v, frags, n - 1, punctuation, opening) + Tuning(v, frags, n)
      + (SpaceIf(Due(frags, n - 1, opening)) + Body(frags[n - 1], |Names(frags, n - 1)| + 1))
  }

  // ---- what the code does -----------------------------------------------------------

  /** The code's own test, in terms of the fragments. */
  predicate PutsSpace(f: Fragment, seam: bool)
  {
    f.action.Speak? && seam && f.text != [] && f.text[0] != SPACE
  }

  predicate Spaced(frags: seq<Fragment>, n: nat)
    requires n < |frags|
  {
    PutsSpace(frags[n], SeamAfter(frags, n))
  }

  lemma AddedOut(b: Built, f: Fragment)
    requires SeamShown(b)
    ensures Added(b, f).out
            == b.out + (SpaceIf(PutsSpace(f, b.gap)) + Body(f, |b.marks| + 1))
  {
    hide Escape, Spelled;
    match f.action
    case Bookmark => assert [] + MarkEscape(|b.marks| + 1) == MarkEscape(|b.marks| + 1);
    case Silence(ms) => assert [] + BreakEscape(ms) == BreakEscape(ms);
    case SpellOut => assert [] + Spelled(f.text) == Spelled(f.text);
    case Speak =>
      assert b.out + SpaceIf(NeedsSpace(b, f.text)) + f.text == b.out + (SpaceIf(NeedsSpace(b, f.text)) + f.text);
    case Other => assert b.out + ([] + []) == b.out;
  }

  lemma RetunedOut(v: Voice, frags: seq<Fragment>, n: nat, b: Built)
    requires n < |frags| && Keeps(v, frags, n, b)
    ensures Retuned(v, b, frags[n]) == b.(out := b.out + Tuning(v, frags, n + 1),
              pitch := FragPitch(v, frags[n]), rate := FragRate(v, frags[n]))
    ensures SeamShown(Retuned(v, b, frags[n]))
  {
    hide MapPitch, MapRate, Escape, SeamShown;
    RetunedShown(v, b, frags[n]);
  }

  lemma BuiltOut(v: Voice, frags: seq<Fragment>, n: nat, punctuation: bool)
    requires n < |frags|
    ensures BuildTo(v, frags, n + 1, punctuation).out
            == BuildTo(v, frags, n, punctuation).out + Tuning(v, frags, n + 1)
               + (SpaceIf(Spaced(frags, n)) + Body(frags[n], |Names(frags, n)| + 1))
  {
    hide Tuning, Retuned, Added, Body, SeamShown;
    var b := BuildTo(v, frags, n, punctuation);
    BuiltKeeps(v, frags, n, punctuation);
    RetunedOut(v, frags, n, b);
    AddedOut(Retuned(v, b, frags[n]), frags[n]);
  }

  // ---- when the code follows the rule -----------------------------------------------

  /** What a caller can check of fragment `n`, when its words bring no space.  Spoken
      right after a mark or a pause, it needs words before it that bring none either.
      Spelled out, or spoken after an empty text that made the code forget the seam, it
      needs a seam where nothing is due. */
  predicate SeamFits(frags: seq<Fragment>, n: nat, opening: bool)
    requires n < |frags|
  {
    var f := frags[n];
    (f.action.Speak? || f.action.SpellOut?) && f.text != [] && f.text[0] != SPACE ==>
      if f.action.Speak? && SeamAfter(frags, n) then Bare(WordsBefore(frags, n), opening)
      else Seam(frags, n) ==> !Bare(WordsBefore(frags, n), opening)
  }

  predicate SeamsFit(frags: seq<Fragment>, n: nat, opening: bool)
    requires n <= |frags|
  {
    forall i :: 0 <= i < n ==> SeamFits(frags, i, opening)
  }

  lemma {:induction false} SpelledHead(text: seq<WChar>)
    requires text != []
    ensures Spelled(text) != [] && Spelled(text)[0] == text[0]
    ensures Spelled(text)[|Spelled(text)| - 1] == SPACE
    decreases |text|
  {
    if |text| == 1 {
      assert Spelled(text[..0]) == [];
    } else {
      SpelledHead(text[..|text| - 1]);
    }
  }

  /** The code never sees a seam where there is none. */
  lemma {:induction false} SeamAfterIsSeam(frags: seq<Fragment>, n: nat)
    requires n <= |frags| && SeamAfter(frags, n)
    ensures Seam(frags, n)
  {
    if frags[n - 1].action.Other? {
      SeamAfterIsSeam(frags, n - 1);
    } else {
    }
  }

  lemma SpacedWhenDueIff(frags: seq<Fragment>, n: nat, opening: bool)
    requires n < |frags|
    ensures (Spaced(frags, n) <==> Due(frags, n, opening)) <==> SeamFits(frags, n, opening)
    ensures Spaced(frags, n) || Due(frags, n, opening) ==> Words(frags[n]) != [] && Words(frags[n])[0] != SPACE
  {
    hide Seam, SeamAfter, WordsBefore, Bare, Spelled;
    if SeamAfter(frags, n) {
      SeamAfterIsSeam(frags, n);
    }
    if frags[n].action.SpellOut? && frags[n].text != [] {
      SpelledHead(frags[n].text);
    }
    assert Spelled([]) == [] by {
      NothingSpelled();
    }
  }

  lemma NothingSpelled()
    ensures Spelled([]) == []
  {
  }

  // ---- texts that part --------------------------------------------------------------

  /** They differ at a place both have, so nothing added to them makes them equal. */
  predicate Parted<T(==)>(a: seq<T>, b: seq<T>)
  {
    exists k :: 0 <= k < |a| && k < |b| && a[k] != b[k]
  }

  lemma PartedStays<T>(a: seq<T>, b: seq<T>, c: seq<T>, d: seq<T>)
    requires Parted(a, b)
    ensures Parted(a + c, b + d)
  {
    var k :| 0 <= k < |a| && k < |b| && a[k] != b[k];
    assert (a + c)[k] != (b + d)[k];
  }

  lemma PartedAfter<T>(a: seq<T>, c: seq<T>, d: seq<T>)
    requires Parted(c, d)
    ensures Parted(a + c, a + d)
  {
    var k :| 0 <= k < |c| && k < |d| && c[k] != d[k];
    assert (a + c)[|a| + k] != (a + d)[|a| + k];
  }

  lemma PartedDiffer<T>(a: seq<T>, b: seq<T>)
    requires Parted(a, b)
    ensures a != b
  {
  }

  /** A space on one side only parts them, as the words do not begin with one. */
  lemma SpacePartsIff(s: bool, t: bool, words: seq<WChar>)
    requires s || t ==> words != [] && words[0] != SPACE
    ensures s == t ==> SpaceIf(s) + words == SpaceIf(t) + words
    ensures s != t ==> Parted(SpaceIf(s) + words, SpaceIf(t) + words)
  {
    if s != t {
      assert (SpaceIf(s) + words)[0] != (SpaceIf(t) + words)[0];
    }
  }

  /** Either the same, or different for good. */
  lemma {:induction false} RuledOrParted(v: Voice, frags: seq<Fragment>, n: nat, punctuation: bool, opening: bool)
    requires n <= |frags|
    ensures
      var built, ruled := BuildTo(v, frags, n, punctuation).out, Ruled(v, frags, n, punctuation, opening);
      if SeamsFit(frags, n, opening) then built == ruled else Parted(built, ruled)
  {
    hide SeamFits, Spaced, Due, Body, Tuning, SpaceIf, Parted, Retuned, Added;
    if n == 0 {
    } else {
      RuledOrParted(v, frags, n - 1, punctuation, opening);
      BuiltOut(v, frags, n - 1, punctuation);
      SpacedWhenDueIff(frags, n - 1, opening);
      SpokenBody(frags[n - 1], |Names(frags, n - 1)| + 1);
      var built, ruled := BuildTo(v, frags, n - 1, punctuation).out, Ruled(v, frags, n - 1, punctuation, opening);
      var tuning, body := Tuning(v, frags, n), Body(frags[n - 1], |Names(frags, n - 1)| + 1);
      var x, y := SpaceIf(Spaced(frags, n - 1)) + body, SpaceIf(Due(frags, n - 1, opening)) + body;
      SpacePartsIff(Spaced(frags, n - 1), Due(frags, n - 1, opening), body);
      if !SeamsFit(frags, n - 1, opening) {
        PartedStays(built, ruled, tuning, tuning);
        PartedStays(built + tuning, ruled + tuning, x, y);
      } else if !SeamFits(frags, n - 1, opening) {
        PartedAfter(built + tuning, x, y);
      }
    }
  }

  lemma SpokenBody(f: Fragment, mark: nat)
    ensures Words(f) != [] ==> Body(f, mark) == Words(f)
  {
  }

  /** The built text has exactly the spaces that are due if and only if every fragment
      fits. */
  lemma SeamsRightIff(v: Voice, frags: seq<Fragment>, punctuation: bool, opening: bool)
    ensures BuildTo(v, frags, |frags|, punctuation).out == Ruled(v, frags, |frags|, punctuation, opening)
            <==> SeamsFit(frags, |frags|, opening)
  {
    hide SeamFits, Ruled, BuildTo;
    RuledOrParted(v, frags, |frags|, punctuation, opening);
  }

  // ---- what does not fit ------------------------------------------------------------

  /** Words, then one fragment that says nothing. */
  lemma WordsThenNothing(frags: seq<Fragment>, n: nat)
    requires 2 <= n <= |frags| && Words(frags[n - 2]) != [] && Words(frags[n - 1]) == []
    ensures WordsBefore(frags, n) == Words(frags[n - 2])
  {
    assert WordsBefore(frags, n - 1) == Words(frags[n - 2]);
  }

  /** Letters spelled out after a bookmark run into the words before it. */
  lemma SpelledRunsOn(frags: seq<Fragment>, n: nat, opening: bool)
    requires 2 <= n < |frags| && Words(frags[n - 2]) != [] && Bare(Words(frags[n - 2]), opening)
    requires frags[n - 1].action.Bookmark? && frags[n].action.SpellOut?
    requires frags[n].text != [] && frags[n].text[0] != SPACE
    ensures Due(frags, n, opening) && !Spaced(frags, n)
  {
    WordsThenNothing(frags, n);
    SpelledHead(frags[n].text);
  }

  /** Letters spelled out before a bookmark end in a space, and another is added. */
  lemma SpelledDoubled(frags: seq<Fragment>, n: nat, opening: bool)
    requires 2 <= n < |frags| && frags[n - 2].action.SpellOut? && frags[n - 2].text != []
    requires frags[n - 1].action.Bookmark? && frags[n].action.Speak?
    requires frags[n].text != [] && frags[n].text[0] != SPACE
    ensures Spaced(frags, n) && !Due(frags, n, opening)
  {
    SpelledHead(frags[n - 2].text);
    WordsThenNothing(frags, n);
  }

  /** An empty text makes the code forget the seam. */
  lemma EmptyForgets(frags: seq<Fragment>, n: nat, opening: bool)
    requires 3 <= n < |frags| && Words(frags[n - 3]) != [] && Bare(Words(frags[n - 3]), opening)
    requires frags[n - 2].action.Bookmark? && frags[n - 1].action.Speak? && frags[n - 1].text == []
    requires frags[n].action.Speak? && frags[n].text != [] && frags[n].text[0] != SPACE
    ensures Due(frags, n, opening) && !Spaced(frags, n)
  {
    WordsThenNothing(frags, n - 1);
    assert WordsBefore(frags, n) == WordsBefore(frags, n - 1);
    assert Seam(frags, n - 1);
  }

  /** A space is put back even when the words before the bookmark ended in one: the text
      ends in the mark's command, never in that space. */
  lemma SpaceDoubled(frags: seq<Fragment>, n: nat, opening: bool)
    requires 2 <= n < |frags| && Words(frags[n - 2]) != [] && !Bare(Words(frags[n - 2]), opening)
    requires frags[n - 1].action.Bookmark? && frags[n].action.Speak?
    requires frags[n].text != [] && frags[n].text[0] != SPACE
    ensures Spaced(frags, n) && !Due(frags, n, opening)
  {
    WordsThenNothing(frags, n);
  }
}
