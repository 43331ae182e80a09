/** Bookmarks the heap refuses (sapi5/tvsapi.c): exactly when the text and the names kept are
    what they are when it grants everything, and what the engine reports instead. */
module Refusals {
  import opened Wrappers
  import opened Escapes
  import opened Utterance
  import opened SeamRule
  import opened SapiSpeak

  /** The list of names could grow for each of the first `n` fragments that needed it. */
  predicate Numbered(frags: seq<Fragment>, heap: seq<Heap>, n: nat)
    requires n <= |frags| == |heap|
  {
    forall i :: 0 <= i < n && frags[i].action.Bookmark? ==> heap[i].list
  }

  /** And there was room for each name. */
  predicate Granted(frags: seq<Fragment>, heap: seq<Heap>, n: nat)
    requires n <= |frags| == |heap|
  {
    forall i :: 0 <= i < n && frags[i].action.Bookmark? ==> heap[i] == Heap(true, true)
  }

  /** How many bookmarks the list has had room for: the number the last one is given. */
  function Numbers(frags: seq<Fragment>, heap: seq<Heap>, n: nat): nat
    requires n <= |frags| == |heap|
  {
    if n == 0 then 0
    else Numbers(frags, heap, n - 1) + if frags[n - 1].action.Bookmark? && heap[n - 1].list then 1 else 0
  }

  // ---- the text, piece by piece -----------------------------------------------------

  lemma BuildNext(v: Voice, frags: seq<Fragment>, heap: seq<Heap>, n: nat, punctuation: bool)
    requires n < |frags| == |heap|
    ensures
      var (b, names) := BuildWith(v, frags, heap, n, punctuation);
      BuildWith(v, frags, heap, n + 1, punctuation) == AddedWith(Retuned(v, b, frags[n]), names, frags[n], heap[n])
  {
    hide AddedWith, Retuned;
  }

  lemma KeepsNextWith(v: Voice, frags: seq<Fragment>, n: nat, b: Built, names: NameList, h: Heap)
    requires n < |frags| && Keeps(v, frags, n, b)
    ensures Keeps(v, frags, n + 1, AddedWith(Retuned(v, b, frags[n]), names, frags[n], h).0)
  {
    hide MapPitch, MapRate, Escape, Spelled, NeedsSpace;
    KeepsNext(v, frags, n, b);
    EscapeEnds(|Remembered(names, frags[n].text, h)|, Letter('i'));
  }

  lemma {:induction false} WithKeeps(v: Voice, frags: seq<Fragment>, heap: seq<Heap>, n: nat, punctuation: bool)
    requires n <= |frags| == |heap|
    ensures Keeps(v, frags, n, BuildWith(v, frags, heap, n, punctuation).0)
    ensures |BuildWith(v, frags, heap, n, punctuation).1| == Numbers(frags, heap, n)
  {
    hide Keeps, Retuned, Added;
    if n == 0 {
      BuiltKeeps(v, frags, 0, punctuation);
    } else {
      var (b, names) := BuildWith(v, frags, heap, n - 1, punctuation);
      WithKeeps(v, frags, heap, n - 1, punctuation);
      KeepsNextWith(v, frags, n - 1, b, names, heap[n - 1]);
    }
  }

  lemma AddedWithOut(b: Built, names: NameList, f: Fragment, h: Heap)
    requires SeamShown(b)
    ensures
      var (t, names') := AddedWith(b, names, f, h);
      t.out == b.out + (SpaceIf(PutsSpace(f, b.gap)) + Body(f, |names'|))
  {
    hide Added, Escape;
    if f.action.Bookmark? {
      var mark := MarkEscape(|Remembered(names, f.text, h)|);
      assert [] + mark == mark;
    } else {
      AddedOut(b, f);
    }
  }

  lemma WithOut(v: Voice, frags: seq<Fragment>, heap: seq<Heap>, n: nat, punctuation: bool)
    requires n < |frags| == |heap|
    ensures BuildWith(v, frags, heap, n + 1, punctuation).0.out
            == BuildWith(v, frags, heap, n, punctuation).0.out + Tuning(v, frags, n + 1)
               + (SpaceIf(Spaced(frags, n)) + Body(frags[n], Numbers(frags, heap, n + 1)))
  {
    hide Tuning, Retuned, AddedWith, Body, SeamShown, Numbers, BuildWith;
    var (b, names) := BuildWith(v, frags, heap, n, punctuation);
    WithKeeps(v, frags, heap, n, punctuation);
    WithKeeps(v, frags, heap, n + 1, punctuation);
    BuildNext(v, frags, heap, n, punctuation);
    RetunedOut(v, frags, n, b);
    AddedWithOut(Retuned(v, b, frags[n]), names, frags[n], heap[n]);
  }

  // ---- when a refusal changes the text ----------------------------------------------

  /** Two numbers ended by the same letter differ at a place both have. */
  lemma NumbersParted(a: seq<WChar>, b: seq<WChar>, letter: WChar)
    requires a != b && !Digit(letter)
    requires (forall c :: c in a ==> Digit(c)) && forall c :: c in b ==> Digit(c)
    ensures Parted(a + [letter], b + [letter])
  {
    var x, y := a + [letter], b + [letter];
    assert |a| == |b| && (forall i :: 0 <= i < |a| ==> a[i] == b[i]) ==> a == b;
    if k :| 0 <= k < |a| && k < |b| && a[k] != b[k] {
      assert x[k] != y[k];
    } else if |a| < |b| {
      assert x[|a|] == letter && y[|a|] == b[|a|] && b[|a|] in b;
    } else if |b| < |a| {
      assert y[|b|] == letter && x[|b|] == a[|b|] && a[|b|] in a;
    }
  }

  lemma MarksParted(m: nat, n: nat)
    requires m != n
    ensures Parted(MarkEscape(m), MarkEscape(n))
  {
    hide Parted;
    DigitsOfDecimal(m);
    DigitsOfDecimal(n);
    NumbersParted(Decimal(m), Decimal(n), Letter('i'));
    var head := [ESC, BRACKET];
    Regroup(head, Decimal(m), [Letter('i')]);
    Regroup(head, Decimal(n), [Letter('i')]);
    PartedAfter(head, Decimal(m) + [Letter('i')], Decimal(n) + [Letter('i')]);
  }

  lemma NumbersNames(frags: seq<Fragment>, heap: seq<Heap>, n: nat)
    requires n <= |frags| == |heap| && Numbered(frags, heap, n)
    ensures Numbers(frags, heap, n) == |Names(frags, n)|
  {
  }

  /** One piece: the same, or different for good when it is a bookmark refused. */
  lemma BodyOrParted(f: Fragment, h: Heap, k: nat)
    ensures
      var given := if f.action.Bookmark? && h.list then k + 1 else k;
      var (x, y) := (Body(f, given), Body(f, k + 1));
      if f.action.Bookmark? && !h.list then Parted(x, y) else x == y
  {
    hide Parted, Escape;
    if f.action.Bookmark? && !h.list {
      MarksParted(k, k + 1);
    }
  }

  lemma {:induction false} TextOrParted(v: Voice, frags: seq<Fragment>, heap: seq<Heap>, n: nat, punctuation: bool)
    requires n <= |frags| == |heap|
    ensures
      var (x, y) := (BuildWith(v, frags, heap, n, punctuation).0.out, BuildTo(v, frags, n, punctuation).out);
      if Numbered(frags, heap, n) then x == y else Parted(x, y)
  {
    hide Parted, Tuning, Body, SpaceIf, Spaced, BuildWith, BuildTo, Numbers, Names;
    if n == 0 {
      NothingBuilt(v, frags, heap, punctuation);
    } else {
      var f, k := frags[n - 1], |Names(frags, n - 1)|;
      var x, y := BuildWith(v, frags, heap, n - 1, punctuation).0.out, BuildTo(v, frags, n - 1, punctuation).out;
      var tuning, space := Tuning(v, frags, n), SpaceIf(Spaced(frags, n - 1));
      var p, q := Body(f, Numbers(frags, heap, n)), Body(f, k + 1);
      TextOrParted(v, frags, heap, n - 1, punctuation);
      WithOut(v, frags, heap, n - 1, punctuation);
      BuiltOut(v, frags, n - 1, punctuation);
      if Numbered(frags, heap, n - 1) {
        NumbersNames(frags, heap, n - 1);
        NumbersNext(frags, heap, n - 1);
        BodyOrParted(f, heap[n - 1], k);
        if !Numbered(frags, heap, n) {
          PartedAfter(space, p, q);
          PartedAfter(x + tuning, space + p, space + q);
        }
      } else {
        PartedStays(x, y, tuning, tuning);
        PartedStays(x + tuning, y + tuning, space + p, space + q);
      }
    }
  }

  lemma NothingBuilt(v: Voice, frags: seq<Fragment>, heap: seq<Heap>, punctuation: bool)
    requires |frags| == |heap|
    ensures BuildWith(v, frags, heap, 0, punctuation) == (Start(v, punctuation), [])
    ensures BuildTo(v, frags, 0, punctuation) == Start(v, punctuation)
  {
  }

  lemma NumbersNext(frags: seq<Fragment>, heap: seq<Heap>, n: nat)
    requires n < |frags| == |heap|
    ensures Numbers(frags, heap, n + 1)
            == Numbers(frags, heap, n) + if frags[n].action.Bookmark? && heap[n].list then 1 else 0
  {
  }

  // ---- when it changes the names ----------------------------------------------------

  /** A name is missing from the list. */
  predicate Missing(names: NameList, all: seq<seq<WChar>>)
  {
    |names| < |all| || exists i :: 0 <= i < |names| && names[i].None?
  }

  lemma MissingStays(names: NameList, all: seq<seq<WChar>>, f: Fragment, h: Heap)
    requires f.action.Bookmark? && |names| <= |all|
    requires Missing(names, all) || (names == AllKept(all) && h != Heap(true, true))
    ensures Missing(Remembered(names, f.text, h), all + [f.text])
  {
    var names' := Remembered(names, f.text, h);
    if i :| 0 <= i < |names| && names[i].None? {
      assert names'[i].None?;
    } else if |names'| == |all| + 1 {
      assert names'[|names|].None?;
    }
  }

  lemma {:induction false} NamesOrMissing(v: Voice, frags: seq<Fragment>, heap: seq<Heap>, n: nat, punctuation: bool)
    requires n <= |frags| == |heap|
    ensures
      var names := BuildWith(v, frags, heap, n, punctuation).1;
      && |names| <= |Names(frags, n)|
      && if Granted(frags, heap, n) then names == AllKept(Names(frags, n)) else Missing(names, Names(frags, n))
  {
    hide Missing, BuildWith, Retuned, Added;
    if n == 0 {
      NothingBuilt(v, frags, heap, punctuation);
    } else {
      var names, all := BuildWith(v, frags, heap, n - 1, punctuation).1, Names(frags, n - 1);
      NamesOrMissing(v, frags, heap, n - 1, punctuation);
      BuildNext(v, frags, heap, n - 1, punctuation);
      if frags[n - 1].action.Bookmark? {
        if Granted(frags, heap, n) {
          assert AllKept(all + [frags[n - 1].text]) == AllKept(all) + [Some(frags[n - 1].text)];
        } else {
          MissingStays(names, all, frags[n - 1], heap[n - 1]);
        }
      } else {
        assert all + [] == all;
      }
    }
  }

  lemma MissingDiffers(names: NameList, all: seq<seq<WChar>>)
    requires Missing(names, all)
    ensures names != AllKept(all)
  {
  }

  /** The text is the one whose meaning is known if and only if the list could grow for
      every bookmark; the names kept are all of them if and only if there was room for
      each besides. */
  lemma BuiltAsGrantedIff(v: Voice, frags: seq<Fragment>, heap: seq<Heap>, punctuation: bool)
    requires |frags| == |heap|
    ensures
      var (b, names) := BuildWith(v, frags, heap, |frags|, punctuation);
      var t := BuildTo(v, frags, |frags|, punctuation);
      && (b.out == t.out <==> Numbered(frags, heap, |frags|))
      && (names == AllKept(t.marks) <==> Granted(frags, heap, |frags|))
  {
    hide BuildWith, BuildTo, Missing, Parted, SeamShown;
    var x, y := BuildWith(v, frags, heap, |frags|, punctuation), BuildTo(v, frags, |frags|, punctuation);
    TextOrParted(v, frags, heap, |frags|, punctuation);
    NamesOrMissing(v, frags, heap, |frags|, punctuation);
    BuiltKeeps(v, frags, |frags|, punctuation);
    if Parted(x.0.out, y.out) {
      PartedDiffer(x.0.out, y.out);
    }
    if Missing(x.1, y.marks) {
      MissingDiffers(x.1, y.marks);
    }
  }

  // ---- what is heard ----------------------------------------------------------------

  /** A mark the engine reports: not 0, and not past 255. */
  function Reported(k: nat): seq<Heard>
  {
    if 1 <= k <= 255 then [Marked(k)] else []
  }

  /** What a fragment gives the ear, a bookmark by the number it was given. */
  function SpokenWith(v: Voice, frags: seq<Fragment>, heap: seq<Heap>, n: nat): seq<Heard>
    requires n < |frags| == |heap|
  {
    if frags[n].action.Bookmark? then Reported(Numbers(frags, heap, n + 1))
    else Spoken(frags[n], SeamAfter(frags, n), |Names(frags, n)| + 1, PitchAt(v, frags, n + 1), RowAt(v, frags, n + 1))
  }

  function HeardWith(v: Voice, frags: seq<Fragment>, heap: seq<Heap>, n: nat): seq<Heard>
    requires n <= |frags| == |heap|
  {
    if n == 0 then [] else HeardWith(v, frags, heap, n - 1) + SpokenWith(v, frags, heap, n - 1)
  }

  lemma HearAnyMark(r: Reader, k: nat, x: Extensions)
    requires r.mode.Plain?
    ensures HearAll(r, MarkEscape(k), x) == r.(heard := r.heard + Reported(k))
  {
    HearEscape(r, k, Letter('i'), x);
    assert r.heard + [] == r.heard;
  }

  /** The text built and what is heard of it agree with the first `n` fragments. */
  predicate TracksWith(v: Voice, frags: seq<Fragment>, heap: seq<Heap>, n: nat, punctuation: bool, b: Built)
    requires n <= |frags| == |heap|
  {
    HearAll(Fresh(v), b.out, v.x)
    == Reader(Plain, PitchAt(v, frags, n), RowAt(v, frags, n), punctuation, HeardWith(v, frags, heap, n))
  }

  lemma TracksWithNext(v: Voice, frags: seq<Fragment>, heap: seq<Heap>, n: nat, punctuation: bool,
                       b: Built, names: NameList)
    requires n < |frags| == |heap| && Clean(frags[n].text) && Keeps(v, frags, n, b)
    requires TracksWith(v, frags, heap, n, punctuation, b)
    requires |AddedWith(Retuned(v, b, frags[n]), names, frags[n], heap[n]).1| == Numbers(frags, heap, n + 1)
    ensures TracksWith(v, frags, heap, n + 1, punctuation,
                       AddedWith(Retuned(v, b, frags[n]), names, frags[n], heap[n]).0)
  {
    hide HearAll, MapPitch, MapRate, PitchHeard, RowHeard, RateRow, Clean, SeamShown, Spoken, Escape, Numbers, Reported,
      Added, Names;
    var f := frags[n];
    var t := Retuned(v, b, f);
    var r := HearAll(Fresh(v), b.out, v.x);
    RetunedShown(v, b, f);
    HearRetuned(v, b, f, Fresh(v), r);
    var r' := HearAll(Fresh(v), t.out, v.x);
    if f.action.Bookmark? {
      HearConcat(Fresh(v), t.out, MarkEscape(Numbers(frags, heap, n + 1)), v.x);
      HearAnyMark(r', Numbers(frags, heap, n + 1), v.x);
    } else {
      HearAdded(v, t, f, Fresh(v), r');
    }
  }

  /** Whatever the heap refuses, reading the text back gives every fragment's words,
      letters and pauses as ever, and for each bookmark the number of those the list had
      room for so far. */
  lemma {:induction false} HeardAsNumbered(v: Voice, frags: seq<Fragment>, heap: seq<Heap>, n: nat, punctuation: bool)
    requires n <= |frags| == |heap| && CleanText(frags)
    ensures TracksWith(v, frags, heap, n, punctuation, BuildWith(v, frags, heap, n, punctuation).0)
  {
    hide TracksWith, AddedWith, Retuned, Clean, Start, Keeps, Numbers, BuildWith;
    if n == 0 {
      NothingBuilt(v, frags, heap, punctuation);
      TracksWithStart(v, frags, heap, punctuation);
    } else {
      var (b, names) := BuildWith(v, frags, heap, n - 1, punctuation);
      HeardAsNumbered(v, frags, heap, n - 1, punctuation);
      WithKeeps(v, frags, heap, n - 1, punctuation);
      WithKeeps(v, frags, heap, n, punctuation);
      BuildNext(v, frags, heap, n - 1, punctuation);
      TracksWithNext(v, frags, heap, n - 1, punctuation, b, names);
    }
  }

  lemma TracksWithStart(v: Voice, frags: seq<Fragment>, heap: seq<Heap>, punctuation: bool)
    requires |frags| == |heap|
    ensures TracksWith(v, frags, heap, 0, punctuation, Start(v, punctuation))
  {
    hide HearAll, Escape;
    HearStart(v, punctuation);
  }

  // ---- a bookmark refused -----------------------------------------------------------

  lemma {:induction false} NamesLast(v: Voice, frags: seq<Fragment>, heap: seq<Heap>, n: nat, m: nat, punctuation: bool)
    requires n <= m <= |frags| == |heap|
    ensures BuildWith(v, frags, heap, n, punctuation).1 <= BuildWith(v, frags, heap, m, punctuation).1
  {
    hide Retuned, Added;
    if n == m {
    } else {
      NamesLast(v, frags, heap, n, m - 1, punctuation);
    }
  }

  /** The bookmark that was given number `k` and room for it. */
  lemma {:induction false} NumberedBy(v: Voice, frags: seq<Fragment>, heap: seq<Heap>, n: nat, punctuation: bool)
    returns (j: nat)
    requires n <= |frags| == |heap| && Numbers(frags, heap, n) > 0
    ensures j < n && frags[j].action.Bookmark? && heap[j].list
    ensures Numbers(frags, heap, j + 1) == Numbers(frags, heap, n)
    ensures BuildWith(v, frags, heap, j + 1, punctuation).1
            == BuildWith(v, frags, heap, j, punctuation).1 + [if heap[j].name then Some(frags[j].text) else None]
  {
    hide BuildWith, Retuned;
    if frags[n - 1].action.Bookmark? && heap[n - 1].list {
      j := n - 1;
      BuildNext(v, frags, heap, j, punctuation);
    } else {
      j := NumberedBy(v, frags, heap, n - 1, punctuation);
    }
  }

  /** A bookmark the list has no room for is not reported itself.  When some bookmark
      before it had room, the last of those is reported again in its place, by the same
      number and so under the same name; when none had, nothing is reported. */
  lemma RefusedMark(v: Voice, frags: seq<Fragment>, heap: seq<Heap>, n: nat, punctuation: bool) returns (j: Option<nat>)
    requires n < |frags| == |heap| && frags[n].action.Bookmark? && !heap[n].list
    ensures j.None? ==> HeardWith(v, frags, heap, n + 1) == HeardWith(v, frags, heap, n)
    ensures j.None? ==> forall i :: 0 <= i < n && frags[i].action.Bookmark? ==> !heap[i].list
    ensures j.Some? ==> j.value < n && frags[j.value].action.Bookmark? && heap[j.value].list
    ensures j.Some? ==> SpokenWith(v, frags, heap, n) == SpokenWith(v, frags, heap, j.value)
    ensures j.Some? ==>
              var k, names := Numbers(frags, heap, n + 1), BuildWith(v, frags, heap, |frags|, punctuation).1;
              && SpokenWith(v, frags, heap, n) == Reported(k) && 0 < k <= |names|
              && names[k - 1] == if heap[j.value].name then Some(frags[j.value].text) else None
  {
    hide BuildWith, Spoken;
    if Numbers(frags, heap, n) == 0 {
      j := None;
      assert HeardWith(v, frags, heap, n) + [] == HeardWith(v, frags, heap, n);
      NoneNumbered(frags, heap, n);
    } else {
      var i := NumberedBy(v, frags, heap, n, punctuation);
      WithKeeps(v, frags, heap, i + 1, punctuation);
      NamesLast(v, frags, heap, i + 1, |frags|, punctuation);
      j := Some(i);
    }
  }

  lemma {:induction false} NoneNumbered(frags: seq<Fragment>, heap: seq<Heap>, n: nat)
    requires n <= |frags| == |heap| && Numbers(frags, heap, n) == 0
    ensures forall i :: 0 <= i < n && frags[i].action.Bookmark? ==> !heap[i].list
  {
    if n == 0 {
    } else {
      NoneNumbered(frags, heap, n - 1);
    }
  }
}
