/** Cutting a text into items (harness/tvh.c, tools/es_reftest.py): at the end of each
    line's text, so every item after the first begins with the line break before it. */
module Splitter {
  import opened Wrappers

  type Code = nat

  const NEWLINE: Code := 10
  const RETURN: Code := 13
  const SPACE: Code := 32

  const MOST := 256

  predicate Blank(c: Code)
  {
    c == RETURN || c == SPACE
  }

  /** The next newline from `from` on, or the end. */
  function LineEnd(t: seq<Code>, from: nat): (b: nat)
    requires from <= |t|
    ensures from <= b <= |t| && (b < |t| ==> t[b] == NEWLINE)
    ensures forall i :: from <= i < b ==> t[i] != NEWLINE
    decreases |t| - from
  {
    if from == |t| || t[from] == NEWLINE then from else LineEnd(t, from + 1)
  }

  /** Back over spaces and returns, no further than `a`. */
  function Trim(t: seq<Code>, a: nat, e: nat): (r: nat)
    requires a <= e <= |t|
    ensures a <= r <= e && (r > a ==> !Blank(t[r - 1]))
    ensures forall i :: r <= i < e ==> Blank(t[i])
  {
    if e > a && Blank(t[e - 1]) then Trim(t, a, e - 1) else e
  }

  /** The items of the text from line start `pos`, when `a` codes are in items already. */
  function ItemsFrom(t: seq<Code>, a: nat, pos: nat): seq<seq<Code>>
    requires a <= pos && a <= |t|
    decreases |t| - pos
  {
    if pos >= |t| then []
    else
      var b := LineEnd(t, pos);
      var e := Trim(t, a, b);
      (if e > a then [t[a..e]] else []) + ItemsFrom(t, e, b + 1)
  }

  function Items(t: seq<Code>): seq<seq<Code>>
  {
    ItemsFrom(t, 0, 0)
  }

  /** Where the items end. */
  function CoveredFrom(t: seq<Code>, a: nat, pos: nat): (r: nat)
    requires a <= pos && a <= |t|
    ensures a <= r <= |t|
    decreases |t| - pos
  {
    if pos >= |t| then a
    else
      var b := LineEnd(t, pos);
      CoveredFrom(t, Trim(t, a, b), b + 1)
  }

  lemma NextItems(t: seq<Code>, a: nat, pos: nat)
    requires a <= pos < |t|
    ensures
      var e := Trim(t, a, LineEnd(t, pos));
      ItemsFrom(t, a, pos) == (if e > a then [t[a..e]] else []) + ItemsFrom(t, e, LineEnd(t, pos) + 1)
  {
    hide LineEnd, Trim;
  }

  lemma ItemsNext(t: seq<Code>, a: nat, pos: nat, items: seq<seq<Code>>)
    requires a <= pos < |t|
    ensures
      var e := Trim(t, a, LineEnd(t, pos));
      items + ItemsFrom(t, a, pos)
      == (if e > a then items + [t[a..e]] else items) + ItemsFrom(t, e, LineEnd(t, pos) + 1)
  {
    hide *;
    NextItems(t, a, pos);
    var e := Trim(t, a, LineEnd(t, pos));
    Regroup(items, if e > a then [t[a..e]] else [], ItemsFrom(t, e, LineEnd(t, pos) + 1));
    assert items + [] == items;
  }

  lemma ItemsDone(t: seq<Code>, a: nat, pos: nat)
    requires a <= pos && a <= |t| <= pos
    ensures ItemsFrom(t, a, pos) == []
  {
  }

  // ---- the two programs -------------------------------------------------------------

  method TrimBack(t: seq<Code>, a: nat, b: nat) returns (e: nat)
    requires a <= b <= |t|
    ensures e == Trim(t, a, b)
  {
    e := b;
    while e > a && Blank(t[e - 1])
      invariant a <= e <= b
      invariant Trim(t, a, e) == Trim(t, a, b)
    {
      e := e - 1;
    }
  }

  method FindNewline(t: seq<Code>, from: nat) returns (b: nat)
    requires from <= |t|
    ensures b == LineEnd(t, from)
  {
    b := from;
    while b < |t| && t[b] != NEWLINE
      invariant from <= b <= |t|
      invariant LineEnd(t, b) == LineEnd(t, from)
      decreases |t| - b
    {
      b := b + 1;
    }
  }

  /** The Python one. */
  method SplitItems(t: seq<Code>) returns (items: seq<seq<Code>>)
    ensures items == Items(t)
  {
    hide LineEnd, Trim, ItemsFrom;
    items := [];
    var a, pos := 0, 0;
    while pos < |t|
      invariant 0 <= a <= pos && a <= |t|
      invariant items + ItemsFrom(t, a, pos) == Items(t)
      decreases |t| - pos
    {
      ItemsNext(t, a, pos, items);
      var b := FindNewline(t, pos);
      var e := TrimBack(t, a, b);
      if e > a {
        items := items + [t[a..e]];
        a := e;
      }
      pos := b + 1;
    }
    ItemsDone(t, a, pos);
  }

  /** The C one: one variable serves for the trimmed end and the next start, and there is
      room for 256 items. */
  method SplitLines(t: seq<Code>) returns (items: seq<seq<Code>>)
    ensures items == if |Items(t)| <= 256 then Items(t) else Items(t)[..256]
  {
    hide LineEnd, Trim, ItemsFrom;
    items := [];
    var a, e := 0, 0;
    while e < |t| && |items| < MOST
      invariant 0 <= a <= e && a <= |t|
      invariant |items| <= MOST && items + ItemsFrom(t, a, e) == Items(t)
      decreases |t| - e
    {
      ItemsNext(t, a, e, items);
      var b := FindNewline(t, e);
      e := TrimBack(t, a, b);
      if e > a {
        items := items + [t[a..e]];
        a := e;
      }
      e := b + 1;
    }
    if e < |t| {
      assert Items(t)[..MOST] == items;
    } else {
      ItemsDone(t, a, e);
    }
  }

  // ---- what the items are -----------------------------------------------------------

  function Joined(items: seq<seq<Code>>): seq<Code>
  {
    if items == [] then [] else items[0] + Joined(items[1..])
  }

  /** A whole line's text: not empty, and ending in something other than a blank. */
  predicate Proper(item: seq<Code>)
  {
    item != [] && !Blank(item[|item| - 1])
  }

  predicate AllProper(items: seq<seq<Code>>)
  {
    forall i :: 0 <= i < |items| ==> Proper(items[i])
  }

  /** Blanks, then at most one newline. */
  predicate Leftover(rest: seq<Code>)
  {
    forall i :: 0 <= i < |rest| ==> Blank(rest[i]) || (i == |rest| - 1 && rest[i] == NEWLINE)
  }

  /** What lies between the items so far and the next line start. */
  predicate Pending(t: seq<Code>, a: nat, pos: nat)
  {
    && a <= pos <= |t| + 1 && a <= |t|
    && forall i :: a <= i < pos && i < |t| ==> Blank(t[i]) || (i == pos - 1 && t[i] == NEWLINE)
  }

  lemma PendingNext(t: seq<Code>, a: nat, pos: nat)
    requires pos < |t| && Pending(t, a, pos)
    ensures
      var b := LineEnd(t, pos);
      var e := Trim(t, a, b);
      Pending(t, e, b + 1) && (e > a ==> Proper(t[a..e]))
  {
  }

  /** What the items from `pos` on have to be, when they reach up to `r`. */
  predicate Covers(t: seq<Code>, a: nat, r: nat, items: seq<seq<Code>>)
  {
    a <= r <= |t| && AllProper(items) && Joined(items) == t[a..r] && Leftover(t[r..])
  }

  lemma CoversMore(t: seq<Code>, a: nat, e: nat, r: nat, rest: seq<seq<Code>>)
    requires a <= e && Covers(t, e, r, rest) && (e > a ==> Proper(t[a..e]))
    ensures Covers(t, a, r, if e > a then [t[a..e]] + rest else rest)
  {
    hide Proper, Leftover;
    if e > a {
      assert ([t[a..e]] + rest)[1..] == rest;
      assert t[a..e] + t[e..r] == t[a..r];
    }
  }

  lemma CoveredNext(t: seq<Code>, a: nat, pos: nat)
    requires a <= pos < |t|
    ensures CoveredFrom(t, a, pos) == CoveredFrom(t, Trim(t, a, LineEnd(t, pos)), LineEnd(t, pos) + 1)
  {
  }

  lemma CoversNothing(t: seq<Code>, a: nat, pos: nat)
    requires Pending(t, a, pos) && pos >= |t|
    ensures CoveredFrom(t, a, pos) == a && Covers(t, a, a, [])
  {
    assert t[a..a] == [];
  }

  lemma {:induction false} ItemsCover(t: seq<Code>, a: nat, pos: nat)
    requires Pending(t, a, pos) && pos <= |t| + 1 && a <= pos && a <= |t|
    ensures Covers(t, a, CoveredFrom(t, a, pos), ItemsFrom(t, a, pos))
    decreases |t| + 1 - pos
  {
    hide LineEnd, Trim, Pending, Proper, Covers, ItemsFrom, CoveredFrom;
    if pos < |t| {
      PendingNext(t, a, pos);
      var b := LineEnd(t, pos);
      var e := Trim(t, a, b);
      ItemsCover(t, e, b + 1);
      ItemsNext(t, a, pos, []);
      CoveredNext(t, a, pos);
      var rest := ItemsFrom(t, e, b + 1);
      assert [] + ItemsFrom(t, a, pos) == ItemsFrom(t, a, pos) && [] + rest == rest && [] + [t[a..e]] == [t[a..e]];
      CoversMore(t, a, e, CoveredFrom(t, a, pos), rest);
    } else {
      ItemsDone(t, a, pos);
      CoversNothing(t, a, pos);
    }
  }

  /** Every item is a line's text with the breaks before it, the items are the text from
      its beginning, and what they leave is only blanks and at most one newline. */
  lemma ItemsAreTheText(t: seq<Code>)
    ensures AllProper(Items(t))
    ensures Joined(Items(t)) == t[..CoveredFrom(t, 0, 0)] && Leftover(t[CoveredFrom(t, 0, 0)..])
  {
    ItemsCover(t, 0, 0);
    assert t[0..CoveredFrom(t, 0, 0)] == t[..CoveredFrom(t, 0, 0)];
  }

  // ---- where the text is cut ----------------------------------------------------------

  /** Blanks only, from `e` to the end of a line. */
  predicate EndsLine(t: seq<Code>, e: nat, b: nat)
  {
    && e <= b <= |t| && (b < |t| ==> t[b] == 10)
    && forall i :: e <= i < b ==> t[i] in [13, 32]
  }

  /** The text is to be cut after something other than a blank that ends a line but for
      blanks; an empty line at the very end is no line. */
  predicate Cut(t: seq<Code>, e: nat)
  {
    && 0 < e <= |t| && t[e - 1] !in [13, 32] && !(e == |t| && t[e - 1] == 10)
    && exists b :: e <= b <= |t| && EndsLine(t, e, b)
  }

  /** Some of the first items, laid end to end from `a`, end at `e`. */
  predicate EndAt(items: seq<seq<Code>>, a: nat, e: nat)
  {
    exists k :: 1 <= k <= |items| && a + |Joined(items[..k])| == e
  }

  /** One line, the text before it dealt with up to `a`, is cut at one place at most. */
  lemma CutOnce(t: seq<Code>, a: nat, pos: nat, e: nat)
    requires pos < |t| && Pending(t, a, pos) && a < e <= LineEnd(t, pos)
    ensures Cut(t, e) <==> e == Trim(t, a, LineEnd(t, pos))
  {
    var b := LineEnd(t, pos);
    var e0 := Trim(t, a, b);
    if Cut(t, e) {
      var c :| e <= c <= |t| && EndsLine(t, e, c);
      assert pos <= e;
    }
    if e == e0 {
      assert EndsLine(t, e, b);
    }
  }

  lemma EndsFirst(item: seq<Code>, rest: seq<seq<Code>>, a: nat, e: nat)
    ensures EndAt([item] + rest, a, e) <==> e == a + |item| || EndAt(rest, a + |item|, e)
  {
    var items := [item] + rest;
    forall k | 1 <= k <= |items|
      ensures Joined(items[..k]) == item + Joined(rest[..k - 1])
    {
      assert items[..k][1..] == rest[..k - 1];
    }
    assert Joined(rest[..0]) == [];
    if e == a + |item| {
      assert a + |Joined(items[..1])| == e;
    }
    if k :| 1 <= k <= |rest| && a + |item| + |Joined(rest[..k])| == e {
      assert a + |Joined(items[..k + 1])| == e;
    }
    if k :| 1 <= k <= |items| && a + |Joined(items[..k])| == e {
      assert k == 1 || a + |item| + |Joined(rest[..k - 1])| == e;
    }
  }

  lemma PendingOn(t: seq<Code>, a: nat, pos: nat)
    requires pos < |t| && Pending(t, a, pos)
    ensures Pending(t, Trim(t, a, LineEnd(t, pos)), LineEnd(t, pos) + 1)
  {
    PendingNext(t, a, pos);
  }

  lemma {:induction false} ItemsCut(t: seq<Code>, a: nat, pos: nat, e: nat)
    requires Pending(t, a, pos) && a < e
    ensures Cut(t, e) <==> EndAt(ItemsFrom(t, a, pos), a, e)
    decreases |t| + 1 - pos
  {
    assert a <= pos && a <= |t|;
    hide *;
    if pos >= |t| {
      CutsDone(t, a, pos, e);
    } else {
      PendingOn(t, a, pos);
      if e > Trim(t, a, LineEnd(t, pos)) {
        ItemsCut(t, Trim(t, a, LineEnd(t, pos)), LineEnd(t, pos) + 1, e);
      }
      CutStep(t, a, pos, e);
    }
  }

  /** If the later lines are cut as they should be, so are they with one line before. */
  lemma CutStep(t: seq<Code>, a: nat, pos: nat, e: nat)
    requires pos < |t| && Pending(t, a, pos) && a < e
    requires
      var b := LineEnd(t, pos);
      var e0 := Trim(t, a, b);
      e > e0 ==> (Cut(t, e) <==> EndAt(ItemsFrom(t, e0, b + 1), e0, e))
    ensures Cut(t, e) <==> EndAt(ItemsFrom(t, a, pos), a, e)
  {
    assert a <= pos && a <= |t|;
    hide *;
    NextEnds(t, a, pos, e);
    if e <= LineEnd(t, pos) {
      CutOnce(t, a, pos, e);
    }
    if e < Trim(t, a, LineEnd(t, pos)) {
      EndsLater(ItemsFrom(t, Trim(t, a, LineEnd(t, pos)), LineEnd(t, pos) + 1), Trim(t, a, LineEnd(t, pos)), e);
    }
  }

  lemma NextEnds(t: seq<Code>, a: nat, pos: nat, e: nat)
    requires a <= pos < |t|
    ensures
      var b := LineEnd(t, pos);
      var e0 := Trim(t, a, b);
      EndAt(ItemsFrom(t, a, pos), a, e) <==> (e0 > a && e == e0) || EndAt(ItemsFrom(t, e0, b + 1), e0, e)
  {
    hide *;
    NextItems(t, a, pos);
    var e0 := Trim(t, a, LineEnd(t, pos));
    var rest := ItemsFrom(t, e0, LineEnd(t, pos) + 1);
    if e0 > a {
      EndsFirst(t[a..e0], rest, a, e);
    } else {
      assert [] + rest == rest;
    }
  }

  lemma CutsDone(t: seq<Code>, a: nat, pos: nat, e: nat)
    requires Pending(t, a, pos) && a < e && pos >= |t|
    ensures !Cut(t, e) && !EndAt(ItemsFrom(t, a, pos), a, e)
  {
  }

  lemma EndsLater(items: seq<seq<Code>>, a: nat, e: nat)
    ensures e < a ==> !EndAt(items, a, e)
  {
  }

  /** The items end exactly where the text is to be cut: one for each line that has text,
      or that a line with text follows. */
  lemma CutsExactly(t: seq<Code>, e: nat)
    requires e > 0
    ensures EndAt(Items(t), 0, e) <==> Cut(t, e)
  {
    ItemsCut(t, 0, 0, e);
  }
}
