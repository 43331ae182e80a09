/** Speaking through SAPI (sapi5/tvsapi.c): the growing text buffer, the loop that builds
    the utterance in it, and the callback that passes audio and bookmarks on.  Whether
    the heap grants an allocation, and what the site answers, are parameters. */
module SapiSpeak {
  import opened Wrappers
  import opened Escapes
  import opened Utterance

  /** A growable buffer of UTF-16 units. */
  class WBuf {
    var p: array<WChar>
    var len: nat
    var bad: bool
    const grants: nat -> bool

    ghost predicate Valid()
      reads this, p
    {
      && (len < p.Length || (len == 0 && p.Length == 0))
      && (len > 0 ==> p[len] == 0)
    }

    function Contents(): seq<WChar>
      reads this, p
      requires Valid()
    {
      p[..len]
    }

    constructor (grants: nat -> bool)
      ensures Valid() && Contents() == [] && !bad && fresh(p)
    {
      this.grants := grants;
      p := new WChar[0];
      len := 0;
      bad := false;
    }

    /** Room for `extra` more and a final zero. */
    method Room(extra: nat) returns (ok: bool)
      requires Valid()
      modifies this
      ensures Valid() && Contents() == old(Contents()) && (p == old(p) || fresh(p))
      ensures ok ==> !bad && len + extra < p.Length
      ensures !ok ==> bad
      ensures old(bad) ==> bad
      ensures !old(bad) && old(len + extra < p.Length) ==> ok && p == old(p)
    {
      if bad {
        return false;
      }
      if len + extra + 1 <= p.Length {
        return true;
      }
      var want := if p.Length != 0 then p.Length * 2 else 256;
      while want < len + extra + 1
        invariant want > 0 && want >= p.Length
        decreases len + extra + 1 - want
      {
        want := want * 2;
      }
      if !grants(want) {
        bad := true;
        return false;
      }
      var q := new WChar[want];
      forall i | 0 <= i < p.Length {
        q[i] := p[i];
      }
      p := q;
      return true;
    }

    /** After an allocation has failed nothing more is appended. */
    method Add(s: seq<WChar>)
      requires Valid()
      modifies this, p
      ensures Valid() && (p == old(p) || fresh(p))
      ensures old(bad) ==> bad
      ensures Contents() == if bad then old(Contents()) else old(Contents()) + s
    {
      if s == [] {
        return;
      }
      var ok := Room(|s|);
      if !ok {
        return;
      }
      forall i | 0 <= i < |s| {
        p[len + i] := s[i];
      }
      len := len + |s|;
      p[len] := 0;
    }

    method AddCh(c: WChar)
      requires Valid()
      modifies this, p
      ensures Valid() && (p == old(p) || fresh(p))
      ensures old(bad) ==> bad
      ensures Contents() == if bad then old(Contents()) else old(Contents()) + [c]
    {
      var ok := Room(1);
      if ok {
        p[len] := c;
        len := len + 1;
        p[len] := 0;
      }
    }
  }

  // ---- events -----------------------------------------------------------------------

  datatype EngineEvent = Mark(n: nat) | Audio(samples: seq<int>) | Unknown

  /** What the site answers: an abort, items to skip if it asks for a skip, and whether
      a write succeeds. */
  datatype Answer = Answer(abort: bool, skip: Option<int>, wrote: bool)

  datatype BookmarkEvent = BookmarkEvent(name: seq<WChar>, number: int, offset: nat)

  /** What the site has received, and where the utterance in flight stands. */
  datatype Log = Log(bytes: nat, events: seq<BookmarkEvent>, written: seq<int>, aborted: bool, failed: bool)

  /** The number a name spells, spaces and a sign before it allowed; 0 if none. */
  function Spells(s: seq<WChar>): int
  {
    if s == [] then 0
    else if s[0] == SPACE || s[0] == 9 then Spells(s[1..])
    else if s[0] == Letter('-') then 0 - Digits(0, s[1..])
    else if s[0] == Letter('+') then Digits(0, s[1..])
    else Digits(0, s)
  }

  function Digits(v: nat, s: seq<WChar>): nat
    decreases |s|
  {
    if s == [] || !Digit(s[0]) then v else Digits(v * 10 + (s[0] - ZERO), s[1..])
  }

  method Wtol(s: seq<WChar>) returns (r: int)
    ensures r == Spells(s)
  {
    var i := 0;
    while i < |s| && (s[i] == SPACE || s[i] == 9)
      invariant 0 <= i <= |s|
      invariant Spells(s[i..]) == Spells(s)
    {
      assert s[i..][1..] == s[i + 1..];
      i := i + 1;
    }
    ghost var from := i;
    var neg := false;
    if i < |s| && (s[i] == Letter('-') || s[i] == Letter('+')) {
      neg := s[i] == Letter('-');
      assert s[i..][1..] == s[i + 1..];
      i := i + 1;
    }
    assert Spells(s[from..]) == if neg then 0 - Digits(0, s[i..]) else Digits(0, s[i..]);
    ghost var first := i;
    var v := 0;
    while i < |s| && Digit(s[i])
      invariant first <= i <= |s| && v >= 0
      invariant Digits(v, s[i..]) == Digits(0, s[first..])
    {
      assert s[i..][1..] == s[i + 1..];
      v := v * 10 + (s[i] - ZERO);
      i := i + 1;
    }
    return if neg then -v else v;
  }

  lemma {:induction false} DigitsMore(v: nat, s: seq<WChar>, c: WChar)
    requires (forall d :: d in s ==> Digit(d)) && Digit(c)
    ensures Digits(v, s + [c]) == Digits(v, s) * 10 + (c - ZERO)
    decreases |s|
  {
    if s == [] {
      assert (s + [c])[1..] == [];
    } else {
      assert (s + [c])[1..] == s[1..] + [c];
      assert s[0] in s;
      DigitsMore(v * 10 + (s[0] - ZERO), s[1..], c);
    }
  }

  lemma {:induction false} DigitsOfDecimal(n: nat)
    ensures Digits(0, Decimal(n)) == n
  {
    if n < 10 {
    } else {
      DigitsOfDecimal(n / 10);
      DigitsMore(0, Decimal(n / 10), ZERO + n % 10);
    }
  }

  /** A bookmark named by a number is reported with that number. */
  lemma SpellsDecimal(n: nat)
    ensures Spells(Decimal(n)) == n && Spells([Letter('-')] + Decimal(n)) == 0 - n
  {
    DigitsOfDecimal(n);
    assert Decimal(n)[0] in Decimal(n);
    assert ([Letter('-')] + Decimal(n))[1..] == Decimal(n);
  }

  lemma {:induction false} DigitsStop(v: nat, s: seq<WChar>, rest: seq<WChar>)
    requires (forall d :: d in s ==> Digit(d)) && (rest == [] || !Digit(rest[0]))
    ensures Digits(v, s + rest) == Digits(v, s)
    decreases |s|
  {
    if s == [] {
      assert s + rest == rest;
    } else {
      assert (s + rest)[1..] == s[1..] + rest && s[0] in s;
      DigitsStop(v * 10 + (s[0] - ZERO), s[1..], rest);
    }
  }

  lemma {:induction false} BlanksSkipped(blanks: seq<WChar>, s: seq<WChar>)
    requires forall c :: c in blanks ==> c == 0x20 || c == 9
    ensures Spells(blanks + s) == Spells(s)
    decreases |blanks|
  {
    if blanks == [] {
      assert blanks + s == s;
    } else {
      assert (blanks + s)[1..] == blanks[1..] + s && blanks[0] in blanks;
      assert forall c :: c in blanks[1..] ==> c in blanks;
      BlanksSkipped(blanks[1..], s);
    }
  }

  /** Blanks before a number and anything but digits after it change nothing, and it may
      carry either sign; what has no digit there spells 0. */
  lemma SpellsNumber(blanks: seq<WChar>, sign: seq<WChar>, digits: seq<WChar>, n: nat, rest: seq<WChar>)
    requires forall c :: c in blanks ==> c == 0x20 || c == 9
    requires sign in [[], [Letter('-')], [Letter('+')]] && (digits == Decimal(n) || (digits == [] && n == 0))
    requires rest == [] || !Digit(rest[0])
    requires digits + sign == [] ==> rest == [] || rest[0] !in [0x20, 9, Letter('-'), Letter('+')]
    ensures Spells(blanks + (sign + (digits + rest))) == if sign == [Letter('-')] then 0 - n else n
  {
    hide Decimal;
    BlanksSkipped(blanks, sign + (digits + rest));
    DigitsOfDecimal(n);
    assert forall d :: d in digits ==> Digit(d);
    DigitsStop(0, digits, rest);
    if sign == [] {
      assert sign + (digits + rest) == digits + rest;
      if digits == [] {
        assert digits + rest == rest;
      } else {
        assert digits[0] in digits && (digits + rest)[0] == digits[0];
      }
    } else {
      assert (sign + (digits + rest))[1..] == digits + rest;
    }
  }

  /** What the heap grants when a bookmark is to be remembered: a longer list, and room
      for the name. */
  datatype Heap = Heap(list: bool, name: bool)

  /** The bookmarks' names by number; none where there was no room for it. */
  type NameList = seq<Option<seq<WChar>>>

  function Remembered(names: NameList, text: seq<WChar>, h: Heap): NameList
  {
    if h.list then names + [if h.name then Some(text) else None] else names
  }

  /** One event handled: what is passed on, and whether the engine is to stop. */
  function Handled(names: NameList, interested: bool, log: Log, ev: EngineEvent, a: Answer): (Log, bool)
  {
    match ev
    case Mark(n) =>
      if 1 <= n <= |names| && names[n - 1].Some? && interested then
        var name := names[n - 1].value;
        (log.(events := log.events + [BookmarkEvent(name, Spells(name), log.bytes)]), false)
      else (log, false)
    case Audio(samples) =>
      if samples == [] then (log, false)
      else if a.abort || (a.skip.Some? && a.skip.value != 0) then (log.(aborted := true), true)
      else if !a.wrote then (log.(failed := true), true)
      else (log.(bytes := log.bytes + 2 * |samples|, written := log.written + samples), false)
    case Unknown => (log, false)
  }

  /** One utterance in flight. */
  class Speaking {
    const interested: bool
    var bytes: nat
    var marks: NameList
    var aborted: bool
    var failed: bool
    var events: seq<BookmarkEvent>
    var written: seq<int>

    function State(): Log
      reads this
    {
      Log(bytes, events, written, aborted, failed)
    }

    constructor (interested: bool)
      ensures marks == [] && State() == Log(0, [], [], false, false) && this.interested == interested
    {
      this.interested := interested;
      bytes, marks, aborted, failed, events, written := 0, [], false, false, [], [];
    }

    /** Remember a bookmark's name and answer the number the engine will report: that of
        the bookmark before it when the list cannot grow. */
    method MarkAdd(text: seq<WChar>, h: Heap) returns (n: nat)
      modifies this`marks
      ensures marks == Remembered(old(marks), text, h) && n == |marks|
    {
      if !h.list {
        return |marks|;
      }
      var copy := None;
      if h.name {
        copy := Some(text);
      }
      marks := marks + [copy];
      n := |marks|;
    }

    method OnEvent(ev: EngineEvent, a: Answer) returns (stop: bool)
      modifies this
      ensures marks == old(marks)
      ensures (State(), stop) == Handled(marks, interested, old(State()), ev, a)
      ensures stop <==> ev.Audio? && ev.samples != [] && (a.abort || (a.skip.Some? && a.skip.value != 0) || !a.wrote)
      ensures written == if ev.Audio? && !stop then old(written) + ev.samples else old(written)
      ensures bytes == old(bytes) + 2 * (|written| - |old(written)|)
    {
      if ev.Mark? {
        if ev.n >= 1 && ev.n - 1 < |marks| && marks[ev.n - 1].Some? && interested {
          var name := marks[ev.n - 1].value;
          var number := Wtol(name);
          events := events + [BookmarkEvent(name, number, bytes)];
        }
        return false;
      }
      if !ev.Audio? || ev.samples == [] {
        return false;
      }
      if a.abort {
        aborted := true;
        return true;
      }
      if a.skip.Some? && a.skip.value != 0 {
        aborted := true;
        return true;
      }
      if !a.wrote {
        failed := true;
        return true;
      }
      written := written + ev.samples;
      bytes := bytes + 2 * |ev.samples|;
      return false;
    }
  }

  // ---- what is built ----------------------------------------------------------------

  /** One fragment, on what the heap grants: as `Added`, but for the bookmark's number.
      `marks` has every bookmark's name, the list those there was room for. */
  function AddedWith(b: Built, names: NameList, f: Fragment, h: Heap): (Built, NameList)
  {
    if f.action.Bookmark? then
      var names' := Remembered(names, f.text, h);
      (b.(out := b.out + MarkEscape(|names'|), marks := b.marks + [f.text], gap := true), names')
    else (Added(b, f), names)
  }

  /** The text and the names kept after `n` fragments; `heap` answers for each of them. */
  function BuildWith(v: Voice, frags: seq<Fragment>, heap: seq<Heap>, n: nat, punctuation: bool): (Built, NameList)
    requires n <= |frags| == |heap|
  {
    if n == 0 then (Start(v, punctuation), [])
    else
      var (b, names) := BuildWith(v, frags, heap, n - 1, punctuation);
      AddedWith(Retuned(v, b, frags[n - 1]), names, frags[n - 1], heap[n - 1])
  }

  function AllKept(names: seq<seq<WChar>>): NameList
  {
    seq(|names|, i requires 0 <= i < |names| => Some(names[i]))
  }

  // ---- the loop ---------------------------------------------------------------------

  lemma EscapeFits(n: nat, letter: WChar)
    requires n < 0x1_0000_0000
    ensures 0 < |Escape(n, letter)| < 32
  {
    assert Power10(10) == 10_000_000_000 by {
      assert Power10(3) == 1000;
      assert Power10(6) == 1_000_000;
      assert Power10(9) == 1_000_000_000;
    }
    DecimalLength(n, 10);
  }

  method AddEscape(out: WBuf, n: nat, letter: WChar)
    requires out.Valid() && n < 0x1_0000_0000
    modifies out, out.p
    ensures out.Valid() && (out.p == old(out.p) || fresh(out.p))
    ensures old(out.bad) ==> out.bad
    ensures !out.bad ==> out.Contents() == old(out.Contents()) + Escape(n, letter)
  {
    EscapeFits(n, letter);
    var esc := EscSeq(n, letter, 32);
    if |esc| > 0 {
      out.Add(esc);
    }
  }

  method AddLetter(out: WBuf, c: WChar)
    requires out.Valid()
    modifies out, out.p
    ensures out.Valid() && (out.p == old(out.p) || fresh(out.p))
    ensures old(out.bad) ==> out.bad
    ensures !out.bad ==> out.Contents() == old(out.Contents()) + [c, SPACE]
  {
    out.AddCh(c);
    out.AddCh(SPACE);
    assert [c, SPACE] == [c] + [SPACE];
  }

  lemma SpelledNext(text: seq<WChar>, i: nat, before: seq<WChar>)
    requires i < |text|
    ensures before + Spelled(text[..i + 1]) == (before + Spelled(text[..i])) + [text[i], SPACE]
  {
    assert text[..i + 1][..i] == text[..i];
  }

  method AddSpelled(out: WBuf, text: seq<WChar>)
    requires out.Valid()
    modifies out, out.p
    ensures out.Valid() && (out.p == old(out.p) || fresh(out.p))
    ensures old(out.bad) ==> out.bad
    ensures !out.bad ==> out.Contents() == old(out.Contents()) + Spelled(text)
  {
    ghost var before := out.Contents();
    var i := 0;
    while i < |text|
      invariant 0 <= i <= |text|
      invariant out.Valid() && (out.p == old(out.p) || fresh(out.p))
      invariant old(out.bad) ==> out.bad
      invariant !out.bad ==> out.Contents() == before + Spelled(text[..i])
    {
      SpelledNext(text, i, before);
      AddLetter(out, text[i]);
      i := i + 1;
    }
    assert text[..|text|] == text;
  }

  /** The commands a fragment needs before it. */
  method AddTuning(v: Voice, f: Fragment, ghost b: Built, pitch: int, rate: int, out: WBuf)
    returns (pitch': int, rate': int)
    requires out.Valid() && (!out.bad ==> out.Contents() == b.out) && pitch == b.pitch && rate == b.rate
    modifies out, out.p
    ensures out.Valid() && (out.p == old(out.p) || fresh(out.p))
    ensures pitch' == FragPitch(v, f) && rate' == FragRate(v, f)
    ensures !out.bad ==> out.Contents() == Retuned(v, b, f).out
  {
    hide FragPitch, FragRate, Escape;
    pitch', rate' := FragPitch(v, f), FragRate(v, f);
    if pitch' != pitch {
      AddEscape(out, PitchArg(pitch'), Letter('p'));
    }
    if rate' != rate {
      AddEscape(out, RateArg(rate', v.x), Letter('r'));
    }
  }

  /** A fragment's words, put after a space across a seam that has none. */
  method AddWords(text: seq<WChar>, ghost b: Built, gap: bool, out: WBuf)
    requires out.Valid() && gap == b.gap && (!out.bad ==> out.Contents() == b.out)
    modifies out, out.p
    ensures out.Valid() && (out.p == old(out.p) || fresh(out.p))
    ensures !out.bad ==> out.Contents() == b.out + (if NeedsSpace(b, text) then [SPACE] else []) + text
  {
    if gap && out.len != 0 && out.p[out.len - 1] != SPACE && text != [] && text[0] != SPACE {
      out.AddCh(SPACE);
    }
    out.Add(text);
  }

  /** One fragment: its commands, then itself. */
  method AddFragment(v: Voice, f: Fragment, h: Heap, ghost b: Built, pitch: int, rate: int, gap: bool,
                     out: WBuf, sp: Speaking)
    returns (pitch': int, rate': int, gap': bool)
    requires out.Valid() && (!out.bad ==> out.Contents() == b.out)
    requires pitch == b.pitch && rate == b.rate && gap == b.gap && |sp.marks| < 0xffff_ffff
    modifies out, out.p, sp`marks
    ensures out.Valid() && (out.p == old(out.p) || fresh(out.p))
    ensures pitch' == FragPitch(v, f) && rate' == FragRate(v, f)
    ensures
      var (t, names) := AddedWith(Retuned(v, b, f), old(sp.marks), f, h);
      (!out.bad ==> out.Contents() == t.out) && gap' == t.gap && sp.marks == names
  {
    hide FragPitch, FragRate, Escape, NeedsSpace, Spelled;
    pitch', rate' := AddTuning(v, f, b, pitch, rate, out);
    gap' := gap;
    match f.action
    case Bookmark =>
      var n := sp.MarkAdd(f.text, h);
      AddEscape(out, n, Letter('i'));
      gap' := true;
    case Silence(ms) =>
      AddEscape(out, BreakArg(ms), Letter('s'));
      gap' := true;
    case SpellOut =>
      AddSpelled(out, f.text);
      gap' := false;
    case Speak =>
      AddWords(f.text, Retuned(v, b, f), gap, out);
      gap' := false;
    case Other =>
  }

  lemma NextBuilt(v: Voice, b: Built, names: NameList, f: Fragment, h: Heap)
    ensures
      var (t, names') := AddedWith(Retuned(v, b, f), names, f, h);
      t.pitch == FragPitch(v, f) && t.rate == FragRate(v, f) && |names'| <= |names| + 1
  {
  }

  /** The fragment list turned into one string, and the bookmarks' names kept as far as
      the heap grants. */
  method BuildUtterance(v: Voice, frags: seq<Fragment>, heap: seq<Heap>, punctuation: bool, out: WBuf, sp: Speaking)
    requires out.Valid() && out.Contents() == [] && sp.marks == [] && |frags| == |heap| < 0xffff_ffff
    modifies out, out.p, sp`marks
    ensures out.Valid() && (out.p == old(out.p) || fresh(out.p))
    ensures
      var (b, names) := BuildWith(v, frags, heap, |frags|, punctuation);
      (!out.bad ==> out.Contents() == b.out) && sp.marks == names
  {
    hide MapPitch, MapRate, Escape, AddedWith, Retuned;
    var gap := false;
    var pitch, rate := MapPitch(v.pitch, 0), MapRate(v.rate, v.siteRate);
    if punctuation {
      AddEscape(out, 2, Letter('N'));
    }
    var i := 0;
    while i < |frags|
      invariant 0 <= i <= |frags|
      invariant out.Valid() && (out.p == old(out.p) || fresh(out.p))
      invariant
        var (b, names) := BuildWith(v, frags, heap, i, punctuation);
        && (!out.bad ==> out.Contents() == b.out)
        && pitch == b.pitch && rate == b.rate && gap == b.gap && sp.marks == names && |names| <= i
    {
      ghost var (b, names) := BuildWith(v, frags, heap, i, punctuation);
      NextBuilt(v, b, names, frags[i], heap[i]);
      pitch, rate, gap := AddFragment(v, frags[i], heap[i], b, pitch, rate, gap, out, sp);
      i := i + 1;
    }
  }
}
