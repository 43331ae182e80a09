/** The inline commands: how they are written (src/port/tvtts.c) and how the engine's
    preformatter reads them back out of the text (src/engine/preformat.c). */
module Escapes {
  import opened Wrappers

  type WChar = x: int | 0 <= x < 0x1_0000

  const ESC: WChar := 0x1b
  const SPACE: WChar := 0x20
  const ZERO: WChar := '0' as int
  const BRACKET: WChar := '[' as int
  const SEMICOLON: WChar := ';' as int

  function Letter(c: char): WChar
    requires 0 <= c as int < 0x80
  {
    c as int
  }

  function Clamp(v: int, lo: int, hi: int): int
  {
    if v < lo then lo else if v > hi then hi else v
  }

  // ---- writing ----------------------------------------------------------------------

  predicate Digit(c: WChar)
  {
    ZERO <= c <= ZERO + 9
  }

  /** A number in decimal. */
  function Decimal(n: nat): (s: seq<WChar>)
    ensures s != [] && forall c :: c in s ==> Digit(c)
  {
    if n < 10 then [ZERO + n] else Decimal(n / 10) + [ZERO + n % 10]
  }

  lemma {:induction false} DecimalLength(n: nat, k: nat)
    requires n < Power10(k) && k > 0
    ensures |Decimal(n)| <= k
    decreases k
  {
    if n < 10 {
    } else {
      DecimalLength(n / 10, k - 1);
    }
  }

  function Power10(k: nat): nat
  {
    if k == 0 then 1 else 10 * Power10(k - 1)
  }

  function Escape(n: nat, letter: WChar): seq<WChar>
  {
    [ESC, BRACKET] + Decimal(n) + [letter]
  }

  /** The command written into a buffer of `cap` bytes, counting the final zero; nothing
      when it does not fit. */
  method EscSeq(n: nat, letter: WChar, cap: nat) returns (s: seq<WChar>)
    ensures s == if |Escape(n, letter)| < cap then Escape(n, letter) else []
  {
    s := [];
    if cap < 4 {
      return;
    }
    var digits := DigitsUp(n);
    if cap < |digits| + 4 {
      return;
    }
    s := AddBackwards([ESC, BRACKET], digits);
    s := s + [letter];
  }

  method AddBackwards(start: seq<WChar>, digits: seq<WChar>) returns (s: seq<WChar>)
    ensures s == start + Reversed(digits)
  {
    s := start;
    var i := |digits|;
    assert digits[..i] == digits;
    while i > 0
      invariant 0 <= i <= |digits|
      invariant s + Reversed(digits[..i]) == start + Reversed(digits)
    {
      i := i - 1;
      assert digits[..i + 1] == digits[..i] + [digits[i]];
      Reverse1(digits[..i], digits[i]);
      Regroup(s, [digits[i]], Reversed(digits[..i]));
      s := s + [digits[i]];
    }
    assert s + Reversed(digits[..0]) == s;
  }

  /** The digits of a number, the last first. */
  method DigitsUp(n: nat) returns (digits: seq<WChar>)
    ensures Reversed(digits) == Decimal(n) && |digits| == |Decimal(n)|
  {
    digits := [ZERO + n % 10];
    var m := n / 10;
    while m != 0
      invariant m >= 0
      invariant Decimal(n) == (if m == 0 then [] else Decimal(m)) + Reversed(digits)
    {
      Reverse1(digits, ZERO + m % 10);
      Regroup(if m / 10 == 0 then [] else Decimal(m / 10), [ZERO + m % 10], Reversed(digits));
      digits := digits + [ZERO + m % 10];
      m := m / 10;
    }
    ReversedLength(digits);
  }

  function Reversed(s: seq<WChar>): seq<WChar>
  {
    if s == [] then [] else [s[|s| - 1]] + Reversed(s[..|s| - 1])
  }

  lemma Reverse1(s: seq<WChar>, c: WChar)
    ensures Reversed(s + [c]) == [c] + Reversed(s)
  {
    assert (s + [c])[..|s|] == s;
  }

  lemma ReversedLength(s: seq<WChar>)
    ensures |Reversed(s)| == |s|
  {
  }

  // ---- the commands -----------------------------------------------------------------

  const RATE_MIN := 46
  const RATE_MAX := 253
  const RATE_MAX_EXT := 400

  /** The extensions that change what a command may ask for. */
  datatype Extensions = Extensions(rate: bool, pitch: bool, sing: bool)

  function RateCeiling(x: Extensions): int
  {
    if x.rate then RATE_MAX_EXT else RATE_MAX
  }

  /** The argument the pitch command carries: half the pitch. */
  function PitchArg(pitch: int): nat
  {
    Clamp(if pitch >= 0 then pitch / 2 else -(-pitch / 2), 25, 200)
  }

  function RateArg(wpm: int, x: Extensions): nat
  {
    Clamp(wpm, RATE_MIN, RateCeiling(x))
  }

  // The rate is a row of a table, one for every eight words per minute: 26 rows, and 19
  // more past them that only the extension knows.
  const ROWS := 26
  const ROW_MAX := 44
  const ROW_USUAL := 13

  /** The row that comes of the rate the library is asked for.  `en_set_rate` raises a rate
      below 46 to 46 before `Engine_SetSpeed` sees it, so the wrap an unsigned shift of a
      smaller rate would give is never reached, whatever the caller asks for.  Without the
      extension nothing stops the row at the table's end. */
  function RateRow(wpm: int, x: Extensions): nat
  {
    var row := (if wpm < RATE_MIN then 0 else wpm - RATE_MIN) / 8;
    if x.rate && row > ROW_MAX then ROW_MAX else row
  }

  function BreakArg(ms: nat): nat
  {
    if 49 + ms / 10 > 255 then 255 else 49 + ms / 10
  }

  function PitchEscape(pitch: int): seq<WChar>
  {
    Escape(PitchArg(pitch), Letter('p'))
  }

  function RateEscape(wpm: int, x: Extensions): seq<WChar>
  {
    Escape(RateArg(wpm, x), Letter('r'))
  }

  function BreakEscape(ms: nat): seq<WChar>
  {
    Escape(BreakArg(ms), Letter('s'))
  }

  function MarkEscape(mark: nat): seq<WChar>
  {
    Escape(mark, Letter('i'))
  }

  // ---- reading ----------------------------------------------------------------------

  /** What reaches the later stages, in order. */
  datatype Heard = Said(c: WChar, pitch: int, row: int) | Marked(n: int) | Paused(ms: int)

  /** Between commands, after ESC, or inside one: the parameters so far, the last still
      being read (-1: no digit yet), and whether any has gone past 255. */
  datatype Mode = Plain | AfterEsc | InCommand(params: seq<int>, overflow: bool)

  datatype Reader = Reader(mode: Mode, pitch: int, row: int, punctuation: bool, heard: seq<Heard>)

  function Hear(r: Reader, c: WChar, x: Extensions): Reader
  {
    if c == ESC then r.(mode := AfterEsc)
    else
      match r.mode
      case Plain => r.(heard := r.heard + [Said(c, r.pitch, r.row)])
      case AfterEsc => r.(mode := if c == BRACKET then InCommand([-1], false) else Plain)
      case InCommand(params, overflow) =>
        if Digit(c) then
          if |params| > 16 || params == [] then r
          else
            var v := TakeDigit(params[|params| - 1], c);
            r.(mode := InCommand(params[..|params| - 1] + [v], overflow || v > 255))
        else if c == SEMICOLON then r.(mode := InCommand(params + [0], overflow))
        else Execute(r.(mode := Plain), params, overflow, c, x)
  }

  function TakeDigit(v: int, c: WChar): int
  {
    (if v == -1 then 0 else v) * 10 + c - ZERO
  }

  /** The commands an utterance can hold; every other letter is an unknown command here. */
  function Execute(r: Reader, params: seq<int>, overflow: bool, letter: WChar, x: Extensions): Reader
  {
    var p0 := if params == [] then -1 else params[0];
    var count := if |params| == 1 && p0 == -1 then 0 else |params|;
    if overflow || count > 16 then r
    else if letter == Letter('p') && count <= 1 then
      r.(pitch := 2 * (if p0 < 0 then 42 else Clamp(p0, 25, if x.pitch then 255 else if x.sing then 243 else 200)))
    else if letter == Letter('r') && count <= 1 then
      r.(row := RowGiven(p0))
    else if letter == Letter('s') && count <= 1 then
      r.(heard := r.heard + [Paused(PauseOf(if p0 < 0 then 100 else Clamp(p0, 1, 255)))])
    else if letter == Letter('i') && count <= 4 then
      if p0 == 0 then r else r.(heard := r.heard + [Marked(if p0 < 0 then 1 else p0)])
    else if letter == Letter('N') then r.(punctuation := r.punctuation || 2 in params)
    else if letter == Letter('F') then r.(punctuation := r.punctuation && 2 !in params)
    else r
  }

  /** The pause an argument makes, in milliseconds: a hundredth of a second for each one
      past 49. */
  function PauseOf(arg: int): nat
  {
    if arg <= 49 then 0 else 10 * (arg - 49)
  }

  /** The row the rate command gives: never past the 26 the table has. */
  function RowGiven(p0: int): int
  {
    if p0 < 0 then ROW_USUAL
    else if p0 == 0 then 0
    else Clamp(((if p0 < 50 then 50 else p0) - RATE_MIN) / 8, 0, ROWS - 1)
  }

  function HearAll(r: Reader, s: seq<WChar>, x: Extensions): Reader
    decreases |s|
  {
    if s == [] then r else Hear(HearAll(r, s[..|s| - 1], x), s[|s| - 1], x)
  }

  lemma {:induction false} HearConcat(r: Reader, s: seq<WChar>, t: seq<WChar>, x: Extensions)
    ensures HearAll(r, s + t, x) == HearAll(HearAll(r, s, x), t, x)
    decreases |t|
  {
    if t == [] {
      assert s + t == s;
    } else {
      assert (s + t)[..|s + t| - 1] == s + t[..|t| - 1];
      HearConcat(r, s, t[..|t| - 1], x);
    }
  }

  lemma HearOne(r: Reader, c: WChar, x: Extensions)
    ensures HearAll(r, [c], x) == Hear(r, c, x)
  {
    assert [c][..0] == [];
    assert HearAll(r, [], x) == r;
  }

  /** The digits of a number are read back as that number, and it is too large exactly
      when it passes 255. */
  lemma {:induction false} HearDecimal(r: Reader, n: nat, x: Extensions)
    requires r.mode == InCommand([-1], false)
    ensures HearAll(r, Decimal(n), x) == r.(mode := InCommand([n], n > 255))
  {
    if n < 10 {
      HearOne(r, ZERO + n, x);
      assert r.mode.params[..0] + [n] == [n];
    } else {
      HearDecimal(r, n / 10, x);
      var mid := r.(mode := InCommand([n / 10], n / 10 > 255));
      HearConcat(r, Decimal(n / 10), [ZERO + n % 10], x);
      HearOne(mid, ZERO + n % 10, x);
      assert TakeDigit(n / 10, ZERO + n % 10) == n;
      assert mid.mode.params[..0] + [n] == [n];
    }
  }

  /** A written command is read back as that command with that number, unless the number
      is past 255, when it is no command at all. */
  lemma HearEscape(r: Reader, n: nat, letter: WChar, x: Extensions)
    requires r.mode.Plain? && !Digit(letter) && letter != SEMICOLON && letter != ESC
    ensures HearAll(r, Escape(n, letter), x) == if n > 255 then r else Execute(r, [n], false, letter, x)
  {
    var start := r.(mode := InCommand([-1], false));
    HearConcat(r, [ESC, BRACKET] + Decimal(n), [letter], x);
    HearConcat(r, [ESC, BRACKET], Decimal(n), x);
    assert [ESC, BRACKET] == [ESC] + [BRACKET];
    HearConcat(r, [ESC], [BRACKET], x);
    HearOne(r, ESC, x);
    HearOne(r.(mode := AfterEsc), BRACKET, x);
    HearDecimal(start, n, x);
    HearOne(start.(mode := InCommand([n], n > 255)), letter, x);
  }

  predicate Clean(s: seq<WChar>)
  {
    forall i :: 0 <= i < |s| ==> s[i] != ESC && s[i] != 0
  }

  function SaidAll(s: seq<WChar>, pitch: int, row: int): seq<Heard>
  {
    seq(|s|, i requires 0 <= i < |s| => Said(s[i], pitch, row))
  }

  /** Text without ESC is heard as it stands, with the pitch and rate of the moment. */
  lemma {:induction false} HearText(r: Reader, s: seq<WChar>, x: Extensions)
    requires r.mode.Plain? && Clean(s)
    ensures HearAll(r, s, x) == r.(heard := r.heard + SaidAll(s, r.pitch, r.row))
    decreases |s|
  {
    if s == [] {
      assert r.heard + SaidAll(s, r.pitch, r.row) == r.heard;
    } else {
      var init := s[..|s| - 1];
      assert Clean(init);
      HearText(r, init, x);
      assert r.heard + SaidAll(s, r.pitch, r.row)
          == (r.heard + SaidAll(init, r.pitch, r.row)) + [Said(s[|s| - 1], r.pitch, r.row)];
    }
  }

  /** What each written command does: the pitch asked for, as far as half of it says it;
      the row of the rate, as far as the table goes, unless the rate is past what a
      parameter may be; a pause; a mark, if it is one of the first 255. */
  function PitchHeard(pitch: int): int
  {
    2 * PitchArg(pitch)
  }

  /** Rounded down to the hundredth of a second, and no longer than 2060 milliseconds. */
  function PauseHeard(ms: nat): nat
  {
    if ms < 2060 then ms - ms % 10 else 2060
  }

  function RowHeard(before: int, wpm: int, x: Extensions): int
  {
    if RateArg(wpm, x) > 255 then before else if RateRow(wpm, x) < ROWS then RateRow(wpm, x) else ROWS - 1
  }

  lemma HearPitch(r: Reader, pitch: int, x: Extensions)
    requires r.mode.Plain?
    ensures HearAll(r, PitchEscape(pitch), x) == r.(pitch := PitchHeard(pitch))
  {
    HearEscape(r, PitchArg(pitch), Letter('p'), x);
  }

  lemma HearRate(r: Reader, wpm: int, x: Extensions)
    requires r.mode.Plain?
    ensures HearAll(r, RateEscape(wpm, x), x) == r.(row := RowHeard(r.row, wpm, x))
  {
    HearEscape(r, RateArg(wpm, x), Letter('r'), x);
  }

  lemma HearBreak(r: Reader, ms: nat, x: Extensions)
    requires r.mode.Plain?
    ensures HearAll(r, BreakEscape(ms), x) == r.(heard := r.heard + [Paused(PauseHeard(ms))])
  {
    HearEscape(r, BreakArg(ms), Letter('s'), x);
  }

  lemma HearMark(r: Reader, mark: nat, x: Extensions)
    requires r.mode.Plain? && mark > 0
    ensures HearAll(r, MarkEscape(mark), x) == r.(heard := r.heard + if mark > 255 then [] else [Marked(mark)])
  {
    HearEscape(r, mark, Letter('i'), x);
    assert r.heard + [] == r.heard;
  }

  /** The pitch command gives exactly the pitch asked for when that is even and within
      50..400, and otherwise another. */
  lemma PitchHeardIff(pitch: int)
    requires pitch >= 0
    ensures PitchHeard(pitch) == pitch <==> pitch % 2 == 0 && 50 <= pitch <= 400
  {
  }

  /** A pause is as long as it was asked to be exactly when that is whole hundredths of a
      second, and no more than 2060 milliseconds. */
  lemma PauseHeardIff(ms: nat)
    ensures PauseHeard(ms) == ms <==> ms % 10 == 0 && ms <= 2060
  {
  }
}
