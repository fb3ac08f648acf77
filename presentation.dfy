/** The presentation side of the countdown: what the app pushes to the screen and to the
    peripherals for a given remaining time. Every helper here is a pure expression in the
    source (the MM:SS label, the percent, the three colour tiers, the 7-segment digits). */
module Presentation {

  datatype Option<T> = None | Some(value: T)

  type Byte = bv8

  /** 7-segment patterns for the digits 0 to 9 on the LED clock. */
  const NUMBER: seq<Byte> := [0x5F, 0x06, 0x3B, 0x2F, 0x66, 0x6D, 0x7D, 0x07, 0x7F, 0x6F]

  /** Bit 7 of the fourth slot lights the colon between minutes and seconds. */
  const COLON: Byte := 0x80

  /** Brightness the app sets on both peripherals after each update. */
  const FULL_BRIGHTNESS: nat := 100

  /** Colour tiers: green while more than 30 percent is left, yellow down to 16, red from 15. */
  datatype Tier = Green | Yellow | Red

  datatype Rgb = Rgb(r: nat, g: nat, b: nat)

  datatype Device = AmbientLight | LedClock

  /** One call the app makes on a host object: the label, the bar or arc widget, a peripheral. */
  datatype Command =
    | SetText(text: string)
    | SetClock(slots: seq<Byte>, brightness: nat)
    | SetBar(value: int, tier: Tier)
    | SetArc(value: int, tier: Tier)
    | SetAmbient(color: Rgb, brightness: nat)
    | Acquire(device: Device)
    | Release(device: Device)

  /** What one redraw pushed, and whether it stopped on an exception part-way through. */
  datatype Redraw = Redraw(pushed: seq<Command>, raised: bool)

  // ---------------------------------------------------------------- percent and tiers

  /** Percent of the run still left, truncated. The source divides in floating point and
      truncates with int(); for the non-negative operands it sees this is floor division. */
  function Percent(remaining: nat, total: nat): nat
    requires total > 0
  {
    remaining * 100 / total
  }

  /** The percent is the largest whole number of hundredths of the total within the
      remaining time. */
  lemma PercentIsFloor(remaining: nat, total: nat)
    requires total > 0
    ensures var p := Percent(remaining, total);
      p * total <= remaining * 100 < (p + 1) * total
      && (remaining <= total ==> p <= 100)
  {
    var p := Percent(remaining, total);
    if remaining <= total && p > 100 {
      MulMonotone(101, p, total);
      assert false;
    }
  }

  function Classify(percent: int): Tier {
    if percent > 30 then Green
    else if percent > 15 then Yellow
    else Red
  }

  /** How urgent a tier is: 0 for green, 2 for red. */
  function Severity(t: Tier): nat {
    match t
    case Green => 0
    case Yellow => 1
    case Red => 2
  }

  /** Fill of the progress bar: it grows as time runs out. */
  function BarFill(percent: int): int {
    100 - percent
  }

  function AmbientColor(t: Tier): Rgb {
    match t
    case Green => Rgb(0, 255, 0)
    case Yellow => Rgb(255, 255, 0)
    case Red => Rgb(255, 0, 0)
  }

  /** The tier a command shows, if it shows one (the inverse of AmbientColor for the light). */
  function TierShown(c: Command): Option<Tier> {
    match c
    case SetBar(_, t) => Some(t)
    case SetArc(_, t) => Some(t)
    case SetAmbient(color, _) =>
      if color == Rgb(0, 255, 0) then Some(Green)
      else if color == Rgb(255, 255, 0) then Some(Yellow)
      else if color == Rgb(255, 0, 0) then Some(Red)
      else None
    case _ => None
  }

  lemma TierBoundaries()
    ensures Classify(31) == Green && Classify(30) == Yellow && Classify(16) == Yellow
    ensures Classify(15) == Red && Classify(0) == Red && Classify(100) == Green
  {
  }

  /** The thresholds split [0, 100] into three bands and nothing else decides the tier. */
  lemma TierBands(p: int)
    ensures Classify(p) == Green <==> p > 30
    ensures Classify(p) == Yellow <==> 15 < p <= 30
    ensures Classify(p) == Red <==> p <= 15
  {
  }

  lemma ClassifyMonotone(p: int, q: int)
    requires p <= q
    ensures Severity(Classify(q)) <= Severity(Classify(p))
  {
  }

  lemma PercentMonotone(t1: nat, t2: nat, total: nat)
    requires total > 0 && t1 <= t2
    ensures Percent(t1, total) <= Percent(t2, total)
  {
    var p1, p2 := Percent(t1, total), Percent(t2, total);
    PercentIsFloor(t1, total);
    PercentIsFloor(t2, total);
    if p2 < p1 {
      assert (p2 + 1) * total <= p1 * total by {
        MulMonotone(p2 + 1, p1, total);
      }
      assert false;
    }
  }

  lemma MulMonotone(a: nat, b: nat, c: nat)
    requires a <= b
    ensures a * c <= b * c
  {
  }

  /** As the remaining time falls the shown tier never becomes less urgent. */
  lemma TierNeverRelaxes(t1: nat, t2: nat, total: nat)
    requires total > 0 && t1 <= t2
    ensures Severity(Classify(Percent(t2, total))) <= Severity(Classify(Percent(t1, total)))
  {
    PercentMonotone(t1, t2, total);
    ClassifyMonotone(Percent(t1, total), Percent(t2, total));
  }

  lemma AmbientColorDistinguishesTiers(t: Tier)
    ensures TierShown(SetAmbient(AmbientColor(t), FULL_BRIGHTNESS)) == Some(t)
  {
  }

  // ---------------------------------------------------------------- MM:SS label

  predicate IsDigit(c: char) {
    '0' <= c <= '9'
  }

  predicate AllDigits(s: string) {
    forall i :: 0 <= i < |s| ==> IsDigit(s[i])
  }

  function DigitChar(d: nat): (c: char)
    requires d < 10
    ensures IsDigit(c) && c as int - '0' as int == d
  {
    (d + '0' as int) as char
  }

  /** Decimal notation of n, without leading zeros. */
  function Decimal(n: nat): (s: string)
    ensures AllDigits(s)
    ensures 1 <= |s| && (n < 10 <==> |s| == 1) && (n < 100 ==> |s| <= 2)
  {
    if n < 10 then [DigitChar(n)] else Decimal(n / 10) + [DigitChar(n % 10)]
  }

  function ParseDecimal(s: string): nat
    requires AllDigits(s)
  {
    if s == [] then 0
    else ParseDecimal(s[..|s| - 1]) * 10 + (s[|s| - 1] as int - '0' as int)
  }

  /** The "{:02d}" format: at least two digits, padded with a zero. */
  function Pad2(n: nat): (s: string)
    ensures AllDigits(s) && 2 <= |s| && (n < 100 ==> |s| == 2)
  {
    if n < 10 then ['0'] + Decimal(n) else Decimal(n)
  }

  /** The label text: minutes, a colon, then the seconds as two digits. */
  function Label(t: nat): (s: string)
    ensures 5 <= |s| && s[|s| - 3] == ':'
    ensures t < 6000 <==> |s| == 5
  {
    Pad2(t / 60) + ":" + Pad2(t % 60)
  }

  /** Reads a label back: the minutes before the colon, two second digits below 60 after it. */
  function ParseLabel(s: string): Option<nat> {
    if |s| >= 4 && s[|s| - 3] == ':' && AllDigits(s[..|s| - 3]) && AllDigits(s[|s| - 2..])
       && ParseDecimal(s[|s| - 2..]) < 60
    then Some(ParseDecimal(s[..|s| - 3]) * 60 + ParseDecimal(s[|s| - 2..]))
    else None
  }

  lemma {:induction false} DecimalRoundTrip(n: nat)
    ensures ParseDecimal(Decimal(n)) == n
  {
    if n >= 10 {
      var s := Decimal(n);
      DecimalRoundTrip(n / 10);
      assert s[..|s| - 1] == Decimal(n / 10);
    }
  }

  lemma Pad2RoundTrip(n: nat)
    ensures ParseDecimal(Pad2(n)) == n
  {
    if n < 10 {
      var s := Pad2(n);
      assert s == ['0', DigitChar(n)];
      assert s[..|s| - 1] == ['0'];
      assert ParseDecimal(['0']) == 0 by {
        assert ['0'][..0] == [];
      }
    } else {
      DecimalRoundTrip(n);
    }
  }

  /** The label states the remaining time exactly: reading it back gives t. */
  lemma LabelRoundTrip(t: nat)
    ensures ParseLabel(Label(t)) == Some(t)
  {
    var m, sec := Pad2(t / 60), Pad2(t % 60);
    var s := Label(t);
    assert s[..|s| - 3] == m;
    assert s[|s| - 2..] == sec;
    Pad2RoundTrip(t / 60);
    Pad2RoundTrip(t % 60);
  }

  // ---------------------------------------------------------------- LED clock

  /** Position of a pattern in a table, if it occurs there. */
  function Find(table: seq<Byte>, b: Byte): (r: Option<nat>)
    ensures r.Some? ==> r.value < |table| && table[r.value] == b
    ensures r.None? ==> b !in table
  {
    if table == [] then None
    else if table[|table| - 1] == b then Some(|table| - 1)
    else Find(table[..|table| - 1], b)
  }

  /** The six slot values written to the LED clock (slot k is element k - 1): two minute
      digits, two second digits with the colon bit, two blanks. None is the IndexError the
      source raises once the minutes need a third digit. */
  function ClockSlots(t: nat): (r: Option<seq<Byte>>)
    ensures r.Some? <==> t < 6000
    ensures r.Some? ==>
      (|r.value| == 6 && r.value[3] & COLON == COLON && r.value[4] == 0 && r.value[5] == 0)
  {
    var minutes, seconds := t / 60, t % 60;
    if minutes / 10 < |NUMBER| then
      Some(Slots(minutes / 10, minutes % 10, seconds / 10, seconds % 10))
    else None
  }

  /** Slots 1 to 6 for the four digits, the colon bit set on the fourth. */
  function Slots(m1: nat, m2: nat, s1: nat, s2: nat): seq<Byte>
    requires m1 < 10 && m2 < 10 && s1 < 10 && s2 < 10
  {
    [NUMBER[m1], NUMBER[m2], NUMBER[s1], NUMBER[s2] | COLON, 0, 0]
  }

  function DigitOf(b: Byte): Option<nat> {
    Find(NUMBER, b)
  }

  /** Reads the clock back: the time shown by four digit slots with the colon lit. */
  function DecodeClock(slots: seq<Byte>): Option<nat> {
    if |slots| == 6 && slots[3] & COLON == COLON then
      match (DigitOf(slots[0]), DigitOf(slots[1]), DigitOf(slots[2]), DigitOf(slots[3] & !COLON))
      case (Some(m1), Some(m2), Some(s1), Some(s2)) => Some((m1 * 10 + m2) * 60 + s1 * 10 + s2)
      case _ => None
    else None
  }

  /** No two digits share a pattern and no pattern uses the colon bit. */
  lemma DigitOfNumber(d: nat)
    requires d < 10
    ensures DigitOf(NUMBER[d]) == Some(d)
    ensures (NUMBER[d] | COLON) & !COLON == NUMBER[d]
  {
    assert forall i, j :: 0 <= i < j < 10 ==> NUMBER[i] != NUMBER[j];
  }

  /** Four digit patterns with the colon lit read back as minutes and seconds. */
  lemma DecodeDigits(m1: nat, m2: nat, s1: nat, s2: nat, t: nat)
    requires m1 < 10 && m2 < 10 && s1 < 10 && s2 < 10
    requires t == (m1 * 10 + m2) * 60 + s1 * 10 + s2
    ensures DecodeClock(Slots(m1, m2, s1, s2)) == Some(t)
  {
    var slots := Slots(m1, m2, s1, s2);
    DigitOfNumber(m1);
    DigitOfNumber(m2);
    DigitOfNumber(s1);
    DigitOfNumber(s2);
    assert slots[3] & COLON == COLON;
    assert DigitOf(slots[3] & !COLON) == Some(s2);
  }

  lemma ClockRoundTrip(t: nat)
    requires t < 6000
    ensures DecodeClock(ClockSlots(t).value) == Some(t)
  {
    var minutes, seconds := t / 60, t % 60;
    var m1, m2, s1, s2 := minutes / 10, minutes % 10, seconds / 10, seconds % 10;
    SplitTime(t);
    DecodeDigits(m1, m2, s1, s2, t);
    assert ClockSlots(t) == Some(Slots(m1, m2, s1, s2));
  }

  /** The four clock digits of a time below 100 minutes, put back together. */
  lemma SplitTime(t: nat)
    requires t < 6000
    ensures var minutes, seconds := t / 60, t % 60;
      && minutes / 10 < 10 && seconds / 10 < 10
      && (minutes / 10 * 10 + minutes % 10) * 60 + seconds / 10 * 10 + seconds % 10 == t
  {
  }

  // ---------------------------------------------------------------- one redraw

  /** A redraw for remaining time t: the label, the LED clock if enabled, the bar (display
      mode 1) or else the arc, then the ambient light if enabled. `widget` says whether the
      widget of that mode exists; the other global is still None and updating it fails. A
      clock index error stops the redraw after the label, a missing widget after the clock. */
  function Render(t: nat, total: nat, useClock: bool, display: int, widget: bool, ambient: bool): Redraw
    requires total > 0
  {
    var percent := Percent(t, total);
    var tier := Classify(percent);
    var text := [SetText(Label(t))];
    var slots := ClockSlots(t);
    if useClock && slots.None? then Redraw(text, true)
    else
      var clock := if useClock then [SetClock(slots.value, FULL_BRIGHTNESS)] else [];
      if !widget then Redraw(text + clock, true)
      else
        var indicator := if display == 1 then [SetBar(BarFill(percent), tier)] else [SetArc(percent, tier)];
        var light := if ambient then [SetAmbient(AmbientColor(tier), FULL_BRIGHTNESS)] else [];
        Redraw(text + clock + indicator + light, false)
  }

  predicate IsIndicator(c: Command) {
    c.SetBar? || c.SetArc?
  }

  /** A redraw shows t on the label first and the same tier on every coloured element. It
      fails exactly on a clock index error or a missing widget; a complete one drives the
      clock and the light exactly when enabled. */
  lemma RenderConsistent(t: nat, total: nat, useClock: bool, display: int, widget: bool, ambient: bool)
    requires 0 < total && t <= total
    ensures var r := Render(t, total, useClock, display, widget, ambient);
      var p := Percent(t, total);
      && |r.pushed| >= 1 && r.pushed[0] == SetText(Label(t))
      && (r.raised <==> (useClock && t >= 6000) || !widget)
      && (forall c :: c in r.pushed && TierShown(c).Some? ==> TierShown(c) == Some(Classify(p)))
      && (!r.raised ==>
        && (ambient <==> exists c :: c in r.pushed && c.SetAmbient?)
        && (useClock <==> exists c :: c in r.pushed && c.SetClock?)
        && (useClock ==> SetClock(ClockSlots(t).value, FULL_BRIGHTNESS) in r.pushed))
  {
    var r := Render(t, total, useClock, display, widget, ambient);
    var tier := Classify(Percent(t, total));
    AmbientColorDistinguishesTiers(tier);
    if !r.raised {
      if useClock {
        assert r.pushed[1] == SetClock(ClockSlots(t).value, FULL_BRIGHTNESS);
      }
      if ambient {
        assert r.pushed[|r.pushed| - 1].SetAmbient?;
      }
    }
  }

  /** Only the indicator of the current display mode is ever updated, and a complete redraw
      updates it exactly once: the bar with fill 100 - percent, or the arc with the percent,
      both inside [0, 100]. */
  lemma RenderOneIndicator(t: nat, total: nat, useClock: bool, display: int, widget: bool, ambient: bool)
    requires 0 < total && t <= total
    ensures var r := Render(t, total, useClock, display, widget, ambient);
      var p := Percent(t, total);
      && (display == 1 ==> forall c :: c in r.pushed ==> !c.SetArc?)
      && (display != 1 ==> forall c :: c in r.pushed ==> !c.SetBar?)
      && (!r.raised ==>
        && (display == 1 ==> SetBar(100 - p, Classify(p)) in r.pushed && 0 <= 100 - p <= 100)
        && (display != 1 ==> SetArc(p, Classify(p)) in r.pushed && 0 <= p <= 100)
        && (forall i, j :: 0 <= i < j < |r.pushed| && IsIndicator(r.pushed[i]) ==> !IsIndicator(r.pushed[j])))
  {
    var r := Render(t, total, useClock, display, widget, ambient);
    PercentIsFloor(t, total);
    if !r.raised {
      var clock := if useClock then [SetClock(ClockSlots(t).value, FULL_BRIGHTNESS)] else [];
      assert IsIndicator(r.pushed[1 + |clock|]);
      assert forall i :: 0 <= i < |r.pushed| && IsIndicator(r.pushed[i]) ==> i == 1 + |clock|;
    }
  }

  /** A failed redraw stops before the indicator and the light: a clock index error leaves
      only the label, a missing widget leaves the label and the clock. */
  lemma RenderStopsEarly(t: nat, total: nat, useClock: bool, display: int, widget: bool, ambient: bool)
    requires 0 < total
    ensures var r := Render(t, total, useClock, display, widget, ambient);
      && (r.raised ==> forall c :: c in r.pushed ==> !IsIndicator(c) && !c.SetAmbient?)
      && (useClock && t >= 6000 ==> r.pushed == [SetText(Label(t))])
      && ((!useClock || t < 6000) && !widget ==>
            r.raised && (useClock <==> exists c :: c in r.pushed && c.SetClock?))
  {
    var r := Render(t, total, useClock, display, widget, ambient);
    if (!useClock || t < 6000) && !widget && useClock {
      assert r.pushed[1].SetClock?;
    }
  }
}
