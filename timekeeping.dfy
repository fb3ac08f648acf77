/** The countdown state machine as values: the module globals of the app gathered in one
    record, and one function per handler the host calls (the periodic tick, the key events,
    app start and stop). The class in module App runs these step by step. */
module Timekeeping {
  import opened Presentation

  /** Preset used before any configuration is read. */
  const DEFAULT_REMAINDER: nat := 30

  const MS_PER_SECOND: int := 1000

  /** Host settings as reset_countdown reads them: the preset durations in seconds, whether
      to drive the LED clock and the ambient light, and the display mode (1 = bar, else arc). */
  datatype Config = Config(presets: seq<nat>, useClock: bool, ambientLight: bool, display: int)

  /** A comma-separated setting always splits into at least one preset. */
  predicate ConfigOk(cfg: Config) {
    |cfg.presets| > 0
  }

  datatype Key = Enter | Left | Right | OtherKey

  /** The app's globals. startMs and startValue are the anchor of the current run;
      lastDisplayed is the value last drawn; the two Owned flags record which peripherals
      the app holds (acquired and not yet released); barMade and arcMade record whether the
      bar and arc globals hold a widget rather than None. */
  datatype State = State(
    presets: seq<nat>,
    index: int,
    total: nat,
    remaining: nat,
    running: bool,
    startMs: int,
    startValue: nat,
    lastDisplayed: nat,
    useClock: bool,
    ambientLight: bool,
    display: int,
    ambientOwned: bool,
    clockOwned: bool,
    barMade: bool,
    arcMade: bool)

  /** The state after a handler, the host calls it made, and whether it ended in an exception. */
  datatype Outcome = Outcome(next: State, pushed: seq<Command>, raised: bool)

  /** The globals as the module defines them at load time. */
  function Initial(): State {
    State([DEFAULT_REMAINDER], 0, 0, DEFAULT_REMAINDER, false, 0, 0, 0, false, true, 1, false, false, false, false)
  }

  function Owned(s: State, d: Device): bool {
    match d
    case AmbientLight => s.ambientOwned
    case LedClock => s.clockOwned
  }

  /** The invariant of a started app: the time shown lies within the selected preset, and a
      peripheral is held exactly while a run is going and that peripheral is enabled. */
  predicate Valid(s: State) {
    && |s.presets| > 0
    && 0 <= s.index
    && s.remaining <= s.total
    && (s.running ==> s.startValue <= s.total)
    && s.ambientOwned == (s.running && s.ambientLight)
    && s.clockOwned == (s.running && s.useClock)
  }

  /** Whether the widget the display mode updates exists. */
  predicate Widget(s: State) {
    if s.display == 1 then s.barMade else s.arcMade
  }

  function Max0(x: int): nat {
    if x > 0 then x else 0
  }

  // ---------------------------------------------------------------- handlers

  /** reset_countdown: stop, reload the settings and select the preset at the current index.
      Indexing a reloaded, shorter preset list fails after running and the list were set. */
  function Reset(s: State, cfg: Config): Outcome {
    var cleared := s.(running := false, presets := cfg.presets);
    if 0 <= s.index < |cfg.presets| then
      var total := cfg.presets[s.index];
      Outcome(cleared.(total := total, remaining := total, useClock := cfg.useClock,
                       ambientLight := cfg.ambientLight, display := cfg.display), [], false)
    else
      Outcome(cleared, [], true)
  }

  /** Whole seconds since the anchor; Dafny's division agrees with Python's // for a
      positive divisor. */
  function Elapsed(s: State, now: int): int {
    (now - s.startMs) / MS_PER_SECOND
  }

  /** on_running_foreground: recompute the remaining time from the anchor and redraw only
      when the value shown would change. */
  function Tick(s: State, now: int): Outcome {
    var n := Advance(s, now);
    if !Redraws(s, n) then Outcome(n, [], false)
    else if s.total == 0 then Outcome(n, [], true)  // the percent divides by zero
    else
      var r := Render(n.remaining, s.total, s.useClock, s.display, Widget(s), s.ambientLight);
      Outcome(n, r.pushed, r.raised)
  }

  /** The state a tick leaves: idle when stopped or at zero, else the time recomputed from
      the anchor, recorded as drawn when it differs from the value last drawn. */
  function Advance(s: State, now: int): State {
    if !s.running || s.remaining == 0 then s
    else
      var remaining := Max0(s.startValue - Elapsed(s, now));
      if remaining == s.lastDisplayed then s.(remaining := remaining)
      else s.(remaining := remaining, lastDisplayed := remaining)
  }

  /** Whether the tick from s to n draws. */
  predicate Redraws(s: State, n: State) {
    s.running && s.remaining > 0 && n.remaining != s.lastDisplayed
  }

  /** ENTER while stopped: anchor the run at now and acquire the enabled peripherals. */
  function StartRun(s: State, now: int): Outcome {
    Outcome(
      s.(running := true, startMs := now, lastDisplayed := s.remaining, startValue := s.remaining,
         ambientOwned := s.ambientOwned || s.ambientLight, clockOwned := s.clockOwned || s.useClock),
      (if s.ambientLight then [Acquire(AmbientLight)] else []) + (if s.useClock then [Acquire(LedClock)] else []),
      false)
  }

  /** ENTER while running: freeze the remaining time and release the enabled peripherals. */
  function StopRun(s: State): Outcome {
    Outcome(
      s.(running := false, clockOwned := s.clockOwned && !s.useClock,
         ambientOwned := s.ambientOwned && !s.ambientLight),
      (if s.useClock then [Release(LedClock)] else []) + (if s.ambientLight then [Release(AmbientLight)] else []),
      false)
  }

  function Toggle(s: State, now: int): Outcome {
    if s.running then StopRun(s) else StartRun(s, now)
  }

  /** LEFT moves to the following preset, wrapping to the first. */
  function NextIndex(s: State): int {
    if s.index + 1 >= |s.presets| then 0 else s.index + 1
  }

  /** RIGHT moves to the preceding preset, wrapping to the last. */
  function PrevIndex(s: State): int {
    if s.index - 1 < 0 then |s.presets| - 1 else s.index - 1
  }

  /** Store the new index, reset, and show the new preset on the label. */
  function SelectPreset(s: State, index: int, cfg: Config): Outcome {
    var o := Reset(s.(index := index), cfg);
    if o.raised then o else Outcome(o.next, [SetText(Label(o.next.remaining))], false)
  }

  /** event_handler for a key: ENTER toggles; LEFT and RIGHT act only while stopped. */
  function HandleKey(s: State, key: Key, now: int, cfg: Config): Outcome {
    match key
    case Enter => Toggle(s, now)
    case Left => if s.running then Outcome(s, [], false) else SelectPreset(s, NextIndex(s), cfg)
    case Right => if s.running then Outcome(s, [], false) else SelectPreset(s, PrevIndex(s), cfg)
    case OtherKey => Outcome(s, [], false)
  }

  /** on_start: reset, create the widget of the display mode, then show the label and a
      full indicator. */
  function OnStart(s: State, cfg: Config): Outcome {
    var o := Reset(s, cfg);
    if o.raised then o
    else
      var n := if o.next.display == 1 then o.next.(barMade := true) else o.next.(arcMade := true);
      var indicator := if n.display == 1 then SetBar(BarFill(100), Classify(100)) else SetArc(100, Classify(100));
      Outcome(n, [SetText(Label(n.remaining)), indicator], false)
  }

  /** on_stop as written: it resets, which clears running without releasing anything. */
  function OnStopAsWritten(s: State, cfg: Config): Outcome {
    Reset(s, cfg)
  }

  /** on_stop as intended: end a run that is still going (releasing its peripherals), then reset. */
  function OnStop(s: State, cfg: Config): Outcome {
    var stopped := if s.running then StopRun(s) else Outcome(s, [], false);
    var o := Reset(stopped.next, cfg);
    Outcome(o.next, stopped.pushed + o.pushed, o.raised)
  }

  /** A sequence of ticks at the given times. */
  function Run(s: State, times: seq<int>): State
    decreases |times|
  {
    if times == [] then s else Run(Advance(s, times[0]), times[1..])
  }

  predicate Sorted(times: seq<int>) {
    forall i, j :: 0 <= i < j < |times| ==> times[i] <= times[j]
  }

  /** The device calls that undo a list of acquisitions, innermost first. */
  function Undo(cmds: seq<Command>): seq<Command> {
    if cmds == [] then []
    else
      var last := cmds[|cmds| - 1];
      var undoLast := if last.Acquire? then [Release(last.device)] else [];
      undoLast + Undo(cmds[..|cmds| - 1])
  }

  // ---------------------------------------------------------------- the tick

  lemma TickIdle(s: State, now: int)
    requires !s.running || s.remaining == 0
    ensures Tick(s, now) == Outcome(s, [], false)
  {
  }

  /** A tick only recomputes the remaining time (and the value last drawn): the new value is
      the anchor value less the whole seconds elapsed, floored at zero, and so between 0
      and the anchor value once the clock has reached the anchor. */
  lemma TickFromAnchor(s: State, now: int)
    requires s.running && s.remaining > 0
    ensures var n := Advance(s, now);
      && n == s.(remaining := n.remaining, lastDisplayed := n.lastDisplayed)
      && n.remaining == Max0(s.startValue - Elapsed(s, now))
      && (s.startMs <= now ==> n.remaining <= s.startValue)
      && (n.remaining > 0 ==>
            s.startMs + MS_PER_SECOND * (s.startValue - n.remaining) <= now
            < s.startMs + MS_PER_SECOND * (s.startValue - n.remaining + 1))
  {
  }

  lemma TickPreservesValid(s: State, now: int)
    requires Valid(s) && s.startMs <= now
    ensures Valid(Advance(s, now))
  {
  }

  /** Redraws are de-duplicated: the tick draws exactly when the value changed from the one
      last drawn, then records it; otherwise it pushes nothing and keeps the record. */
  lemma TickRedrawsOnChange(s: State, now: int)
    requires s.total > 0
    ensures var o := Tick(s, now);
      var redraw := s.running && s.remaining > 0 && o.next.remaining != s.lastDisplayed;
      && (redraw ==> o.next.lastDisplayed == o.next.remaining
                     && o.pushed == Render(o.next.remaining, s.total, s.useClock, s.display, Widget(s), s.ambientLight).pushed
                     && |o.pushed| > 0)
      && (!redraw ==> o.next.lastDisplayed == s.lastDisplayed && o.pushed == [] && !o.raised)
  {
  }

  /** Ticking again at the same time changes nothing and draws nothing. */
  lemma TickIdempotent(s: State, now: int)
    ensures var n := Tick(s, now).next;
      Tick(n, now) == Outcome(n, [], false)
  {
    var n := Advance(s, now);
    assert Tick(s, now).next == n;
    assert Advance(n, now) == n;
  }

  /** With a clock that does not go back, a tick never raises the remaining time. */
  lemma TickMonotone(s: State, now1: int, now2: int)
    requires now1 <= now2
    ensures var n1 := Advance(s, now1);
      Advance(n1, now2).remaining <= n1.remaining
  {
  }

  /** No drift: however many ticks ran before, the remaining time after the last one is what
      a single tick at that time computes from the anchor. */
  lemma {:induction false} NoDrift(s: State, times: seq<int>)
    requires |times| > 0 && Sorted(times)
    ensures Run(s, times).remaining == Advance(s, times[|times| - 1]).remaining
    decreases |times|
  {
    var last := times[|times| - 1];
    var s1 := Advance(s, times[0]);
    if |times| == 1 {
      assert Run(s, times) == Run(s1, []);
    } else {
      var rest := times[1..];
      assert rest[|rest| - 1] == last;
      assert Sorted(rest);
      NoDrift(s1, rest);
      assert times[0] <= last;
      if s.running && s.remaining > 0 && s1.remaining == 0 {
        // the run ended at times[0]; later ticks are idle and a single tick sees zero too
        RunIdle(s1, rest);
      }
    }
  }

  lemma {:induction false} RunIdle(s: State, times: seq<int>)
    requires !s.running || s.remaining == 0
    ensures Run(s, times) == s
    decreases |times|
  {
    if times != [] {
      RunIdle(Advance(s, times[0]), times[1..]);
    }
  }

  /** Within a run the remaining time never increases as ticks come in. */
  lemma {:induction false} RunMonotone(s: State, times: seq<int>, k: nat)
    requires Sorted(times) && 0 < k < |times|
    ensures Run(s, times[..k + 1]).remaining <= Run(s, times[..k]).remaining
  {
    NoDrift(s, times[..k + 1]);
    NoDrift(s, times[..k]);
    var n1 := Advance(s, times[k - 1]);
    var n2 := Advance(s, times[k]);
    assert times[..k + 1][k] == times[k] && times[..k][k - 1] == times[k - 1];
    assert times[k - 1] <= times[k];
    if s.running && s.remaining > 0 {
      assert n2.remaining <= n1.remaining;
    }
  }

  // ---------------------------------------------------------------- ENTER

  /** Starting anchors the run at the time and value current at the press, and leaves the
      value itself alone. */
  lemma StartAnchors(s: State, now: int, cfg: Config)
    requires !s.running
    ensures var n := HandleKey(s, Enter, now, cfg).next;
      && n.running && n.startMs == now && n.startValue == s.remaining
      && n.lastDisplayed == s.remaining && n.remaining == s.remaining && n.total == s.total
  {
  }

  /** Starting and then stopping leaves the countdown where it was (only the anchor moved),
      and the stop releases exactly what the start acquired, in reverse order. */
  lemma ToggleRoundTrip(s: State, now1: int, now2: int)
    requires Valid(s) && !s.running
    ensures var a := Toggle(s, now1);
      var b := Toggle(a.next, now2);
      && b.next == s.(startMs := now1, startValue := s.remaining, lastDisplayed := s.remaining)
      && b.pushed == Undo(a.pushed)
  {
    var a := StartRun(s, now1);
    assert Toggle(s, now1) == a;
    assert a.next.running;
    assert Toggle(a.next, now2) == StopRun(a.next);
    var acquireAmbient: seq<Command> := if s.ambientLight then [Acquire(AmbientLight)] else [];
    var releaseAmbient: seq<Command> := if s.ambientLight then [Release(AmbientLight)] else [];
    assert Undo(acquireAmbient) == releaseAmbient by {
      if s.ambientLight {
        assert acquireAmbient[..0] == [];
      }
    }
    if s.useClock {
      assert a.pushed == acquireAmbient + [Acquire(LedClock)];
      assert a.pushed[..|a.pushed| - 1] == acquireAmbient;
      assert Undo(a.pushed) == [Release(LedClock)] + releaseAmbient;
    } else {
      assert a.pushed == acquireAmbient;
    }
  }

  /** Every peripheral call a key press makes changes who holds that peripheral: an acquire
      only when it was free and is now held, a release only when it was held and is now free. */
  lemma KeyDeviceCallsPaired(s: State, key: Key, now: int, cfg: Config, d: Device)
    requires Valid(s) && ConfigOk(cfg)
    ensures var o := HandleKey(s, key, now, cfg);
      && Valid(o.next)
      && (Acquire(d) in o.pushed <==> !Owned(s, d) && Owned(o.next, d))
      && (Release(d) in o.pushed <==> Owned(s, d) && !Owned(o.next, d))
  {
  }

  // ---------------------------------------------------------------- LEFT and RIGHT

  lemma ModInRange(x: int, n: int)
    requires 0 < n && 0 <= x < 2 * n
    ensures x % n == if x < n then x else x - n
  {
    var q, r := x / n, x % n;
    assert x == q * n + r && 0 <= r < n;
    assert q == 0 || q == 1;
  }

  lemma CyclingIgnoredWhileRunning(s: State, now: int, cfg: Config)
    requires s.running
    ensures HandleKey(s, Left, now, cfg) == Outcome(s, [], false)
    ensures HandleKey(s, Right, now, cfg) == Outcome(s, [], false)
  {
  }

  /** With unchanged settings, LEFT selects the next preset modulo the list length, stops,
      loads that duration as both total and remaining time, and shows it. */
  lemma LeftSelectsNext(s: State, now: int, cfg: Config)
    requires Valid(s) && !s.running && s.index < |s.presets| && cfg.presets == s.presets
    ensures var o := HandleKey(s, Left, now, cfg);
      var i := o.next.index;
      && !o.raised && Valid(o.next)
      && i == (s.index + 1) % |s.presets| && 0 <= i < |s.presets|
      && !o.next.running && o.next.total == o.next.remaining == s.presets[i]
      && o.pushed == [SetText(Label(s.presets[i]))]
  {
    ModInRange(s.index + 1, |s.presets|);
  }

  /** With unchanged settings, RIGHT selects the previous preset modulo the list length. */
  lemma RightSelectsPrevious(s: State, now: int, cfg: Config)
    requires Valid(s) && !s.running && s.index < |s.presets| && cfg.presets == s.presets
    ensures var o := HandleKey(s, Right, now, cfg);
      var i := o.next.index;
      && !o.raised && Valid(o.next)
      && i == (s.index + |s.presets| - 1) % |s.presets| && 0 <= i < |s.presets|
      && !o.next.running && o.next.total == o.next.remaining == s.presets[i]
      && o.pushed == [SetText(Label(s.presets[i]))]
  {
    ModInRange(s.index + |s.presets| - 1, |s.presets|);
  }

  /** RIGHT undoes LEFT (and LEFT undoes RIGHT): both leave the app as a plain reset would. */
  lemma LeftThenRight(s: State, now1: int, now2: int, cfg: Config)
    requires Valid(s) && !s.running && s.index < |s.presets| && cfg.presets == s.presets
    ensures HandleKey(HandleKey(s, Left, now1, cfg).next, Right, now2, cfg).next == Reset(s, cfg).next
  {
    var a := HandleKey(s, Left, now1, cfg).next;
    assert a == Reset(s.(index := NextIndex(s)), cfg).next;
    assert PrevIndex(a) == s.index;
    assert a.(index := s.index) == Reset(s, cfg).next.(total := a.total, remaining := a.remaining);
  }

  lemma RightThenLeft(s: State, now1: int, now2: int, cfg: Config)
    requires Valid(s) && !s.running && s.index < |s.presets| && cfg.presets == s.presets
    ensures HandleKey(HandleKey(s, Right, now1, cfg).next, Left, now2, cfg).next == Reset(s, cfg).next
  {
    var a := HandleKey(s, Right, now1, cfg).next;
    assert a == Reset(s.(index := PrevIndex(s)), cfg).next;
    assert NextIndex(a) == s.index;
    assert a.(index := s.index) == Reset(s, cfg).next.(total := a.total, remaining := a.remaining);
  }

  // ---------------------------------------------------------------- start and stop of the app

  /** The globals at load time are not a started app (the time is 30 against a total of 0);
      the first start always succeeds and establishes the invariant. */
  lemma FirstStart(cfg: Config)
    requires ConfigOk(cfg)
    ensures !Valid(Initial())
    ensures var o := OnStart(Initial(), cfg);
      && !o.raised && Valid(o.next) && o.next.remaining == o.next.total == cfg.presets[0]
      && Widget(o.next)
  {
  }

  /** Stopping the app ends a run that is still going: afterwards nothing is held, every held
      peripheral got exactly one release, and the invariant holds. */
  lemma OnStopReleases(s: State, cfg: Config, d: Device)
    requires Valid(s) && ConfigOk(cfg)
    ensures var o := OnStop(s, cfg);
      && Valid(o.next) && !o.next.running && !Owned(o.next, d)
      && (Release(d) in o.pushed <==> Owned(s, d))
      && Acquire(d) !in o.pushed
  {
  }

  /** A running countdown with the ambient light enabled, stopped by the host. */
  function LeakWitness(): State {
    StartRun(OnStart(Initial(), Config([30], false, true, 1)).next, 0).next
  }

  /** on_stop as written keeps the ambient light after the countdown stopped, so the app
      holds it while idle and acquires it a second time at the next start. */
  lemma OnStopAsWrittenLeaks()
    ensures var s := LeakWitness();
      var cfg := Config([30], false, true, 1);
      var o := OnStopAsWritten(s, cfg);
      && Valid(s) && s.running
      && !o.next.running && o.next.ambientOwned && Release(AmbientLight) !in o.pushed
      && !Valid(o.next)
      && Acquire(AmbientLight) in HandleKey(o.next, Enter, 0, cfg).pushed
  {
  }

  /** A 90-second run: 45 s in, 45 s and half remain (green); 76 s in, 14 s and red; long
      after, zero, and later ticks do nothing. */
  lemma NinetySecondRun()
    ensures var cfg := Config([90], false, false, 1);
      var s0 := HandleKey(OnStart(Initial(), cfg).next, Enter, 0, cfg).next;
      var s1 := Tick(s0, 45000).next;
      var s2 := Tick(s1, 76000).next;
      var s3 := Tick(s2, 999999).next;
      && s1.remaining == 45 && Percent(s1.remaining, s1.total) == 50 && Classify(50) == Green
      && s2.remaining == 14 && Classify(Percent(s2.remaining, s2.total)) == Red
      && s3.remaining == 0 && Tick(s3, 1000000) == Outcome(s3, [], false)
  {
  }

  // ---------------------------------------------------------------- the indicator widget

  /** As long as the display setting stays the one on_start saw, the widget it updates
      exists: no key press and no tick loses it. */
  lemma WidgetKept(s: State, key: Key, now: int, cfg: Config)
    requires Widget(s) && cfg.display == s.display
    ensures Widget(HandleKey(s, key, now, cfg).next) && Widget(Tick(s, now).next)
  {
    assert Tick(s, now).next == Advance(s, now);
    if key == Left || key == Right {
      if !s.running {
        var i := if key == Left then NextIndex(s) else PrevIndex(s);
        assert HandleKey(s, key, now, cfg).next == SelectPreset(s, i, cfg).next;
      }
    }
  }

  /** A redraw without the widget of the current mode fails after the label (and clock),
      updating neither indicator nor the light. */
  lemma TickWithoutWidgetRaises(s: State, now: int)
    requires !Widget(s) && s.total > 0 && Redraws(s, Advance(s, now))
    ensures var o := Tick(s, now);
      && o.raised && o.pushed[0] == SetText(Label(o.next.remaining))
      && forall c :: c in o.pushed ==> !IsIndicator(c) && !c.SetAmbient?
  {
    RenderStopsEarly(Advance(s, now).remaining, s.total, s.useClock, s.display, false, s.ambientLight);
  }

  /** The display setting changed to the arc between on_start and a LEFT: the reset reloads
      the mode, the arc global is still None, and the first redraw of the next run fails
      right after the label. */
  lemma ModeSwitchBreaksRedraw()
    ensures var s0 := OnStart(Initial(), Config([60, 60], false, false, 1)).next;
      var s1 := HandleKey(s0, Left, 0, Config([60, 60], false, false, 2)).next;
      var s2 := HandleKey(s1, Enter, 0, Config([60, 60], false, false, 2)).next;
      var o := Tick(s2, 1000);
      && Widget(s0) && s1.display == 2 && !Widget(s1)
      && o.next.remaining == 59 && o.raised && o.pushed == [SetText(Label(59))]
  {
  }
}
