# Countdown timer: a verified model of its timekeeping and display logic

The countdown app for the smart-display dock keeps its state in module globals. These are
the selected preset, the remaining time, a running flag, the anchor of the current run
(start timestamp and start value), the value last drawn, and the display settings. Four
host entry points change that state:

- `reset_countdown` selects the preset at the current index.
- The key handler toggles the run on ENTER and cycles the presets on LEFT and RIGHT while
  the countdown is stopped.
- The periodic foreground tick recomputes the remaining time from the anchor. It redraws
  only when the shown second changes.
- `on_start` and `on_stop` are the app lifecycle hooks.

A redraw pushes four things:

- an `MM:SS` label;
- a bar (display mode 1) or an arc, coloured green, yellow or red by the percent left;
- optionally the digits on the LED clock, with the colon bit set;
- optionally a colour on the ambient light.

The model has three modules:

- `Presentation` (presentation.dfy) covers the pure helpers. These are the percent, the
  three tiers, the bar fill, the ambient colours, the `MM:SS` label, the 7-segment table
  `NUMBER` and the six clock slots. It also builds the list of host calls one redraw
  makes. The label and the clock each have a decoder, and both are proved to round-trip.
- `Timekeeping` (timekeeping.dfy) holds the globals as a `State` value and has one
  function per handler. Each function returns the new state, the host calls it made
  (`Command`s, including peripheral acquire/release) and whether the Python code would
  raise there. The lemmas state the countdown's properties about these functions.
- `App` (app.dfy) is the class `CountdownApp`. Its fields are the globals, and its
  methods update them in place, following the statement order of the handlers. The
  exception is `OnStop`, which is the corrected stop described under Findings. Each
  method's postcondition equates the new state and the calls it made with the matching
  `Timekeeping` function of the old state. On top of that:
  - `Tick` and `HandleKey` keep the invariant `Valid`;
  - `OnStart` establishes it unless its reset raised;
  - `OnStop` keeps it.

Inputs from the host are parameters:

- the clock is a `now` argument in milliseconds;
- the settings are a `Config` argument (presets, LED-clock switch, ambient-light switch,
  display mode), re-read at every reset, like `app_mgr.config()`;
- key events are a `Key`.

Points of the code's behaviour that the model keeps:

- LEFT increments the preset index and RIGHT decrements it, each wrapping around the list.
- A preset of 0 is accepted. Nothing divides by it, because a tick with nothing left is
  idle.
- `on_start` creates only the widget of the display mode current at that moment: the bar
  for mode 1, otherwise the arc. The other global stays `None`. Each reset reloads the
  mode, so LEFT or RIGHT can pick up a changed display setting. The next redraw then
  updates a widget global that is still `None`, and it fails after the label and the
  clock (`Timekeeping.ModeSwitchBreaksRedraw`).
- `reset_countdown` assigns `last_recorded_time`, a name used nowhere else. So
  `last_displayed_time` is not cleared by a reset. ENTER sets it before any tick can draw,
  so this is harmless.
- `on_stop` resets a countdown that may still be running (see Findings).

## Model

| member | source | states |
|---|---|---|
| Presentation.PercentIsFloor | __init__.py:326 | the percent is the floor of remaining·100/total: p·total ≤ remaining·100 < (p+1)·total, and p ≤ 100 when remaining ≤ total |
| Presentation.PercentMonotone | __init__.py:326 | less remaining time never gives a larger percent |
| Presentation.TierBoundaries | __init__.py:141-149 | fixed tier boundaries: 100 and 31 are green, 30 and 16 yellow, 15 and 0 red |
| Presentation.TierBands | __init__.py:157-163 | green exactly above 30, yellow exactly in (15, 30], red exactly at 15 or below |
| Presentation.ClassifyMonotone | __init__.py:170-175 | a smaller percent never maps to a less urgent tier |
| Presentation.TierNeverRelaxes | __init__.py:324-338 | as the remaining time falls, the tier drawn never becomes less urgent |
| Presentation.AmbientColorDistinguishesTiers | __init__.py:170-175 | the three ambient colours are distinct, so the colour names its tier |
| Presentation.Decimal | __init__.py:110 | decimal notation is all digits, one digit exactly below 10, at most two below 100 |
| Presentation.Pad2 | __init__.py:110 | the `{:02d}` field has at least two digits, exactly two below 100 |
| Presentation.Label | __init__.py:109-111 | the label has a colon third from the end and is exactly five characters iff t < 6000 |
| Presentation.DecimalRoundTrip | __init__.py:110 | parsing the decimal notation of n gives back n |
| Presentation.LabelRoundTrip | __init__.py:109-111 | parsing the label gives back t, with a seconds field below 60 |
| Presentation.Find | __init__.py:36 | a pattern found in the table sits at the returned index; not found means absent |
| Presentation.ClockSlots | __init__.py:119-128 | the slots exist iff t < 6000 (else the table index fails); there are six, the fourth has the colon bit, slots 5 and 6 are blank |
| Presentation.DigitOfNumber | __init__.py:36 | the ten segment patterns are distinct and none uses the colon bit |
| Presentation.DecodeDigits | __init__.py:123-126 | four digit patterns with the colon lit decode to minutes·60 + seconds |
| Presentation.ClockRoundTrip | __init__.py:119-128 | decoding the clock slots for t < 6000 gives back t |
| Presentation.RenderConsistent | __init__.py:324-338 | a redraw shows t on the label first and the same tier on the bar or arc and the light. It raises iff the clock is on and t ≥ 6000 (the digit table index fails) or the widget of the display mode does not exist. A complete redraw drives the clock and the light iff each is enabled |
| Presentation.RenderOneIndicator | __init__.py:330-333 | only the indicator of the display mode is touched, never the other kind. A complete redraw updates it exactly once: the bar with fill 100 − percent or the arc with the percent, both in [0,100] |
| Presentation.RenderStopsEarly | __init__.py:324-338 | a failed redraw touches neither indicator nor the light. A clock index error leaves only the label; a missing widget leaves the label and the clock when it is on |
| Timekeeping.TickIdle | __init__.py:318-319 | a tick while stopped or at zero changes nothing and draws nothing |
| Timekeeping.TickFromAnchor | __init__.py:321-323 | a tick changes only the remaining and drawn values. The new value is max(anchor value − whole elapsed seconds, 0), at most the anchor value once the clock has reached the anchor, and pins the elapsed milliseconds to one second |
| Timekeeping.TickPreservesValid | __init__.py:321-323 | a tick keeps 0 ≤ remaining ≤ total and the rest of the invariant |
| Timekeeping.TickRedrawsOnChange | __init__.py:324-338 | a tick draws iff the new value differs from the one last drawn, and then records it. Otherwise it pushes nothing and keeps the record |
| Timekeeping.TickIdempotent | __init__.py:318-325 | a second tick at the same time changes nothing and draws nothing |
| Timekeeping.TickMonotone | __init__.py:322-323 | with a later or equal time, a tick never raises the remaining time |
| Timekeeping.RunIdle | __init__.py:318-319 | once stopped or at zero, any number of ticks leave the state alone |
| Timekeeping.NoDrift | __init__.py:321-323 | after any sorted sequence of ticks, the remaining time is what one tick at the last time computes |
| Timekeeping.RunMonotone | __init__.py:322-323 | along a sorted sequence of ticks, the remaining time never increases |
| Timekeeping.StartAnchors | __init__.py:190-196 | ENTER while stopped, whatever the settings, starts the run, anchors it at now and the current value, and leaves the value alone |
| Timekeeping.ToggleRoundTrip | __init__.py:190-205 | start then stop leaves the state as it was except the anchor. The stop releases exactly what the start acquired, in reverse order |
| Timekeeping.KeyDeviceCallsPaired | __init__.py:179-221 | every key keeps the invariant. A peripheral is acquired only when free and becoming held, and released only when held and becoming free |
| Timekeeping.CyclingIgnoredWhileRunning | __init__.py:208-221 | LEFT and RIGHT do nothing while running |
| Timekeeping.LeftSelectsNext | __init__.py:210-215 | LEFT moves to (index + 1) mod n. It stops and loads that preset as total and remaining, and shows it on the label |
| Timekeeping.RightSelectsPrevious | __init__.py:216-221 | RIGHT moves to (index + n − 1) mod n. It stops and loads that preset as total and remaining, and shows it on the label |
| Timekeeping.LeftThenRight | __init__.py:210-221 | RIGHT after LEFT leaves the app as a plain reset would |
| Timekeeping.RightThenLeft | __init__.py:210-221 | LEFT after RIGHT leaves the app as a plain reset would |
| Timekeeping.FirstStart | __init__.py:255-282 | the load-time globals break the invariant. The first start never fails. It establishes the invariant with the first preset selected, and the widget of the display mode exists |
| Timekeeping.OnStopReleases | __init__.py:242-252 | corrected stop: afterwards nothing runs and nothing is held. Every held peripheral gets one release, and nothing is acquired |
| Timekeeping.OnStopAsWrittenLeaks | __init__.py:242-252 | the stop as written leaves the ambient light held after the run has stopped, and the next ENTER acquires it again |
| Timekeeping.WidgetKept | __init__.py:267-282 | while the display setting is the one on_start saw, no key press and no tick loses the widget the redraw updates |
| Timekeeping.TickWithoutWidgetRaises | __init__.py:330-333 | a tick that redraws without the widget of the current mode raises after the label, updating no indicator and no light |
| Timekeeping.ModeSwitchBreaksRedraw | __init__.py:94-98 | after on_start in bar mode, a LEFT that reloads display mode 2 leaves the arc global None. The next run's first redraw (59 s) pushes only the label and raises |
| Timekeeping.NinetySecondRun | __init__.py:311-338 | a 90 s run: 45 s left at 45 000 ms (50 %, green), 14 s at 76 000 ms (red), 0 later, after which ticks are idle |
| App.CountdownApp.constructor | __init__.py:18-36 | the globals at module load |
| App.CountdownApp.ResetCountdown | __init__.py:83-98 | in-place reset equal to Timekeeping.Reset: stop, reload settings, select the indexed preset, or raise when the index is outside the reloaded list |
| App.CountdownApp.Tick | __init__.py:311-338 | in-place tick equal to Timekeeping.Tick; keeps Valid |
| App.CountdownApp.Redraw | __init__.py:324-338 | the calls of one redraw equal Presentation.Render, including the failure on a missing widget; changes nothing |
| App.CountdownApp.StartRunning | __init__.py:192-200 | in-place start branch of ENTER equal to Timekeeping.StartRun |
| App.CountdownApp.StopRunning | __init__.py:201-205 | in-place stop branch of ENTER equal to Timekeeping.StopRun |
| App.CountdownApp.HandleKey | __init__.py:179-221 | in-place key handling equal to Timekeeping.HandleKey; keeps Valid |
| App.CountdownApp.SelectPreset | __init__.py:210-221 | stores the wrapped index, resets and updates the label, equal to Timekeeping.SelectPreset |
| App.CountdownApp.OnStart | __init__.py:255-300 | in-place start of the app equal to Timekeeping.OnStart. Unless the reset raised, it establishes Valid and creates the widget of the display mode |
| App.CountdownApp.OnStop | __init__.py:242-252 | corrected stop of the app equal to Timekeeping.OnStop; ends with nothing running or held |

## Left out

- LVGL widget creation, styling, screen loading, fonts, the focus group and event
  registration are left out. These are calls into the GUI toolkit. A redraw is modelled
  only as the values pushed: text, bar or arc value, and tier.
- The peripherals are foreign devices and are not driven. `set_display`, `set_color`,
  `brightness`, `acquire` and `release` become `Command` values. Holding a peripheral is
  recorded in two `Owned` flags.
- `time.ticks_ms` and `time.ticks_diff` become the `now` parameter. The millisecond
  counter's wrap-around is not modelled.
- App.CountdownApp.Tick: requires `now` not to be earlier than the run's anchor. The host
  clock is monotonic, and without this the invariant `remaining ≤ total` could not be kept.
  Timekeeping.TickPreservesValid carries the same hypothesis.
- Parsing of the settings is left out: `split(",")`, `int(...)` and its `ValueError`, and
  switch values arriving as strings. Presets are given as natural numbers (negative
  durations are not modelled), and the switches as booleans.
- The percent is computed with float division and `int()` in the source. It is modelled as
  integer floor division. The float format depends on the MicroPython build. The two agree
  while remaining·100 stays small enough for that format to separate the quotient from the
  next whole number: up to about 2^23 with 32-bit floats (presets of about 23 hours) and
  about 2^52 with 64-bit floats. Rounding beyond that is not modelled.
- Python's negative list indexing is not modelled. The index never goes below 0 (RIGHT
  wraps to the last index), so a reset treats any index outside `[0, len)` as the
  `IndexError` path.
- The `if label:` guard in `update_label` is assumed to pass: the label exists after
  `on_start`.
- Non-key events are not modelled. The handler ignores them, as it ignores keys other than
  ENTER, LEFT and RIGHT (`OtherKey`).
- `on_boot` is left out: it only stores the app manager. `get_settings_json` and `ICON` are
  packaging data. `print` calls and the commented-out ESC branch are also left out.
- Screen cleanup in `on_stop` (`scr.clean`, `del_async`) is left out. It deletes the
  widgets but leaves the `bar` and `arc` globals pointing at them. A widget made in an
  earlier session of the app is therefore modelled as still usable (`barMade`,
  `arcMade`). What the toolkit does with a deleted widget is not modelled.

## Findings

| source | as written | input that shows it | evidently intended | confidence | as-written member | corrected member |
|---|---|---|---|---|---|---|
| __init__.py:242-252 | `on_stop` calls `reset_countdown`. That sets `countdown_is_running = False` without releasing the ambient light or LED clock acquired by ENTER. The app keeps the peripheral after the countdown has stopped, and the next ENTER acquires it a second time | ambient light enabled; ENTER at 0 ms; the host stops the app while the countdown runs | release the enabled peripherals (the ENTER stop branch) before resetting, so that a peripheral is held exactly while a run is going | medium, not executed | Timekeeping.OnStopAsWrittenLeaks | Timekeeping.OnStopReleases |
