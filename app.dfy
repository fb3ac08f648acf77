/** The app as the host sees it: one object holding the countdown globals, whose handlers
    update them in place, each proved to do what the matching function of Timekeeping says. */
module App {
  import opened Presentation
  import T = Timekeeping

  class CountdownApp {
    var presets: seq<nat>
    var index: int
    var total: nat
    var remaining: nat
    var running: bool
    var startMs: int
    var startValue: nat
    var lastDisplayed: nat
    var useClock: bool
    var ambientLight: bool
    var display: int
    var ambientOwned: bool
    var clockOwned: bool
    var barMade: bool
    var arcMade: bool

    /** The globals as one value. */
    function Snapshot(): T.State
      reads this
    {
      T.State(presets, index, total, remaining, running, startMs, startValue, lastDisplayed,
              useClock, ambientLight, display, ambientOwned, clockOwned, barMade, arcMade)
    }

    predicate Valid()
      reads this
    {
      T.Valid(Snapshot())
    }

    /** Between two sessions of the app: no run going and no peripheral held. */
    predicate Idle()
      reads this
    {
      !running && !ambientOwned && !clockOwned && 0 <= index && |presets| > 0
    }

    /** Loading the module: the globals take their initial values. */
    constructor ()
      ensures Snapshot() == T.Initial() && Idle()
    {
      presets := [T.DEFAULT_REMAINDER];
      index := 0;
      total := 0;
      remaining := T.DEFAULT_REMAINDER;
      running := false;
      startMs := 0;
      startValue := 0;
      lastDisplayed := 0;
      useClock := false;
      ambientLight := true;
      display := 1;
      ambientOwned := false;
      clockOwned := false;
      barMade := false;
      arcMade := false;
    }

    /** reset_countdown. */
    method ResetCountdown(cfg: T.Config) returns (raised: bool)
      modifies this
      ensures T.Outcome(Snapshot(), [], raised) == T.Reset(old(Snapshot()), cfg)
    {
      running := false;
      presets := cfg.presets;
      if !(0 <= index < |presets|) {
        return true;
      }
      total := presets[index];
      remaining := total;
      useClock := cfg.useClock;
      ambientLight := cfg.ambientLight;
      display := cfg.display;
      raised := false;
    }

    /** on_running_foreground. */
    method Tick(now: int) returns (pushed: seq<Command>, raised: bool)
      requires Valid() && startMs <= now
      modifies this
      ensures Valid()
      ensures T.Outcome(Snapshot(), pushed, raised) == T.Tick(old(Snapshot()), now)
    {
      T.TickPreservesValid(Snapshot(), now);
      pushed, raised := [], false;
      if !running || remaining == 0 {
        return;
      }
      var elapsed := (now - startMs) / T.MS_PER_SECOND;
      remaining := T.Max0(startValue - elapsed);
      if remaining != lastDisplayed {
        lastDisplayed := remaining;
        if total == 0 {
          return [], true;
        }
        pushed, raised := Redraw();
      }
    }

    /** The redraw a tick makes: update_label, update_clock when the clock is enabled,
        update_bar or update_arc (failing when that global is still None), and
        update_ambient_color when the light is enabled. */
    method Redraw() returns (pushed: seq<Command>, raised: bool)
      requires total > 0
      ensures Presentation.Redraw(pushed, raised) == Render(remaining, total, useClock, display, T.Widget(Snapshot()), ambientLight)
    {
      var percent := Percent(remaining, total);
      var tier := Classify(percent);
      pushed := [SetText(Label(remaining))];
      if useClock {
        var slots := ClockSlots(remaining);
        if slots.None? {
          return pushed, true;
        }
        pushed := pushed + [SetClock(slots.value, FULL_BRIGHTNESS)];
      }
      if display == 1 {
        if !barMade {
          return pushed, true;
        }
        pushed := pushed + [SetBar(BarFill(percent), tier)];
      } else {
        if !arcMade {
          return pushed, true;
        }
        pushed := pushed + [SetArc(percent, tier)];
      }
      if ambientLight {
        pushed := pushed + [SetAmbient(AmbientColor(tier), FULL_BRIGHTNESS)];
      }
      raised := false;
    }

    /** The start branch of ENTER. */
    method StartRunning(now: int) returns (pushed: seq<Command>)
      requires !running
      modifies this
      ensures T.Outcome(Snapshot(), pushed, false) == T.StartRun(old(Snapshot()), now)
    {
      running := true;
      startMs := now;
      lastDisplayed := remaining;
      startValue := remaining;
      pushed := [];
      if ambientLight {
        ambientOwned := true;
        pushed := pushed + [Acquire(AmbientLight)];
      }
      if useClock {
        clockOwned := true;
        pushed := pushed + [Acquire(LedClock)];
      }
    }

    /** The stop branch of ENTER. */
    method StopRunning() returns (pushed: seq<Command>)
      requires running
      modifies this
      ensures T.Outcome(Snapshot(), pushed, false) == T.StopRun(old(Snapshot()))
    {
      running := false;
      pushed := [];
      if useClock {
        clockOwned := false;
        pushed := pushed + [Release(LedClock)];
      }
      if ambientLight {
        ambientOwned := false;
        pushed := pushed + [Release(AmbientLight)];
      }
    }

    /** event_handler for a key event. */
    method HandleKey(key: T.Key, now: int, cfg: T.Config) returns (pushed: seq<Command>, raised: bool)
      requires Valid() && T.ConfigOk(cfg)
      modifies this
      ensures Valid()
      ensures T.Outcome(Snapshot(), pushed, raised) == T.HandleKey(old(Snapshot()), key, now, cfg)
    {
      T.KeyDeviceCallsPaired(Snapshot(), key, now, cfg, AmbientLight);
      pushed, raised := [], false;
      if key == T.Enter {
        if running {
          pushed := StopRunning();
        } else {
          pushed := StartRunning(now);
        }
        return;
      }
      if !running {
        if key == T.Left {
          var next := index + 1;
          if next >= |presets| {
            next := 0;
          }
          pushed, raised := SelectPreset(next, cfg);
        }
        if key == T.Right {
          var previous := index - 1;
          if previous < 0 {
            previous := |presets| - 1;
          }
          pushed, raised := SelectPreset(previous, cfg);
        }
      }
    }

    /** Store the new index, reset_countdown, then update_label. */
    method SelectPreset(i: int, cfg: T.Config) returns (pushed: seq<Command>, raised: bool)
      modifies this
      ensures T.Outcome(Snapshot(), pushed, raised) == T.SelectPreset(old(Snapshot()), i, cfg)
    {
      index := i;
      pushed := [];
      raised := ResetCountdown(cfg);
      if !raised {
        pushed := [SetText(Label(remaining))];
      }
    }

    /** on_start: reset, create the widget of the display mode, and draw the label and a
        full indicator. */
    method OnStart(cfg: T.Config) returns (pushed: seq<Command>, raised: bool)
      requires Idle() && T.ConfigOk(cfg)
      modifies this
      ensures Idle() && (!raised ==> Valid() && T.Widget(Snapshot()))
      ensures T.Outcome(Snapshot(), pushed, raised) == T.OnStart(old(Snapshot()), cfg)
    {
      pushed := [];
      raised := ResetCountdown(cfg);
      if raised {
        return;
      }
      if display == 1 {
        barMade := true;
      } else {
        arcMade := true;
      }
      pushed := [SetText(Label(remaining))];
      if display == 1 {
        pushed := pushed + [SetBar(BarFill(100), Classify(100))];
      } else {
        pushed := pushed + [SetArc(100, Classify(100))];
      }
    }

    /** on_stop, releasing what a run still holds before the reset. */
    method OnStop(cfg: T.Config) returns (pushed: seq<Command>, raised: bool)
      requires (Valid() || Idle()) && T.ConfigOk(cfg)
      modifies this
      ensures Idle() && (old(Valid()) ==> Valid())
      ensures T.Outcome(Snapshot(), pushed, raised) == T.OnStop(old(Snapshot()), cfg)
    {
      pushed := [];
      if running {
        pushed := StopRunning();
      }
      raised := ResetCountdown(cfg);
    }
  }
}
