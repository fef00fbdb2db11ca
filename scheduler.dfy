/**
 * The calendar's main loop and button: the hourly tick that prints the day's
 * microseason once, the persisted number of the last season printed, the
 * debounced button that reprints it, and the sleep until the next hour.
 */
module Scheduler {
  import opened Wrappers
  import opened Seasons
  import opened EscPos
  import opened Render

  /** The tick prints at this hour of the day or later. */
  const PrintHour: int := 9
  /** A button press closer than this many milliseconds to the last accepted one is ignored. */
  const DebounceMs: int := 1000

  // ---------------------------------------------------------------------
  // The hourly tick, as a value.

  /** One effect of a tick, in the order the tick performs them. */
  datatype Step = StoreSeason(number: int) | PrintSeason(season: Season)

  /** The effects of one tick and the store it leaves behind. */
  datatype TickOutcome = TickOutcome(steps: seq<Step>, stored: Option<int>)

  /**
   * `load_current_season()`: the stored number, or None when the read
   * raises OSError (`readOk` false).
   */
  function Loaded(stored: Option<int>, readOk: bool): Option<int>
  {
    if readOk then stored else None
  }

  /**
   * `store_current_season(ms)`: the number is written, or the old content
   * stays when the write raises OSError (`writeOk` false).
   */
  function Stored(stored: Option<int>, number: int, writeOk: bool): Option<int>
  {
    if writeOk then Some(number) else stored
  }

  /** The condition the tick tests: a season was found, it is 9 o'clock or later, and its number is not the one read back. */
  predicate PrintsToday(today: Option<Season>, hour: int, loaded: Option<int>)
  {
    today.Some? && hour >= PrintHour && Some(today.value.number) != loaded
  }

  /** One pass of the main loop, up to the sleep: look up today's season, compare, store, print. */
  function Tick(stored: Option<int>, seasons: seq<Season>, month: nat, day: nat, hour: int, readOk: bool, writeOk: bool): (o: TickOutcome)
    ensures o.steps == [] ==> o.stored == stored
    ensures |Printed(o.steps)| <= 1
  {
    var today := Lookup(seasons, month, day);
    if PrintsToday(today, hour, Loaded(stored, readOk)) then
      TickOutcome([StoreSeason(today.value.number), PrintSeason(today.value)],
                  Stored(stored, today.value.number, writeOk))
    else
      TickOutcome([], stored)
  }

  /** The season one step prints, if it prints one. */
  function PrintedBy(step: Step): seq<Season>
  {
    if step.PrintSeason? then [step.season] else []
  }

  /** The seasons a run of steps prints, in order. */
  function Printed(steps: seq<Step>): (r: seq<Season>)
    ensures |r| <= |steps|
  {
    if steps == [] then [] else PrintedBy(steps[0]) + Printed(steps[1..])
  }

  /**
   * A tick prints exactly when a season is found for the date, the hour is at
   * least 9 and the stored number, as read, differs from the season's; and
   * when it prints, it first stores the number and then prints that season.
   */
  lemma TickPrintsIff(stored: Option<int>, seasons: seq<Season>, month: nat, day: nat, hour: int, readOk: bool, writeOk: bool)
    ensures var o := Tick(stored, seasons, month, day, hour, readOk, writeOk);
      var today := Lookup(seasons, month, day);
      (|Printed(o.steps)| == 1 <==> today.Some? && hour >= 9 && Some(today.value.number) != Loaded(stored, readOk)) &&
      (Printed(o.steps) == [] <==> !(today.Some? && hour >= 9 && Some(today.value.number) != Loaded(stored, readOk))) &&
      (o.steps != [] ==> o.steps == [StoreSeason(today.value.number), PrintSeason(today.value)])
  {
    var o := Tick(stored, seasons, month, day, hour, readOk, writeOk);
    if o.steps != [] {
      assert o.steps[1..] == [o.steps[1]];
      assert Printed(o.steps[1..]) == PrintedBy(o.steps[1]) + Printed([]);
    }
  }

  /** Nothing is printed, and nothing stored, when no season is found or before 9 o'clock. */
  lemma NoPrintBeforeNineOrWithoutSeason(stored: Option<int>, seasons: seq<Season>, month: nat, day: nat, hour: int, readOk: bool, writeOk: bool)
    requires Lookup(seasons, month, day).None? || hour < 9
    ensures Tick(stored, seasons, month, day, hour, readOk, writeOk) == TickOutcome([], stored)
  {
  }

  /**
   * Once a tick has printed season `n` and stored its number, a later tick
   * that finds a season numbered `n` prints nothing, whatever the hour.
   */
  lemma TickIdempotent(stored: Option<int>, seasons: seq<Season>, month: nat, day: nat, hour: int, readOk: bool,
                       seasons': seq<Season>, month': nat, day': nat, hour': int, writeOk': bool)
    requires var o := Tick(stored, seasons, month, day, hour, readOk, true); o.steps != []
    requires var o := Tick(stored, seasons, month, day, hour, readOk, true);
      Lookup(seasons', month', day').Some? && Lookup(seasons', month', day').value.number == Lookup(seasons, month, day).value.number
    ensures var o := Tick(stored, seasons, month, day, hour, readOk, true);
      Tick(o.stored, seasons', month', day', hour', true, writeOk').steps == []
  {
  }

  /**
   * A failed read makes every eligible tick print, so a broken store never
   * suppresses the receipt; a failed write keeps the old number, so the next
   * tick that reads it prints again.
   */
  lemma ReadFailurePrints(stored: Option<int>, seasons: seq<Season>, month: nat, day: nat, hour: int, writeOk: bool)
    requires Lookup(seasons, month, day).Some? && hour >= 9
    ensures Tick(stored, seasons, month, day, hour, false, writeOk).steps != []
  {
  }

  lemma WriteFailureRetries(stored: Option<int>, seasons: seq<Season>, month: nat, day: nat, hour: int)
    requires Tick(stored, seasons, month, day, hour, true, false).steps != []
    ensures Tick(stored, seasons, month, day, hour, true, false).stored == stored
    ensures Tick(Tick(stored, seasons, month, day, hour, true, false).stored, seasons, month, day, hour, true, true).steps != []
  {
  }

  /** The inputs a tick reads from the clock and the store. */
  datatype TickInput = TickInput(month: nat, day: nat, hour: int, readOk: bool, writeOk: bool)

  /** Ticks one after another, each starting from the store the previous one left. */
  function Run(stored: Option<int>, seasons: seq<Season>, ins: seq<TickInput>): (o: TickOutcome)
    ensures |Printed(o.steps)| <= |ins|
    decreases |ins|
  {
    if ins == [] then TickOutcome([], stored)
    else
      var t := Tick(stored, seasons, ins[0].month, ins[0].day, ins[0].hour, ins[0].readOk, ins[0].writeOk);
      var rest := Run(t.stored, seasons, ins[1..]);
      PrintedAppend(t.steps, rest.steps);
      TickOutcome(t.steps + rest.steps, rest.stored)
  }

  lemma {:induction false} PrintedAppend(a: seq<Step>, b: seq<Step>)
    ensures Printed(a + b) == Printed(a) + Printed(b)
  {
    if a == [] {
      assert a + b == b;
    } else {
      assert (a + b)[0] == a[0] && (a + b)[1..] == a[1..] + b;
      PrintedAppend(a[1..], b);
      calc {
        Printed(a + b);
        PrintedBy(a[0]) + Printed(a[1..] + b);
        PrintedBy(a[0]) + (Printed(a[1..]) + Printed(b));
        (PrintedBy(a[0]) + Printed(a[1..])) + Printed(b);
      }
    }
  }

  /** Every tick of the run finds a season numbered `n`, and the store works. */
  predicate SameSeasonReliably(seasons: seq<Season>, ins: seq<TickInput>, n: int)
  {
    forall i :: 0 <= i < |ins| ==>
      ins[i].readOk && ins[i].writeOk &&
      Lookup(seasons, ins[i].month, ins[i].day).Some? && Lookup(seasons, ins[i].month, ins[i].day).value.number == n
  }

  /**
   * However many hourly ticks fall within one microseason, while the store
   * works it is printed at most once, and not at all when its number is
   * already stored.
   */
  lemma {:induction false} OncePerSeason(stored: Option<int>, seasons: seq<Season>, ins: seq<TickInput>, n: int)
    requires SameSeasonReliably(seasons, ins, n)
    ensures |Printed(Run(stored, seasons, ins).steps)| <= 1
    ensures stored == Some(n) ==> Printed(Run(stored, seasons, ins).steps) == []
    decreases |ins|
  {
    if ins != [] {
      var i := ins[0];
      var t := Tick(stored, seasons, i.month, i.day, i.hour, i.readOk, i.writeOk);
      assert SameSeasonReliably(seasons, ins[1..], n) by {
        forall k | 0 <= k < |ins[1..]| ensures ins[1..][k] == ins[k + 1] { }
      }
      OncePerSeason(t.stored, seasons, ins[1..], n);
      TickPrintsIff(stored, seasons, i.month, i.day, i.hour, i.readOk, i.writeOk);
      PrintedAppend(t.steps, Run(t.stored, seasons, ins[1..]).steps);
    }
  }

  /** `(60 * (60 - minute)) - second`: the seconds left until the top of the next hour. */
  function SleepSeconds(minute: int, second: int): (r: int)
    ensures minute * 60 + second + r == 3600
    ensures 0 <= minute < 60 && 0 <= second < 60 ==> 1 <= r <= 3600
  {
    (60 * (60 - minute)) - second
  }

  // ---------------------------------------------------------------------
  // The button's debounce, as a value.

  /** The test in `button_pressed`: more than 1000 ms since the last accepted press. */
  predicate Accepts(lastPressTime: int, now: int)
  {
    now - lastPressTime > DebounceMs
  }

  /** `r` is `s` with some elements left out, the rest kept in order. */
  predicate IsSubsequence(r: seq<int>, s: seq<int>)
    decreases |s|
  {
    r == [] || (s != [] && ((r[0] == s[0] && IsSubsequence(r[1..], s[1..])) || IsSubsequence(r, s[1..])))
  }

  /** The presses, at the given tick counts, that `button_pressed` accepts, starting from `lastPressTime`. */
  function AcceptedPresses(lastPressTime: int, times: seq<int>): (r: seq<int>)
    ensures |r| <= |times|
    ensures forall t :: t in r ==> t in times
    ensures IsSubsequence(r, times)
    decreases |times|
  {
    if times == [] then []
    else if Accepts(lastPressTime, times[0]) then [times[0]] + AcceptedPresses(times[0], times[1..])
    else AcceptedPresses(lastPressTime, times[1..])
  }

  /** Accepted presses are more than 1000 ms after the previous accepted one, the first after `lastPressTime`. */
  lemma {:induction false} AcceptedSpacing(lastPressTime: int, times: seq<int>)
    ensures var r := AcceptedPresses(lastPressTime, times);
      (r != [] ==> r[0] - lastPressTime > 1000) &&
      forall i :: 0 <= i < |r| - 1 ==> r[i + 1] - r[i] > 1000
    decreases |times|
  {
    if times != [] {
      if Accepts(lastPressTime, times[0]) {
        AcceptedSpacing(times[0], times[1..]);
      } else {
        AcceptedSpacing(lastPressTime, times[1..]);
      }
    }
  }

  /** Presses each more than 1000 ms after the one before are all accepted. */
  lemma {:induction false} SpacedPressesAccepted(lastPressTime: int, times: seq<int>)
    requires times != [] ==> times[0] - lastPressTime > 1000
    requires forall i :: 0 <= i < |times| - 1 ==> times[i + 1] - times[i] > 1000
    ensures AcceptedPresses(lastPressTime, times) == times
    decreases |times|
  {
    if times != [] {
      SpacedPressesAccepted(times[0], times[1..]);
    }
  }

  /** Two presses 100 ms apart print once; two presses 1100 ms apart print twice. */
  lemma DebounceExamples()
    ensures AcceptedPresses(0, [5000, 5100]) == [5000]
    ensures AcceptedPresses(0, [5000, 6100]) == [5000, 6100]
  {
  }

  // ---------------------------------------------------------------------
  // The device: the store file, the button's state and the printer.

  /** `setup_printer()`: a reset, then ESC '9' 1 for the Japanese character set. */
  method SetupPrinter() returns (printer: Printer)
    ensures fresh(printer)
    ensures printer.log == [Emit(Reset), Emit(SendCommand(JapaneseCharsetIntended))]
    ensures printer.log == [Uart([0x1B, 0x40]), Uart([0x1B, 0x39, 0x01])]
  {
    printer := new Printer();
    printer.Reset();
    printer.SendCommand(JapaneseCharsetIntended);
    JapaneseCharsetIntendedBytes();
  }

  /** The global state of the running script. */
  class Device {
    /** The number in current_season.txt; None when the file does not exist. */
    var stored: Option<int>
    /** `last_press_time`. */
    var lastPressTime: int
    const printer: Printer
    /** The printer's output at the moment of the last write to the store. */
    ghost var logAtStore: seq<Write>

    constructor (printer: Printer, stored: Option<int>)
      ensures this.printer == printer && this.stored == stored && lastPressTime == 0
    {
      this.printer := printer;
      this.stored := stored;
      lastPressTime := 0;
      logAtStore := [];
    }

    /** `load_current_season()`. */
    method LoadCurrentSeason(readOk: bool) returns (r: Option<int>)
      ensures r == Loaded(stored, readOk)
      ensures readOk ==> r == stored
      ensures !readOk ==> r.None?
    {
      if readOk {
        r := stored;
      } else {
        r := None;
      }
    }

    /** `store_current_season(ms)`. */
    method StoreCurrentSeason(number: int, writeOk: bool)
      modifies this
      ensures stored == Stored(old(stored), number, writeOk)
      ensures logAtStore == printer.log
      ensures lastPressTime == old(lastPressTime)
    {
      if writeOk {
        stored := Some(number);
      }
      logAtStore := printer.log;
    }

    /** The tick needs only the season it prints to be printable. */
    predicate CanTick(seasons: seq<Season>, month: nat, day: nat, hour: int, readOk: bool)
      reads this
    {
      var today := Lookup(seasons, month, day);
      PrintsToday(today, hour, Loaded(stored, readOk)) ==> Printable(today.value)
    }

    /** The body of the main loop, from the lookup to the print. */
    method RunTick(seasons: seq<Season>, month: nat, day: nat, hour: int, readOk: bool, writeOk: bool) returns (printed: bool)
      requires CanTick(seasons, month, day, hour, readOk)
      modifies this, printer
      ensures var o := Tick(old(stored), seasons, month, day, hour, readOk, writeOk);
        stored == o.stored && printed == (o.steps != []) &&
        printer.log == old(printer.log) + (if printed then EmitAll(Receipt(Lookup(seasons, month, day).value)) else [])
      ensures printed ==> logAtStore == old(printer.log)
      ensures !printed ==> logAtStore == old(logAtStore)
      ensures lastPressTime == old(lastPressTime)
    {
      printed := false;
      var today := GetMicroseasonForDate(seasons, month, day);
      if today.Some? && hour >= PrintHour {
        var loaded := LoadCurrentSeason(readOk);
        if Some(today.value.number) != loaded {
          StoreCurrentSeason(today.value.number, writeOk);
          PrintMicroseason(printer, today.value);
          printed := true;
        }
      }
    }

    /** The press is accepted only when the season it would print exists and can be printed. */
    predicate CanPress(now: int, seasons: seq<Season>, month: nat, day: nat)
      reads this
    {
      Accepts(lastPressTime, now) ==> Lookup(seasons, month, day).Some? && Printable(Lookup(seasons, month, day).value)
    }

    /** `button_pressed(pin)`, with the tick count and the date passed in. */
    method ButtonPressed(now: int, seasons: seq<Season>, month: nat, day: nat) returns (accepted: bool)
      requires CanPress(now, seasons, month, day)
      modifies this, printer
      ensures accepted == Accepts(old(lastPressTime), now)
      ensures lastPressTime == (if accepted then now else old(lastPressTime))
      ensures stored == old(stored) && logAtStore == old(logAtStore)
      ensures printer.log == old(printer.log) + (if accepted then EmitAll(Receipt(Lookup(seasons, month, day).value)) else [])
    {
      accepted := false;
      if now - lastPressTime > DebounceMs {
        accepted := true;
        lastPressTime := now;
        var today := GetMicroseasonForDate(seasons, month, day);
        PrintMicroseason(printer, today.value);
      }
    }
  }
}
