# Kō microseason calendar, modelled in Dafny

The calendar is a MicroPython script on a small board wired to a GY-EP204X
thermal printer. Every hour it finds which of the 72 Kō microseasons today
falls in. From 9 o'clock on it prints that season's receipt once. To do this
it remembers the number of the last season it printed in a one-line file. A
push button reprints today's receipt. The button ignores presses that come
within a second of the last accepted one.

This project models the script's core and proves what it does:

- `Wrappers` holds the optional value Python writes as `None`.
- `Utf8` models how a Python `str` becomes bytes on the printer's serial line (UTF-8).
- `PyStr` models Python's string ordering, `str(n)`, `int(s)` and `f"{n:02d}"` as far as the script uses them.
- `EscPos` models the `GY_EP204X` driver. The `Printer` class keeps `log`, the ordered list of everything written to the UART. Each driver method appends its one ESC/POS command to it. `Emit` and `EmitAll` say which bytes a call, or a run of calls, writes.
- `Seasons` models the season record and `get_microseason_for_date`. The search is the function `Lookup` plus the looping method `GetMicroseasonForDate` proved equal to it. It also models `de_accent`.
- `Render` models `print_microseason` and `print_multiple`. The receipt is a fixed run of 17 driver calls (`Receipt`/`Layout`). A style model tracks justification, character size and bold along that run. The two printing methods are proved to write exactly `EmitAll` of the receipts they stand for.
- `Scheduler` models four things:
  - the hourly tick of `main`, as a value (`Tick`, `Run`) and as a method on the `Device` class;
  - the stored season number;
  - the button debounce (`AcceptedPresses`, `Device.ButtonPressed`);
  - the sleep until the next hour.

The clock, the button's tick counter and the result of each file operation are passed in as parameters. `readOk` and `writeOk` are false when the read or the write raises `OSError`.

## Model

| member | source | states |
|---|---|---|
| Utf8.EncodeAscii | gy_ep204x.py:9-11 | a command string below 0x80 goes out one byte per character, each byte the character's code |
| Utf8.EncodeAppend | gy_ep204x.py:13-15 | the bytes of a concatenation are the concatenation of the bytes |
| Utf8.DecodeEncode | gy_ep204x.py:13-15 | decoding what `print` writes gives the text back, so distinct texts never share bytes |
| PyStr.Lt | ko-calendar.py:99 | definition of Python's `<` on strings: the first differing code point decides, a proper prefix is smaller; its order properties are the lemmas below |
| PyStr.Le | ko-calendar.py:99 | definition of Python's `<=` on strings: equal or less |
| PyStr.LtIrreflexive | ko-calendar.py:99 | no string is less than itself under Python's ordering |
| PyStr.LtAsymmetric | ko-calendar.py:99 | a < b excludes b < a |
| PyStr.LtTransitive | ko-calendar.py:99 | a < b and b < c give a < c |
| PyStr.LtTotal | ko-calendar.py:99 | any two strings are equal or ordered one way |
| PyStr.LtConcat | ko-calendar.py:97-99 | strings whose heads have equal length compare by head, then by tail |
| PyStr.DecimalString | ko-calendar.py:72 | `str(n)` is a non-empty run of digits, one digit exactly when n < 10 |
| PyStr.DigitsValueOfDecimal | ko-calendar.py:69-83 | `int(str(n)) == n`: the number written to the store file reads back unchanged |
| PyStr.Pad2 | ko-calendar.py:97 | `f"{n:02d}"` is at least two digits, exactly two below 100 |
| PyStr.DigitsValue | ko-calendar.py:79 | definition of `int(s)` for a string of decimal digits; `DigitsValueOfDecimal` and `Pad2Value` state its round trips |
| PyStr.Pad2Digits | ko-calendar.py:97 | below 100, `:02d` writes exactly the tens digit and the units digit |
| PyStr.Pad2Value | ko-calendar.py:97 | below 100, `int(f"{n:02d}") == n` |
| PyStr.Pad2Order | ko-calendar.py:97 | below 100, padded numbers compare as strings as they compare as numbers |
| EscPos.Emit | gy_ep204x.py:9-61 | definition of what each driver method writes: the UTF-8 bytes of its command string, or the marker for the line-wrapping call; the bytes themselves are stated by `FixedCommandBytes`, `SizeCommandBytes`, `FeedBytes` and `FeedCountByte` |
| EscPos.EmitAll | gy_ep204x.py:9-15 | a run of driver calls writes one UART write per call |
| EscPos.EmitAllAt | gy_ep204x.py:9-15 | the i-th write is what the i-th call writes |
| EscPos.EmitAllAppend | gy_ep204x.py:9-15 | the writes of two runs of calls are the writes of the first followed by those of the second |
| EscPos.FixedCommandBytes | gy_ep204x.py:33-61 | center justify is 1B 61 01, bold on 1B 47 01, bold off 1B 47 00, reset 1B 40 |
| EscPos.SizeCommandBytes | gy_ep204x.py:36-55 | each size setter sends 1D 21 n with n = 01, 10, 11, 22 or 00 |
| EscPos.FeedBytes | gy_ep204x.py:21-31 | below 0x80, `feed(n)` sends 1B 64 n and `feed_rows(n)` sends 1B 4A n |
| EscPos.FeedCountByte | gy_ep204x.py:21-24 | `feed(n)` is three bytes exactly when n < 0x80; from 0x80 on, the count goes out as a two-byte UTF-8 sequence |
| EscPos.FeedTwoHundred | gy_ep204x.py:21-24 | `feed(200)` writes 1B 64 C3 88 |
| EscPos.FeedIntended | gy_ep204x.py:21-24 | the intended feed command carries the count as one byte for every allowed count, and matches the driver below 0x80 |
| EscPos.JapaneseCharsetBytes | gy_ep204x.py:57-58 | `set_japanese_charset` sends ten bytes, ESC '9' and the literal text `{chr(1)}`, not what `setup_printer` sends |
| EscPos.JapaneseCharsetIntendedBytes | ko-calendar.py:51 | ESC '9' chr(1) goes out as 1B 39 01 |
| EscPos.Printer.constructor | gy_ep204x.py:5-7 | a new driver has written nothing |
| EscPos.Printer.SendCommand | gy_ep204x.py:9-11 | appends the command's bytes to the UART output and changes nothing before it |
| EscPos.Printer.Print | gy_ep204x.py:13-15 | appends the UTF-8 bytes of the text |
| EscPos.Printer.PrintWithBreaks | ko-calendar.py:109 | appends one marker carrying the text and the line length |
| EscPos.Printer.Feed | gy_ep204x.py:21-25 | requires 0 <= lines <= 255; appends its command, which is 1B 64 n below 0x80 |
| EscPos.Printer.FeedRows | gy_ep204x.py:27-31 | requires 0 <= rows <= 255; appends its command, which is 1B 4A n below 0x80 |
| EscPos.Printer.CenterJustify | gy_ep204x.py:33-34 | appends 1B 61 01 |
| EscPos.Printer.DoubleHeight | gy_ep204x.py:36-37 | appends 1D 21 01 |
| EscPos.Printer.DoubleWidth | gy_ep204x.py:39-40 | appends 1D 21 10 |
| EscPos.Printer.DoubleHeightWidth | gy_ep204x.py:42-43 | appends 1D 21 11 |
| EscPos.Printer.TripleHeightWidth | gy_ep204x.py:45-46 | appends 1D 21 22 |
| EscPos.Printer.Bold | gy_ep204x.py:48-52 | appends 1B 47 01 when enabled, 1B 47 00 otherwise |
| EscPos.Printer.NormalSize | gy_ep204x.py:54-55 | appends 1D 21 00 |
| EscPos.Printer.SetJapaneseCharset | gy_ep204x.py:57-58 | appends 1B 39 followed by the bytes of `{chr(1)}` |
| EscPos.Printer.Reset | gy_ep204x.py:60-61 | appends 1B 40 |
| Seasons.FormatDate | ko-calendar.py:97 | below 100, the date is five characters with the '-' in the middle |
| Seasons.Matches | ko-calendar.py:99 | definition of the chained test `start <= date_str <= end` on strings; `MatchesAsDates` states it as a date range |
| Seasons.FirstMatch | ko-calendar.py:95-101 | None exactly when no season's range holds the date; otherwise the first season in list order whose range holds it |
| Seasons.Lookup | ko-calendar.py:95-101 | the season found is in the list and its range holds the zero-padded date; None exactly when no season's range holds it |
| Seasons.FormatDateInjective | ko-calendar.py:97 | below 100, different dates are written differently |
| Seasons.FirstMatchAt | ko-calendar.py:98-100 | whichever index is the first match, that season is returned |
| Seasons.GetMicroseasonForDate | ko-calendar.py:95-101 | the loop returns `Lookup` of the zero-padded "MM-DD" date |
| Seasons.FormatDateOrder | ko-calendar.py:97-99 | below 100, "MM-DD" strings are equal iff the dates are, and compare as (month, day) pairs |
| Seasons.MatchesAsDates | ko-calendar.py:97-99 | for bounds written the same way, a season matches iff start <= (month, day) <= end as dates |
| Seasons.InvertedRangeNeverMatches | ko-calendar.py:99 | a season whose end sorts before its start matches no date |
| Seasons.WrappingRangeNeverMatches | ko-calendar.py:99 | a range meant to wrap the year end, such as 12-20 to 01-10, matches nothing |
| Seasons.Substitute | ko-calendar.py:89 | `re.sub` over a character class keeps the length and replaces exactly the class's members |
| Seasons.ReplaceChain | ko-calendar.py:89-93 | the five substitutions in order take a character to its base vowel |
| Seasons.DeAccent | ko-calendar.py:85-93 | keeps the length; each character becomes its base vowel |
| Seasons.DeAccentCharacters | ko-calendar.py:85-93 | no listed accented vowel survives, and every other character is kept |
| Seasons.DeAccentIdempotent | ko-calendar.py:85-93 | de-accenting twice is de-accenting once |
| Seasons.DeAccentKeepsCapital | ko-calendar.py:86-87 | "KŌō" becomes "KŌo": nothing is lowercased, and the capital Ō is in no listed set |
| Render.MonthName | ko-calendar.py:22-24 | `month_names[i]` for i below 12, a three-letter name |
| Render.MonthNamesDistinct | ko-calendar.py:22-24 | the twelve names are pairwise different |
| Render.DateLine | ko-calendar.py:119 | definition of the date line as written; `DateLineNamesNextMonth` states what it prints |
| Render.DateLineIntended | ko-calendar.py:119 | definition of the corrected date line; `DateLineIntendedNamesDates` states what it prints |
| Render.FormatDateFields | ko-calendar.py:119 | `int(s[:2])` and `int(s[3:])` of a formatted date give back its month and day |
| Render.DateLineNamesNextMonth | ko-calendar.py:119 | as written, the date line names month m+1 for a season in month m |
| Render.DateLineJanuary | ko-calendar.py:119 | as written, a January season is printed with "Feb" |
| Render.DateLineIntendedNamesDates | ko-calendar.py:119 | the corrected date line names the season's own months, 1 to 12 |
| Render.DateLineIntendedExamples | ko-calendar.py:119 | corrected, January prints "Jan" and December prints "Dec", while a December season cannot be printed as written |
| Render.Receipt | ko-calendar.py:104-121 | the 17 driver calls of one receipt, every feed within the driver's bound |
| Render.Layout | ko-calendar.py:104-121 | every feed in the receipt is within the driver's 0..255 bound |
| Render.BannerBytes | ko-calendar.py:106 | the rule is 32 bytes 0x3D and a newline |
| Render.LayoutAt | ko-calendar.py:104-121 | the receipt is the 17 calls center, rule, double size, bold on, name at 16, bold off, feed 1, triple size, kanji, normal, feed 1, romaji at 32, normal, feed rows 6, date line, rule, blank line |
| Render.ReceiptStyles | ko-calendar.py:104-121 | from any prior setting, the name prints centred, bold, double size; the kanji triple size, not bold; romaji and dates normal size; the printer ends centred, normal size, not bold |
| Render.PrintMicroseason | ko-calendar.py:104-121 | the printer's output grows by exactly the receipt's writes |
| Render.WithNumber | ko-calendar.py:125-127 | the inner loop selects exactly the seasons with the number, and no more entries than the list has |
| Render.Selected | ko-calendar.py:123-127 | a season is printed iff it is in the list and its number is requested |
| Render.ReceiptsAppend | ko-calendar.py:123-127 | printing two runs of seasons is printing their concatenation |
| Render.WithNumberUnique | ko-calendar.py:125-127 | with unique numbers, a number selects one entry when it has one and none otherwise |
| Render.SelectedInOrder | ko-calendar.py:123-127 | with unique numbers all present, exactly one season per requested number is printed, in the order requested |
| Render.PrintNumber | ko-calendar.py:125-127 | the inner loop writes the receipts of every season with that number, in list order |
| Render.PrintMultiple | ko-calendar.py:123-127 | the output grows by the receipts of the selected seasons, number by number |
| Scheduler.Loaded | ko-calendar.py:76-83 | definition of what `load_current_season` returns: the stored number, or None when the read fails |
| Scheduler.Stored | ko-calendar.py:69-74 | definition of the store after `store_current_season`: the number, or the old content when the write fails |
| Scheduler.Tick | ko-calendar.py:166-173 | one pass of the main loop: it prints at most one season, and a pass that does nothing leaves the store as it was |
| Scheduler.Run | ko-calendar.py:159-179 | passes one after another, each from the store the last one left: no more seasons printed than passes |
| Scheduler.TickPrintsIff | ko-calendar.py:166-173 | a tick prints iff a season is found, the hour is at least 9 and the stored number differs; when it prints, it stores first, then prints that season |
| Scheduler.NoPrintBeforeNineOrWithoutSeason | ko-calendar.py:167 | with no season or before 9, a tick does nothing and the store is unchanged |
| Scheduler.TickIdempotent | ko-calendar.py:168-173 | after a tick printed and stored season n, a later tick that finds n prints nothing |
| Scheduler.ReadFailurePrints | ko-calendar.py:76-83 | when the read fails, every eligible tick prints |
| Scheduler.WriteFailureRetries | ko-calendar.py:69-74 | a failed write keeps the old number, so the next tick prints again |
| Scheduler.OncePerSeason | ko-calendar.py:166-173 | while the store works, any number of ticks within one season print it at most once, and never when it is already stored |
| Scheduler.SleepSeconds | ko-calendar.py:179 | the sleep ends at the top of the next hour: 1 to 3600 seconds |
| Scheduler.Accepts | ko-calendar.py:133 | definition of the debounce test: more than 1000 ms since the last accepted press |
| Scheduler.AcceptedPresses | ko-calendar.py:130-137 | the accepted presses are a subsequence of the presses, in their original order (`IsSubsequence`), and no more of them |
| Scheduler.AcceptedSpacing | ko-calendar.py:133-135 | each accepted press is more than 1000 ms after the previous accepted one |
| Scheduler.SpacedPressesAccepted | ko-calendar.py:133-135 | presses each more than 1000 ms after the last are all accepted |
| Scheduler.DebounceExamples | ko-calendar.py:133 | presses 100 ms apart print once, 1100 ms apart twice |
| Scheduler.SetupPrinter | ko-calendar.py:48-52 | a fresh printer that has written 1B 40 and then 1B 39 01 |
| Scheduler.Device.constructor | ko-calendar.py:129 | no press accepted yet: `last_press_time` is 0 |
| Scheduler.Device.LoadCurrentSeason | ko-calendar.py:76-83 | the stored number, or None when the read fails |
| Scheduler.Device.StoreCurrentSeason | ko-calendar.py:69-74 | the store holds the number, or is unchanged when the write fails; the moment of the write is recorded against the printer's output |
| Scheduler.Device.RunTick | ko-calendar.py:166-173 | store and printer output change exactly as `Tick` says; when it prints, the store was written while the output was still as before the tick, that is, before any byte of the receipt |
| Scheduler.Device.ButtonPressed | ko-calendar.py:130-137 | a press is accepted iff more than 1000 ms after the last accepted one; only then is `last_press_time` updated and today's receipt printed |

## Left out

- Wi-Fi association, its retry loop and the board reset, NTP time setting, and console output: network I/O and logging.
- Reading `microseasons.json` and `list_microseasons`: the season list is an input sequence of records. The main loop reloads it every hour; the model passes the list to each tick.
- The `main` loop's infinite repetition and the sleep itself: one pass is `Tick`, a run of passes is `Run`, and `SleepSeconds` is the computed duration.
- The button's pin and interrupt registration: `button_pressed` is a method called with the current tick count. The model runs each button press between ticks, never in the middle of a tick's `print_microseason`. On the board the interrupt handler can run there: the source has no mutual exclusion, so two receipts' bytes can interleave on the UART. The model does not capture that interleaving.
- `time.ticks_ms` wrap-around: tick counts are unbounded integers.
- The `time.sleep` pauses in `feed` and `feed_rows`, and `_set_timeout`: timing only, in floating point.
- Constructing and configuring the UART: hardware.
- `print_with_breaks`: the driver does not define it, so the model records its text and line length and does not invent a line-wrapping algorithm.
- The store file's text: the store is the number it holds. `PyStr.DigitsValueOfDecimal` shows that `int(str(n))` gives `n` back for season numbers. Contents that are not a number would raise an uncaught `ValueError` on reading; that case is not modelled.
- The first `load_current_season()` call in `main`: its result is discarded. A tick uses one `readOk` for both reads.
- Render.PrintMicroseason: requires `Printable`. `print_microseason` raises IndexError for a season starting or ending in December, and fails on malformed bounds. The model excludes those inputs instead of modelling the exception.
- Scheduler.Device.ButtonPressed: requires that today has a printable season. With no season, the source passes `None` to `print_microseason` and raises.
- Scheduler.Device.RunTick: requires a printable season only when it prints, for the same reason.
- Seasons.DeAccent: models `re.sub` with a character class as matching whole characters, which is what CPython does. MicroPython's `re` engine matches a class byte by byte over the UTF-8 form, so on the board a two-byte vowel such as ō may be replaced byte-wise, turning one character into two or leaving a stray byte. The length-preserving contract and `DeAccentKeepsCapital` hold for character-level matching only. `de_accent` is reached only through `list_microseasons`, whose call in `main` is commented out.
- Render.PrintNumber: the inner loop of `print_multiple` is a method of its own.
- Behaviour the code does not have: a season range that wraps the year end never matches, the debounce window is 1000 ms, and the button does not cycle through seasons and has no idle reset.

## Findings

| source | as written | input that shows it | evidently intended | confidence | as-written member | corrected member |
|---|---|---|---|---|---|---|
| ko-calendar.py:119 | `month_names[int(start[:2])]` indexes a 0-based list with the 1-based month | a season 01-01 to 01-05 prints "Feb"; any December season raises IndexError | `month_names[int(start[:2]) - 1]` | high, not executed | Render.DateLineJanuary | Render.DateLineIntendedExamples |
| gy_ep204x.py:57-58 | `"\x1B9{chr(1)}"` lacks the `f` prefix | `set_japanese_charset()` sends 1B 39 7B 63 68 72 28 31 29 7D | ESC '9' 0x01, as `setup_printer` sends | high, not executed | EscPos.JapaneseCharsetBytes | EscPos.JapaneseCharsetIntendedBytes |
| gy_ep204x.py:21-24 | `chr(lines)` is encoded as UTF-8, so counts from 0x80 become two bytes | `feed(200)` sends 1B 64 C3 88, a feed of 195 lines plus a stray byte | the count as one raw byte | medium, not executed | EscPos.FeedTwoHundred | EscPos.FeedIntended |

The receipt keeps the date line as written, because the script prints it. `Render.Layout` takes the date text as a parameter, so `Render.LayoutAt` and `Render.ReceiptStyles` hold just the same for the corrected line. `Scheduler.SetupPrinter` sends the intended charset command, as `setup_printer` does. The receipt feeds only 1 line and 6 rows, both below 0x80, so the feed finding does not change a receipt.
