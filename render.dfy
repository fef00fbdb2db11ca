/**
 * The receipt: `print_microseason` turns one season into a fixed run of
 * driver calls, and `print_multiple` prints the seasons with the given
 * numbers.
 */
module Render {
  import opened PyStr
  import opened Seasons
  import opened Utf8
  import opened EscPos

  /** `month_names[i]`: the English month abbreviations, "Jan" at index 0. */
  function MonthName(i: nat): (r: string)
    requires i < 12
    ensures |r| == 3
  {
    match i
    case 0 => "Jan" case 1 => "Feb" case 2 => "Mar" case 3 => "Apr" case 4 => "May" case 5 => "Jun"
    case 6 => "Jul" case 7 => "Aug" case 8 => "Sep" case 9 => "Oct" case 10 => "Nov" case _ => "Dec"
  }

  /** The twelve names are pairwise different, so the name printed determines the index used. */
  lemma MonthNamesDistinct(i: nat, j: nat)
    requires i < 12 && j < 12 && i != j
    ensures MonthName(i) != MonthName(j)
  {
    assert MonthName(i)[0] != MonthName(j)[0] || MonthName(i)[1] != MonthName(j)[1] || MonthName(i)[2] != MonthName(j)[2];
  }

  /** The rule printed above and below each season: 32 '=' and a newline. */
  function Banner(): string
  {
    "================================\n"
  }

  /** A bound written "MM-DD" with decimal digits. */
  predicate IsDateString(s: string)
  {
    |s| == 5 && IsDigit(s[0]) && IsDigit(s[1]) && s[2] == '-' && IsDigit(s[3]) && IsDigit(s[4])
  }

  /** `int(s[:2])`. */
  function MonthField(s: string): nat
    requires IsDateString(s)
  {
    DigitsValue(s[..2])
  }

  /** `int(s[3:])`. */
  function DayField(s: string): nat
    requires IsDateString(s)
  {
    DigitsValue(s[3..])
  }

  /**
   * What `print_microseason` needs of a season to finish: both bounds parse,
   * and both month fields index `month_names` directly, that is, are at
   * most 11. A season starting or ending in December raises IndexError.
   */
  predicate Printable(s: Season)
  {
    IsDateString(s.start) && IsDateString(s.end) && MonthField(s.start) < 12 && MonthField(s.end) < 12
  }

  /** The date line as the source writes it: `month_names[int(start[:2])]`, with no `- 1`. */
  function DateLine(s: Season): string
    requires Printable(s)
  {
    MonthName(MonthField(s.start)) + " " + DecimalString(DayField(s.start)) + " - " +
    MonthName(MonthField(s.end)) + " " + DecimalString(DayField(s.end)) + "\n"
  }

  /** A date written by `FormatDate` reads back as its month and day. */
  lemma FormatDateFields(month: nat, day: nat)
    requires month < 100 && day < 100
    ensures IsDateString(FormatDate(month, day))
    ensures MonthField(FormatDate(month, day)) == month && DayField(FormatDate(month, day)) == day
  {
    var d := FormatDate(month, day);
    Pad2Digits(month);
    Pad2Digits(day);
    Pad2Value(month);
    Pad2Value(day);
    assert d[..2] == Pad2(month);
    assert d[3..] == Pad2(day);
  }

  /**
   * As written, the date line names the month after the one in the season's
   * dates: `month_names` starts at "Jan" for index 0, but the index is the
   * one-based month number.
   */
  lemma DateLineNamesNextMonth(s: Season, sm: nat, sd: nat, em: nat, ed: nat)
    requires 1 <= sm < 12 && 1 <= em < 12 && sd < 100 && ed < 100
    requires s.start == FormatDate(sm, sd) && s.end == FormatDate(em, ed)
    ensures Printable(s)
    ensures DateLine(s) ==
      MonthName(sm) + " " + DecimalString(sd) + " - " + MonthName(em) + " " + DecimalString(ed) + "\n"
  {
    FormatDateFields(sm, sd);
    FormatDateFields(em, ed);
  }

  /** A season within January is printed as if it were in February. */
  lemma DateLineJanuary(s: Season, sd: nat, ed: nat)
    requires sd < 100 && ed < 100
    requires s.start == FormatDate(1, sd) && s.end == FormatDate(1, ed)
    ensures Printable(s)
    ensures DateLine(s) == "Feb" + " " + DecimalString(sd) + " - " + "Feb" + " " + DecimalString(ed) + "\n"
  {
    DateLineNamesNextMonth(s, 1, sd, 1, ed);
  }

  /** The date line as intended: `month_names[int(start[:2]) - 1]`, defined for every month 1 to 12. */
  function DateLineIntended(s: Season): string
    requires IsDateString(s.start) && IsDateString(s.end)
    requires 1 <= MonthField(s.start) <= 12 && 1 <= MonthField(s.end) <= 12
  {
    MonthName(MonthField(s.start) - 1) + " " + DecimalString(DayField(s.start)) + " - " +
    MonthName(MonthField(s.end) - 1) + " " + DecimalString(DayField(s.end)) + "\n"
  }

  /** The intended date line names the season's own months, December included. */
  lemma DateLineIntendedNamesDates(s: Season, sm: nat, sd: nat, em: nat, ed: nat)
    requires 1 <= sm <= 12 && 1 <= em <= 12 && sd < 100 && ed < 100
    requires s.start == FormatDate(sm, sd) && s.end == FormatDate(em, ed)
    ensures IsDateString(s.start) && IsDateString(s.end)
    ensures MonthField(s.start) == sm && MonthField(s.end) == em
    ensures DateLineIntended(s) ==
      MonthName(sm - 1) + " " + DecimalString(sd) + " - " + MonthName(em - 1) + " " + DecimalString(ed) + "\n"
  {
    FormatDateFields(sm, sd);
    FormatDateFields(em, ed);
  }

  /**
   * Intended: a season within January is printed with "Jan"; one within
   * December, which as written cannot be printed at all, with "Dec".
   */
  lemma DateLineIntendedExamples(s: Season, t: Season, sd: nat, ed: nat)
    requires sd < 100 && ed < 100
    requires s.start == FormatDate(1, sd) && s.end == FormatDate(1, ed)
    requires t.start == FormatDate(12, sd) && t.end == FormatDate(12, ed)
    ensures IsDateString(s.start) && IsDateString(s.end) && MonthField(s.start) == 1 && MonthField(s.end) == 1
    ensures DateLineIntended(s) == "Jan" + " " + DecimalString(sd) + " - " + "Jan" + " " + DecimalString(ed) + "\n"
    ensures IsDateString(t.start) && IsDateString(t.end) && MonthField(t.start) == 12 && MonthField(t.end) == 12
    ensures !Printable(t)
    ensures DateLineIntended(t) == "Dec" + " " + DecimalString(sd) + " - " + "Dec" + " " + DecimalString(ed) + "\n"
  {
    DateLineIntendedNamesDates(s, 1, sd, 1, ed);
    DateLineIntendedNamesDates(t, 12, sd, 12, ed);
  }

  /** The driver calls `print_microseason` makes, in order. */
  function Receipt(s: Season): (cs: seq<Command>)
    requires Printable(s)
    ensures |cs| == 17 && AllAllowed(cs)
  {
    Layout(s.en, s.kanji, s.romaji, DateLine(s))
  }

  /**
   * The receipt's calls around its four texts, in five runs: the top rule;
   * the name; the kanji; the romaji; the date line, the bottom rule and a
   * blank line.
   */
  function Layout(name: string, kanji: string, romaji: string, dates: string): (cs: seq<Command>)
    ensures |cs| == 17 && AllAllowed(cs)
  {
    [CenterJustify, Print(Banner())] +
    [DoubleHeightWidth, Bold(true), PrintWithBreaks(name, 16), Bold(false), Feed(1)] +
    [TripleHeightWidth, Print(kanji + "\n"), NormalSize, Feed(1)] +
    [PrintWithBreaks(romaji, 32), NormalSize, FeedRows(6)] +
    [Print(dates), Print(Banner()), Print("\n")]
  }

  /** The banner goes out as 32 bytes 0x3D and one 0x0A. */
  lemma BannerBytes()
    ensures Encode(Banner()) == seq(32, _ => 0x3D) + [0x0A]
  {
    AsciiBytes(Banner(), seq(32, _ => 0x3D) + [0x0A]);
  }

  /** The printer's settings as the receipt's commands change them: justification, the GS '!' size byte, bold. */
  datatype Style = Style(centered: bool, size: int, bold: bool)

  /** ESC/POS meaning of one driver call; text, feeds and raw commands leave the settings alone. */
  function Apply(st: Style, c: Command): Style
  {
    match c
    case CenterJustify => st.(centered := true)
    case DoubleHeight => st.(size := 0x01)
    case DoubleWidth => st.(size := 0x10)
    case DoubleHeightWidth => st.(size := 0x11)
    case TripleHeightWidth => st.(size := 0x22)
    case NormalSize => st.(size := 0x00)
    case Bold(enable) => st.(bold := enable)
    case Reset => Style(false, 0x00, false)
    case _ => st
  }

  /** The settings after a run of driver calls, applied in order. */
  function StyleAfter(st: Style, cs: seq<Command>): Style
    decreases |cs|
  {
    if cs == [] then st else Apply(StyleAfter(st, cs[..|cs| - 1]), cs[|cs| - 1])
  }

  lemma StyleAfterStep(st: Style, cs: seq<Command>, k: nat)
    requires k < |cs|
    ensures StyleAfter(st, cs[..k + 1]) == Apply(StyleAfter(st, cs[..k]), cs[k])
  {
    assert cs[..k + 1][..k] == cs[..k];
  }

  /** The receipt's calls by position. */
  predicate LaidOut(r: seq<Command>, name: string, kanji: string, romaji: string, dates: string)
  {
    |r| == 17 && r[0] == CenterJustify && r[1] == Print(Banner()) && r[2] == DoubleHeightWidth &&
    r[3] == Bold(true) && r[4] == PrintWithBreaks(name, 16) && r[5] == Bold(false) && r[6] == Feed(1) &&
    r[7] == TripleHeightWidth && r[8] == Print(kanji + "\n") && r[9] == NormalSize && r[10] == Feed(1) &&
    r[11] == PrintWithBreaks(romaji, 32) && r[12] == NormalSize && r[13] == FeedRows(6) &&
    r[14] == Print(dates) && r[15] == Print(Banner()) && r[16] == Print("\n")
  }

  lemma LayoutAt(name: string, kanji: string, romaji: string, dates: string)
    ensures LaidOut(Layout(name, kanji, romaji, dates), name, kanji, romaji, dates)
  {
  }

  /**
   * Whatever the printer was set to before, the name is printed centred, bold
   * and at double height and width; the kanji at triple size, not bold; the
   * romaji and the date line at normal size; and the receipt leaves the
   * printer centred, at normal size, not bold.
   */
  lemma ReceiptStyles(name: string, kanji: string, romaji: string, dates: string, st: Style)
    ensures var r := Layout(name, kanji, romaji, dates);
      r[4] == PrintWithBreaks(name, 16) && StyleAfter(st, r[..4]) == Style(true, 0x11, true) &&
      r[8] == Print(kanji + "\n") && StyleAfter(st, r[..8]) == Style(true, 0x22, false) &&
      r[11] == PrintWithBreaks(romaji, 32) && StyleAfter(st, r[..11]) == Style(true, 0x00, false) &&
      r[14] == Print(dates) && StyleAfter(st, r[..14]) == Style(true, 0x00, false) &&
      StyleAfter(st, r) == Style(true, 0x00, false)
  {
    LayoutAt(name, kanji, romaji, dates);
    LaidOutStyles(Layout(name, kanji, romaji, dates), st);
  }

  /** Which kind of call sits at each position of the receipt: all the settings depend on. */
  predicate Shaped(r: seq<Command>)
  {
    |r| == 17 && r[0].CenterJustify? && r[1].Print? && r[2].DoubleHeightWidth? && r[3] == Bold(true) &&
    r[4].PrintWithBreaks? && r[5] == Bold(false) && r[6].Feed? && r[7].TripleHeightWidth? && r[8].Print? &&
    r[9].NormalSize? && r[10].Feed? && r[11].PrintWithBreaks? && r[12].NormalSize? && r[13].FeedRows? &&
    r[14].Print? && r[15].Print? && r[16].Print?
  }

  lemma LaidOutStyles(r: seq<Command>, st: Style)
    requires Shaped(r)
    ensures StyleAfter(st, r[..4]) == Style(true, 0x11, true) && StyleAfter(st, r[..8]) == Style(true, 0x22, false)
    ensures StyleAfter(st, r[..11]) == Style(true, 0x00, false) && StyleAfter(st, r[..14]) == Style(true, 0x00, false)
    ensures StyleAfter(st, r) == Style(true, 0x00, false)
  {
    assert r[..0] == [];
    StyleAfterStep(st, r, 0);
    StyleAfterStep(st, r, 1);
    StyleAfterStep(st, r, 2);
    StyleAfterStep(st, r, 3);
    KanjiStyle(r, st);
    RomajiStyle(r, st);
    ClosingStyle(r, st);
  }

  lemma KanjiStyle(r: seq<Command>, st: Style)
    requires Shaped(r) && StyleAfter(st, r[..4]) == Style(true, 0x11, true)
    ensures StyleAfter(st, r[..8]) == Style(true, 0x22, false)
  {
    StyleAfterStep(st, r, 4);
    assert StyleAfter(st, r[..5]) == Style(true, 0x11, true);
    StyleAfterStep(st, r, 5);
    assert StyleAfter(st, r[..6]) == Style(true, 0x11, false);
    StyleAfterStep(st, r, 6);
    assert StyleAfter(st, r[..7]) == Style(true, 0x11, false);
    StyleAfterStep(st, r, 7);
  }

  lemma RomajiStyle(r: seq<Command>, st: Style)
    requires Shaped(r) && StyleAfter(st, r[..8]) == Style(true, 0x22, false)
    ensures StyleAfter(st, r[..11]) == Style(true, 0x00, false) && StyleAfter(st, r[..14]) == Style(true, 0x00, false)
  {
    StyleAfterStep(st, r, 8);
    assert StyleAfter(st, r[..9]) == Style(true, 0x22, false);
    StyleAfterStep(st, r, 9);
    assert StyleAfter(st, r[..10]) == Style(true, 0x00, false);
    StyleAfterStep(st, r, 10);
    assert StyleAfter(st, r[..11]) == Style(true, 0x00, false);
    StyleAfterStep(st, r, 11);
    assert StyleAfter(st, r[..12]) == Style(true, 0x00, false);
    StyleAfterStep(st, r, 12);
    assert StyleAfter(st, r[..13]) == Style(true, 0x00, false);
    StyleAfterStep(st, r, 13);
  }

  lemma ClosingStyle(r: seq<Command>, st: Style)
    requires Shaped(r) && StyleAfter(st, r[..14]) == Style(true, 0x00, false)
    ensures StyleAfter(st, r) == Style(true, 0x00, false)
  {
    StyleAfterStep(st, r, 14);
    assert StyleAfter(st, r[..15]) == Style(true, 0x00, false);
    StyleAfterStep(st, r, 15);
    assert StyleAfter(st, r[..16]) == Style(true, 0x00, false);
    StyleAfterStep(st, r, 16);
    assert r[..17] == r;
  }

  /** The receipt, call by call, in the order `print_microseason` makes them. */
  lemma LayoutInOrder(name: string, kanji: string, romaji: string, dates: string)
    ensures Layout(name, kanji, romaji, dates) ==
      [] + [CenterJustify] + [Print(Banner())] + [DoubleHeightWidth] + [Bold(true)] +
      [PrintWithBreaks(name, 16)] + [Bold(false)] + [Feed(1)] + [TripleHeightWidth] + [Print(kanji + "\n")] +
      [NormalSize] + [Feed(1)] + [PrintWithBreaks(romaji, 32)] + [NormalSize] + [FeedRows(6)] +
      [Print(dates)] + [Print(Banner())] + [Print("\n")]
  {
  }

  lemma LogSnoc(before: seq<Write>, log: seq<Write>, cs: seq<Command>, c: Command)
    requires AllAllowed(cs) && Allowed(c)
    requires log == before + EmitAll(cs)
    ensures AllAllowed(cs + [c]) && log + [Emit(c)] == before + EmitAll(cs + [c])
  {
    EmitAllAppend(cs, [c]);
  }

  /** `print_microseason(printer, microseason)`. */
  method PrintMicroseason(printer: Printer, s: Season)
    requires Printable(s)
    modifies printer
    ensures printer.log == old(printer.log) + EmitAll(Receipt(s))
  {
    // `done` is the calls made so far; each call extends the log by its write.
    ghost var before := printer.log;
    ghost var done: seq<Command> := [];
    LogSnoc(before, printer.log, done, CenterJustify);
    printer.CenterJustify();
    done := done + [CenterJustify];
    LogSnoc(before, printer.log, done, Print(Banner()));
    printer.Print(Banner());
    done := done + [Print(Banner())];
    LogSnoc(before, printer.log, done, DoubleHeightWidth);
    printer.DoubleHeightWidth();
    done := done + [DoubleHeightWidth];
    LogSnoc(before, printer.log, done, Bold(true));
    printer.Bold(true);
    done := done + [Bold(true)];
    LogSnoc(before, printer.log, done, PrintWithBreaks(s.en, 16));
    printer.PrintWithBreaks(s.en, 16);
    done := done + [PrintWithBreaks(s.en, 16)];
    LogSnoc(before, printer.log, done, Bold(false));
    printer.Bold(false);
    done := done + [Bold(false)];
    LogSnoc(before, printer.log, done, Feed(1));
    printer.Feed(1);
    done := done + [Feed(1)];
    LogSnoc(before, printer.log, done, TripleHeightWidth);
    printer.TripleHeightWidth();
    done := done + [TripleHeightWidth];
    LogSnoc(before, printer.log, done, Print(s.kanji + "\n"));
    printer.Print(s.kanji + "\n");
    done := done + [Print(s.kanji + "\n")];
    LogSnoc(before, printer.log, done, NormalSize);
    printer.NormalSize();
    done := done + [NormalSize];
    LogSnoc(before, printer.log, done, Feed(1));
    printer.Feed(1);
    done := done + [Feed(1)];
    LogSnoc(before, printer.log, done, PrintWithBreaks(s.romaji, 32));
    printer.PrintWithBreaks(s.romaji, 32);
    done := done + [PrintWithBreaks(s.romaji, 32)];
    LogSnoc(before, printer.log, done, NormalSize);
    printer.NormalSize();
    done := done + [NormalSize];
    LogSnoc(before, printer.log, done, FeedRows(6));
    printer.FeedRows(6);
    done := done + [FeedRows(6)];
    LogSnoc(before, printer.log, done, Print(DateLine(s)));
    printer.Print(DateLine(s));
    done := done + [Print(DateLine(s))];
    LogSnoc(before, printer.log, done, Print(Banner()));
    printer.Print(Banner());
    done := done + [Print(Banner())];
    LogSnoc(before, printer.log, done, Print("\n"));
    printer.Print("\n");
    done := done + [Print("\n")];
    LayoutInOrder(s.en, s.kanji, s.romaji, DateLine(s));
  }

  /** The entries of `seasons` whose number is `num`, in list order: the inner loop of `print_multiple`. */
  function WithNumber(seasons: seq<Season>, num: int): (r: seq<Season>)
    ensures |r| <= |seasons|
    ensures forall x :: x in r <==> x in seasons && x.number == num
    decreases |seasons|
  {
    if seasons == [] then []
    else
      var init, last := seasons[..|seasons| - 1], seasons[|seasons| - 1];
      assert seasons == init + [last];
      WithNumber(init, num) + (if last.number == num then [last] else [])
  }

  /** Every season `print_multiple` prints, in the order it prints them: number by number. */
  function Selected(seasons: seq<Season>, numbers: seq<int>): (r: seq<Season>)
    ensures forall x :: x in r <==> x in seasons && x.number in numbers
    decreases |numbers|
  {
    if numbers == [] then []
    else
      var init, last := numbers[..|numbers| - 1], numbers[|numbers| - 1];
      assert numbers == init + [last];
      Selected(seasons, init) + WithNumber(seasons, last)
  }

  predicate AllPrintable(ss: seq<Season>)
  {
    forall i :: 0 <= i < |ss| ==> Printable(ss[i])
  }

  /** The driver calls for a run of receipts, one after another. */
  function Receipts(ss: seq<Season>): (cs: seq<Command>)
    requires AllPrintable(ss)
    ensures AllAllowed(cs)
    decreases |ss|
  {
    if ss == [] then []
    else Receipts(ss[..|ss| - 1]) + Receipt(ss[|ss| - 1])
  }

  lemma ReceiptsSnoc(ss: seq<Season>, s: Season)
    requires AllPrintable(ss) && Printable(s)
    ensures AllPrintable(ss + [s]) && Receipts(ss + [s]) == Receipts(ss) + Receipt(s)
  {
    assert (ss + [s])[..|ss|] == ss && (ss + [s])[|ss|] == s;
  }

  /**
   * Regrouping a concatenation, as a step of its own: applied to receipts it
   * keeps their definitions out of the sequence reasoning in `ReceiptsAppend`.
   */
  lemma AppendAssoc(x: seq<Command>, y: seq<Command>, z: seq<Command>)
    ensures (x + y) + z == x + (y + z)
  {
  }

  lemma {:induction false} ReceiptsAppend(a: seq<Season>, b: seq<Season>)
    requires AllPrintable(a) && AllPrintable(b)
    ensures AllPrintable(a + b) && Receipts(a + b) == Receipts(a) + Receipts(b)
    decreases |b|
  {
    if b == [] {
      assert a + b == a;
    } else {
      var init, last := b[..|b| - 1], b[|b| - 1];
      assert a + b == (a + init) + [last];
      assert b == init + [last];
      ReceiptsAppend(a, init);
      ReceiptsSnoc(a + init, last);
      ReceiptsSnoc(init, last);
      assert Receipts(a + b) == (Receipts(a) + Receipts(init)) + Receipt(last);
      assert Receipts(b) == Receipts(init) + Receipt(last);
      AppendAssoc(Receipts(a), Receipts(init), Receipt(last));
    }
  }

  /** Season numbers are unique in the list. */
  predicate UniqueNumbers(seasons: seq<Season>)
  {
    forall i, j :: 0 <= i < j < |seasons| ==> seasons[i].number != seasons[j].number
  }

  /** With unique numbers, `num` selects its one entry when it has one, and nothing otherwise. */
  lemma {:induction false} WithNumberUnique(seasons: seq<Season>, num: int)
    requires UniqueNumbers(seasons)
    ensures |WithNumber(seasons, num)| <= 1
    ensures |WithNumber(seasons, num)| == 1 <==> exists i :: 0 <= i < |seasons| && seasons[i].number == num
    decreases |seasons|
  {
    if seasons != [] {
      var init, last := seasons[..|seasons| - 1], seasons[|seasons| - 1];
      assert seasons == init + [last];
      assert UniqueNumbers(init);
      WithNumberUnique(init, num);
      if last.number == num {
        forall i | 0 <= i < |init| ensures init[i].number != num {
          assert seasons[i].number != seasons[|seasons| - 1].number;
        }
      } else if exists i :: 0 <= i < |seasons| && seasons[i].number == num {
        var i :| 0 <= i < |seasons| && seasons[i].number == num;
        assert i < |init| && init[i].number == num;
      }
    }
  }

  /**
   * With unique numbers and an entry for every requested number,
   * `print_multiple` prints exactly one season per number, in the order the
   * numbers are given.
   */
  lemma {:induction false} SelectedInOrder(seasons: seq<Season>, numbers: seq<int>)
    requires UniqueNumbers(seasons)
    requires forall k :: 0 <= k < |numbers| ==> exists i :: 0 <= i < |seasons| && seasons[i].number == numbers[k]
    ensures |Selected(seasons, numbers)| == |numbers|
    ensures forall k :: 0 <= k < |numbers| ==>
      Selected(seasons, numbers)[k].number == numbers[k] && Selected(seasons, numbers)[k] in seasons
    decreases |numbers|
  {
    if numbers != [] {
      var init, last := numbers[..|numbers| - 1], numbers[|numbers| - 1];
      assert forall k :: 0 <= k < |init| ==> init[k] == numbers[k];
      SelectedInOrder(seasons, init);
      assert exists i :: 0 <= i < |seasons| && seasons[i].number == numbers[|numbers| - 1];
      WithNumberUnique(seasons, last);
      var w := WithNumber(seasons, last);
      assert |w| == 1 && w[0] in w;
      var r := Selected(seasons, numbers);
      assert r == Selected(seasons, init) + w;
      forall k | 0 <= k < |numbers|
        ensures r[k].number == numbers[k] && r[k] in seasons
      {
        if k < |init| {
          assert r[k] == Selected(seasons, init)[k];
        } else {
          assert k == |init| && r[k] == w[0];
        }
      }
    }
  }

  lemma WithNumberSnoc(seasons: seq<Season>, num: int, j: nat)
    requires j < |seasons|
    ensures WithNumber(seasons[..j + 1], num) ==
      WithNumber(seasons[..j], num) + (if seasons[j].number == num then [seasons[j]] else [])
  {
    assert seasons[..j + 1][..j] == seasons[..j];
  }

  lemma SelectedSnoc(seasons: seq<Season>, numbers: seq<int>, i: nat)
    requires i < |numbers|
    ensures Selected(seasons, numbers[..i + 1]) == Selected(seasons, numbers[..i]) + WithNumber(seasons, numbers[i])
  {
    assert numbers[..i + 1][..i] == numbers[..i];
  }

  /** The inner loop of `print_multiple`: every season numbered `num`, in list order. */
  method PrintNumber(printer: Printer, seasons: seq<Season>, num: int)
    requires forall s :: s in seasons && s.number == num ==> Printable(s)
    modifies printer
    ensures AllPrintable(WithNumber(seasons, num))
    ensures printer.log == old(printer.log) + EmitAll(Receipts(WithNumber(seasons, num)))
  {
    ghost var before := printer.log;
    assert seasons[..0] == [];
    for j := 0 to |seasons|
      invariant AllPrintable(WithNumber(seasons[..j], num))
      invariant printer.log == before + EmitAll(Receipts(WithNumber(seasons[..j], num)))
    {
      WithNumberSnoc(seasons, num, j);
      ghost var sofar := WithNumber(seasons[..j], num);
      if seasons[j].number == num {
        var s := seasons[j];
        ReceiptsSnoc(sofar, s);
        LogAppend(before, printer.log, Receipts(sofar), Receipt(s));
        PrintMicroseason(printer, s);
        assert WithNumber(seasons[..j + 1], num) == sofar + [s];
      } else {
        assert WithNumber(seasons[..j + 1], num) == sofar;
      }
    }
    assert seasons[..|seasons|] == seasons;
  }

  /** `print_multiple(printer, microseasons, numbers)`: every season whose number is asked for, number by number. */
  method PrintMultiple(printer: Printer, seasons: seq<Season>, numbers: seq<int>)
    requires forall s :: s in seasons && s.number in numbers ==> Printable(s)
    modifies printer
    ensures AllPrintable(Selected(seasons, numbers))
    ensures printer.log == old(printer.log) + EmitAll(Receipts(Selected(seasons, numbers)))
  {
    ghost var before := printer.log;
    assert numbers[..0] == [];
    for i := 0 to |numbers|
      invariant AllPrintable(Selected(seasons, numbers[..i]))
      invariant printer.log == before + EmitAll(Receipts(Selected(seasons, numbers[..i])))
    {
      ghost var done := Selected(seasons, numbers[..i]);
      ghost var mid := printer.log;
      PrintNumber(printer, seasons, numbers[i]);
      SelectedSnoc(seasons, numbers, i);
      ReceiptsAppend(done, WithNumber(seasons, numbers[i]));
      LogAppend(before, mid, Receipts(done), Receipts(WithNumber(seasons, numbers[i])));
    }
    assert numbers[..|numbers|] == numbers;
  }
}
