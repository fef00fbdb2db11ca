/**
 * The GY-EP204X thermal printer driver (`gy_ep204x.GY_EP204X`). Every method
 * writes one ESC/POS command to the printer's UART; the UART is modelled as the
 * ordered log of those writes.
 */
module EscPos {
  import opened Utf8

  const ESC: char := '\U{1B}'
  const GS: char := '\U{1D}'

  /**
   * One `uart.write` call with its bytes, or the stand-in for
   * `print_with_breaks`, which the calendar calls but this driver does not
   * define: it carries the text and the line length and nothing more.
   */
  datatype Write = Uart(data: seq<byte>) | WithBreaks(text: string, lineLength: int)

  // The command strings exactly as the driver spells them.

  function FeedCommand(lines: int): string
    requires 0 <= lines <= 255
  {
    [ESC, 'd', lines as char]
  }

  function FeedRowsCommand(rows: int): string
    requires 0 <= rows <= 255
  {
    [ESC, 'J', rows as char]
  }

  const CenterJustifyCommand: string := [ESC, 'a', '\U{01}']
  const DoubleHeightCommand: string := [GS, '!', '\U{01}']
  const DoubleWidthCommand: string := [GS, '!', '\U{10}']
  const DoubleHeightWidthCommand: string := [GS, '!', '\U{11}']
  const TripleHeightWidthCommand: string := [GS, '!', '\U{22}']
  const NormalSizeCommand: string := [GS, '!', '\U{00}']

  function BoldCommand(enable: bool): string
  {
    [ESC, 'G', if enable then '\U{01}' else '\U{00}']
  }

  /** `"\x1B9{chr(1)}"` is not an f-string, so the braces and what is between them go out literally. */
  const JapaneseCharsetCommand: string := [ESC, '9'] + "{chr(1)}"
  const ResetCommand: string := [ESC, '@']

  /** A call of one driver method, with its arguments. */
  datatype Command =
    | CenterJustify
    | DoubleHeight
    | DoubleWidth
    | DoubleHeightWidth
    | TripleHeightWidth
    | NormalSize
    | Bold(enable: bool)
    | Feed(lines: int)
    | FeedRows(rows: int)
    | JapaneseCharset
    | Reset
    | SendCommand(command: string)
    | Print(text: string)
    | PrintWithBreaks(text: string, lineLength: int)

  /** The driver asserts `0 <= lines <= 255` in `feed` and `feed_rows`. */
  predicate Allowed(c: Command)
  {
    (c.Feed? ==> 0 <= c.lines <= 255) && (c.FeedRows? ==> 0 <= c.rows <= 255)
  }

  predicate AllAllowed(cs: seq<Command>)
  {
    forall i :: 0 <= i < |cs| ==> Allowed(cs[i])
  }

  /** What one driver call writes. */
  function Emit(c: Command): Write
    requires Allowed(c)
  {
    match c
    case CenterJustify => Uart(Encode(CenterJustifyCommand))
    case DoubleHeight => Uart(Encode(DoubleHeightCommand))
    case DoubleWidth => Uart(Encode(DoubleWidthCommand))
    case DoubleHeightWidth => Uart(Encode(DoubleHeightWidthCommand))
    case TripleHeightWidth => Uart(Encode(TripleHeightWidthCommand))
    case NormalSize => Uart(Encode(NormalSizeCommand))
    case Bold(enable) => Uart(Encode(BoldCommand(enable)))
    case Feed(lines) => Uart(Encode(FeedCommand(lines)))
    case FeedRows(rows) => Uart(Encode(FeedRowsCommand(rows)))
    case JapaneseCharset => Uart(Encode(JapaneseCharsetCommand))
    case Reset => Uart(Encode(ResetCommand))
    case SendCommand(command) => Uart(Encode(command))
    case Print(text) => Uart(Encode(text))
    case PrintWithBreaks(text, lineLength) => WithBreaks(text, lineLength)
  }

  /** What a run of driver calls writes, one write per call, in call order. */
  function EmitAll(cs: seq<Command>): (ws: seq<Write>)
    requires AllAllowed(cs)
    ensures |ws| == |cs|
  {
    if cs == [] then [] else [Emit(cs[0])] + EmitAll(cs[1..])
  }

  /** The i-th write is what the i-th call writes. */
  lemma {:induction false} EmitAllAt(cs: seq<Command>)
    requires AllAllowed(cs)
    ensures forall i :: 0 <= i < |cs| ==> EmitAll(cs)[i] == Emit(cs[i])
  {
    if cs != [] {
      EmitAllAt(cs[1..]);
      assert forall i :: 1 <= i < |cs| ==> EmitAll(cs)[i] == EmitAll(cs[1..])[i - 1];
    }
  }

  lemma {:induction false} EmitAllAppend(a: seq<Command>, b: seq<Command>)
    requires AllAllowed(a) && AllAllowed(b)
    ensures AllAllowed(a + b) && EmitAll(a + b) == EmitAll(a) + EmitAll(b)
  {
    assert AllAllowed(a + b);
    if a != [] {
      assert (a + b)[1..] == a[1..] + b;
      EmitAllAppend(a[1..], b);
    } else {
      assert a + b == b;
    }
  }

  /** A log holding the writes of `xs` and then those of `ys` holds the writes of `xs + ys`. */
  lemma LogAppend(before: seq<Write>, log: seq<Write>, xs: seq<Command>, ys: seq<Command>)
    requires AllAllowed(xs) && AllAllowed(ys)
    requires log == before + EmitAll(xs)
    ensures AllAllowed(xs + ys) && log + EmitAll(ys) == before + EmitAll(xs + ys)
  {
    EmitAllAppend(xs, ys);
  }

  lemma AsciiBytes(s: string, b: seq<byte>)
    requires IsAscii(s) && |b| == |s|
    requires forall i :: 0 <= i < |s| ==> b[i] == s[i] as int
    ensures Encode(s) == b
  {
    EncodeAscii(s);
  }

  /** The bytes the justification, bold and reset commands put on the wire. */
  lemma FixedCommandBytes()
    ensures Emit(CenterJustify) == Uart([0x1B, 0x61, 0x01])
    ensures Emit(Bold(true)) == Uart([0x1B, 0x47, 0x01])
    ensures Emit(Bold(false)) == Uart([0x1B, 0x47, 0x00])
    ensures Emit(Reset) == Uart([0x1B, 0x40])
  {
    AsciiBytes(CenterJustifyCommand, [0x1B, 0x61, 0x01]);
    AsciiBytes(BoldCommand(true), [0x1B, 0x47, 0x01]);
    AsciiBytes(BoldCommand(false), [0x1B, 0x47, 0x00]);
    AsciiBytes(ResetCommand, [0x1B, 0x40]);
  }

  /** The size setters send GS '!' and the size byte. */
  lemma SizeCommandBytes()
    ensures Emit(DoubleHeight) == Uart([0x1D, 0x21, 0x01])
    ensures Emit(DoubleWidth) == Uart([0x1D, 0x21, 0x10])
    ensures Emit(DoubleHeightWidth) == Uart([0x1D, 0x21, 0x11])
    ensures Emit(TripleHeightWidth) == Uart([0x1D, 0x21, 0x22])
    ensures Emit(NormalSize) == Uart([0x1D, 0x21, 0x00])
  {
    AsciiBytes(DoubleHeightCommand, [0x1D, 0x21, 0x01]);
    AsciiBytes(DoubleWidthCommand, [0x1D, 0x21, 0x10]);
    AsciiBytes(DoubleHeightWidthCommand, [0x1D, 0x21, 0x11]);
    AsciiBytes(TripleHeightWidthCommand, [0x1D, 0x21, 0x22]);
    AsciiBytes(NormalSizeCommand, [0x1D, 0x21, 0x00]);
  }

  /** Below 0x80, `feed` and `feed_rows` send ESC 'd' n and ESC 'J' n. */
  lemma FeedBytes(n: int)
    requires 0 <= n < 0x80
    ensures Emit(Feed(n)) == Uart([0x1B, 0x64, n])
    ensures Emit(FeedRows(n)) == Uart([0x1B, 0x4A, n])
  {
    AsciiBytes(FeedCommand(n), [0x1B, 0x64, n]);
    AsciiBytes(FeedRowsCommand(n), [0x1B, 0x4A, n]);
  }

  /**
   * As written, `feed(n)` is the three bytes ESC 'd' n only below 0x80: from
   * 0x80 to 255, `chr(n)` is UTF-8 encoded into a lead byte (0xC2 or 0xC3),
   * which the printer takes as the count, and a continuation byte that
   * follows as stray data.
   */
  lemma FeedCountByte(lines: int)
    requires 0 <= lines <= 255
    ensures var b := Encode(FeedCommand(lines));
      |b| >= 3 && b[..2] == [0x1B, 0x64] &&
      (|b| == 3 <==> lines < 0x80) &&
      (lines >= 0x80 ==> b[2..] == [0xC0 + lines / 0x40, 0x80 + lines % 0x40])
  {
    var s := FeedCommand(lines);
    assert s == [ESC, 'd'] + [lines as char];
    EncodeAppend([ESC, 'd'], [lines as char]);
    AsciiBytes([ESC, 'd'], [0x1B, 0x64]);
    assert Encode([lines as char]) == EncodeChar(lines as char) + Encode([]);
  }

  /** `feed(200)` writes 1B 64 C3 88: the printer is told to feed 195 lines. */
  lemma FeedTwoHundred()
    ensures Emit(Feed(200)) == Uart([0x1B, 0x64, 0xC3, 0x88])
  {
    FeedCountByte(200);
  }

  /** The intended `feed` command: the count as one raw byte for every allowed count. */
  function FeedIntended(lines: int): (b: seq<byte>)
    requires 0 <= lines <= 255
    ensures |b| == 3 && b[2] == lines
    ensures lines < 0x80 ==> Uart(b) == Emit(Feed(lines))
  {
    if lines < 0x80 then
      FeedBytes(lines);
      [0x1B, 0x64, lines]
    else
      [0x1B, 0x64, lines]
  }

  /** `set_japanese_charset` as written sends ten bytes, not the three `setup_printer` sends. */
  lemma JapaneseCharsetBytes()
    ensures Emit(JapaneseCharset) == Uart([0x1B, 0x39, 0x7B, 0x63, 0x68, 0x72, 0x28, 0x31, 0x29, 0x7D])
    ensures Emit(JapaneseCharset) != Emit(SendCommand(JapaneseCharsetIntended))
  {
    AsciiBytes(JapaneseCharsetCommand, [0x1B, 0x39, 0x7B, 0x63, 0x68, 0x72, 0x28, 0x31, 0x29, 0x7D]);
    JapaneseCharsetIntendedBytes();
  }

  /** The intended command: ESC '9' followed by the byte 0x01, as `setup_printer` writes it. */
  const JapaneseCharsetIntended: string := [ESC, '9', '\U{01}']

  lemma JapaneseCharsetIntendedBytes()
    ensures Emit(SendCommand(JapaneseCharsetIntended)) == Uart([0x1B, 0x39, 0x01])
  {
    AsciiBytes(JapaneseCharsetIntended, [0x1B, 0x39, 0x01]);
  }

  /** The driver object; `log` is everything written to its UART so far. */
  class Printer {
    var log: seq<Write>

    constructor ()
      ensures log == []
    {
      log := [];
    }

    method SendCommand(command: string)
      modifies this
      ensures log == old(log) + [Emit(Command.SendCommand(command))]
    {
      log := log + [Uart(Encode(command))];
    }

    method Print(text: string)
      modifies this
      ensures log == old(log) + [Emit(Command.Print(text))]
    {
      log := log + [Uart(Encode(text))];
    }

    /** Stand-in for the undefined `print_with_breaks`. */
    method PrintWithBreaks(text: string, lineLength: int)
      modifies this
      ensures log == old(log) + [Emit(Command.PrintWithBreaks(text, lineLength))]
    {
      log := log + [WithBreaks(text, lineLength)];
    }

    method Feed(lines: int)
      requires 0 <= lines <= 255
      modifies this
      ensures log == old(log) + [Emit(Command.Feed(lines))]
      ensures lines < 0x80 ==> log == old(log) + [Uart([0x1B, 0x64, lines])]
    {
      SendCommand(FeedCommand(lines));
      if lines < 0x80 {
        FeedBytes(lines);
      }
    }

    method FeedRows(rows: int)
      requires 0 <= rows <= 255
      modifies this
      ensures log == old(log) + [Emit(Command.FeedRows(rows))]
      ensures rows < 0x80 ==> log == old(log) + [Uart([0x1B, 0x4A, rows])]
    {
      SendCommand(FeedRowsCommand(rows));
      if rows < 0x80 {
        FeedBytes(rows);
      }
    }

    method CenterJustify()
      modifies this
      ensures log == old(log) + [Emit(Command.CenterJustify)]
      ensures log == old(log) + [Uart([0x1B, 0x61, 0x01])]
    {
      SendCommand(CenterJustifyCommand);
      FixedCommandBytes();
    }

    method DoubleHeight()
      modifies this
      ensures log == old(log) + [Emit(Command.DoubleHeight)]
      ensures log == old(log) + [Uart([0x1D, 0x21, 0x01])]
    {
      SendCommand(DoubleHeightCommand);
      SizeCommandBytes();
    }

    method DoubleWidth()
      modifies this
      ensures log == old(log) + [Emit(Command.DoubleWidth)]
      ensures log == old(log) + [Uart([0x1D, 0x21, 0x10])]
    {
      SendCommand(DoubleWidthCommand);
      SizeCommandBytes();
    }

    method DoubleHeightWidth()
      modifies this
      ensures log == old(log) + [Emit(Command.DoubleHeightWidth)]
      ensures log == old(log) + [Uart([0x1D, 0x21, 0x11])]
    {
      SendCommand(DoubleHeightWidthCommand);
      SizeCommandBytes();
    }

    method TripleHeightWidth()
      modifies this
      ensures log == old(log) + [Emit(Command.TripleHeightWidth)]
      ensures log == old(log) + [Uart([0x1D, 0x21, 0x22])]
    {
      SendCommand(TripleHeightWidthCommand);
      SizeCommandBytes();
    }

    method Bold(enable: bool)
      modifies this
      ensures log == old(log) + [Emit(Command.Bold(enable))]
      ensures log == old(log) + [Uart([0x1B, 0x47, if enable then 0x01 else 0x00])]
    {
      SendCommand(BoldCommand(enable));
      FixedCommandBytes();
    }

    method NormalSize()
      modifies this
      ensures log == old(log) + [Emit(Command.NormalSize)]
      ensures log == old(log) + [Uart([0x1D, 0x21, 0x00])]
    {
      SendCommand(NormalSizeCommand);
      SizeCommandBytes();
    }

    method SetJapaneseCharset()
      modifies this
      ensures log == old(log) + [Emit(Command.JapaneseCharset)]
      ensures log == old(log) + [Uart([0x1B, 0x39, 0x7B, 0x63, 0x68, 0x72, 0x28, 0x31, 0x29, 0x7D])]
    {
      SendCommand(JapaneseCharsetCommand);
      JapaneseCharsetBytes();
    }

    method Reset()
      modifies this
      ensures log == old(log) + [Emit(Command.Reset)]
      ensures log == old(log) + [Uart([0x1B, 0x40])]
    {
      SendCommand(ResetCommand);
      FixedCommandBytes();
    }
  }
}
