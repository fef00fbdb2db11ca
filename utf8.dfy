/**
 * How a Python `str` becomes the bytes written to the printer's UART.
 * `GY_EP204X.print` encodes with UTF-8 explicitly; `GY_EP204X.send_command`
 * calls `bytes(command, "ascii")`, and MicroPython ignores that encoding
 * argument and copies the string's UTF-8 representation. Both are `Encode`.
 */
module Utf8 {
  import opened Wrappers

  /** One octet on the serial line. */
  type byte = b: int | 0 <= b < 0x100

  /** The UTF-8 form of one Unicode scalar value (RFC 3629, section 3). */
  function EncodeChar(c: char): seq<byte>
  {
    var n := c as int;
    if n < 0x80 then [n]
    else if n < 0x800 then [0xC0 + n / 0x40, 0x80 + n % 0x40]
    else if n < 0x1_0000 then [0xE0 + n / 0x1000, 0x80 + n / 0x40 % 0x40, 0x80 + n % 0x40]
    else [0xF0 + n / 0x4_0000, 0x80 + n / 0x1000 % 0x40, 0x80 + n / 0x40 % 0x40, 0x80 + n % 0x40]
  }

  function Encode(s: string): seq<byte>
  {
    if s == [] then [] else EncodeChar(s[0]) + Encode(s[1..])
  }

  predicate IsAscii(s: string)
  {
    forall i :: 0 <= i < |s| ==> s[i] as int < 0x80
  }

  /** Number of bytes in the sequence that starts with lead byte `b`. */
  function LeadLength(b: byte): nat
  {
    if b < 0xC0 then 1 else if b < 0xE0 then 2 else if b < 0xF0 then 3 else 4
  }

  /** The code point carried by one encoded sequence. */
  function ScalarValue(bs: seq<byte>): int
    requires 1 <= |bs| <= 4
  {
    var b0, n := bs[0] as int, |bs|;
    if n == 1 then b0
    else if n == 2 then (b0 - 0xC0) * 0x40 + (bs[1] as int - 0x80)
    else if n == 3 then (b0 - 0xE0) * 0x1000 + (bs[1] as int - 0x80) * 0x40 + (bs[2] as int - 0x80)
    else (b0 - 0xF0) * 0x4_0000 + (bs[1] as int - 0x80) * 0x1000 + (bs[2] as int - 0x80) * 0x40 + (bs[3] as int - 0x80)
  }

  predicate IsScalar(n: int)
  {
    0 <= n < 0xD800 || 0xE000 <= n < 0x11_0000
  }

  /**
   * Reads text back from bytes, sequence by sequence; None when a sequence is
   * cut short or does not carry a scalar value.
   */
  function Decode(bytes: seq<byte>): Option<string>
    decreases |bytes|
  {
    if bytes == [] then Some([])
    else
      var k := LeadLength(bytes[0]);
      if |bytes| < k || (k == 1 && bytes[0] >= 0x80) || !IsScalar(ScalarValue(bytes[..k])) then None
      else match Decode(bytes[k..])
        case None => None
        case Some(rest) => Some([ScalarValue(bytes[..k]) as char] + rest)
  }

  /** The lead byte announces the sequence's length and the sequence carries `c`. */
  lemma EncodeCharDecodes(c: char)
    ensures var e := EncodeChar(c);
      LeadLength(e[0]) == |e| && (|e| == 1 ==> e[0] < 0x80) && ScalarValue(e) == c as int
  {
    var n := c as int;
    var q1, r0 := n / 0x40, n % 0x40;
    var q2, r1 := q1 / 0x40, q1 % 0x40;
    var q3, r2 := q2 / 0x40, q2 % 0x40;
    assert n == q1 * 0x40 + r0;
    assert q1 == q2 * 0x40 + r1;
    assert q2 == q3 * 0x40 + r2;
    assert n / 0x1000 == q2;
    assert n / 0x4_0000 == q3;
  }

  /** Decoding what `Encode` writes gives the text back: no two texts share bytes. */
  lemma {:induction false} DecodeEncode(s: string)
    ensures Decode(Encode(s)) == Some(s)
  {
    if s != [] {
      var e, rest := EncodeChar(s[0]), Encode(s[1..]);
      EncodeCharDecodes(s[0]);
      DecodeEncode(s[1..]);
      var bytes := e + rest;
      assert bytes[0] == e[0];
      assert bytes[..|e|] == e;
      assert bytes[|e|..] == rest;
      assert [s[0]] + s[1..] == s;
    }
  }

  lemma {:induction false} EncodeAppend(a: string, b: string)
    ensures Encode(a + b) == Encode(a) + Encode(b)
  {
    if a != [] {
      assert (a + b)[1..] == a[1..] + b;
      EncodeAppend(a[1..], b);
    } else {
      assert a + b == b;
    }
  }

  /** Text of code points below 0x80 goes out one byte per character. */
  lemma {:induction false} EncodeAscii(s: string)
    requires IsAscii(s)
    ensures |Encode(s)| == |s|
    ensures forall i :: 0 <= i < |s| ==> Encode(s)[i] == s[i] as int
  {
    if s != [] {
      EncodeAscii(s[1..]);
    }
  }
}
