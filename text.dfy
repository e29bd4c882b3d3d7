/** Text handling of the display layer: decoding the OS's fixed UTF-16 name
    buffer, trimming its NUL padding, and writing integers in decimal the
    way Rust's `{}` formatting does. */
module Text {
  import opened Machine

  /* ---------------- trailing padding ---------------- */

  /** `trim_end_matches(pad)`: the longest prefix that does not end in `pad`;
      everything cut off is padding. */
  function TrimTrailing<T(==)>(s: seq<T>, pad: T): (r: seq<T>)
    ensures r <= s
    ensures r == [] || r[|r| - 1] != pad
    ensures forall k :: |r| <= k < |s| ==> s[k] == pad
  {
    if s == [] || s[|s| - 1] != pad then s
    else TrimTrailing(s[..|s| - 1], pad)
  }

  /** Trimming removes exactly the padding appended to a text that does not
      itself end in the pad value, and nothing of the text. */
  lemma {:induction false} TrimTrailingKeepsText<T>(text: seq<T>, padding: seq<T>, pad: T)
    requires text == [] || text[|text| - 1] != pad
    requires forall k :: 0 <= k < |padding| ==> padding[k] == pad
    ensures TrimTrailing(text + padding, pad) == text
    decreases |padding|
  {
    var s := text + padding;
    if padding != [] {
      var shorter := padding[..|padding| - 1];
      assert s[..|s| - 1] == text + shorter;
      TrimTrailingKeepsText(text, shorter, pad);
    } else {
      assert s == text;
    }
  }

  /* ---------------- UTF-16, decoded lossily ---------------- */

  predicate IsHighSurrogate(u: uint16) { 0xD800 <= u <= 0xDBFF }
  predicate IsLowSurrogate(u: uint16) { 0xDC00 <= u <= 0xDFFF }
  predicate IsSurrogate(u: uint16) { 0xD800 <= u <= 0xDFFF }

  const REPLACEMENT_CHARACTER: char := '\U{FFFD}'

  /** The scalar value a surrogate pair stands for. */
  function PairChar(high: uint16, low: uint16): (c: char)
    requires IsHighSurrogate(high) && IsLowSurrogate(low)
    ensures c as int >= 0x1_0000
  {
    (0x1_0000 + (high - 0xD800) * 0x400 + (low - 0xDC00)) as char
  }

  /** `String::from_utf16_lossy`: pairs become one supplementary character,
      every unpaired surrogate becomes U+FFFD, every other unit the
      character with that value. */
  function DecodeUtf16Lossy(units: seq<uint16>): (s: string)
    ensures |s| <= |units|
    decreases |units|
  {
    if units == [] then []
    else if |units| >= 2 && IsHighSurrogate(units[0]) && IsLowSurrogate(units[1]) then
      [PairChar(units[0], units[1])] + DecodeUtf16Lossy(units[2..])
    else if IsSurrogate(units[0]) then
      [REPLACEMENT_CHARACTER] + DecodeUtf16Lossy(units[1..])
    else
      [units[0] as char] + DecodeUtf16Lossy(units[1..])
  }

  /** Appending a unit that is not a surrogate appends its character: it can
      neither complete nor break a pair. */
  lemma {:induction false} DecodeAppendPlain(units: seq<uint16>, u: uint16)
    requires !IsSurrogate(u)
    ensures DecodeUtf16Lossy(units + [u]) == DecodeUtf16Lossy(units) + [u as char]
    decreases |units|
  {
    var s := units + [u];
    if units == [] {
      assert s == [u];
      assert DecodeUtf16Lossy(s) == [u as char] + DecodeUtf16Lossy([]);
    } else if |units| >= 2 && IsHighSurrogate(units[0]) && IsLowSurrogate(units[1]) {
      assert s[2..] == units[2..] + [u];
      DecodeAppendPlain(units[2..], u);
    } else {
      assert |s| >= 2 && IsHighSurrogate(s[0]) && IsLowSurrogate(s[1]) <==> false;
      assert s[1..] == units[1..] + [u];
      DecodeAppendPlain(units[1..], u);
    }
  }

  /** A decoded text ends in NUL only if the units did: NUL is produced by
      the NUL unit and nothing else. */
  lemma {:induction false} DecodeEndsInNul(units: seq<uint16>)
    requires units != []
    requires units[|units| - 1] != 0
    ensures var s := DecodeUtf16Lossy(units); s != [] && s[|s| - 1] != '\0'
    decreases |units|
  {
    if |units| >= 2 && IsHighSurrogate(units[0]) && IsLowSurrogate(units[1]) {
      if |units| > 2 {
        DecodeEndsInNul(units[2..]);
      }
    } else if |units| > 1 {
      DecodeEndsInNul(units[1..]);
    }
  }

  /** Decoding the whole buffer and then trimming NUL characters, as the code
      does, is the same as trimming NUL units and decoding what is left. */
  lemma {:induction false} TrimCommutesWithDecode(units: seq<uint16>)
    ensures TrimTrailing(DecodeUtf16Lossy(units), '\0') == DecodeUtf16Lossy(TrimTrailing(units, 0))
    decreases |units|
  {
    if units == [] {
    } else if units[|units| - 1] == 0 {
      var init := units[..|units| - 1];
      assert units == init + [0];
      DecodeAppendPlain(init, 0);
      var d := DecodeUtf16Lossy(init);
      assert DecodeUtf16Lossy(units) == d + ['\0'];
      assert (d + ['\0'])[..|d|] == d;
      TrimCommutesWithDecode(init);
    } else {
      DecodeEndsInNul(units);
    }
  }

  /** The monitor name: the decoded buffer without its NUL padding
      (display.rs:184-186). */
  function FriendlyName(buffer: seq<uint16>): (name: string)
    ensures name == [] || name[|name| - 1] != '\0'
    ensures name == DecodeUtf16Lossy(TrimTrailing(buffer, 0))
  {
    TrimCommutesWithDecode(buffer);
    TrimTrailing(DecodeUtf16Lossy(buffer), '\0')
  }

  /* ---------------- decimal numbers ---------------- */

  predicate IsDigit(c: char) { '0' <= c <= '9' }

  function DigitChar(d: nat): (c: char)
    requires d < 10
    ensures IsDigit(c)
  {
    ('0' as int + d) as char
  }

  /** The decimal digits of `n`, most significant first, with no leading zero. */
  function NatToDecimal(n: nat): (s: string)
    ensures |s| >= 1
    ensures forall k :: 0 <= k < |s| ==> IsDigit(s[k])
    ensures s[0] == '0' ==> n == 0
    ensures |s| > 1 ==> s[0] != '0'
  {
    if n < 10 then [DigitChar(n)]
    else NatToDecimal(n / 10) + [DigitChar(n % 10)]
  }

  /** The value of a string of decimal digits. */
  function DecimalValue(s: string): nat
    requires forall k :: 0 <= k < |s| ==> IsDigit(s[k])
  {
    if s == [] then 0
    else
      assert IsDigit(s[|s| - 1]);
      10 * DecimalValue(s[..|s| - 1]) + (s[|s| - 1] as int - '0' as int)
  }

  /** Reading the digits back gives the number. */
  lemma {:induction false} DecimalRoundTrip(n: nat)
    ensures DecimalValue(NatToDecimal(n)) == n
  {
    if n >= 10 {
      var s := NatToDecimal(n);
      assert s[..|s| - 1] == NatToDecimal(n / 10);
      DecimalRoundTrip(n / 10);
    }
  }

  /** How `{}` writes a signed integer: a minus sign before the digits of
      its magnitude when it is negative. */
  function IntToDecimal(x: int): (s: string)
    ensures x >= 0 ==> |s| >= 1 && (forall k :: 0 <= k < |s| ==> IsDigit(s[k])) && DecimalValue(s) == x
    ensures x < 0 ==> |s| >= 2 && s[0] == '-' && (forall k :: 1 <= k < |s| ==> IsDigit(s[k]))
    ensures x < 0 ==> DecimalValue(s[1..]) == -x
    ensures x >= 0 ==> |s| == 1 || s[0] != '0'
    ensures x < 0 ==> s[1] != '0'
  {
    if x < 0 then
      DecimalRoundTrip(-x);
      var digits := NatToDecimal(-x);
      assert ("-" + digits)[1..] == digits;
      "-" + digits
    else
      DecimalRoundTrip(x);
      NatToDecimal(x)
  }
}
