/**
 * The `receive` handler: the display filter and the rendering of an
 * incoming message as a line of two-digit lower-case hex bytes.
 */
module Display {
  import opened Base
  import opened Text
  import opened Command

  /** The three settings of the "Display Filter" control. */
  datatype Filter = Exclusive | ChannelAndCommon | AllMessages

  /**
   * The two nested tests of `receive`. A message without a first byte
   * compares `undefined` with a number, which is false both times.
   */
  predicate Shown(filter: Filter, data: seq<Byte>) {
    && (filter != Exclusive || (data != [] && data[0] == 0xf0))
    && (filter != ChannelAndCommon || (data != [] && data[0] < 0xf8))
  }

  /** What each setting shows, and that the settings are nested: System Exclusive only, then everything but real-time bytes, then everything. */
  lemma ShownByFilter(data: seq<Byte>)
    ensures Shown(Exclusive, data) <==> data != [] && data[0] == 0xf0
    ensures Shown(ChannelAndCommon, data) <==> data != [] && data[0] < 0xf8
    ensures Shown(AllMessages, data)
    ensures Shown(Exclusive, data) ==> Shown(ChannelAndCommon, data)
  {
  }

  const Digits := "0123456789abcdef"

  /** `n.toString(16)`: base-16 digits in lower case, no leading zeros. */
  function ToBase16(n: nat): (s: string)
    ensures n < 16 ==> |s| == 1
    ensures 16 <= n < 256 ==> |s| == 2
  {
    if n < 16 then [Digits[n]] else ToBase16(n / 16) + [Digits[n % 16]]
  }

  /** `s.padStart(width, fill)` for a one-character `fill`. */
  function PadStart(s: string, width: nat, fill: char): (r: string)
    ensures |r| == if |s| < width then width else |s|
    ensures r[|r| - |s|..] == s
    decreases width - |s|
  {
    if |s| < width then PadStart([fill] + s, width, fill) else s
  }

  /** `x.toString(16).padStart(2, "0")`. */
  function Hex2(x: Byte): string {
    PadStart(ToBase16(x), 2, '0')
  }

  /** Every digit character denotes its index in `Digits`. */
  lemma DigitsValue(v: nat)
    requires v < 16
    ensures IsHexDigit(Digits[v]) && DigitValue(Digits[v]) == v && !IsSpace(Digits[v])
  {
  }

  /** The two characters of `Hex2(x)`: high and low nibble, as lower-case digits. */
  lemma {:induction false} Hex2Digits(x: Byte)
    ensures Hex2(x) == [Digits[x / 16], Digits[x % 16]]
  {
    if x < 16 {
      assert ToBase16(x) == [Digits[x]];
      assert PadStart(ToBase16(x), 2, '0') == PadStart(['0'] + [Digits[x]], 2, '0');
    } else {
      assert ToBase16(x / 16) == [Digits[x / 16]];
    }
  }

  lemma DigitPair(hi: nat, lo: nat)
    requires hi < 16 && lo < 16
    ensures IsWord([Digits[hi], Digits[lo]])
    ensures IsByteToken([Digits[hi], Digits[lo]])
    ensures HexValue([Digits[hi], Digits[lo]]) == 16 * hi + lo
  {
    DigitsValue(hi);
    DigitsValue(lo);
    HexValueOfPair([Digits[hi], Digits[lo]]);
  }

  /** Each byte becomes exactly two hex digits that parse back to it. */
  lemma Hex2RoundTrip(x: Byte)
    ensures |Hex2(x)| == 2
    ensures IsWord(Hex2(x)) && IsByteToken(Hex2(x)) && HexValue(Hex2(x)) == x
  {
    Hex2Digits(x);
    DigitPair(x / 16, x % 16);
  }

  /** The `reduce` of `receive`: `" " + hex` appended for each byte in turn, from "". */
  function Accumulate(data: seq<Byte>): string {
    if data == [] then "" else Accumulate(data[..|data| - 1]) + " " + Hex2(data[|data| - 1])
  }

  /** `.slice(1)` of the accumulated string: the rendered message. */
  function Render(data: seq<Byte>): string {
    var s := Accumulate(data);
    if s == [] then s else s[1..]
  }

  /** The hex token of each byte, in order. */
  function Tokens(data: seq<Byte>): (ws: seq<string>)
    ensures |ws| == |data|
  {
    seq(|data|, k requires 0 <= k < |data| => Hex2(data[k]))
  }

  lemma TokensSnoc(data: seq<Byte>)
    requires data != []
    ensures Tokens(data) == Tokens(data[..|data| - 1]) + [Hex2(data[|data| - 1])]
  {
    var init := data[..|data| - 1];
    forall k | 0 <= k < |init| ensures Tokens(data)[k] == Tokens(init)[k] {
      assert init[k] == data[k];
    }
  }

  lemma {:induction false} AccumulateIsSpaced(data: seq<Byte>)
    ensures Accumulate(data) == Spaced(Tokens(data))
    decreases |data|
  {
    if data != [] {
      var init := data[..|data| - 1];
      AccumulateIsSpaced(init);
      TokensSnoc(data);
      var ts := Tokens(data);
      assert ts[..|ts| - 1] == Tokens(init);
    }
  }

  /** The rendered line is the bytes' two-digit tokens joined by single spaces. */
  lemma RenderIsJoin(data: seq<Byte>)
    ensures Render(data) == Join(Tokens(data))
  {
    AccumulateIsSpaced(data);
    SpacedIsJoin(Tokens(data));
    if data != [] {
      assert (" " + Join(Tokens(data)))[1..] == Join(Tokens(data));
    }
  }

  /** Two characters per byte and one space between neighbours: 3n - 1 characters, or none. */
  lemma {:induction false} RenderLength(data: seq<Byte>)
    ensures |Render(data)| == if data == [] then 0 else 3 * |data| - 1
  {
    AccumulateLength(data);
  }

  lemma {:induction false} AccumulateLength(data: seq<Byte>)
    ensures |Accumulate(data)| == 3 * |data|
    decreases |data|
  {
    if data != [] {
      AccumulateLength(data[..|data| - 1]);
      Hex2RoundTrip(data[|data| - 1]);
    }
  }

  /** Splitting and parsing the rendered line as the interpreter does gives back the bytes. */
  lemma RenderParsesBack(data: seq<Byte>)
    ensures Words(Render(data)) == Tokens(data)
    ensures ParseBytes(Words(Render(data))) == Some(data)
  {
    RenderIsJoin(data);
    forall k | 0 <= k < |data| ensures IsWord(Tokens(data)[k]) && IsByteToken(Tokens(data)[k]) && HexValue(Tokens(data)[k]) == data[k] {
      Hex2RoundTrip(data[k]);
    }
    WordsOfJoin(Tokens(data));
    var r := ParseBytes(Tokens(data));
    assert r.Some?;
    assert r.value == data;
  }

  /** A rendered line never starts with the word `clear`: its first word has two characters. */
  lemma RenderIsNotClear(data: seq<Byte>)
    requires data != []
    ensures Words(Render(data)) != [] && Words(Render(data))[0] == Hex2(data[0])
    ensures !IsClear(Render(data))
  {
    RenderParsesBack(data);
    Hex2RoundTrip(data[0]);
    assert |"clear"| == 5;
  }

  /**
   * Echo-back: typing a received, well-framed message into the shell sends
   * exactly the same bytes; an unterminated SysEx block is refused instead.
   */
  lemma EchoRoundTrip(data: seq<Byte>)
    requires data != []
    ensures SysexFramed(data) ==> Interpret(Render(data), true) == Transmit(data)
    ensures !SysexFramed(data) ==> Interpret(Render(data), true) == Reject(UnterminatedSysex)
  {
    RenderParsesBack(data);
    RenderIsNotClear(data);
    InterpretParsed(Render(data), data);
  }

  /** What `receive` prints, if anything: the rendered bytes, when the filter lets them through. */
  function Received(filter: Filter, data: seq<Byte>): (line: Option<string>)
    ensures line.Some? <==> Shown(filter, data)
    ensures line.Some? ==> Words(line.value) == Tokens(data)
  {
    if Shown(filter, data) then
      RenderParsesBack(data);
      Some(Render(data))
    else None
  }
}
