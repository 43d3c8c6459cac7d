/**
 * The command interpreter: the `send` line handler of the page's script,
 * as a pure function from a submitted line to the action it takes.
 */
module Command {
  import opened Base
  import opened Text

  predicate IsHexDigit(c: char) {
    ('0' <= c <= '9') || ('a' <= c <= 'f') || ('A' <= c <= 'F')
  }

  function DigitValue(c: char): (v: nat)
    requires IsHexDigit(c)
    ensures v < 16
  {
    if '0' <= c <= '9' then c as int - '0' as int
    else if 'a' <= c <= 'f' then c as int - 'a' as int + 10
    else c as int - 'A' as int + 10
  }

  /** A non-empty run of hexadecimal digits: what may follow `0x` in a numeric string. */
  predicate IsHexNumeral(s: string) {
    s != [] && forall i :: 0 <= i < |s| ==> IsHexDigit(s[i])
  }

  /** The value of a run of hexadecimal digits, most significant first. */
  function HexValue(s: string): nat
    requires forall i :: 0 <= i < |s| ==> IsHexDigit(s[i])
  {
    if s == [] then 0 else 16 * HexValue(s[..|s| - 1]) + DigitValue(s[|s| - 1])
  }

  /** A two-digit numeral: high digit times 16 plus low digit. */
  lemma HexValueOfPair(s: string)
    requires |s| == 2 && IsHexDigit(s[0]) && IsHexDigit(s[1])
    ensures HexValue(s) == 16 * DigitValue(s[0]) + DigitValue(s[1])
  {
    var hi := s[..1];
    assert hi[..0] == [];
    assert HexValue(hi) == 16 * HexValue(hi[..0]) + DigitValue(hi[0]);
    assert HexValue(s) == 16 * HexValue(hi) + DigitValue(s[1]);
  }

  /**
   * `Number("0x" + word)` for a word of the split line: the hexadecimal
   * value when the word is a run of hex digits, NaN (here `None`) otherwise.
   */
  function HexNumber(word: string): (r: Option<nat>)
    ensures r.Some? <==> IsHexNumeral(word)
  {
    if IsHexNumeral(word) then Some(HexValue(word)) else None
  }

  /** A word that survives `isNaN(x) || x > 0xff`. */
  predicate IsByteToken(word: string) {
    IsHexNumeral(word) && HexValue(word) <= 0xff
  }

  /**
   * `words.map(x => Number("0x" + x))` followed by the `some(...)` test:
   * the bytes when every word is a hex numeral of value at most 0xff.
   */
  function ParseBytes(words: seq<string>): (r: Option<seq<Byte>>)
    ensures r.None? <==> exists k :: 0 <= k < |words| && !IsByteToken(words[k])
    ensures r.Some? ==> |r.value| == |words|
    ensures r.Some? ==> forall k :: 0 <= k < |words| ==> r.value[k] == HexValue(words[k])
  {
    if words == [] then Some([])
    else
      var head := HexNumber(words[0]);
      var tail := ParseBytes(words[1..]);
      assert forall j :: 0 <= j < |words| - 1 ==> words[1..][j] == words[j + 1];
      if head.Some? && head.value <= 0xff && tail.Some? then Some([head.value as Byte] + tail.value)
      else None
  }

  /**
   * The status-byte test exactly as the script writes it,
   * `bytes[0] & 0x80 == 0`: equality binds tighter than `&`, so this is
   * `bytes[0] & (0x80 == 0)`, i.e. `bytes[0] & false`, which is `bytes[0] & 0`.
   * A missing first byte is `undefined`, which `&` turns into 0 as well.
   */
  function StatusTestAsWritten(bytes: seq<Byte>): (rejects: bool)
    ensures !rejects
  {
    var first: bv32 := if bytes == [] then 0 else bytes[0] as bv32;
    var flag: bv32 := if 0x80 == 0 then 1 else 0;
    first & flag != 0
  }

  /** A System Exclusive message (first byte 0xF0) must end with End of Exclusive (0xF7). */
  predicate SysexFramed(bytes: seq<Byte>) {
    bytes != [] && bytes[0] == 0xf0 ==> bytes[|bytes| - 1] == 0xf7
  }

  /** What `send` does with one submitted line. */
  datatype Action =
    | Clear                    // remove every printed line
    | Reject(message: string)  // print `message` in the error colour, send nothing
    | Transmit(bytes: seq<Byte>) // call `transmit(bytes)`
    | Idle                     // do nothing

  const InvalidBytes := "Invalid byte sequence: "
  const NoStatusByte := "Commands must start with a status byte"
  const UnterminatedSysex := "System exclusive messages must end with f7"
  const InvalidCommand := "Invalid MIDI command: "

  /** The line's first word is the literal `clear`. */
  predicate IsClear(line: string) {
    var words := Words(line);
    words != [] && words[0] == "clear"
  }

  /**
   * `send(line)` up to the call of `transmit`. `canTransmit` says whether
   * `transmit` is non-null (MIDI access was granted).
   */
  function Interpret(line: string, canTransmit: bool): (a: Action)
    ensures a.Transmit? ==> canTransmit && a.bytes != [] && SysexFramed(a.bytes)
    ensures a.Transmit? ==> ParseBytes(Words(line)) == Some(a.bytes)
    ensures a == Clear <==> IsClear(line)
  {
    var words := Words(line);
    if words != [] && words[0] == "clear" then Clear
    else
      match ParseBytes(words)
      case None => Reject(InvalidBytes + Trim(line))
      case Some(bytes) =>
        if StatusTestAsWritten(bytes) then Reject(NoStatusByte)
        else if bytes != [] && bytes[0] == 0xf0 && bytes[|bytes| - 1] != 0xf7 then Reject(UnterminatedSysex)
        else if canTransmit && bytes != [] then Transmit(bytes)
        else Idle
  }

  /**
   * A line that is not `clear` is rejected as an invalid byte sequence
   * exactly when one of its words is not a hex numeral of value at most 0xff.
   */
  lemma RejectsBadTokenIff(line: string, canTransmit: bool)
    requires !IsClear(line)
    ensures Interpret(line, canTransmit) == Reject(InvalidBytes + Trim(line))
        <==> exists k :: 0 <= k < |Words(line)| && !IsByteToken(Words(line)[k])
  {
    var m := InvalidBytes + Trim(line);
    assert m[0] == 'I';
    assert NoStatusByte[0] != 'I';
    assert UnterminatedSysex[0] != 'I';
  }

  /**
   * A line is transmitted exactly when a transmitter exists, the line is not
   * `clear`, every word is a byte, there is at least one, and SysEx framing holds.
   */
  lemma TransmitsIff(line: string, canTransmit: bool)
    ensures Interpret(line, canTransmit).Transmit?
        <==> && canTransmit
             && !IsClear(line)
             && ParseBytes(Words(line)).Some?
             && Words(line) != []
             && SysexFramed(ParseBytes(Words(line)).value)
  {
  }

  /** An unterminated SysEx block is rejected with its own message and never sent. */
  lemma UnterminatedSysexRejected(line: string, canTransmit: bool, bytes: seq<Byte>)
    requires !IsClear(line)
    requires ParseBytes(Words(line)) == Some(bytes)
    requires bytes != [] && bytes[0] == 0xf0 && bytes[|bytes| - 1] != 0xf7
    ensures Interpret(line, canTransmit) == Reject(UnterminatedSysex)
  {
  }

  /** A line other than `clear` whose words parse to a non-empty byte sequence is sent exactly when it is well framed. */
  lemma InterpretParsed(line: string, bytes: seq<Byte>)
    requires !IsClear(line)
    requires ParseBytes(Words(line)) == Some(bytes) && bytes != []
    ensures Interpret(line, true) == if SysexFramed(bytes) then Transmit(bytes) else Reject(UnterminatedSysex)
  {
  }

  /** The status-byte branch as written is dead: no line ever gets its message. */
  lemma StatusByteNeverRequired(line: string, canTransmit: bool)
    ensures Interpret(line, canTransmit) != Reject(NoStatusByte)
  {
    var words := Words(line);
    if !IsClear(line) && ParseBytes(words).None? {
      assert (InvalidBytes + Trim(line))[0] == 'I';
    }
  }
}

/** Worked examples of the interpreter on concrete lines. */
module CommandExamples {
  import opened Base
  import opened Text
  import opened Command

  /** A one-word line splits into that word and trims to itself. */
  lemma SingleWord(w: string)
    requires IsWord(w)
    ensures Words(w) == [w] && Trim(w) == w
  {
    WordsOfJoin([w]);
    assert TrimStart(w) == w;
    assert TrimEnd(w) == w;
  }

  /** What a one-word line other than `clear` does. */
  lemma SingleToken(w: string)
    requires IsWord(w) && w != "clear"
    ensures !IsByteToken(w) ==> Interpret(w, true) == Reject(InvalidBytes + w)
    ensures IsByteToken(w) && HexValue(w) != 0xf0 ==> Interpret(w, true) == Transmit([HexValue(w) as Byte])
  {
    SingleWord(w);
    assert !IsClear(w);
    if IsByteToken(w) {
      var r := ParseBytes([w]);
      assert r.Some? && |r.value| == 1 && r.value[0] == HexValue(w);
      assert r.value == [HexValue(w) as Byte];
      InterpretParsed(w, r.value);
    }
  }

  /** "gg" is not hexadecimal: rejected. */
  lemma RejectsNonHex()
    ensures Interpret("gg", true) == Reject("Invalid byte sequence: gg")
  {
    var w := "gg";
    assert !IsHexDigit(w[0]);
    SingleToken(w);
  }

  /** "100" is 256: rejected as out of range. */
  lemma RejectsOutOfRange()
    ensures Interpret("100", true) == Reject("Invalid byte sequence: 100")
  {
    var w := "100";
    assert HexValue(w) == 256 by {
      assert w[..2] == "10";
      HexValueOfPair("10");
    }
    SingleToken(w);
  }

  /** A user-typed prefix makes "0x0x1f", which is NaN: rejected. */
  lemma RejectsPrefixedToken()
    ensures Interpret("0x1f", true) == Reject("Invalid byte sequence: 0x1f")
  {
    var w := "0x1f";
    assert !IsHexDigit(w[1]);
    SingleToken(w);
  }

  /** Leading zeros are accepted: "00ff" is the byte 0xff. */
  lemma AcceptsLeadingZeros()
    ensures Interpret("00ff", true) == Transmit([0xff])
  {
    var w := "00ff";
    assert HexValue(w) == 0xff by {
      assert w[..3][..2] == "00";
      HexValueOfPair("00");
      assert w[..3] == "00f";
    }
    assert IsByteToken(w);
    SingleToken(w);
    assert Interpret(w, true) == Transmit([0xff]);
  }

  /** Upper-case digits are accepted: "FF" is the byte 0xff. */
  lemma AcceptsUpperCase()
    ensures Interpret("FF", true) == Transmit([0xff])
  {
    var w := "FF";
    HexValueOfPair(w);
    assert HexValue(w) == 0xff;
    assert IsByteToken(w);
    SingleToken(w);
    assert Interpret(w, true) == Transmit([0xff]);
  }

  lemma UnterminatedWords()
    ensures Words("f0 01") == ["f0", "01"]
  {
    var ws := ["f0", "01"];
    assert Join(ws) == "f0 01";
    WordsOfJoin(ws);
  }

  lemma UnterminatedBytes()
    ensures ParseBytes(["f0", "01"]) == Some([0xf0, 0x01])
  {
    var ws := ["f0", "01"];
    HexValueOfPair("f0");
    HexValueOfPair("01");
    assert IsByteToken(ws[0]) && IsByteToken(ws[1]);
    var r := ParseBytes(ws);
    assert r.Some? && r.value[0] == 0xf0 && r.value[1] == 0x01;
    assert r.value == [0xf0, 0x01];
  }

  /** Scenario: a SysEx block without its terminator is refused. */
  lemma RefusesUnterminatedSysex()
    ensures Interpret("f0 01", true) == Reject("System exclusive messages must end with f7")
  {
    var line := "f0 01";
    UnterminatedWords();
    UnterminatedBytes();
    assert !IsClear(line);
    InterpretParsed(line, [0xf0, 0x01]);
    assert Interpret(line, true) == Reject(UnterminatedSysex);
  }

  /** Scenario: `clear` is recognised whatever follows it. */
  lemma ClearsScrollback()
    ensures Interpret("clear", true) == Clear
    ensures Interpret("clear ff", false) == Clear
  {
    SingleWord("clear");
    WordsOfJoin(["clear", "ff"]);
    assert Join(["clear", "ff"]) == "clear ff";
  }

  lemma IdentityRequestWords()
    ensures Words("f0 7e 00 06 01 f7") == ["f0", "7e", "00", "06", "01", "f7"]
  {
    var ws := ["f0", "7e", "00", "06", "01", "f7"];
    assert Join(ws[4..]) == "01 f7";
    assert Join(ws[3..]) == "06 01 f7";
    assert Join(ws[2..]) == "00 06 01 f7";
    assert Join(ws[1..]) == "7e 00 06 01 f7";
    assert Join(ws) == "f0 7e 00 06 01 f7";
    WordsOfJoin(ws);
  }

  lemma IdentityRequestBytes()
    ensures ParseBytes(["f0", "7e", "00", "06", "01", "f7"]) == Some([0xf0, 0x7e, 0x00, 0x06, 0x01, 0xf7])
  {
    var ws := ["f0", "7e", "00", "06", "01", "f7"];
    var bytes: seq<Byte> := [0xf0, 0x7e, 0x00, 0x06, 0x01, 0xf7];
    HexValueOfPair("f0");
    HexValueOfPair("7e");
    HexValueOfPair("00");
    HexValueOfPair("06");
    HexValueOfPair("01");
    HexValueOfPair("f7");
    assert forall k :: 0 <= k < |ws| ==> IsByteToken(ws[k]) && HexValue(ws[k]) == bytes[k];
    var r := ParseBytes(ws);
    assert r.Some?;
    assert r.value == bytes;
  }

  /** Scenario: a well-framed identity request is sent byte for byte. */
  lemma SendsIdentityRequest()
    ensures Interpret("f0 7e 00 06 01 f7", true) == Transmit([0xf0, 0x7e, 0x00, 0x06, 0x01, 0xf7])
  {
    var line := "f0 7e 00 06 01 f7";
    IdentityRequestWords();
    IdentityRequestBytes();
    assert !IsClear(line);
    InterpretParsed(line, [0xf0, 0x7e, 0x00, 0x06, 0x01, 0xf7]);
  }
}
