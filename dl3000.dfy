/** The Rigol DL3000 electronic-load command wrapper.

    The instrument channel is a `Transport`: a log of every command written or query sent, in
    order, and a script of the replies the instrument will give to successive queries. An
    `Instrument` wraps one transport; every setter appends fixed SCPI text to the log, every
    reader sends one query and parses its reply. */
module Dl3000 {
  import opened Wrappers
  import opened Text

  /** One exchange on the channel: a command written, or a query sent. */
  datatype Message = Send(command: string) | Ask(command: string)

  function Sends(commands: seq<string>): seq<Message>
  {
    if commands == [] then [] else Sends(commands[..|commands| - 1]) + [Send(commands[|commands| - 1])]
  }

  lemma {:induction false} SendsAt(commands: seq<string>)
    ensures |Sends(commands)| == |commands|
    ensures forall k :: 0 <= k < |commands| ==> Sends(commands)[k] == Send(commands[k])
  {
    if commands != [] {
      SendsAt(commands[..|commands| - 1]);
    }
  }

  lemma {:induction false} SendsConcat(a: seq<string>, b: seq<string>)
    ensures Sends(a + b) == Sends(a) + Sends(b)
  {
    if b != [] {
      var b', x := b[..|b| - 1], b[|b| - 1];
      assert (a + b)[..|a + b| - 1] == a + b';
      assert Sends(a + b) == Sends(a + b') + [Send(x)];
      SendsConcat(a, b');
      assert Sends(b) == Sends(b') + [Send(x)];
    } else {
      assert a + b == a;
    }
  }

  /** An open VISA resource, as far as the wrapper sees it. A query for which the script holds no
      reply fails, as a timed-out or broken channel does. */
  class Transport {
    var log: seq<Message>
    var replies: seq<string>

    constructor (script: seq<string>)
      ensures log == [] && replies == script
    {
      log := [];
      replies := script;
    }

    method Write(command: string)
      modifies this
      ensures log == old(log) + [Send(command)]
      ensures replies == old(replies)
    {
      log := log + [Send(command)];
    }

    method Query(command: string) returns (reply: Option<string>)
      modifies this
      ensures log == old(log) + [Ask(command)]
      ensures old(replies) == [] ==> reply == None && replies == []
      ensures old(replies) != [] ==> reply == Some(old(replies)[0]) && replies == old(replies)[1..]
    {
      log := log + [Ask(command)];
      if replies == [] {
        reply := None;
      } else {
        reply := Some(replies[0]);
        replies := replies[1..];
      }
    }
  }

  // ---------------------------------------------------------------------------------------------
  // Replies

  /** `reply.partition("\n")[0]`: the reply up to its first newline. The instrument answers a
      measurement with the value, a newline and a status field; the status is dropped. */
  function FirstLine(reply: string): (line: string)
    ensures |line| <= |reply| && line == reply[..|line|]
    ensures forall k :: 0 <= k < |line| ==> line[k] != '\n'
    ensures |line| < |reply| ==> reply[|line|] == '\n'
  {
    if reply == [] || reply[0] == '\n' then [] else [reply[0]] + FirstLine(reply[1..])
  }

  /** End of the run of digits in t that starts at i. */
  function DigitRun(t: string, i: nat): (j: nat)
    requires i <= |t|
    ensures i <= j <= |t|
    ensures forall k :: i <= k < j ==> IsDigit(t[k])
    ensures j < |t| ==> !IsDigit(t[j])
    decreases |t| - i
  {
    if i < |t| && IsDigit(t[i]) then DigitRun(t, i + 1) else i
  }

  /** An exponent (`e`, optional sign, digits) that runs to the end of t, or nothing at all. */
  predicate ExponentToEnd(t: string, i: nat)
    requires i <= |t|
  {
    || i == |t|
    || ((t[i] == 'e' || t[i] == 'E') &&
        var k := if i + 1 < |t| && (t[i + 1] == '+' || t[i + 1] == '-') then i + 2 else i + 1;
        k < |t| && DigitRun(t, k) == |t|)
  }

  /** An unsigned decimal literal: digits with an optional fraction (at least one digit in all),
      then an optional exponent. */
  predicate IsDecimal(t: string) {
    var whole := DigitRun(t, 0);
    var point := whole < |t| && t[whole] == '.';
    var end := if point then DigitRun(t, whole + 1) else whole;
    var digits := if point then end - 1 else end;
    digits > 0 && ExponentToEnd(t, end)
  }

  function Lower(c: char): char {
    if 'A' <= c <= 'Z' then (c as int + 32) as char else c
  }

  predicate SameIgnoringCase(t: string, word: string) {
    |t| == |word| && forall k :: 0 <= k < |t| ==> Lower(t[k]) == word[k]
  }

  /** The ASCII information separators U+001C..U+001F: whitespace to `str.strip()`, but not to
      `float`, which strips only the ASCII tab-to-carriage-return run and the space, after turning
      non-ASCII whitespace into spaces. */
  predicate IsInformationSeparator(c: char) {
    '\U{1C}' <= c <= '\U{1F}'
  }

  /** The whitespace `float` strips around a number. */
  predicate IsFloatSpace(c: char) {
    IsSpace(c) && !IsInformationSeparator(c)
  }

  predicate NoSeparators(text: string) {
    forall k :: 0 <= k < |text| ==> !IsInformationSeparator(text[k])
  }

  /** A stripped text `float` reads: an optional sign followed by a decimal literal or by `inf`,
      `infinity` or `nan` in any case. */
  predicate IsFloatCore(t: string) {
    var body := if |t| > 0 && (t[0] == '+' || t[0] == '-') then t[1..] else t;
    || IsDecimal(body)
    || SameIgnoringCase(body, "inf") || SameIgnoringCase(body, "infinity") || SameIgnoringCase(body, "nan")
  }

  /** Python's `float(text)` succeeds: the stripped text is a number. No number contains an
      information separator, and `float` leaves one at either end in place, so a text holding
      one anywhere is rejected. */
  predicate IsFloatText(text: string) {
    NoSeparators(text) && IsFloatCore(Strip(text))
  }

  lemma SeparatorsOfJoin(a: string, t: string, b: string)
    ensures NoSeparators(a + t + b) <==> NoSeparators(a) && NoSeparators(t) && NoSeparators(b)
  {
    var s := a + t + b;
    if NoSeparators(s) {
      forall k | 0 <= k < |a| ensures !IsInformationSeparator(a[k]) { assert s[k] == a[k]; }
      forall k | 0 <= k < |t| ensures !IsInformationSeparator(t[k]) { assert s[|a| + k] == t[k]; }
      forall k | 0 <= k < |b| ensures !IsInformationSeparator(b[k]) { assert s[|a| + |t| + k] == b[k]; }
    }
  }

  /** `float` ignores exactly the whitespace it strips: a trimmed text surrounded by tabs, line
      breaks, spaces or non-ASCII whitespace is accepted exactly when the text alone is, and an
      information separator on either side makes it rejected. */
  lemma FloatIgnoresSurroundingSpace(a: string, t: string, b: string)
    requires AllSpace(a) && AllSpace(b)
    requires t == [] || (!IsSpace(t[0]) && !IsSpace(t[|t| - 1]))
    ensures (forall k :: 0 <= k < |a| ==> IsFloatSpace(a[k])) && (forall k :: 0 <= k < |b| ==> IsFloatSpace(b[k]))
      ==> (IsFloatText(a + t + b) <==> IsFloatText(t))
    ensures !NoSeparators(a) || !NoSeparators(b) ==> !IsFloatText(a + t + b)
  {
    StripExactly(a + t + b, a, t, b);
    StripExactly(t, [], t, []);
    assert [] + t + [] == t;
    SeparatorsOfJoin(a, t, b);
  }

  /** The seven measurement readers. All but the discharging time convert the value with `float`. */
  datatype Reading = Voltage | Current | Power | Resistance | Capability | WattHours | DischargingTime
  {
    function Query(): string {
      match this
      case Voltage => ":MEAS:VOLT?"
      case Current => ":MEAS:CURR?"
      case Power => ":MEAS:POW?"
      case Resistance => ":MEAS:RES?"
      case Capability => ":MEAS:CAP?"
      case WattHours => ":MEAS:WATT?"
      case DischargingTime => ":MEAS:DISCHARGINGTIME?"
    }

    predicate IsNumeric() { !DischargingTime? }
  }

  /** What a reader raises instead of returning. */
  datatype Fault = NoReply | NotANumber(text: string)

  /** A reader's result for a reply: the text before the first newline, which for a numeric reading
      must be something `float` accepts. The value itself is kept as text. */
  function ReadingValue(kind: Reading, reply: string): (r: Result<string, Fault>)
    ensures r.Success? ==> r.value == FirstLine(reply)
    ensures r.Failure? ==> kind.IsNumeric() && r == Failure(NotANumber(FirstLine(reply)))
    ensures r.Success? <==> !kind.IsNumeric() || IsFloatText(FirstLine(reply))
  {
    var line := FirstLine(reply);
    if kind.IsNumeric() && !IsFloatText(line) then Failure(NotANumber(line)) else Success(line)
  }

  /** The status field after the newline is discarded unchecked: two replies that differ only
      there read the same. */
  lemma {:induction false} StatusIgnored(kind: Reading, value: string, status1: string, status2: string)
    requires forall k :: 0 <= k < |value| ==> value[k] != '\n'
    ensures FirstLine(value + "\n" + status1) == value
    ensures ReadingValue(kind, value + "\n" + status1) == ReadingValue(kind, value + "\n" + status2)
  {
    FirstLineUpToNewline(value, status1);
    FirstLineUpToNewline(value, status2);
  }

  lemma {:induction false} FirstLineUpToNewline(value: string, rest: string)
    requires forall k :: 0 <= k < |value| ==> value[k] != '\n'
    ensures FirstLine(value + "\n" + rest) == value
  {
    var reply := value + "\n" + rest;
    var line := FirstLine(reply);
    assert reply[|value|] == '\n';
    assert line == reply[..|value|] == value;
  }

  /** `is_enabled`: the stripped reply is exactly "1". */
  predicate EnabledReply(reply: string) {
    Strip(reply) == "1"
  }

  /** `is_enabled` reports on exactly the replies that are "1" with whitespace around it. */
  lemma EnabledReplyExactly(reply: string)
    ensures EnabledReply(reply) <==> exists a, b :: AllSpace(a) && AllSpace(b) && reply == a + "1" + b
  {
    if EnabledReply(reply) {
      var a, b := EnabledReplySplit(reply);
    }
    if exists a, b :: AllSpace(a) && AllSpace(b) && reply == a + "1" + b {
      var a, b :| AllSpace(a) && AllSpace(b) && reply == a + "1" + b;
      StripExactly(reply, a, "1", b);
    }
  }

  lemma EnabledReplySplit(reply: string) returns (a: string, b: string)
    requires EnabledReply(reply)
    ensures AllSpace(a) && AllSpace(b) && reply == a + "1" + b
  {
    var r := Strip(reply);
    var i :| 0 <= i <= |reply| - |r| && reply[i..i + |r|] == r && AllSpace(reply[..i]) && AllSpace(reply[i + |r|..]);
    assert reply[i..i + 1] == "1";
    a, b := reply[..i], reply[i + 1..];
    SplitAround(reply, i);
  }

  lemma SplitLast<T>(s: seq<T>)
    requires s != []
    ensures s == s[..|s| - 1] + [s[|s| - 1]]
  {
  }

  lemma SplitAround<T>(s: seq<T>, i: nat)
    requires i < |s|
    ensures s == s[..i] + s[i..i + 1] + s[i + 1..]
  {
  }

  // ---------------------------------------------------------------------------------------------
  // Front-panel key entry used by set_battery_vstop

  const DecimalPointKey := 30
  const FirstDigitKey := 20
  const MenuKey := 16
  const OkKey := 41

  /** The command that presses front-panel key `code`. */
  function KeyPress(code: nat): string {
    ":SYSTEM:KEY " + NatText(code)
  }

  /** Every key code used here has two digits. */
  lemma TwoDigitKey(code: nat)
    requires 10 <= code < 100
    ensures KeyPress(code) == ":SYSTEM:KEY " + [DigitChar(code / 10), DigitChar(code % 10)]
  {
    assert NatText(code) == NatText(code / 10) + [DigitChar(code % 10)];
  }

  /** The key presses that enter one character: `.` is key 30, digit d is key 20 + d, and any other
      character (a minus sign) is skipped. */
  function CharKeys(c: char): (keys: seq<string>)
    ensures c == '.' ==> keys == [":SYSTEM:KEY 30"]
    ensures IsDigit(c) ==> keys == [":SYSTEM:KEY 2" + [c]]
    ensures c != '.' && !IsDigit(c) ==> keys == []
  {
    if c == '.' then
      TwoDigitKey(DecimalPointKey);
      assert DigitChar(3) == '3' && DigitChar(0) == '0';
      assert KeyPress(DecimalPointKey) == ":SYSTEM:KEY " + [DigitChar(3), DigitChar(0)];
      assert KeyPress(DecimalPointKey) == ":SYSTEM:KEY 30";
      [KeyPress(DecimalPointKey)]
    else if IsDigit(c) then
      var code := FirstDigitKey + DigitValue(c);
      TwoDigitKey(code);
      assert code / 10 == 2 && code % 10 == DigitValue(c);
      assert DigitChar(2) == '2' && DigitChar(DigitValue(c)) == c;
      assert KeyPress(code) == ":SYSTEM:KEY " + [DigitChar(2), c];
      assert KeyPress(code) == ":SYSTEM:KEY 2" + [c];
      [KeyPress(code)]
    else []
  }

  /** The key presses that enter a text, character by character. */
  function EntryKeys(s: string): seq<string> {
    if s == [] then [] else EntryKeys(s[..|s| - 1]) + CharKeys(s[|s| - 1])
  }

  /** A text the keypad can enter completely: digits and decimal points only. */
  predicate IsEntryText(s: string) {
    forall k :: 0 <= k < |s| ==> s[k] == '.' || IsDigit(s[k])
  }

  /** Number of characters of s that produce a key press. */
  function EnteredCount(s: string): nat {
    if s == [] then 0
    else EnteredCount(s[..|s| - 1]) + (if s[|s| - 1] == '.' || IsDigit(s[|s| - 1]) then 1 else 0)
  }

  /** The key code a `:SYSTEM:KEY n` command presses. */
  function KeyCodeOf(command: string): Option<nat> {
    var prefix := ":SYSTEM:KEY ";
    if |command| > |prefix| && command[..|prefix|] == prefix && AllDigits(command[|prefix|..])
    then Some(DigitsValue(command[|prefix|..]))
    else None
  }

  /** The character a key enters, for the digit keys and the decimal point. */
  function KeyChar(code: nat): Option<char> {
    if code == DecimalPointKey then Some('.')
    else if FirstDigitKey <= code < FirstDigitKey + 10 then Some(DigitChar(code - FirstDigitKey))
    else None
  }

  /** What the panel shows after a sequence of key presses, or None if a command is not a digit or
      decimal-point key. */
  function DecodeEntry(commands: seq<string>): Option<string> {
    if commands == [] then Some([])
    else
      match DecodeEntry(commands[..|commands| - 1])
      case None => None
      case Some(prefix) =>
        match KeyCodeOf(commands[|commands| - 1])
        case None => None
        case Some(code) =>
          match KeyChar(code)
          case None => None
          case Some(c) => Some(prefix + [c])
  }

  lemma KeyCodeOfKeyPress(code: nat)
    ensures KeyCodeOf(KeyPress(code)) == Some(code)
  {
    var command := KeyPress(code);
    assert command[|":SYSTEM:KEY "|..] == NatText(code);
    NatTextValue(code);
  }

  /** One command per digit or point, none for other characters. */
  lemma {:induction false} EntryKeysCount(s: string)
    ensures |EntryKeys(s)| == EnteredCount(s) <= |s|
    ensures IsEntryText(s) ==> EnteredCount(s) == |s|
  {
    if s != [] {
      var init := s[..|s| - 1];
      EntryKeysCount(init);
      if IsEntryText(s) {
        assert IsEntryText(init) by {
          forall k | 0 <= k < |init| ensures init[k] == '.' || IsDigit(init[k]) { assert init[k] == s[k]; }
        }
      }
    }
  }

  /** The command presses a digit key (20..29) or the decimal-point key (30). */
  predicate IsEntryKey(command: string) {
    exists code :: FirstDigitKey <= code <= DecimalPointKey && command == KeyPress(code)
  }

  /** Every emitted command presses a digit key or the decimal-point key. */
  lemma {:induction false} EntryKeysRange(s: string)
    ensures forall k :: 0 <= k < |EntryKeys(s)| ==> IsEntryKey(EntryKeys(s)[k])
  {
    if s != [] {
      var init := s[..|s| - 1];
      var c := s[|s| - 1];
      EntryKeysRange(init);
      var keys := EntryKeys(s);
      assert keys == EntryKeys(init) + CharKeys(c);
      if c == '.' {
        assert IsEntryKey(KeyPress(DecimalPointKey));
      } else if IsDigit(c) {
        assert IsEntryKey(KeyPress(FirstDigitKey + DigitValue(c)));
      }
      forall k | 0 <= k < |keys| ensures IsEntryKey(keys[k]) {
        if k < |EntryKeys(init)| {
          assert keys[k] == EntryKeys(init)[k];
        }
      }
    }
  }

  /** Entering one more character sends that character's key presses after the earlier ones. */
  lemma EntryKeysStep(text: string, i: nat)
    requires i < |text|
    ensures Sends(EntryKeys(text[..i + 1])) == Sends(EntryKeys(text[..i])) + Sends(CharKeys(text[i]))
    ensures text[i] == '.' ==> Sends(CharKeys(text[i])) == [Send(KeyPress(DecimalPointKey))]
    ensures IsDigit(text[i]) ==> Sends(CharKeys(text[i])) == [Send(KeyPress(FirstDigitKey + DigitValue(text[i])))]
    ensures text[i] != '.' && !IsDigit(text[i]) ==> Sends(CharKeys(text[i])) == []
  {
    assert text[..i + 1][..i] == text[..i];
    SendsConcat(EntryKeys(text[..i]), CharKeys(text[i]));
    SendsAt(CharKeys(text[i]));
  }

  /** A log that holds the key presses of the first i characters, followed by the presses of
      character i, holds those of the first i + 1. */
  lemma KeyInStep(start: seq<Message>, log: seq<Message>, text: string, i: nat)
    requires i < |text| && log == start + Sends(EntryKeys(text[..i]))
    ensures text[i] == '.' ==> log + [Send(KeyPress(DecimalPointKey))] == start + Sends(EntryKeys(text[..i + 1]))
    ensures IsDigit(text[i]) ==>
      log + [Send(KeyPress(FirstDigitKey + DigitValue(text[i])))] == start + Sends(EntryKeys(text[..i + 1]))
    ensures text[i] != '.' && !IsDigit(text[i]) ==> log == start + Sends(EntryKeys(text[..i + 1]))
  {
    EntryKeysStep(text, i);
    Extend(start, log, Sends(EntryKeys(text[..i])), Sends(CharKeys(text[i])), Sends(EntryKeys(text[..i + 1])));
  }

  /** Appending to a log that is `start + sent` the rest of `total` leaves `start + total`. */
  lemma Extend<T>(start: seq<T>, log: seq<T>, sent: seq<T>, more: seq<T>, total: seq<T>)
    requires log == start + sent && total == sent + more
    ensures log + more == start + total
  {
  }

  lemma EntryTextPrefix(s: string, n: nat)
    requires IsEntryText(s) && n <= |s|
    ensures IsEntryText(s[..n])
  {
    forall k | 0 <= k < n ensures s[..n][k] == '.' || IsDigit(s[..n][k]) { assert s[..n][k] == s[k]; }
  }

  /** The key a keypad character is entered with, and the character that key stands for. */
  lemma EntryKey(c: char) returns (code: nat)
    requires c == '.' || IsDigit(c)
    ensures CharKeys(c) == [KeyPress(code)] && KeyChar(code) == Some(c)
  {
    if c == '.' {
      code := DecimalPointKey;
    } else {
      code := FirstDigitKey + DigitValue(c);
      assert DigitChar(DigitValue(c)) == c;
    }
  }

  /** One more key press adds its character to what the panel shows. */
  lemma DecodeLastKey(keys: seq<string>, prefix: string, code: nat, c: char)
    requires DecodeEntry(keys) == Some(prefix) && KeyChar(code) == Some(c)
    ensures DecodeEntry(keys + [KeyPress(code)]) == Some(prefix + [c])
  {
    var all := keys + [KeyPress(code)];
    assert all[..|all| - 1] == keys;
    KeyCodeOfKeyPress(code);
  }

  /** Decoding the key presses gives back the text entered. */
  lemma {:induction false} EntryRoundTrip(s: string)
    requires IsEntryText(s)
    ensures DecodeEntry(EntryKeys(s)) == Some(s)
  {
    if s != [] {
      var init := s[..|s| - 1];
      var c := s[|s| - 1];
      EntryTextPrefix(s, |s| - 1);
      EntryRoundTrip(init);
      var code := EntryKey(c);
      DecodeLastKey(EntryKeys(init), init, code, c);
      SplitLast(s);
    }
  }


  /** The key encoding is injective on enterable texts. */
  lemma EntryInjective(s: string, t: string)
    requires IsEntryText(s) && IsEntryText(t)
    requires EntryKeys(s) == EntryKeys(t)
    ensures s == t
  {
    EntryRoundTrip(s);
    EntryRoundTrip(t);
  }

  function Magnitude(millivolts: int): nat {
    if millivolts < 0 then -millivolts else millivolts
  }

  /** `f"{voltage:.3f}"` for a non-negative voltage in millivolts: whole volts, a point, and exactly
      three decimals. */
  function UnsignedVoltageText(m: nat): (s: string)
    ensures |s| >= 5 && s[|s| - 4] == '.' && IsEntryText(s)
    ensures s[..|s| - 4] == NatText(m / 1000) && s[|s| - 3..] == Fixed(m % 1000, 3)
    ensures AllDigits(s[..|s| - 4]) && AllDigits(s[|s| - 3..])
  {
    var s := NatText(m / 1000) + "." + Fixed(m % 1000, 3);
    assert s[..|s| - 4] == NatText(m / 1000);
    assert s[|s| - 3..] == Fixed(m % 1000, 3);
    s
  }

  /** `f"{voltage:.3f}"`, for a voltage given as a whole number of millivolts. */
  function VoltageText(millivolts: int): (s: string)
    ensures |s| >= 5 && s[|s| - 4] == '.' && AllDigits(s[|s| - 3..])
    ensures millivolts >= 0 ==> IsEntryText(s)
    ensures millivolts < 0 ==> s == "-" + UnsignedVoltageText(Magnitude(millivolts))
  {
    var unsigned := UnsignedVoltageText(Magnitude(millivolts));
    if millivolts < 0 then
      var s := "-" + unsigned;
      assert s[|s| - 3..] == unsigned[|unsigned| - 3..];
      s
    else unsigned
  }

  /** The value, in millivolts, of a text with three decimals that the panel has received. */
  function EnteredMillivolts(s: string): nat
    requires |s| >= 5 && s[|s| - 4] == '.'
    requires AllDigits(s[..|s| - 4]) && AllDigits(s[|s| - 3..])
  {
    DigitsValue(s[..|s| - 4]) * 1000 + DigitsValue(s[|s| - 3..])
  }

  /** The panel receives the formatted voltage and reads back the same number of millivolts. A
      negative value loses its sign: the minus produces no key press. */
  lemma VoltageEntry(millivolts: int)
    ensures var text := UnsignedVoltageText(Magnitude(millivolts));
      && DecodeEntry(EntryKeys(VoltageText(millivolts))) == Some(text)
      && EntryKeys(VoltageText(millivolts)) == EntryKeys(text)
  {
    var m := Magnitude(millivolts);
    var s := UnsignedVoltageText(m);
    if millivolts < 0 {
      EntryKeysSkipsSign(s);
    }
    EntryRoundTrip(s);
  }

  /** The formatted voltage reads back as the millivolts it was made from. */
  lemma UnsignedVoltageValue(m: nat)
    ensures var text := UnsignedVoltageText(m);
      && AllDigits(text[..|text| - 4])
      && EnteredMillivolts(text) == m
  {
    NatTextValue(m / 1000);
    FixedValue(m % 1000, 3);
  }

  lemma {:induction false} EntryKeysSkipsSign(s: string)
    ensures EntryKeys("-" + s) == EntryKeys(s)
  {
    if s != [] {
      var init := s[..|s| - 1];
      assert ("-" + s)[..|"-" + s| - 1] == "-" + init;
      EntryKeysSkipsSign(init);
    }
  }

  const DebugKeysOn := ":DEBUG:KEY ON"
  const DebugKeysOff := ":DEBug:KEY OFF"

  function AppModeCommand(mode: string): string { ":SOURCE:FUNCTION:MODE " + mode }
  function ModeCommand(mode: string): string { ":SOURCE:FUNCTION " + mode }
  const EnableCommand := ":SOURCE:INPUT:STAT ON"
  const DisableCommand := ":SOURCE:INPUT:STAT OFF"
  const ResetCommand := "*RST"
  function CcCurrentCommand(current: string): string { ":SOURCE:CURRENT:LEV:IMM " + current }
  function CpPowerCommand(power: string): string { ":SOURCE:POWER:LEV:IMM " + power }

  /** What `cc` and `cp` write: the mode, the level, then the input on. `activate` plays no part. */
  function ConfigureAsWritten(mode: string, level: string, activate: bool): seq<string> {
    [ModeCommand(mode), level, EnableCommand]
  }

  /** The input is switched on even when the caller asks for it to stay off. */
  lemma ActivateIgnored(mode: string, level: string)
    ensures EnableCommand in ConfigureAsWritten(mode, level, false)
    ensures ConfigureAsWritten(mode, level, false) == ConfigureAsWritten(mode, level, true)
  {
    assert ConfigureAsWritten(mode, level, false)[2] == EnableCommand;
  }

  /** The mode command is never the enable command. */
  lemma ModeIsNotEnable(mode: string)
    ensures ModeCommand(mode) != EnableCommand
  {
    assert ModeCommand(mode)[8] == 'F' && EnableCommand[8] == 'I';
  }

  /** The level commands of `cc` and `cp` are never the enable command. */
  lemma LevelIsNotEnable(value: string)
    ensures CcCurrentCommand(value) != EnableCommand && CpPowerCommand(value) != EnableCommand
  {
    assert EnableCommand[8] == 'I' && CcCurrentCommand(value)[8] == 'C' && CpPowerCommand(value)[8] == 'P';
  }

  /** What the documentation of `cc` and `cp` describes: the mode, the level, and the input on
      exactly when `activate` is set. */
  function ConfigureAsDocumented(mode: string, level: string, activate: bool): (commands: seq<string>)
    requires level != EnableCommand
    ensures |commands| >= 2 && commands[..2] == [ModeCommand(mode), level]
    ensures |commands| == if activate then 3 else 2
    ensures EnableCommand in commands <==> activate
    ensures activate ==> commands == ConfigureAsWritten(mode, level, activate)
  {
    ModeIsNotEnable(mode);
    [ModeCommand(mode), level] + (if activate then [EnableCommand] else [])
  }

  /** Everything `set_battery_vstop` writes, in order. */
  function VstopCommands(millivolts: int): seq<string> {
    [DebugKeysOn, AppModeCommand("BATTERY"), KeyPress(MenuKey), KeyPress(MenuKey)]
      + EntryKeys(VoltageText(millivolts))
      + [KeyPress(OkKey), DebugKeysOff]
  }

  lemma VstopSends(millivolts: int)
    ensures Sends(VstopCommands(millivolts)) ==
      [Send(DebugKeysOn), Send(AppModeCommand("BATTERY")), Send(KeyPress(MenuKey)), Send(KeyPress(MenuKey))]
      + Sends(EntryKeys(VoltageText(millivolts)))
      + [Send(KeyPress(OkKey)), Send(DebugKeysOff)]
  {
    var opening := [DebugKeysOn, AppModeCommand("BATTERY"), KeyPress(MenuKey), KeyPress(MenuKey)];
    var keys := EntryKeys(VoltageText(millivolts));
    var closing := [KeyPress(OkKey), DebugKeysOff];
    SendsConcat(opening + keys, closing);
    SendsConcat(opening, keys);
    SendsFour(DebugKeysOn, AppModeCommand("BATTERY"), KeyPress(MenuKey), KeyPress(MenuKey));
    SendsTwo(KeyPress(OkKey), DebugKeysOff);
  }

  lemma SendsTwo(a: string, b: string)
    ensures Sends([a, b]) == [Send(a), Send(b)]
  {
    SendsAt([a, b]);
  }

  lemma SendsFour(a: string, b: string, c: string, d: string)
    ensures Sends([a, b, c, d]) == [Send(a), Send(b), Send(c), Send(d)]
  {
    SendsAt([a, b, c, d]);
  }

  lemma AppendTwo<T>(s: seq<T>, a: T, b: T)
    ensures s + [a] + [b] == s + [a, b]
  {
  }

  lemma AppendFour<T>(s: seq<T>, a: T, b: T, c: T, d: T)
    ensures s + [a] + [b] + [c] + [d] == s + [a, b, c, d]
  {
  }

  /** A log extended by a, then b, then c holds its start followed by a + b + c. */
  lemma Chain<T>(start: seq<T>, first: seq<T>, second: seq<T>, last: seq<T>, a: seq<T>, b: seq<T>, c: seq<T>)
    requires first == start + a && second == first + b && last == second + c
    ensures last == start + (a + b + c)
  {
  }

  /** The stop-voltage sequence is framed by debug mode on and off, selects battery mode, opens the
      menu with two presses of key 16, enters the value and confirms with key 41: six commands
      plus one per digit or point of the formatted value. */
  lemma VstopFraming(millivolts: int)
    ensures var cmds := VstopCommands(millivolts);
      && |cmds| == 6 + EnteredCount(VoltageText(millivolts))
      && cmds[..4] == [":DEBUG:KEY ON", ":SOURCE:FUNCTION:MODE BATTERY", ":SYSTEM:KEY 16", ":SYSTEM:KEY 16"]
      && cmds[|cmds| - 2..] == [":SYSTEM:KEY 41", ":DEBug:KEY OFF"]
      && cmds[4..|cmds| - 2] == EntryKeys(VoltageText(millivolts))
  {
    var keys := EntryKeys(VoltageText(millivolts));
    EntryKeysCount(VoltageText(millivolts));
    MenuAndOkKeys();
    assert AppModeCommand("BATTERY") == ":SOURCE:FUNCTION:MODE BATTERY";
    Framed([DebugKeysOn, AppModeCommand("BATTERY"), KeyPress(MenuKey), KeyPress(MenuKey)], keys, [KeyPress(OkKey), DebugKeysOff]);
  }

  lemma MenuAndOkKeys()
    ensures KeyPress(MenuKey) == ":SYSTEM:KEY 16" && KeyPress(OkKey) == ":SYSTEM:KEY 41"
  {
    TwoDigitKey(MenuKey);
    TwoDigitKey(OkKey);
    assert DigitChar(1) == '1' && DigitChar(6) == '6' && DigitChar(4) == '4';
  }

  /** The three parts of a concatenation can be cut back out of it. */
  lemma Framed<T>(a: seq<T>, m: seq<T>, b: seq<T>)
    ensures var s := a + m + b;
      && |s| == |a| + |m| + |b|
      && s[..|a|] == a && s[|a|..|s| - |b|] == m && s[|s| - |b|..] == b
  {
  }

  /** For a non-negative voltage every character of the formatted value is keyed in: the sequence
      has six commands plus one per character, and its middle decodes to the value. */
  lemma VstopEntersValue(millivolts: nat)
    ensures var cmds := VstopCommands(millivolts);
      && |cmds| == 6 + |VoltageText(millivolts)|
      && DecodeEntry(cmds[4..|cmds| - 2]) == Some(VoltageText(millivolts))
  {
    VstopFraming(millivolts);
    EntryKeysCount(VoltageText(millivolts));
    EntryRoundTrip(VoltageText(millivolts));
  }

  // ---------------------------------------------------------------------------------------------
  // The wrapper object

  /** `DL3000(inst)`: the command wrapper around an already opened resource. */
  class Instrument {
    const inst: Transport

    constructor (inst: Transport)
      ensures this.inst == inst
    {
      this.inst := inst;
    }

    /** One of the seven measurement readers (`voltage()`, `current()`, ...). */
    method Measure(kind: Reading) returns (r: Result<string, Fault>)
      modifies inst
      ensures inst.log == old(inst.log) + [Ask(kind.Query())]
      ensures old(inst.replies) == [] ==> r == Failure(NoReply) && inst.replies == []
      ensures old(inst.replies) != [] ==>
        r == ReadingValue(kind, old(inst.replies)[0]) && inst.replies == old(inst.replies)[1..]
    {
      var reply := inst.Query(kind.Query());
      if reply.None? {
        r := Failure(NoReply);
      } else {
        r := ReadingValue(kind, reply.value);
      }
    }

    method SetCcSlewRate(slew: string)
      modifies inst
      ensures inst.log == old(inst.log) + [Send(":SOURCE:CURRENT:SLEW " + slew)]
      ensures inst.replies == old(inst.replies)
    {
      inst.Write(":SOURCE:CURRENT:SLEW " + slew);
    }

    method IsEnabled() returns (r: Result<bool, Fault>)
      modifies inst
      ensures inst.log == old(inst.log) + [Ask(":SOURCE:INPUT:STAT?")]
      ensures old(inst.replies) == [] ==> r == Failure(NoReply) && inst.replies == []
      ensures old(inst.replies) != [] ==>
        r == Success(EnabledReply(old(inst.replies)[0])) && inst.replies == old(inst.replies)[1..]
    {
      var reply := inst.Query(":SOURCE:INPUT:STAT?");
      if reply.None? {
        r := Failure(NoReply);
      } else {
        r := Success(Strip(reply.value) == "1");
      }
    }

    method Enable()
      modifies inst
      ensures inst.log == old(inst.log) + [Send(EnableCommand)]
      ensures inst.replies == old(inst.replies)
    {
      inst.Write(EnableCommand);
    }

    method Disable()
      modifies inst
      ensures inst.log == old(inst.log) + [Send(DisableCommand)]
      ensures inst.replies == old(inst.replies)
    {
      inst.Write(DisableCommand);
    }

    method SetMode(mode: string := "CC")
      modifies inst
      ensures inst.log == old(inst.log) + [Send(ModeCommand(mode))]
      ensures inst.replies == old(inst.replies)
    {
      inst.Write(ModeCommand(mode));
    }

    method SetAppMode(mode: string := "BATTERY")
      modifies inst
      ensures inst.log == old(inst.log) + [Send(AppModeCommand(mode))]
      ensures inst.replies == old(inst.replies)
    {
      inst.Write(AppModeCommand(mode));
    }

    /** Programs the battery-mode stop voltage by emulating front-panel key presses. */
    method SetBatteryVstop(millivolts: int)
      modifies inst
      ensures inst.log == old(inst.log) + Sends(VstopCommands(millivolts))
      ensures inst.replies == old(inst.replies)
    {
      ghost var start := inst.log;
      inst.Write(DebugKeysOn);
      SetAppMode("BATTERY");
      inst.Write(KeyPress(MenuKey));
      inst.Write(KeyPress(MenuKey));
      ghost var menu := inst.log;
      KeyIn(VoltageText(millivolts));
      ghost var entered := inst.log;
      inst.Write(KeyPress(OkKey));
      inst.Write(DebugKeysOff);
      AppendFour(start, Send(DebugKeysOn), Send(AppModeCommand("BATTERY")), Send(KeyPress(MenuKey)), Send(KeyPress(MenuKey)));
      AppendTwo(entered, Send(KeyPress(OkKey)), Send(DebugKeysOff));
      VstopSends(millivolts);
      Chain(start, menu, entered, inst.log,
        [Send(DebugKeysOn), Send(AppModeCommand("BATTERY")), Send(KeyPress(MenuKey)), Send(KeyPress(MenuKey))],
        Sends(EntryKeys(VoltageText(millivolts))), [Send(KeyPress(OkKey)), Send(DebugKeysOff)]);
    }

    /** The character loop of `set_battery_vstop`: one key press per digit or decimal point of
        the formatted value, nothing for other characters. */
    method KeyIn(text: string)
      modifies inst
      ensures inst.log == old(inst.log) + Sends(EntryKeys(text))
      ensures inst.replies == old(inst.replies)
    {
      ghost var start := inst.log;
      assert text[..0] == [];
      for i := 0 to |text|
        invariant inst.log == start + Sends(EntryKeys(text[..i]))
        invariant inst.replies == old(inst.replies)
      {
        KeyInStep(start, inst.log, text, i);
        var c := text[i];
        if c == '.' {
          inst.Write(KeyPress(DecimalPointKey));
        } else if IsDigit(c) {
          inst.Write(KeyPress(FirstDigitKey + DigitValue(c)));
        }
      }
      assert text[..|text|] == text;
    }

    method SetCcVlim(vlim: string := "5")
      modifies inst
      ensures inst.log == old(inst.log) + [Send(":SOURCE:CURR:VLIM  " + vlim)]
      ensures inst.replies == old(inst.replies)
    {
      inst.Write(":SOURCE:CURR:VLIM  " + vlim);
    }

    method QueryMode() returns (r: Result<string, Fault>)
      modifies inst
      ensures inst.log == old(inst.log) + [Ask(":SOURCE:FUNCTION?")]
      ensures old(inst.replies) == [] ==> r == Failure(NoReply) && inst.replies == []
      ensures old(inst.replies) != [] ==>
        r == Success(Strip(old(inst.replies)[0])) && inst.replies == old(inst.replies)[1..]
    {
      var reply := inst.Query(":SOURCE:FUNCTION?");
      if reply.None? {
        r := Failure(NoReply);
      } else {
        r := Success(Strip(reply.value));
      }
    }

    method SetCcCurrent(current: string)
      modifies inst
      ensures inst.log == old(inst.log) + [Send(CcCurrentCommand(current))]
      ensures inst.replies == old(inst.replies)
    {
      inst.Write(CcCurrentCommand(current));
    }

    method SetCpPower(power: string)
      modifies inst
      ensures inst.log == old(inst.log) + [Send(CpPowerCommand(power))]
      ensures inst.replies == old(inst.replies)
    {
      inst.Write(CpPowerCommand(power));
    }

    /** Sets the CP current limit. The command goes out as a query, so it consumes a reply. */
    method SetCpIlim(ilim: string) returns (r: Result<string, Fault>)
      modifies inst
      ensures inst.log == old(inst.log) + [Ask(":SOURCE:POWER:ILIM " + ilim)]
      ensures old(inst.replies) == [] ==> r == Failure(NoReply) && inst.replies == []
      ensures old(inst.replies) != [] ==>
        r == Success(old(inst.replies)[0]) && inst.replies == old(inst.replies)[1..]
    {
      var reply := inst.Query(":SOURCE:POWER:ILIM " + ilim);
      if reply.None? {
        r := Failure(NoReply);
      } else {
        r := Success(reply.value);
      }
    }

    /** Constant-current set-up: mode CC, the current level, then the input on, whatever
        `activate` says. */
    method Cc(current: string, activate: bool := true)
      modifies inst
      ensures inst.log == old(inst.log) + Sends(ConfigureAsWritten("CC", CcCurrentCommand(current), activate))
      ensures inst.replies == old(inst.replies)
    {
      SetMode("CC");
      SetCcCurrent(current);
      Enable();
      SendsAt(ConfigureAsWritten("CC", CcCurrentCommand(current), activate));
    }

    /** Constant-power set-up: mode CP, the power level, then the input on, whatever `activate`
        says. */
    method Cp(power: string, activate: bool := true)
      modifies inst
      ensures inst.log == old(inst.log) + Sends(ConfigureAsWritten("CP", CpPowerCommand(power), activate))
      ensures inst.replies == old(inst.replies)
    {
      SetMode("CP");
      SetCpPower(power);
      Enable();
      SendsAt(ConfigureAsWritten("CP", CpPowerCommand(power), activate));
    }

    /** Constant-current set-up as its documentation describes it: the input is switched on only
        when `activate` is set. */
    method CcAsDocumented(current: string, activate: bool := true)
      modifies inst
      ensures inst.log == old(inst.log) + Sends(ConfigureAsDocumented("CC", CcCurrentCommand(current), activate))
      ensures inst.replies == old(inst.replies)
    {
      LevelIsNotEnable(current);
      SetMode("CC");
      SetCcCurrent(current);
      if activate {
        Enable();
      }
      SendsAt(ConfigureAsDocumented("CC", CcCurrentCommand(current), activate));
    }

    /** Constant-power set-up as its documentation describes it. */
    method CpAsDocumented(power: string, activate: bool := true)
      modifies inst
      ensures inst.log == old(inst.log) + Sends(ConfigureAsDocumented("CP", CpPowerCommand(power), activate))
      ensures inst.replies == old(inst.replies)
    {
      LevelIsNotEnable(power);
      SetMode("CP");
      SetCpPower(power);
      if activate {
        Enable();
      }
      SendsAt(ConfigureAsDocumented("CP", CpPowerCommand(power), activate));
    }

    method Reset()
      modifies inst
      ensures inst.log == old(inst.log) + [Send(ResetCommand)]
      ensures inst.replies == old(inst.replies)
    {
      inst.Write(ResetCommand);
    }
  }
}
