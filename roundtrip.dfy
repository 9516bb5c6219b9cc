/**
 * The two ends together. A command the host's click handlers send reaches
 * processCommands as the bytes of "<set k p v>"; the ungated firmware answers
 * with a "<WDp v>" or "<WAp v>" frame, and the host's parse_message turns that
 * frame into the label or value the widget shows.
 *
 * On the wire each byte is one char to the board (Serial.read), and the board's
 * output chars are bytes to the host; all text exchanged here is ASCII, so the
 * bytes are exactly the UTF-8 encoding the host uses.
 */
module RoundTrip {
  import opened Util
  import opened Decimal
  import opened PyStr
  import Utf8
  import opened CStr
  import opened Commands
  import opened Framer
  import RootDevino
  import GatedDevino
  import opened Host

  /** Serial.read: each byte read as a char. */
  function Chars(bs: seq<Utf8.byte>): (s: string)
    ensures |s| == |bs| && forall i | 0 <= i < |bs| :: s[i] as int == bs[i] as int
  {
    seq(|bs|, i requires 0 <= i < |bs| => (bs[i] as int) as char)
  }

  /** Serial.print: each char written as a byte. */
  function Bytes(s: string): (bs: seq<Utf8.byte>)
    requires forall i | 0 <= i < |s| :: s[i] as int < 0x100
    ensures |bs| == |s| && forall i | 0 <= i < |s| :: bs[i] as int == s[i] as int
  {
    seq(|s|, i requires 0 <= i < |s| => (s[i] as int) as Utf8.byte)
  }

  /** Text that is ASCII and holds none of '<', '>', NUL, newline or ','. */
  predicate Plain(s: string)
  {
    forall i | 0 <= i < |s| :: s[i] as int < 0x80 && s[i] !in {'<', '>', '\0', '\n', ','}
  }

  lemma {:induction false} PlainConcat(a: string, b: string)
    requires Plain(a) && Plain(b)
    ensures Plain(a + b)
  {
    forall i | 0 <= i < |a + b| ensures (a + b)[i] as int < 0x80 && (a + b)[i] !in {'<', '>', '\0', '\n', ','} {
      if i < |a| {
        assert (a + b)[i] == a[i];
      } else {
        assert (a + b)[i] == b[i - |a|];
      }
    }
  }

  /** Plain text has no framing, NUL, newline or comma characters anywhere. */
  lemma {:induction false} PlainExcludes(s: string)
    requires Plain(s)
    ensures '<' !in s && '>' !in s && '\0' !in s && '\n' !in s && ',' !in s && Utf8.IsAscii(s)
  {
    forall c | c in s ensures c !in {'<', '>', '\0', '\n', ','} {
      var i :| 0 <= i < |s| && s[i] == c;
    }
  }

  /** The lines and frames the two ends exchange are plain. */
  lemma {:induction false} MessagePlain(a: string, n: nat, m: nat)
    requires Plain(a)
    ensures Plain(a + NatToString(n) + " " + NatToString(m))
  {
    PlainConcat(a, NatToString(n));
    PlainConcat(a + NatToString(n), " ");
    PlainConcat(a + NatToString(n) + " ", NatToString(m));
  }

  /** Reading the bytes of ASCII text on the board gives the text back. */
  lemma {:induction false} CharsOfAscii(s: string)
    requires Utf8.IsAscii(s)
    ensures Chars(Utf8.Encode(s)) == s
  {
    Utf8.EncodeAscii(s);
  }

  /** Writing ASCII text on the board gives the host its UTF-8 encoding. */
  lemma {:induction false} BytesOfAscii(s: string)
    requires Utf8.IsAscii(s)
    ensures forall i | 0 <= i < |s| :: s[i] as int < 0x100
    ensures Bytes(s) == Utf8.Encode(s)
  {
    Utf8.EncodeAscii(s);
  }

  /**
   * What set_digital and set_pwm send reaches runCommand intact: after any text
   * without '<', the bytes of "<set k p v>" complete exactly the line "set k p v",
   * which decodes to the write it names, and the bytes after it stay unread.
   */
  lemma {:induction false} HostCommandFramed(kind: char, pin: nat, value: nat, junk: seq<char>, rest: seq<char>)
    requires kind == 'a' || kind == 'd'
    requires pin <= 0x7FFF && value <= 0x7FFF && '<' !in junk
    ensures var line := SetLine(kind, pin, value);
            Chars(Utf8.Encode(SetCommand(kind, NatToString(pin), NatToString(value)))) == "<" + line + ">"
            && Call(false, 0, junk + "<" + line + ">" + rest) == Frame(false, 0, true, line, rest, Complete(line))
            && CommandDefined(Tokens(line))
            && Decode(Tokens(line)) == (if kind == 'a' then WriteAnalogReq(pin, value) else WriteDigitalReq(pin, value))
  {
    var line := SetLine(kind, pin, value);
    var cmd := SetCommand(kind, NatToString(pin), NatToString(value));
    assert cmd == "<" + line + ">";
    MessagePlain("set " + [kind] + " ", pin, value);
    assert line == "set " + [kind] + " " + NatToString(pin) + " " + NatToString(value);
    PlainExcludes(line);
    assert Utf8.IsAscii(cmd) by {
      forall i | 0 <= i < |cmd| ensures cmd[i] as int < 0x80 {
        if 0 < i < |cmd| - 1 {
          assert cmd[i] == line[i - 1];
        }
      }
    }
    CharsOfAscii(cmd);
    FramesOneCommand(junk, line, rest);
    assert Pow10(5) == 100000;
    NatToStringLength(pin, 5);
    NatToStringLength(value, 5);
    ShortLineIntact(line);
    DecodeSetLine(kind, pin, value);
  }

  /** Decimal digits are plain and hold no space. */
  lemma {:induction false} DigitsPlain(n: nat)
    ensures Plain(NatToString(n)) && ' ' !in NatToString(n)
  {
    var d := NatToString(n);
    forall i | 0 <= i < |d| ensures d[i] as int < 0x80 && d[i] !in {'<', '>', '\0', '\n', ',', ' '} {
      assert IsDigit(d[i]);
    }
  }

  /** A report frame is plain text around its entry, and the host decodes its bytes back to it. */
  lemma {:induction false} ReportDecodes(tag: string, pin: nat, value: nat)
    requires Plain(tag)
    ensures var report := Report(tag, pin, value);
            report == "<" + Entry(tag, pin, value) + ">"
            && Plain(Entry(tag, pin, value))
            && (forall i | 0 <= i < |report| :: report[i] as int < 0x100)
            && Utf8.Decode(Bytes(report)) == Some(report)
  {
    var data := Entry(tag, pin, value);
    var report := Report(tag, pin, value);
    assert report == "<" + data + ">";
    MessagePlain(tag, pin, value);
    assert Utf8.IsAscii(report) by {
      forall i | 0 <= i < |report| ensures report[i] as int < 0x80 {
        if 0 < i < |report| - 1 {
          assert report[i] == data[i - 1];
        }
      }
    }
    BytesOfAscii(report);
    Utf8.DecodeEncode(report);
  }

  /** re.findall and the comma split find exactly the entry in a frame followed by text without '<'. */
  lemma {:induction false} FrameEntries(data: string, after: string)
    requires Plain(data) && '<' !in after
    ensures Entries("<" + data + ">" + after) == [data]
  {
    PlainExcludes(data);
    EntriesStep([], data, after);
    assert [] + "<" + data + ">" + after == "<" + data + ">" + after;
    EntriesNone(after);
    SplitNoSep(data, ',');
  }

  /** The key and value fields update_*_display read from an entry. */
  lemma {:induction false} EntryFields(tag: string, pin: nat, value: nat)
    requires |tag| == 2 && ' ' !in tag
    ensures PinKey(Entry(tag, pin, value)) == [tag[1]] + NatToString(pin)
    ensures ValueField(Entry(tag, pin, value)) == Some(NatToString(value))
    ensures PyInt(NatToString(value)) == Some(value)
  {
    var p, v := NatToString(pin), NatToString(value);
    var head := tag + p;
    DigitsPlain(pin);
    DigitsPlain(value);
    assert ' ' !in head;
    assert Entry(tag, pin, value) == head + [' '] + v;
    SplitAt(head, v, ' ');
    SplitNoSep(v, ' ');
    assert head[1..] == [tag[1]] + p;
    PyIntOfNat(value);
  }

  /** A report the firmware prints reaches the host as one entry, whose key is the tag's second letter and the pin. */
  lemma {:induction false} ReportIsOneEntry(tag: string, pin: nat, value: nat)
    requires |tag| == 2 && Plain(tag) && ' ' !in tag
    ensures var report := Report(tag, pin, value);
            (forall i | 0 <= i < |report| :: report[i] as int < 0x100)
            && Utf8.Decode(Bytes(report)) == Some(report)
            && Entries(report) == [Entry(tag, pin, value)]
            && PinKey(Entry(tag, pin, value)) == [tag[1]] + NatToString(pin)
            && ValueField(Entry(tag, pin, value)) == Some(NatToString(value))
            && PyInt(NatToString(value)) == Some(value)
  {
    ReportDecodes(tag, pin, value);
    FrameEntries(Entry(tag, pin, value), []);
    assert "<" + Entry(tag, pin, value) + ">" + [] == Report(tag, pin, value);
    EntryFields(tag, pin, value);
  }

  /** A text without '<' holds no frame. */
  lemma {:induction false} NoFrameIn(after: string, data: string)
    requires '<' !in after
    ensures !Contains(after, "<" + data + ">")
  {
    var pat := "<" + data + ">";
    forall i | 0 <= i <= |after| - |pat| ensures !OccursAt(after, pat, i) {
      assert after[i] in after;
      assert after[i..i + |pat|][0] != pat[0];
    }
  }

  /**
   * parse_message on one frame followed by text without '<': the entry is dispatched,
   * and what is printed is the text after the frame, or nothing when the entry raised.
   */
  lemma {:induction false} OneFrameParsed(p: Panel, data: string, after: string)
    requires PanelKeys(p) && Plain(data) && '<' !in after
    ensures var msg := "<" + data + ">" + after;
            Entries(msg) == [data]
            && ProcessEntries(p, msg, Entries(msg))
               == match Dispatch(p, data) case Ok(q) => Pass(q, Ok(after)) case Err(e) => Pass(p, Err(e))
  {
    var pat := "<" + data + ">";
    FrameEntries(data, after);
    assert [data][1..] == [];
    RemoveAllFront(pat, after);
    NoFrameIn(after, data);
    RemoveAllAbsent(after, pat);
  }

  /** A "<WDp v>" entry for a button's pin sets its label "HIGH" exactly when v > 0 and leaves the button enabled. */
  lemma {:induction false} DigitalEchoShown(p: Panel, pin: nat, value: nat)
    requires PanelKeys(p) && "D" + NatToString(pin) in DigitalKeys
    ensures var key := "D" + NatToString(pin);
            var q := Dispatch(p, Entry("WD", pin, value));
            q.Ok? && (q.value.digital[key].text == "HIGH" <==> value > 0) && q.value.digital[key].enabled
  {
    var data := Entry("WD", pin, value);
    EntryFields("WD", pin, value);
    assert data[1] == 'D';
    DigitalReport(p, data, value);
  }

  /** A "<WAp v>" entry for a PWM pin sets the spin box to v and turns to its page. */
  lemma {:induction false} PwmEchoShown(p: Panel, pin: nat, value: nat)
    requires PanelKeys(p) && "A" + NatToString(pin) in PwmKeys
    ensures var key := "A" + NatToString(pin);
            var q := Dispatch(p, Entry("WA", pin, value));
            q.Ok? && q.value.pwm[key].value == value && q.value.pwm[key].page == 1
  {
    var data := Entry("WA", pin, value);
    EntryFields("WA", pin, value);
    assert HasTag(data, "WA");
    PwmReport(p, data, value);
  }

  /** The label set_digital shows after a click, from the label before it. */
  function Flipped(text: string): string
  {
    if text == "LOW" then "HIGH" else "LOW"
  }

  /** The value set_digital sends, from the label before the click. */
  function SentBit(text: string): nat
  {
    if text == "HIGH" then 0 else 1
  }

  /**
   * The firmware half of a click on a single-digit pin's button: set_digital's bytes
   * reach runCommand as "set d p b", and the ungated firmware drives the pin to b and
   * echoes "<WDp b>".
   */
  lemma {:induction false} ClickReachesPin(text: string, pin: nat, analogIn: nat -> int, digitalIn: nat -> int)
    requires pin < 10
    ensures var line := SetLine('d', pin, SentBit(text));
            Chars(Utf8.Encode(SetCommand('d', [NatToString(pin)[0]], if text == "HIGH" then "0" else "1"))) == "<" + line + ">"
            && CommandDefined(Tokens(line))
            && RootDevino.Respond(Decode(Tokens(line)), analogIn, digitalIn)
               == Effect(Report("WD", pin, SentBit(text)), [DigitalOut(pin, SentBit(text))])
  {
    var bit := SentBit(text);
    assert NatToString(pin) == [NatToString(pin)[0]];
    assert NatToString(bit) == (if text == "HIGH" then "0" else "1");
    HostCommandFramed('d', pin, bit, [], []);
    RootDevino.SetDigitalEchoes(pin, bit, analogIn, digitalIn);
  }

  /**
   * A click on a single-digit pin's button, against the ungated firmware: whatever
   * the panel, parsing the echo of the bit the click sent leaves the button showing
   * the label the click flipped it to, so the board confirms what the button already
   * shows, and nothing of the echo is printed.
   */
  lemma {:induction false} ToggleConfirmed(q: Panel, pin: nat, text: string)
    requires PanelKeys(q) && "D" + NatToString(pin) in DigitalKeys
    requires text == "LOW" || text == "HIGH"
    ensures var echo := Report("WD", pin, SentBit(text));
            var r := ProcessEntries(q, echo, Entries(echo));
            r.residual == Ok([]) && r.panel.digital["D" + NatToString(pin)].text == Flipped(text)
  {
    var bit := SentBit(text);
    ReportDecodes("WD", pin, bit);
    OneFrameParsed(q, Entry("WD", pin, bit), []);
    assert "<" + Entry("WD", pin, bit) + ">" + [] == Report("WD", pin, bit);
    EchoLabel(q, pin, bit);
  }

  /** The label a "<WDp b>" entry leaves: "HIGH" for b = 1, "LOW" for b = 0. */
  lemma {:induction false} EchoLabel(q: Panel, pin: nat, bit: nat)
    requires PanelKeys(q) && "D" + NatToString(pin) in DigitalKeys && bit <= 1
    ensures var r := Dispatch(q, Entry("WD", pin, bit));
            r.Ok? && r.value.digital["D" + NatToString(pin)].text == (if bit == 1 then "HIGH" else "LOW")
  {
    var data := Entry("WD", pin, bit);
    EntryFields("WD", pin, bit);
    assert data[1] == 'D';
    DigitalReport(q, data, bit);
  }

  /**
   * A PWM spin box holding v in 0..32767, against the ungated firmware: the command
   * writes v cut to a uint8_t and echoes that, so the spin box keeps its value
   * exactly when v < 256.
   */
  lemma {:induction false} PwmEchoWraps(p: Panel, pin: nat, analogIn: nat -> int, digitalIn: nat -> int)
    requires PanelKeys(p) && pin < 10 && "A" + NatToString(pin) in PwmKeys
    requires 0 <= p.pwm["A" + NatToString(pin)].value <= 0x7FFF
    ensures var key := "A" + NatToString(pin);
            var v: nat := p.pwm[key].value;
            var line := SetLine('a', pin, v);
            Chars(Utf8.Encode(SetCommand('a', [NatToString(pin)[0]], IntToString(v)))) == "<" + line + ">"
            && CommandDefined(Tokens(line))
            && RootDevino.Respond(Decode(Tokens(line)), analogIn, digitalIn)
               == Effect(Report("WA", pin, v % 0x100), [AnalogOut(pin, v % 0x100)])
            && Dispatch(p, Entry("WA", pin, v % 0x100)).Ok?
            && (Dispatch(p, Entry("WA", pin, v % 0x100)).value.pwm[key].value == v <==> v < 0x100)
  {
    var key := "A" + NatToString(pin);
    var v: nat := p.pwm[key].value;
    assert NatToString(pin) == [NatToString(pin)[0]];
    assert IntToString(v) == NatToString(v);
    HostCommandFramed('a', pin, v, [], []);
    RootDevino.SetAnalogEchoes(pin, v, analogIn, digitalIn);
    PwmEchoShown(p, pin, v % 0x100);
  }

  /**
   * The handlers of D10-D13 carry the report's data[2], the pin's first digit '1',
   * so a click on any of them sends "<set d 1 b>", which drives pin 1.
   */
  lemma {:induction false} WideDigitalPinsDrivePinOne(pin: nat, bit: nat, analogIn: nat -> int, digitalIn: nat -> int)
    requires 10 <= pin <= 13 && bit <= 1
    ensures var line := SetLine('d', 1, bit);
            NatToString(pin)[0] == '1'
            && Chars(Utf8.Encode(SetCommand('d', [NatToString(pin)[0]], NatToString(bit)))) == "<" + line + ">"
            && CommandDefined(Tokens(line))
            && RootDevino.Respond(Decode(Tokens(line)), analogIn, digitalIn).writes == [DigitalOut(1, bit)]
  {
    assert NatToString(pin) == NatToString(pin / 10) + [DigitChar(pin % 10)];
    assert NatToString(1) == "1";
    HostCommandFramed('d', 1, bit, [], []);
    RootDevino.SetDigitalEchoes(1, bit, analogIn, digitalIn);
  }

  /** The echo "<WD1 b>" names "D1", which is no button: the panel is left as it is. */
  lemma {:induction false} PinOneEchoIgnored(p: Panel, bit: nat)
    requires PanelKeys(p)
    ensures Dispatch(p, Entry("WD", 1, bit)) == Ok(p)
  {
    assert NatToString(1) == "1";
    EntryFields("WD", 1, bit);
    assert PinKey(Entry("WD", 1, bit)) == "D1";
    UnknownPinIgnored(p, Entry("WD", 1, bit));
  }

  /**
   * Against the gated firmware the same click drives the pin but prints nothing, so
   * no echo reaches the host, and the sketch no longer drives the pin.
   */
  lemma {:induction false} GatedClickSilent(g: GatedDevino.Gate, b: GatedDevino.Board, pin: nat, bit: nat)
    requires pin < 10 && bit <= 1 && pin < |g.enabled|
    ensures CommandDefined(Tokens(SetLine('d', pin, bit)))
    ensures Decode(Tokens(SetLine('d', pin, bit))) == WriteDigitalReq(pin, bit)
    ensures var h := GatedDevino.HostRequest(g, WriteDigitalReq(pin, bit), b);
            h.out == g.out && h.writes == g.writes + [DigitalOut(pin, bit)] && !h.enabled[pin]
  {
    DecodeSetLine('d', pin, bit);
  }

  /**
   * A report the gated firmware prints with transmit on reaches the host with CR LF
   * after it: the entry is applied the same way, and the CR LF is what parse_message
   * prints.
   */
  lemma {:induction false} GatedReportLeavesLineEnd(p: Panel, tag: string, pin: nat, value: nat)
    requires PanelKeys(p) && Plain(tag)
    ensures var line := GatedDevino.Println(Report(tag, pin, value));
            var q := Dispatch(p, Entry(tag, pin, value));
            Entries(line) == [Entry(tag, pin, value)]
            && ProcessEntries(p, line, Entries(line)).residual == (if q.Ok? then Ok("\r\n") else Err(q.error))
  {
    ReportDecodes(tag, pin, value);
    assert GatedDevino.Println(Report(tag, pin, value)) == "<" + Entry(tag, pin, value) + ">" + "\r\n";
    OneFrameParsed(p, Entry(tag, pin, value), "\r\n");
  }
}
