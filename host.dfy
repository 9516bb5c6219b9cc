/**
 * The host side of the protocol: ArduinoDesign's handling of board messages
 * (parse_message and the three update_*_display methods) and the two click
 * handlers that send commands (set_digital, set_pwm).
 *
 * Qt widgets are plain records. A connected signal handler is recorded as the
 * pin character it will send, so "connected at most once" is a statement
 * about the length of a list.
 */
module Host {
  import opened Util
  import opened Decimal
  import opened PyStr
  import Utf8

  /** The exceptions a malformed entry raises inside parse_message. */
  datatype PyError = IndexError | ValueError

  /** A line edit showing an analog reading; setTexts counts the setText calls made on it. */
  datatype LineEdit = LineEdit(text: string, setTexts: nat)

  /** A digital pin's mode button; clickHandlers holds, per connected handler, the pin character it sends. */
  datatype ModeButton = ModeButton(text: string, enabled: bool, clickHandlers: seq<char>)

  /**
   * A PWM pin's spin box with the current page of the stacked widget that holds it
   * (page 1 shows the spin box); changeHandlers as for ModeButton.
   */
  datatype PwmControl = PwmControl(value: int, enabled: bool, keyboardTracking: bool, page: int, changeHandlers: seq<char>)

  /** The three widget dictionaries: analog_widgets, digital_widgets, pwm_widgets. */
  datatype Panel = Panel(analog: map<string, LineEdit>, digital: map<string, ModeButton>, pwm: map<string, PwmControl>)

  const AnalogKeys: set<string> := {"A0", "A1", "A2", "A3", "A4", "A5"}
  const DigitalKeys: set<string> := {"D2", "D3", "D4", "D5", "D6", "D7", "D8", "D9", "D10", "D11", "D12", "D13"}
  const PwmKeys: set<string> := {"A3", "A5", "A6", "A9", "A10", "A11"}

  /** The panel as set up: empty texts, disabled controls, first page shown, nothing connected. */
  const InitialPanel: Panel := Panel(
    map k | k in AnalogKeys :: LineEdit("", 0),
    map k | k in DigitalKeys :: ModeButton("", false, []),
    map k | k in PwmKeys :: PwmControl(0, false, true, 0, []))

  /** The dictionaries are fixed when the window is set up. */
  predicate PanelKeys(p: Panel)
  {
    p.analog.Keys == AnalogKeys && p.digital.Keys == DigitalKeys && p.pwm.Keys == PwmKeys
  }

  /** A button is enabled exactly when its one click handler is connected. */
  predicate ButtonInv(b: ModeButton)
  {
    |b.clickHandlers| <= 1 && (b.enabled <==> |b.clickHandlers| == 1)
  }

  /** A PWM control shows its spin box exactly when its one handler is connected, and it is then enabled. */
  predicate PwmInv(c: PwmControl)
  {
    |c.changeHandlers| <= 1 && (c.page == 1 <==> |c.changeHandlers| == 1)
    && (c.page == 1 ==> c.enabled && !c.keyboardTracking)
  }

  predicate PanelInv(p: Panel)
  {
    PanelKeys(p)
    && (forall k | k in p.digital :: ButtonInv(p.digital[k]))
    && (forall k | k in p.pwm :: PwmInv(p.pwm[k]))
  }

  lemma {:induction false} InitialPanelInv()
    ensures PanelInv(InitialPanel)
  {
  }

  // ------------------------------------------------------------------ entries

  /** data.split(" ")[0][1:]: the dictionary key an entry names, "A0" for "RA0 512". */
  function PinKey(data: string): (key: string)
    ensures |key| < |data| || key == []
    ensures key == [] || key == data[1..|key| + 1]
    ensures ' ' !in key
    ensures key != [] ==> |key| + 1 == |data| || data[|key| + 1] == ' '
  {
    SplitPieces(data, ' ');
    var head := Split(data, ' ')[0];
    if head == [] then [] else head[1..]
  }

  /** data.split(" ")[1], or None where Python raises IndexError. */
  function ValueField(data: string): Option<string>
  {
    var parts := Split(data, ' ');
    if |parts| >= 2 then Some(parts[1]) else None
  }

  predicate HasTag(data: string, tag: string)
  {
    |data| >= |tag| && data[..|tag|] == tag
  }

  /** update_analog_display: a known pin's text takes the reported value, set only when it differs. */
  function AnalogUpdate(p: Panel, data: string): (r: Result<Panel, PyError>)
    ensures r.Ok? ==> r.value.analog.Keys == p.analog.Keys && r.value.digital == p.digital && r.value.pwm == p.pwm
  {
    var key := PinKey(data);
    if key !in p.analog then Ok(p)
    else
      match ValueField(data)
      case None => Err(IndexError)
      case Some(v) =>
        if p.analog[key].text == v then Ok(p)
        else Ok(p.(analog := p.analog[key := LineEdit(v, p.analog[key].setTexts + 1)]))
  }

  /**
   * update_pwm_display: the value is always applied; the first report also turns to
   * the spin box page, enables it and connects the handler that sends data[2].
   */
  function PwmUpdate(p: Panel, data: string): (r: Result<Panel, PyError>)
    requires PanelKeys(p)
    ensures r.Ok? ==> r.value.pwm.Keys == p.pwm.Keys && r.value.analog == p.analog && r.value.digital == p.digital
  {
    var key := PinKey(data);
    if key !in p.pwm then Ok(p)
    else
      match ValueField(data)
      case None => Err(IndexError)
      case Some(v) =>
        match PyInt(v)
        case None => Err(ValueError)
        case Some(n) =>
          var c := p.pwm[key].(value := n);
          var c' := if c.page != 1
                    then c.(page := 1, enabled := true, keyboardTracking := false,
                            changeHandlers := c.changeHandlers + [data[2]])
                    else c;
          Ok(p.(pwm := p.pwm[key := c']))
  }

  /**
   * update_digital_display: the label always follows the value; a writable report
   * enables a disabled button and connects the handler that sends data[2].
   */
  function DigitalUpdate(p: Panel, data: string, writeable: bool): (r: Result<Panel, PyError>)
    requires PanelKeys(p)
    ensures r.Ok? ==> r.value.digital.Keys == p.digital.Keys && r.value.analog == p.analog && r.value.pwm == p.pwm
  {
    var key := PinKey(data);
    if key !in p.digital then Ok(p)
    else
      match ValueField(data)
      case None => Err(IndexError)
      case Some(v) =>
        match PyInt(v)
        case None => Err(ValueError)
        case Some(n) =>
          var b := p.digital[key].(text := if n > 0 then "HIGH" else "LOW");
          var b' := if writeable && !b.enabled
                    then b.(enabled := true, clickHandlers := b.clickHandlers + [data[2]])
                    else b;
          Ok(p.(digital := p.digital[key := b']))
  }

  /**
   * One entry of parse_message's loop, in its fixed priority: "RA" then "WA" then a 'D'
   * in second place. Each kind of entry touches only its own dictionary.
   */
  function Dispatch(p: Panel, data: string): (r: Result<Panel, PyError>)
    requires PanelKeys(p)
    ensures r.Ok? ==> PanelKeys(r.value)
    ensures |data| < 2 ==> r == Err(IndexError)
    ensures r.Ok? && HasTag(data, "RA") ==> r.value.digital == p.digital && r.value.pwm == p.pwm
    ensures r.Ok? && HasTag(data, "WA") ==> r.value.analog == p.analog && r.value.digital == p.digital
    ensures r.Ok? && |data| >= 2 && data[1] == 'D' ==> r.value.analog == p.analog && r.value.pwm == p.pwm
    ensures |data| >= 2 && !HasTag(data, "RA") && !HasTag(data, "WA") && data[1] != 'D' ==> r == Ok(p)
  {
    if HasTag(data, "RA") then AnalogUpdate(p, data)
    else if HasTag(data, "WA") then PwmUpdate(p, data)
    else if |data| < 2 then Err(IndexError)
    else if data[1] == 'D' then DigitalUpdate(p, data, data[0] == 'W')
    else Ok(p)
  }

  /** What parse_message leaves behind: the panel, and the residual log text or the exception raised. */
  datatype Pass = Pass(panel: Panel, residual: Result<string, PyError>)

  /**
   * The loop of parse_message: entries in order, each dispatched and then every
   * "<entry>" removed from the text; an exception ends the loop.
   */
  function ProcessEntries(p: Panel, text: string, entries: seq<string>): (r: Pass)
    requires PanelKeys(p)
    ensures PanelKeys(r.panel)
    decreases |entries|
  {
    if entries == [] then Pass(p, Ok(text))
    else
      match Dispatch(p, entries[0])
      case Err(e) => Pass(p, Err(e))
      case Ok(q) => ProcessEntries(q, RemoveAll(text, "<" + entries[0] + ">"), entries[1..])
  }

  // -------------------------------------------------------------- what they keep

  /** Every entry keeps the panel's invariant: a handler is connected at most once, together with enabling. */
  lemma {:induction false} DispatchKeepsInv(p: Panel, data: string)
    requires PanelInv(p)
    ensures Dispatch(p, data).Ok? ==> PanelInv(Dispatch(p, data).value)
  {
    var r := Dispatch(p, data);
    if r.Ok? {
      var q := r.value;
      forall k | k in q.digital ensures ButtonInv(q.digital[k]) {
        assert k in p.digital;
      }
      forall k | k in q.pwm ensures PwmInv(q.pwm[k]) {
        assert k in p.pwm;
      }
    }
  }

  /** A whole message keeps the panel's invariant. */
  lemma {:induction false} ProcessKeepsInv(p: Panel, text: string, entries: seq<string>)
    requires PanelInv(p)
    ensures PanelInv(ProcessEntries(p, text, entries).panel)
    decreases |entries|
  {
    if entries != [] {
      DispatchKeepsInv(p, entries[0]);
      var r := Dispatch(p, entries[0]);
      if r.Ok? {
        ProcessKeepsInv(r.value, RemoveAll(text, "<" + entries[0] + ">"), entries[1..]);
      }
    }
  }

  /** Reporting the same entry again changes nothing: no text is set twice, no handler connected twice. */
  lemma {:induction false} DispatchIdempotent(p: Panel, data: string)
    requires PanelKeys(p) && Dispatch(p, data).Ok?
    ensures Dispatch(Dispatch(p, data).value, data) == Dispatch(p, data)
  {
    var q := Dispatch(p, data).value;
    if HasTag(data, "RA") {
      AnalogIdempotent(p, data);
    } else if HasTag(data, "WA") {
      PwmIdempotent(p, data);
    } else if data[1] == 'D' {
      DigitalIdempotent(p, data, data[0] == 'W');
    }
  }

  lemma {:induction false} AnalogIdempotent(p: Panel, data: string)
    requires AnalogUpdate(p, data).Ok?
    ensures AnalogUpdate(AnalogUpdate(p, data).value, data) == AnalogUpdate(p, data)
  {
  }

  lemma {:induction false} PwmIdempotent(p: Panel, data: string)
    requires PanelKeys(p) && PwmUpdate(p, data).Ok?
    ensures PanelKeys(PwmUpdate(p, data).value)
    ensures PwmUpdate(PwmUpdate(p, data).value, data) == PwmUpdate(p, data)
  {
    var q := PwmUpdate(p, data).value;
    var key := PinKey(data);
    if key in p.pwm {
      var n := PyInt(ValueField(data).value).value;
      assert q.pwm[key].page == 1 && q.pwm[key].value == n;
      assert q.pwm[key := q.pwm[key].(value := n)] == q.pwm;
    }
  }

  lemma {:induction false} DigitalIdempotent(p: Panel, data: string, writeable: bool)
    requires PanelKeys(p) && DigitalUpdate(p, data, writeable).Ok?
    ensures PanelKeys(DigitalUpdate(p, data, writeable).value)
    ensures DigitalUpdate(DigitalUpdate(p, data, writeable).value, data, writeable) == DigitalUpdate(p, data, writeable)
  {
    var q := DigitalUpdate(p, data, writeable).value;
    var key := PinKey(data);
    if key in p.digital {
      assert writeable ==> q.digital[key].enabled;
      assert q.digital[key := q.digital[key]] == q.digital;
    }
  }

  /** Enabling is one-way and handlers are only ever added, at the end. */
  predicate Grows(p: Panel, q: Panel)
    requires PanelKeys(p) && PanelKeys(q)
  {
    (forall k | k in DigitalKeys ::
       (p.digital[k].enabled ==> q.digital[k].enabled)
       && p.digital[k].clickHandlers <= q.digital[k].clickHandlers)
    && (forall k | k in PwmKeys ::
       (p.pwm[k].page == 1 ==> q.pwm[k].page == 1)
       && p.pwm[k].changeHandlers <= q.pwm[k].changeHandlers)
  }

  lemma {:induction false} DispatchGrows(p: Panel, data: string)
    requires PanelKeys(p) && Dispatch(p, data).Ok?
    ensures Grows(p, Dispatch(p, data).value)
  {
    if HasTag(data, "RA") {
      assert Dispatch(p, data).value.digital == p.digital && Dispatch(p, data).value.pwm == p.pwm;
    } else if HasTag(data, "WA") {
      PwmGrows(p, data);
    } else if data[1] == 'D' {
      DigitalGrows(p, data, data[0] == 'W');
    }
  }

  lemma {:induction false} PwmGrows(p: Panel, data: string)
    requires PanelKeys(p) && PwmUpdate(p, data).Ok?
    ensures PanelKeys(PwmUpdate(p, data).value) && Grows(p, PwmUpdate(p, data).value)
  {
  }

  lemma {:induction false} DigitalGrows(p: Panel, data: string, writeable: bool)
    requires PanelKeys(p) && DigitalUpdate(p, data, writeable).Ok?
    ensures PanelKeys(DigitalUpdate(p, data, writeable).value) && Grows(p, DigitalUpdate(p, data, writeable).value)
  {
  }

  /** No message ever disables a button, leaves the spin box page, or disconnects a handler. */
  lemma {:induction false} ProcessGrows(p: Panel, text: string, entries: seq<string>)
    requires PanelKeys(p)
    ensures Grows(p, ProcessEntries(p, text, entries).panel)
    decreases |entries|
  {
    if entries != [] {
      var r := Dispatch(p, entries[0]);
      if r.Ok? {
        DispatchGrows(p, entries[0]);
        var t := RemoveAll(text, "<" + entries[0] + ">");
        ProcessGrows(r.value, t, entries[1..]);
      }
    }
  }

  // -------------------------------------------------------- per-kind behaviour

  /** An analog reading for A0-A5 leaves the reported text, and calls setText only when the text differs. */
  lemma {:induction false} AnalogReport(p: Panel, data: string, v: string)
    requires PanelKeys(p) && HasTag(data, "RA") && ValueField(data) == Some(v)
    requires PinKey(data) in AnalogKeys
    ensures Dispatch(p, data).Ok?
    ensures Dispatch(p, data).value.analog[PinKey(data)].text == v
    ensures Dispatch(p, data).value.analog[PinKey(data)].setTexts
            == p.analog[PinKey(data)].setTexts + (if p.analog[PinKey(data)].text == v then 0 else 1)
  {
  }

  /** Entries naming a pin outside the dictionaries change no state. */
  lemma {:induction false} UnknownPinIgnored(p: Panel, data: string)
    requires PanelKeys(p) && |data| >= 2
    requires HasTag(data, "RA") ==> PinKey(data) !in AnalogKeys
    requires HasTag(data, "WA") ==> PinKey(data) !in PwmKeys
    requires data[1] == 'D' ==> PinKey(data) !in DigitalKeys
    ensures Dispatch(p, data) == Ok(p)
  {
  }

  /**
   * A digital report for D2-D13: the label reads "HIGH" exactly when the value is positive,
   * the button ends enabled when the report is writable or it already was, and a handler is
   * connected only on the report that enables it; that handler sends the pin number's first digit.
   */
  lemma {:induction false} DigitalReport(p: Panel, data: string, n: int)
    requires PanelKeys(p) && |data| >= 2 && data[1] == 'D'
    requires PinKey(data) in DigitalKeys
    requires ValueField(data).Some? && PyInt(ValueField(data).value) == Some(n)
    ensures Dispatch(p, data).Ok?
    ensures var k := PinKey(data);
            var b, b' := p.digital[k], Dispatch(p, data).value.digital[k];
            (b'.text == "HIGH" <==> n > 0) && (b'.text == "LOW" <==> n <= 0)
            && b'.enabled == (b.enabled || data[0] == 'W')
            && b'.clickHandlers == b.clickHandlers + (if data[0] == 'W' && !b.enabled then [k[1]] else [])
  {
    var k := PinKey(data);
    assert data[2] == k[1];
  }

  /**
   * A PWM report for a PWM-capable pin: the value is always applied; the first report
   * (page not yet 1) switches page, enables, stops keyboard tracking and connects one
   * handler; later reports only set the value.
   */
  lemma {:induction false} PwmReport(p: Panel, data: string, n: int)
    requires PanelKeys(p) && HasTag(data, "WA")
    requires PinKey(data) in PwmKeys
    requires ValueField(data).Some? && PyInt(ValueField(data).value) == Some(n)
    ensures Dispatch(p, data).Ok?
    ensures var k := PinKey(data);
            var c, c' := p.pwm[k], Dispatch(p, data).value.pwm[k];
            c'.value == n
            && (c.page != 1 ==> c' == c.(value := n, page := 1, enabled := true, keyboardTracking := false,
                                         changeHandlers := c.changeHandlers + [k[1]]))
            && (c.page == 1 ==> c' == c.(value := n))
  {
    var k := PinKey(data);
    assert data[2] == k[1];
  }

  /** A group whose entries are comma-joined is never removed from the log: no entry "<e>" occurs in it. */
  lemma {:induction false} CommaGroupNotMatched(g: string, e: string)
    requires ',' in g && '<' !in g && '>' !in g && ',' !in e
    ensures !Contains("<" + g + ">", "<" + e + ">")
  {
    var s, pat := "<" + g + ">", "<" + e + ">";
    forall i | 0 <= i <= |s| - |pat| ensures !OccursAt(s, pat, i) {
      var w := s[i..i + |pat|];
      if i > 0 {
        assert w[0] == s[i] == g[i - 1] != '<';
      } else if |e| < |g| {
        assert w[|e| + 1] == s[|e| + 1] == g[|e|] != '>';
      } else {
        var j :| 0 <= j < |g| && g[j] == ',';
        assert w[j + 1] == s[j + 1] == g[j] == ',';
        assert pat[j + 1] == e[j] != ',';
      }
    }
  }

  /** When no entry occurs as "<entry>" in the text, the residual is the whole text. */
  lemma {:induction false} ResidualUnchanged(p: Panel, text: string, entries: seq<string>)
    requires PanelKeys(p)
    requires forall i | 0 <= i < |entries| :: !Contains(text, "<" + entries[i] + ">")
    ensures ProcessEntries(p, text, entries).residual.Ok? ==> ProcessEntries(p, text, entries).residual.value == text
    decreases |entries|
  {
    if entries != [] {
      var r := Dispatch(p, entries[0]);
      if r.Ok? {
        RemoveAllAbsent(text, "<" + entries[0] + ">");
        ResidualUnchanged(r.value, text, entries[1..]);
      }
    }
  }

  /** A message made of one comma-joined group is printed whole, even though its entries are applied. */
  lemma {:induction false} CommaGroupPrinted(p: Panel, g: string)
    requires PanelKeys(p)
    requires ',' in g && '<' !in g && '>' !in g && '\n' !in g
    ensures var s := "<" + g + ">";
            Entries(s) == Split(g, ',')
            && (ProcessEntries(p, s, Entries(s)).residual.Ok? ==> ProcessEntries(p, s, Entries(s)).residual.value == s)
  {
    var s := "<" + g + ">";
    EntriesStep([], g, []);
    assert [] + "<" + g + ">" + [] == s;
    EntriesNone([]);
    assert Entries(s) == Split(g, ',') + [];
    SplitPieces(g, ',');
    forall i | 0 <= i < |Split(g, ',')| ensures !Contains(s, "<" + Split(g, ',')[i] + ">") {
      CommaGroupNotMatched(g, Split(g, ',')[i]);
    }
    ResidualUnchanged(p, s, Entries(s));
  }

  // ------------------------------------------------------------------ the window

  /** The outbound command "<set k p v>" that set_digital and set_pwm format. */
  function SetCommand(kind: char, pin: string, value: string): string
  {
    "<set " + [kind] + " " + pin + " " + value + ">"
  }

  /** How parse_message ended. */
  datatype ParseOutcome = DecodeSkipped | Raised(error: PyError) | Printed(residual: string)

  class Design {
    var analogWidgets: map<string, LineEdit>
    var digitalWidgets: map<string, ModeButton>
    var pwmWidgets: map<string, PwmControl>
    /** The serial monitor's text. */
    var monitor: string
    /** Every message handed to the serial manager's write, as bytes. */
    var sent: seq<seq<Utf8.byte>>
    /** The text of the line edit for typed messages (le_sender). */
    var sender: string

    function Widgets(): Panel
      reads this
    {
      Panel(analogWidgets, digitalWidgets, pwmWidgets)
    }

    ghost predicate Valid()
      reads this
    {
      PanelInv(Widgets())
    }

    constructor ()
      ensures Valid() && Widgets() == InitialPanel && monitor == [] && sent == [] && sender == []
    {
      analogWidgets := InitialPanel.analog;
      digitalWidgets := InitialPanel.digital;
      pwmWidgets := InitialPanel.pwm;
      monitor := [];
      sent := [];
      sender := [];
      InitialPanelInv();
    }

    method UpdateAnalogDisplay(data: string) returns (err: Option<PyError>)
      requires Valid()
      modifies this
      ensures var r := AnalogUpdate(old(Widgets()), data);
              (r.Ok? ==> err == None && Widgets() == r.value)
              && (r.Err? ==> err == Some(r.error) && Widgets() == old(Widgets()))
      ensures monitor == old(monitor) && sent == old(sent) && sender == old(sender)
    {
      var key := PinKey(data);
      if key in analogWidgets {
        var parts := Split(data, ' ');
        if |parts| < 2 {
          return Some(IndexError);
        }
        if analogWidgets[key].text != parts[1] {
          analogWidgets := analogWidgets[key := LineEdit(parts[1], analogWidgets[key].setTexts + 1)];
        }
      }
      return None;
    }

    method UpdatePwmDisplay(data: string) returns (err: Option<PyError>)
      requires Valid()
      modifies this
      ensures var r := PwmUpdate(old(Widgets()), data);
              (r.Ok? ==> err == None && Widgets() == r.value)
              && (r.Err? ==> err == Some(r.error) && Widgets() == old(Widgets()))
      ensures monitor == old(monitor) && sent == old(sent) && sender == old(sender)
    {
      var key := PinKey(data);
      if key in pwmWidgets {
        var parts := Split(data, ' ');
        if |parts| < 2 {
          return Some(IndexError);
        }
        var n := PyInt(parts[1]);
        if n.None? {
          return Some(ValueError);
        }
        var c := pwmWidgets[key].(value := n.value);
        if c.page != 1 {
          c := c.(page := 1, enabled := true, keyboardTracking := false,
                  changeHandlers := c.changeHandlers + [data[2]]);
        }
        pwmWidgets := pwmWidgets[key := c];
      }
      return None;
    }

    method UpdateDigitalDisplay(data: string, writeable: bool) returns (err: Option<PyError>)
      requires Valid()
      modifies this
      ensures var r := DigitalUpdate(old(Widgets()), data, writeable);
              (r.Ok? ==> err == None && Widgets() == r.value)
              && (r.Err? ==> err == Some(r.error) && Widgets() == old(Widgets()))
      ensures monitor == old(monitor) && sent == old(sent) && sender == old(sender)
    {
      var key := PinKey(data);
      if key in digitalWidgets {
        var parts := Split(data, ' ');
        if |parts| < 2 {
          return Some(IndexError);
        }
        var n := PyInt(parts[1]);
        if n.None? {
          return Some(ValueError);
        }
        var b := digitalWidgets[key].(text := if n.value > 0 then "HIGH" else "LOW");
        if writeable && !b.enabled {
          b := b.(enabled := true, clickHandlers := b.clickHandlers + [data[2]]);
        }
        digitalWidgets := digitalWidgets[key := b];
      }
      return None;
    }

    /**
     * The body of parse_message's loop for one entry: the "RA", "WA", 'D' priority
     * chain. An entry shorter than two characters fails at data[1].
     */
    method DispatchEntry(data: string) returns (err: Option<PyError>)
      requires Valid()
      modifies this
      ensures Valid() && monitor == old(monitor) && sent == old(sent) && sender == old(sender)
      ensures var r := Dispatch(old(Widgets()), data);
              (r.Ok? ==> err == None && Widgets() == r.value)
              && (r.Err? ==> err == Some(r.error) && Widgets() == old(Widgets()))
    {
      ghost var before := Widgets();
      if HasTag(data, "RA") {
        err := UpdateAnalogDisplay(data);
      } else if HasTag(data, "WA") {
        err := UpdatePwmDisplay(data);
      } else if |data| < 2 {
        err := Some(IndexError);
      } else if data[1] == 'D' {
        err := UpdateDigitalDisplay(data, data[0] == 'W');
      } else {
        err := None;
      }
      DispatchKeepsInv(before, data);
    }

    /**
     * parse_message: decode the chunk, apply its entries in order, strip them from the
     * text and print what is left. Undecodable chunks are dropped; an exception stops
     * the loop with the earlier entries applied and nothing printed.
     */
    method ParseMessage(msg: seq<Utf8.byte>) returns (outcome: ParseOutcome)
      requires Valid()
      modifies this
      ensures Valid() && sent == old(sent) && sender == old(sender)
      ensures Utf8.Decode(msg).None? ==>
                outcome == DecodeSkipped && Widgets() == old(Widgets()) && monitor == old(monitor)
      ensures Utf8.Decode(msg).Some? ==>
                var s := Utf8.Decode(msg).value;
                var r := ProcessEntries(old(Widgets()), s, Entries(s));
                Widgets() == r.panel
                && (r.residual.Ok? ==> outcome == Printed(r.residual.value) && monitor == old(monitor) + r.residual.value)
                && (r.residual.Err? ==> outcome == Raised(r.residual.error) && monitor == old(monitor))
    {
      var decoded := Utf8.Decode(msg);
      if decoded.None? {
        return DecodeSkipped;
      }
      var msgStr := decoded.value;
      var entries := Entries(msgStr);
      ghost var goal := ProcessEntries(Widgets(), msgStr, entries);
      var i := 0;
      while i < |entries|
        invariant 0 <= i <= |entries|
        invariant Valid()
        invariant ProcessEntries(Widgets(), msgStr, entries[i..]) == goal
        invariant monitor == old(monitor) && sent == old(sent) && sender == old(sender)
        decreases |entries| - i
      {
        var data := entries[i];
        ghost var before := Widgets();
        assert entries[i..][0] == data && entries[i..][1..] == entries[i + 1..];
        var err := DispatchEntry(data);
        if err.Some? {
          assert goal == Pass(before, Err(err.value));
          return Raised(err.value);
        }
        assert goal == ProcessEntries(Widgets(), RemoveAll(msgStr, "<" + data + ">"), entries[i + 1..]);
        msgStr := RemoveAll(msgStr, "<" + data + ">");
        i := i + 1;
      }
      assert entries[i..] == [];
      assert goal == Pass(Widgets(), Ok(msgStr));
      monitor := monitor + msgStr;
      return Printed(msgStr);
    }

    /** send_message: clear the typed-message line edit and hand the bytes to the serial manager. */
    method SendMessage(msg: seq<Utf8.byte>)
      modifies this
      ensures sender == [] && sent == old(sent) + [msg]
      ensures Widgets() == old(Widgets()) && monitor == old(monitor)
    {
      sender := [];
      sent := sent + [msg];
    }

    /** set_digital: flip the button's label and send the opposite of what it showed. */
    method SetDigital(pin: char, key: string)
      requires Valid() && key in digitalWidgets
      modifies this
      ensures Valid()
      ensures var b := old(digitalWidgets[key]);
              digitalWidgets == old(digitalWidgets)[key := b.(text := if b.text == "LOW" then "HIGH" else "LOW")]
              && sent == old(sent) + [Utf8.Encode(SetCommand('d', [pin], if b.text == "HIGH" then "0" else "1"))]
      ensures analogWidgets == old(analogWidgets) && pwmWidgets == old(pwmWidgets) && monitor == old(monitor)
      ensures sender == []
    {
      var buttonText := digitalWidgets[key].text;
      digitalWidgets := digitalWidgets[key := digitalWidgets[key].(text := if buttonText == "LOW" then "HIGH" else "LOW")];
      SendMessage(Utf8.Encode(SetCommand('d', [pin], if buttonText == "HIGH" then "0" else "1")));
    }

    /** set_pwm: send the spin box's value. */
    method SetPwm(pin: char, key: string)
      requires key in pwmWidgets
      modifies this
      ensures Widgets() == old(Widgets()) && monitor == old(monitor) && sender == []
      ensures sent == old(sent) + [Utf8.Encode(SetCommand('a', [pin], IntToString(pwmWidgets[key].value)))]
    {
      SendMessage(Utf8.Encode(SetCommand('a', [pin], IntToString(pwmWidgets[key].value))));
    }
  }
}
