/**
 * The gated firmware revision (the library copy bundled with the host): a host
 * "set" drives the pin directly, prints nothing and takes the pin away from the
 * sketch; a host "get" reads the pin and gives it back. The sketch's own writes
 * go through only for pins it holds, and every frame is printed with println,
 * and only when the object was built with transmit on.
 *
 * The library's state is a Gate value: the per-pin flags of _enabledPins, the
 * Serial output and the pin writes made. The class below is proved against the
 * functions on Gate, and the lemmas about those functions state the gating.
 */
module GatedDevino {
  import opened Util
  import opened Decimal
  import opened CStr
  import opened Commands
  import opened Framer

  /** Serial.println: the text, then CR LF. */
  function Println(s: string): (line: string)
    ensures |line| == |s| + 2 && line[..|s|] == s && line[|s|..] == "\r\n"
  {
    s + "\r\n"
  }

  /** What the board provides: the transmit flag, and analogRead and digitalRead as functions of the pin. */
  datatype Board = Board(transmit: bool, analogIn: nat -> int, digitalIn: nat -> int)

  /** The observable state: which pins the sketch may drive, what was printed, what was written. */
  datatype Gate = Gate(enabled: seq<bool>, out: string, writes: seq<PinWrite>)

  /** A frame as the helpers print it: on its own line, and only with transmit on. */
  function Emit(b: Board, frame: string): (text: string)
    ensures b.transmit <==> text != []
  {
    if b.transmit then Println(frame) else []
  }

  /** The _enabledPins index a request uses lies inside the array (C does not check it). */
  predicate RequestFits(req: Request, pins: nat)
  {
    !req.NoOp? ==> req.pin < pins
  }

  /**
   * runCommand in this revision. The pin written or read is atoi's value cut to
   * uint8_t, but the _enabledPins index is atoi's value itself; analogWrite takes
   * the value as an int, digitalWrite as a uint8_t.
   */
  function HostRequest(g: Gate, req: Request, b: Board): (g': Gate)
    requires RequestFits(req, |g.enabled|)
    ensures |g'.enabled| == |g.enabled|
    ensures forall q | 0 <= q < |g.enabled| && (req.NoOp? || q != req.pin) :: g'.enabled[q] == g.enabled[q]
    ensures (req.WriteAnalogReq? || req.WriteDigitalReq?) ==>
              !g'.enabled[req.pin] && g'.out == g.out && |g'.writes| == |g.writes| + 1 && g'.writes[..|g.writes|] == g.writes
    ensures (req.ReadAnalogReq? || req.ReadDigitalReq?) ==>
              g'.enabled[req.pin] && g'.writes == g.writes && (g'.out == g.out <==> !b.transmit)
    ensures req.NoOp? ==> g' == g
    ensures req.WriteAnalogReq? ==> g'.writes[|g.writes|] == AnalogOut(ToUint8(req.pin), req.value)
    ensures req.WriteDigitalReq? ==> g'.writes[|g.writes|] == DigitalOut(ToUint8(req.pin), ToUint8(req.value))
    ensures req.ReadAnalogReq? ==>
              g'.out == g.out + Emit(b, Report("RA", ToUint8(req.pin), ToUint16(b.analogIn(ToUint8(req.pin)))))
    ensures req.ReadDigitalReq? ==>
              g'.out == g.out + Emit(b, Report("RD", ToUint8(req.pin), ToUint8(b.digitalIn(ToUint8(req.pin)))))
  {
    match req
    case WriteAnalogReq(p, v) =>
      Gate(g.enabled[p := false], g.out, g.writes + [AnalogOut(ToUint8(p), v)])
    case WriteDigitalReq(p, v) =>
      Gate(g.enabled[p := false], g.out, g.writes + [DigitalOut(ToUint8(p), ToUint8(v))])
    case ReadAnalogReq(p) =>
      Gate(g.enabled[p := true], g.out + Emit(b, Report("RA", ToUint8(p), ToUint16(b.analogIn(ToUint8(p))))), g.writes)
    case ReadDigitalReq(p) =>
      Gate(g.enabled[p := true], g.out + Emit(b, Report("RD", ToUint8(p), ToUint8(b.digitalIn(ToUint8(p))))), g.writes)
    case NoOp =>
      g
  }

  /** writeAnalog called by the sketch: analogWrite and, with transmit, a "<WApin val>" line, only for an enabled pin. */
  function SketchWriteAnalog(g: Gate, pin: nat, val: nat, b: Board): (g': Gate)
    requires pin < 0x100 && val < 0x100 && pin < |g.enabled|
    ensures g'.enabled == g.enabled
    ensures g.enabled[pin] <==> g'.writes == g.writes + [AnalogOut(pin, val)]
    ensures !g.enabled[pin] ==> g' == g
  {
    if g.enabled[pin] then Gate(g.enabled, g.out + Emit(b, Report("WA", pin, val)), g.writes + [AnalogOut(pin, val)])
    else g
  }

  /** writeDigital called by the sketch: digitalWrite and, with transmit, a "<WDpin val>" line, only for an enabled pin. */
  function SketchWriteDigital(g: Gate, pin: nat, val: nat, b: Board): (g': Gate)
    requires pin < 0x100 && val < 0x100 && pin < |g.enabled|
    ensures g'.enabled == g.enabled
    ensures g.enabled[pin] <==> g'.writes == g.writes + [DigitalOut(pin, val)]
    ensures !g.enabled[pin] ==> g' == g
  {
    if g.enabled[pin] then Gate(g.enabled, g.out + Emit(b, Report("WD", pin, val)), g.writes + [DigitalOut(pin, val)])
    else g
  }

  /** One thing that happens to the library: a host command run, or a helper called by the sketch. */
  datatype Event =
    | Host(req: Request)
    | SketchAnalog(pin: nat, value: nat)
    | SketchDigital(pin: nat, value: nat)
    | SketchReadAnalog(pin: nat)
    | SketchReadDigital(pin: nat)

  /** The event's arguments are ones its C function accepts, for an _enabledPins of the given size. */
  predicate EventFits(e: Event, pins: nat)
  {
    match e
    case Host(req) => RequestFits(req, pins)
    case SketchAnalog(p, v) => p < 0x100 && v < 0x100 && p < pins
    case SketchDigital(p, v) => p < 0x100 && v < 0x100 && p < pins
    case SketchReadAnalog(p) => p < 0x100
    case SketchReadDigital(p) => p < 0x100
  }

  predicate AllFit(evs: seq<Event>, pins: nat)
  {
    forall i | 0 <= i < |evs| :: EventFits(evs[i], pins)
  }

  /** The effect of one event. The sketch's reads are not gated: they print with transmit on. */
  function Step(g: Gate, e: Event, b: Board): (g': Gate)
    requires EventFits(e, |g.enabled|)
    ensures |g'.enabled| == |g.enabled|
  {
    match e
    case Host(req) => HostRequest(g, req, b)
    case SketchAnalog(p, v) => SketchWriteAnalog(g, p, v, b)
    case SketchDigital(p, v) => SketchWriteDigital(g, p, v, b)
    case SketchReadAnalog(p) => Gate(g.enabled, g.out + Emit(b, Report("RA", p, ToUint16(b.analogIn(p)))), g.writes)
    case SketchReadDigital(p) => Gate(g.enabled, g.out + Emit(b, Report("RD", p, ToUint8(b.digitalIn(p)))), g.writes)
  }

  /** A sequence of events, in order. */
  function Run(g: Gate, evs: seq<Event>, b: Board): (g': Gate)
    requires AllFit(evs, |g.enabled|)
    ensures |g'.enabled| == |g.enabled|
    decreases |evs|
  {
    if evs == [] then g else Run(Step(g, evs[0], b), evs[1..], b)
  }

  /** Built with transmit off, the library never prints, whatever happens. */
  lemma {:induction false} SilentWithoutTransmit(g: Gate, evs: seq<Event>, b: Board)
    requires !b.transmit && AllFit(evs, |g.enabled|)
    ensures Run(g, evs, b).out == g.out
    decreases |evs|
  {
    if evs != [] {
      var g' := Step(g, evs[0], b);
      assert g'.out == g.out;
      SilentWithoutTransmit(g', evs[1..], b);
    }
  }

  /** The events without the sketch's writes to one pin. */
  function WithoutSketchWrites(evs: seq<Event>, pin: nat): (kept: seq<Event>)
    ensures |kept| <= |evs|
    ensures forall e | e in kept :: e in evs && !((e.SketchAnalog? || e.SketchDigital?) && e.pin == pin)
    decreases |evs|
  {
    if evs == [] then []
    else if (evs[0].SketchAnalog? || evs[0].SketchDigital?) && evs[0].pin == pin then WithoutSketchWrites(evs[1..], pin)
    else [evs[0]] + WithoutSketchWrites(evs[1..], pin)
  }

  /** A host get on the given pin: the only event that enables it. */
  predicate GivesBack(e: Event, pin: nat)
  {
    e.Host? && (e.req.ReadAnalogReq? || e.req.ReadDigitalReq?) && e.req.pin == pin
  }

  /** An event other than a host get on the pin leaves a disabled pin disabled. */
  lemma {:induction false} StepKeepsDisabled(g: Gate, e: Event, b: Board, pin: nat)
    requires EventFits(e, |g.enabled|) && pin < |g.enabled| && !g.enabled[pin] && !GivesBack(e, pin)
    ensures !Step(g, e, b).enabled[pin]
  {
  }

  /**
   * Once the host has set a pin, the sketch's writes to it are ignored until the
   * host reads that pin: the run is the same with those writes removed.
   */
  lemma {:induction false} HostOverridesSketch(g: Gate, evs: seq<Event>, b: Board, pin: nat)
    requires pin < |g.enabled| && !g.enabled[pin] && AllFit(evs, |g.enabled|)
    requires forall i | 0 <= i < |evs| :: !GivesBack(evs[i], pin)
    ensures AllFit(WithoutSketchWrites(evs, pin), |g.enabled|)
    ensures Run(g, evs, b) == Run(g, WithoutSketchWrites(evs, pin), b)
    decreases |evs|
  {
    if evs != [] {
      var e, tail := evs[0], evs[1..];
      assert EventFits(e, |g.enabled|) && !GivesBack(e, pin);
      assert AllFit(tail, |g.enabled|);
      var kept := WithoutSketchWrites(evs, pin);
      if (e.SketchAnalog? || e.SketchDigital?) && e.pin == pin {
        assert Step(g, e, b) == g;
        assert kept == WithoutSketchWrites(tail, pin);
        HostOverridesSketch(g, tail, b, pin);
      } else {
        var g' := Step(g, e, b);
        StepKeepsDisabled(g, e, b, pin);
        HostOverridesSketch(g', tail, b, pin);
        assert kept == [e] + WithoutSketchWrites(tail, pin);
        assert kept[0] == e && kept[1..] == WithoutSketchWrites(tail, pin);
      }
    }
  }

  /** A host set takes the pin from the sketch: a following sketch write to it changes nothing. */
  lemma {:induction false} SetDisablesSketchWrite(g: Gate, req: Request, b: Board, val: nat)
    requires (req.WriteAnalogReq? || req.WriteDigitalReq?) && req.pin < 0x100 && val < 0x100
    requires RequestFits(req, |g.enabled|)
    ensures var h := HostRequest(g, req, b);
            SketchWriteAnalog(h, req.pin, val, b) == h && SketchWriteDigital(h, req.pin, val, b) == h
  {
  }

  /** A host get gives the pin back: a following sketch write to it is made. */
  lemma {:induction false} GetEnablesSketchWrite(g: Gate, req: Request, b: Board, val: nat)
    requires (req.ReadAnalogReq? || req.ReadDigitalReq?) && req.pin < 0x100 && val < 0x100
    requires RequestFits(req, |g.enabled|)
    ensures var h := HostRequest(g, req, b);
            SketchWriteDigital(h, req.pin, val, b).writes == h.writes + [DigitalOut(req.pin, val)]
            && SketchWriteAnalog(h, req.pin, val, b).writes == h.writes + [AnalogOut(req.pin, val)]
  {
  }

  /** The state after one call of processCommands: the request of the completed line, if any, applied. */
  function CallGate(g: Gate, f: Frame, b: Board): (g': Gate)
    requires f.outcome.Complete? ==>
               CommandDefined(Tokens(f.outcome.line)) && RequestFits(Decode(Tokens(f.outcome.line)), |g.enabled|)
    ensures !f.outcome.Complete? ==> g' == g
  {
    if f.outcome.Complete? then HostRequest(g, Decode(Tokens(f.outcome.line)), b) else g
  }

  class Devino {
    /** The constructor's argument, _transmit. */
    const transmit: bool
    /** analogRead and digitalRead, as functions of the pin. */
    const analogIn: nat -> int
    const digitalIn: nat -> int
    /** _enabledPins: whether the sketch may drive each pin. */
    const enabledPins: array<bool>
    /** The static locals of processCommands. */
    var isCmd: bool
    var index: nat
    /** Bytes received and not yet read. */
    var rx: seq<char>
    /** Everything printed on Serial. */
    var tx: string
    /** The analogWrite and digitalWrite calls made, in order. */
    var writes: seq<PinWrite>

    ghost predicate Valid()
      reads this
    {
      StateOk(isCmd, index)
    }

    function Hardware(): Board
    {
      Board(transmit, analogIn, digitalIn)
    }

    function State(): Gate
      reads this, enabledPins
    {
      Gate(enabledPins[..], tx, writes)
    }

    /** A Devino with static storage: _enabledPins starts all zero, so the sketch drives no pin until the host reads it. */
    constructor (transmit: bool, pins: nat, analogIn: nat -> int, digitalIn: nat -> int)
      ensures Valid() && !isCmd && index == 0 && rx == []
      ensures fresh(enabledPins) && State() == Gate(seq(pins, _ => false), [], [])
      ensures Hardware() == Board(transmit, analogIn, digitalIn)
    {
      this.transmit := transmit;
      this.analogIn := analogIn;
      this.digitalIn := digitalIn;
      enabledPins := new bool[pins](_ => false);
      isCmd := false;
      index := 0;
      rx := [];
      tx := [];
      writes := [];
    }

    /** Bytes arriving on the serial line. */
    method Receive(bytes: seq<char>)
      modifies this
      ensures rx == old(rx) + bytes && State() == old(State())
      ensures isCmd == old(isCmd) && index == old(index)
    {
      rx := rx + bytes;
    }

    /** readAnalog: read the pin as a uint16_t and, with transmit, print "<RApin val>" on its own line. */
    method ReadAnalog(pin: nat) returns (val: nat)
      requires pin < 0x100
      modifies this
      ensures val == ToUint16(analogIn(pin))
      ensures State() == Step(old(State()), SketchReadAnalog(pin), Hardware())
      ensures isCmd == old(isCmd) && index == old(index) && rx == old(rx)
    {
      val := ToUint16(analogIn(pin));
      if transmit {
        tx := tx + Println(Report("RA", pin, val));
      }
    }

    /** readDigital: read the pin as a uint8_t and, with transmit, print "<RDpin val>" on its own line. */
    method ReadDigital(pin: nat) returns (val: nat)
      requires pin < 0x100
      modifies this
      ensures val == ToUint8(digitalIn(pin))
      ensures State() == Step(old(State()), SketchReadDigital(pin), Hardware())
      ensures isCmd == old(isCmd) && index == old(index) && rx == old(rx)
    {
      val := ToUint8(digitalIn(pin));
      if transmit {
        tx := tx + Println(Report("RD", pin, val));
      }
    }

    /** writeAnalog, gated by _enabledPins[pin]. */
    method WriteAnalog(pin: nat, val: nat)
      requires pin < 0x100 && val < 0x100 && pin < enabledPins.Length
      modifies this
      ensures State() == SketchWriteAnalog(old(State()), pin, val, Hardware())
      ensures isCmd == old(isCmd) && index == old(index) && rx == old(rx)
    {
      if enabledPins[pin] {
        writes := writes + [AnalogOut(pin, val)];
        if transmit {
          tx := tx + Println(Report("WA", pin, val));
        }
      }
    }

    /** writeDigital, gated by _enabledPins[pin]. */
    method WriteDigital(pin: nat, val: nat)
      requires pin < 0x100 && val < 0x100 && pin < enabledPins.Length
      modifies this
      ensures State() == SketchWriteDigital(old(State()), pin, val, Hardware())
      ensures isCmd == old(isCmd) && index == old(index) && rx == old(rx)
    {
      if enabledPins[pin] {
        writes := writes + [DigitalOut(pin, val)];
        if transmit {
          tx := tx + Println(Report("WD", pin, val));
        }
      }
    }

    /** runCommand: a set writes the pin itself and clears its flag; a get reads through the helper and sets it. */
    method RunCommand(cmdLn: string)
      requires CommandDefined(Tokens(cmdLn)) && RequestFits(Decode(Tokens(cmdLn)), enabledPins.Length)
      modifies this, enabledPins
      ensures State() == HostRequest(old(State()), Decode(Tokens(cmdLn)), Hardware())
      ensures isCmd == old(isCmd) && index == old(index) && rx == old(rx)
    {
      var toks := Tokens(cmdLn);
      if toks[0] == "set" {
        if toks[1] == "a" {
          var p := Atoi(toks[2]);
          writes := writes + [AnalogOut(ToUint8(p), Atoi(toks[3]))];
          enabledPins[p] := false;
        } else if toks[1] == "d" {
          var p := Atoi(toks[2]);
          writes := writes + [DigitalOut(ToUint8(p), ToUint8(Atoi(toks[3])))];
          enabledPins[p] := false;
        }
      } else if toks[0] == "get" {
        if toks[1] == "a" {
          var _ := ReadAnalog(ToUint8(Atoi(toks[2])));
          enabledPins[Atoi(toks[2])] := true;
        } else if toks[1] == "d" {
          var _ := ReadDigital(ToUint8(Atoi(toks[2])));
          enabledPins[Atoi(toks[2])] := true;
        }
      }
    }

    /** The '>' branch of processCommands: write the NUL at cmd[index], reset the framing state, run the line. */
    method EndCommand(cmd: array<char>, ghost body: string)
      requires cmd.Length == MaxIndex + 1 && isCmd
      requires index == Min(|body|, MaxIndex) && cmd[..index] == body[..index]
      requires var line := CString(body[..index]);
               CommandDefined(Tokens(line)) && RequestFits(Decode(Tokens(line)), enabledPins.Length)
      modifies cmd, this, enabledPins
      ensures !isCmd && index == 0 && rx == old(rx)
      ensures State() == HostRequest(old(State()), Decode(Tokens(CString(body[..old(index)]))), Hardware())
    {
      BufferLine(cmd[..], index, body);
      cmd[index] := '\0';
      isCmd := false;
      index := 0;
      RunCommand(CString(cmd[..]));
    }

    /** processCommands: the same framing loop as the ungated revision, running the line through this runCommand. */
    method ProcessCommands()
      requires Valid()
      requires var f := Call(isCmd, index, rx);
               !f.outcome.Garbled?
               && (f.outcome.Complete? ==>
                     CommandDefined(Tokens(f.outcome.line)) && RequestFits(Decode(Tokens(f.outcome.line)), enabledPins.Length))
      modifies this, enabledPins
      ensures Valid()
      ensures var f := Call(old(isCmd), old(index), old(rx));
              isCmd == f.isCmd && index == f.index && rx == f.rest
      ensures State() == CallGate(old(State()), Call(old(isCmd), old(index), old(rx)), Hardware())
    {
      var cmd := new char[64];
      ghost var known := KnownAtCall(isCmd, index);
      ghost var body: string := [];
      ghost var goal := Call(isCmd, index, rx);
      ghost var start := State();
      while |rx| > 0
        invariant StateOk(isCmd, index)
        invariant Scan(isCmd, index, known, body, rx) == goal
        invariant known && isCmd ==> index == Min(|body|, MaxIndex) && cmd[..index] == body[..index]
        invariant State() == start
        decreases |rx|
      {
        var byte := rx[0];
        rx := rx[1..];
        if isCmd {
          if byte != '>' {
            if known {
              BufferStore(cmd[..], index, body, byte);
            }
            cmd[index] := byte;
            body := body + [byte];
            index := Min(index + 1, MaxIndex);
          } else {
            assert goal == Frame(false, 0, known, body, rx, if known then Complete(CString(body[..index])) else Garbled);
            assert known;
            EndCommand(cmd, body);
            break;
          }
        } else if byte == '<' {
          isCmd := true;
          known := true;
          body := [];
        }
      }
    }
  }
}
