/**
 * The ungated firmware revision (Devino.cpp at the repository root): every
 * read and write helper prints its frame with Serial.print, with no line end,
 * and a host "set" goes through writeAnalog/writeDigital, so it is echoed.
 *
 * analogRead and digitalRead are given as functions of the pin; analogWrite
 * and digitalWrite are recorded in order; Serial input is a queue of bytes and
 * Serial output an append-only string.
 */
module RootDevino {
  import opened Util
  import opened Decimal
  import opened CStr
  import opened Commands
  import opened Framer

  /** What runCommand does for one request in this revision. */
  function Respond(req: Request, analogIn: nat -> int, digitalIn: nat -> int): (e: Effect)
    ensures req.WriteAnalogReq? ==> e.writes == [AnalogOut(ToUint8(req.pin), ToUint8(req.value))]
    ensures req.WriteDigitalReq? ==> e.writes == [DigitalOut(ToUint8(req.pin), ToUint8(req.value))]
    ensures forall w | w in e.writes ::
              w.pin < 0x100 && 0 <= w.value < 0x100
              && e.out == Report(if w.AnalogOut? then "WA" else "WD", w.pin, w.value as nat)
    ensures (req.ReadAnalogReq? || req.ReadDigitalReq?) ==>
              e.writes == [] && |e.out| > 2 && e.out[..2] == "<R"
  {
    match req
    case WriteAnalogReq(p, v) =>
      Effect(Report("WA", ToUint8(p), ToUint8(v)), [AnalogOut(ToUint8(p), ToUint8(v))])
    case WriteDigitalReq(p, v) =>
      Effect(Report("WD", ToUint8(p), ToUint8(v)), [DigitalOut(ToUint8(p), ToUint8(v))])
    case ReadAnalogReq(p) =>
      Effect(Report("RA", ToUint8(p), ToUint16(analogIn(ToUint8(p)))), [])
    case ReadDigitalReq(p) =>
      Effect(Report("RD", ToUint8(p), ToUint8(digitalIn(ToUint8(p)))), [])
    case NoOp =>
      Effect([], [])
  }

  /** What a call of processCommands prints and writes: the response to the line it completes, if any. */
  function CallEffect(f: Frame, analogIn: nat -> int, digitalIn: nat -> int): (e: Effect)
    requires f.outcome.Complete? ==> CommandDefined(Tokens(f.outcome.line))
  {
    if f.outcome.Complete? then Respond(Decode(Tokens(f.outcome.line)), analogIn, digitalIn) else Effect([], [])
  }

  /** Every request but an ignored one prints exactly one frame; only "set" writes a pin, exactly once. */
  lemma {:induction false} RespondShape(req: Request, analogIn: nat -> int, digitalIn: nat -> int)
    ensures var e := Respond(req, analogIn, digitalIn);
            (req.NoOp? <==> e.out == [])
            && (e.out != [] ==> e.out[0] == '<' && e.out[|e.out| - 1] == '>' && '<' !in e.out[1..] && '>' !in e.out[..|e.out| - 1])
            && |e.writes| == (if req.WriteAnalogReq? || req.WriteDigitalReq? then 1 else 0)
  {
    match req
    case NoOp =>
    case WriteAnalogReq(p, v) => ReportIsOneFrame("WA", ToUint8(p), ToUint8(v));
    case WriteDigitalReq(p, v) => ReportIsOneFrame("WD", ToUint8(p), ToUint8(v));
    case ReadAnalogReq(p) => ReportIsOneFrame("RA", ToUint8(p), ToUint16(analogIn(ToUint8(p))));
    case ReadDigitalReq(p) => ReportIsOneFrame("RD", ToUint8(p), ToUint8(digitalIn(ToUint8(p))));
  }

  /** A report is one frame: it opens with '<', closes with '>', and holds neither marker inside. */
  lemma {:induction false} ReportIsOneFrame(tag: string, pin: nat, value: nat)
    requires '<' !in tag && '>' !in tag
    ensures var r := Report(tag, pin, value);
            r[0] == '<' && r[|r| - 1] == '>' && '<' !in r[1..] && '>' !in r[..|r| - 1]
  {
    var r := Report(tag, pin, value);
    var inner := tag + NatToString(pin) + " " + NatToString(value);
    assert r == "<" + inner + ">";
    assert r[1..] == inner + ">" && r[..|r| - 1] == "<" + inner;
    forall i | 0 <= i < |inner| ensures inner[i] != '<' && inner[i] != '>' {
      var p, v := NatToString(pin), NatToString(value);
      if i < |tag| {
        assert inner[i] == tag[i];
      } else if i < |tag| + |p| {
        assert inner[i] == p[i - |tag|];
      } else if i > |tag| + |p| {
        assert inner[i] == v[i - |tag| - |p| - 1];
      }
    }
  }

  /** "<set d p v>" for a pin below 256 writes the pin and echoes "<WDp v'>", v' being v cut to a uint8_t. */
  lemma {:induction false} SetDigitalEchoes(pin: nat, value: nat, analogIn: nat -> int, digitalIn: nat -> int)
    requires pin < 0x100 && value <= 0x7FFF
    ensures CommandDefined(Tokens(SetLine('d', pin, value)))
    ensures Respond(Decode(Tokens(SetLine('d', pin, value))), analogIn, digitalIn)
         == Effect(Report("WD", pin, value % 0x100), [DigitalOut(pin, value % 0x100)])
  {
    DecodeSetLine('d', pin, value);
  }

  /** "<set a p v>" for a pin below 256 writes the pin and echoes "<WAp v'>", v' being v cut to a uint8_t. */
  lemma {:induction false} SetAnalogEchoes(pin: nat, value: nat, analogIn: nat -> int, digitalIn: nat -> int)
    requires pin < 0x100 && value <= 0x7FFF
    ensures CommandDefined(Tokens(SetLine('a', pin, value)))
    ensures Respond(Decode(Tokens(SetLine('a', pin, value))), analogIn, digitalIn)
         == Effect(Report("WA", pin, value % 0x100), [AnalogOut(pin, value % 0x100)])
  {
    DecodeSetLine('a', pin, value);
  }

  class Devino {
    /** The constructor's argument; it is stored and never read. */
    const commandsEnabled: bool
    /** analogRead and digitalRead, as functions of the pin. */
    const analogIn: nat -> int
    const digitalIn: nat -> int
    /** The static locals of processCommands. */
    var isCmd: bool
    var index: nat
    /** Bytes received and not yet read. */
    var rx: seq<char>
    /** Everything printed on Serial. */
    var tx: string
    /** The analogWrite and digitalWrite calls made, in order. */
    var writes: seq<PinWrite>

    ghost predicate Valid()
      reads this
    {
      StateOk(isCmd, index)
    }

    constructor (commandsEnabled: bool, analogIn: nat -> int, digitalIn: nat -> int)
      ensures Valid() && !isCmd && index == 0 && rx == [] && tx == [] && writes == []
      ensures this.commandsEnabled == commandsEnabled && this.analogIn == analogIn && this.digitalIn == digitalIn
    {
      this.commandsEnabled := commandsEnabled;
      this.analogIn := analogIn;
      this.digitalIn := digitalIn;
      isCmd := false;
      index := 0;
      rx := [];
      tx := [];
      writes := [];
    }

    /** Bytes arriving on the serial line. */
    method Receive(bytes: seq<char>)
      modifies this`rx
      ensures rx == old(rx) + bytes
    {
      rx := rx + bytes;
    }

    /** readAnalog: read the pin as a uint16_t, print "<RApin val>", return the value. */
    method ReadAnalog(pin: nat) returns (val: nat)
      requires pin < 0x100
      modifies this`tx
      ensures val == ToUint16(analogIn(pin)) && val < 0x1_0000
      ensures tx == old(tx) + Report("RA", pin, val)
    {
      val := ToUint16(analogIn(pin));
      tx := tx + Report("RA", pin, val);
    }

    /** readDigital: read the pin as a uint8_t, print "<RDpin val>", return the value. */
    method ReadDigital(pin: nat) returns (val: nat)
      requires pin < 0x100
      modifies this`tx
      ensures val == ToUint8(digitalIn(pin)) && val < 0x100
      ensures tx == old(tx) + Report("RD", pin, val)
    {
      val := ToUint8(digitalIn(pin));
      tx := tx + Report("RD", pin, val);
    }

    /** writeAnalog: analogWrite, then print "<WApin val>". */
    method WriteAnalog(pin: nat, val: nat)
      requires pin < 0x100 && val < 0x100
      modifies this`tx, this`writes
      ensures writes == old(writes) + [AnalogOut(pin, val)]
      ensures tx == old(tx) + Report("WA", pin, val)
    {
      writes := writes + [AnalogOut(pin, val)];
      tx := tx + Report("WA", pin, val);
    }

    /** writeDigital: digitalWrite, then print "<WDpin val>". */
    method WriteDigital(pin: nat, val: nat)
      requires pin < 0x100 && val < 0x100
      modifies this`tx, this`writes
      ensures writes == old(writes) + [DigitalOut(pin, val)]
      ensures tx == old(tx) + Report("WD", pin, val)
    {
      writes := writes + [DigitalOut(pin, val)];
      tx := tx + Report("WD", pin, val);
    }

    /** runCommand: tokenise the line and dispatch on fn, then arg1; pins and values pass through uint8_t parameters. */
    method RunCommand(cmdLn: string)
      requires CommandDefined(Tokens(cmdLn))
      modifies this`tx, this`writes
      ensures var e := Respond(Decode(Tokens(cmdLn)), analogIn, digitalIn);
              tx == old(tx) + e.out && writes == old(writes) + e.writes
    {
      var toks := Tokens(cmdLn);
      if toks[0] == "set" {
        if toks[1] == "a" {
          WriteAnalog(ToUint8(Atoi(toks[2])), ToUint8(Atoi(toks[3])));
        } else if toks[1] == "d" {
          WriteDigital(ToUint8(Atoi(toks[2])), ToUint8(Atoi(toks[3])));
        }
      } else if toks[0] == "get" {
        if toks[1] == "a" {
          var _ := ReadAnalog(ToUint8(Atoi(toks[2])));
        } else if toks[1] == "d" {
          var _ := ReadDigital(ToUint8(Atoi(toks[2])));
        }
      }
    }

    /** The '>' branch of processCommands: write the NUL at cmd[index], reset the framing state, run the line. */
    method EndCommand(cmd: array<char>, ghost body: string)
      requires cmd.Length == MaxIndex + 1 && isCmd
      requires index == Min(|body|, MaxIndex) && cmd[..index] == body[..index]
      requires CommandDefined(Tokens(CString(body[..index])))
      modifies cmd, this`isCmd, this`index, this`tx, this`writes
      ensures !isCmd && index == 0
      ensures var e := Respond(Decode(Tokens(CString(body[..old(index)]))), analogIn, digitalIn);
              tx == old(tx) + e.out && writes == old(writes) + e.writes
    {
      BufferLine(cmd[..], index, body);
      cmd[index] := '\0';
      isCmd := false;
      index := 0;
      RunCommand(CString(cmd[..]));
    }

    /**
     * processCommands: read bytes while any are available, framing them; on '>'
     * terminate the buffer, reset the state, run the command and stop. The buffer
     * is a fresh local with unspecified contents, so a command may complete only
     * if all its bytes are read in this call or none were stored before it.
     */
    method ProcessCommands()
      requires Valid()
      requires var f := Call(isCmd, index, rx);
               !f.outcome.Garbled? && (f.outcome.Complete? ==> CommandDefined(Tokens(f.outcome.line)))
      modifies this
      ensures Valid()
      ensures var f := Call(old(isCmd), old(index), old(rx));
              isCmd == f.isCmd && index == f.index && rx == f.rest
      ensures var e := CallEffect(Call(old(isCmd), old(index), old(rx)), analogIn, digitalIn);
              tx == old(tx) + e.out && writes == old(writes) + e.writes
    {
      var cmd := new char[64];
      ghost var known := KnownAtCall(isCmd, index);
      ghost var body: string := [];
      ghost var goal := Call(isCmd, index, rx);
      while |rx| > 0
        invariant StateOk(isCmd, index)
        invariant Scan(isCmd, index, known, body, rx) == goal
        invariant known && isCmd ==> index == Min(|body|, MaxIndex) && cmd[..index] == body[..index]
        invariant tx == old(tx) && writes == old(writes)
        decreases |rx|
      {
        var byte := rx[0];
        rx := rx[1..];
        if isCmd {
          if byte != '>' {
            if known {
              BufferStore(cmd[..], index, body, byte);
            }
            cmd[index] := byte;
            body := body + [byte];
            index := Min(index + 1, MaxIndex);
          } else {
            assert goal == Frame(false, 0, known, body, rx, if known then Complete(CString(body[..index])) else Garbled);
            assert known;
            EndCommand(cmd, body);
            break;
          }
        } else if byte == '<' {
          isCmd := true;
          known := true;
          body := [];
        }
      }
    }
  }
}
