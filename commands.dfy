/**
 * The command language runCommand understands and the frames the Devino
 * helpers print, shared by both firmware revisions.
 *
 * A command line is "set a|d <pin> <value>" or "get a|d <pin>", split on
 * spaces by strtok; anything else is ignored. Pins and values are read with
 * atoi.
 */
module Commands {
  import opened Util
  import opened Decimal
  import opened CStr

  /** What one command line asks for; numbers are the atoi results. */
  datatype Request =
    | WriteAnalogReq(pin: nat, value: nat)
    | WriteDigitalReq(pin: nat, value: nat)
    | ReadAnalogReq(pin: nat)
    | ReadDigitalReq(pin: nat)
    | NoOp

  /**
   * The token lists runCommand handles without undefined behaviour: strcmp needs
   * fn and, after "set" or "get", arg1; atoi needs the pin (and for "set" the value)
   * as decimal digits that fit a 16-bit int.
   */
  predicate CommandDefined(toks: seq<string>)
  {
    |toks| >= 1
    && (toks[0] == "set" ==>
          |toks| >= 2 && (toks[1] == "a" || toks[1] == "d" ==> |toks| >= 4 && AtoiDefined(toks[2]) && AtoiDefined(toks[3])))
    && (toks[0] == "get" ==>
          |toks| >= 2 && (toks[1] == "a" || toks[1] == "d" ==> |toks| >= 3 && AtoiDefined(toks[2])))
  }

  /** The strcmp chain of runCommand: fn first, then arg1; tokens after the fifth are never looked at. */
  function Decode(toks: seq<string>): (req: Request)
    requires CommandDefined(toks)
    ensures req.NoOp? <==> !(|toks| >= 2 && (toks[0] == "set" || toks[0] == "get") && (toks[1] == "a" || toks[1] == "d"))
    ensures !req.NoOp? ==> |toks| >= 3 && req.pin == Atoi(toks[2])
    ensures (req.WriteAnalogReq? || req.WriteDigitalReq?) <==> toks[0] == "set" && !req.NoOp?
    ensures !req.NoOp? ==> ((req.WriteAnalogReq? || req.ReadAnalogReq?) <==> toks[1] == "a")
    ensures req.WriteAnalogReq? || req.WriteDigitalReq? ==> |toks| >= 4 && req.value == Atoi(toks[3])
  {
    if toks[0] == "set" then
      if toks[1] == "a" then WriteAnalogReq(Atoi(toks[2]), Atoi(toks[3]))
      else if toks[1] == "d" then WriteDigitalReq(Atoi(toks[2]), Atoi(toks[3]))
      else NoOp
    else if toks[0] == "get" then
      if toks[1] == "a" then ReadAnalogReq(Atoi(toks[2]))
      else if toks[1] == "d" then ReadDigitalReq(Atoi(toks[2]))
      else NoOp
    else NoOp
  }

  /** The line between the markers of "<set k p v>". */
  function SetLine(kind: char, pin: nat, value: nat): string
  {
    "set " + [kind] + " " + NatToString(pin) + " " + NatToString(value)
  }

  /** The line between the markers of "<get k p>". */
  function GetLine(kind: char, pin: nat): string
  {
    "get " + [kind] + " " + NatToString(pin)
  }

  /** A set line with numbers a 16-bit int holds decodes to the write it names. */
  lemma {:induction false} DecodeSetLine(kind: char, pin: nat, value: nat)
    requires kind == 'a' || kind == 'd'
    requires pin <= 0x7FFF && value <= 0x7FFF
    ensures CommandDefined(Tokens(SetLine(kind, pin, value)))
    ensures Decode(Tokens(SetLine(kind, pin, value)))
         == if kind == 'a' then WriteAnalogReq(pin, value) else WriteDigitalReq(pin, value)
  {
    var p, v := NatToString(pin), NatToString(value);
    var words := ["set", [kind], p, v];
    assert Unwords(words[3..]) == v;
    assert Unwords(words[2..]) == p + " " + v;
    assert Unwords(words[1..]) == [kind] + " " + (p + " " + v);
    assert SetLine(kind, pin, value) == Unwords(words);
    assert ' ' !in p && ' ' !in v;
    TokensUnwords(words);
    AtoiOfNat(pin);
    AtoiOfNat(value);
  }

  /** A get line with a pin a 16-bit int holds decodes to the read it names. */
  lemma {:induction false} DecodeGetLine(kind: char, pin: nat)
    requires kind == 'a' || kind == 'd'
    requires pin <= 0x7FFF
    ensures CommandDefined(Tokens(GetLine(kind, pin)))
    ensures Decode(Tokens(GetLine(kind, pin))) == if kind == 'a' then ReadAnalogReq(pin) else ReadDigitalReq(pin)
  {
    var p := NatToString(pin);
    var words := ["get", [kind], p];
    assert Unwords(words[2..]) == p;
    assert Unwords(words[1..]) == [kind] + " " + p;
    assert GetLine(kind, pin) == Unwords(words);
    assert ' ' !in p;
    TokensUnwords(words);
    AtoiOfNat(pin);
  }

  /** A line whose first token is neither "set" nor "get" does nothing. */
  lemma {:induction false} UnknownFunctionIgnored(toks: seq<string>)
    requires |toks| >= 1 && toks[0] != "set" && toks[0] != "get"
    ensures CommandDefined(toks) && Decode(toks) == NoOp
  {
  }

  /** The entry inside a report frame: tag, pin, a space and the value. */
  function Entry(tag: string, pin: nat, value: nat): string
  {
    tag + NatToString(pin) + " " + NatToString(value)
  }

  /** The frame sprintf'd by the read and write helpers: the entry between '<' and '>'. */
  function Report(tag: string, pin: nat, value: nat): string
  {
    "<" + Entry(tag, pin, value) + ">"
  }

  /** A call of analogWrite or digitalWrite, recorded in the order made. */
  datatype PinWrite = AnalogOut(pin: nat, value: int) | DigitalOut(pin: nat, value: int)

  /** What the firmware does for one request: text printed and pins written. */
  datatype Effect = Effect(out: string, writes: seq<PinWrite>)
}
