# Devino protocol engine, modelled in Dafny

Devino lets an operator watch and drive the pins of an Arduino board from a
desktop window over a serial link. The two ends speak a small text protocol.

- **Board to host.** The firmware prints report frames: `<RA0 512>` (an analog
  read), `<RD5 1>` (a digital read), `<WA6 200>` (an analog write) and
  `<WD5 0>` (a digital write).
- **Host to board.** The host sends `<set a|d pin value>`. The firmware's
  command language also has `<get a|d pin>`.

This project models both ends.

**Host** (`src/main/python/main.py`): the `ArduinoDesign` window is modelled as
the class `Host.Design`.

- `ParseMessage` decodes a received chunk as UTF-8 and finds the `<...>` groups
  the way `re.findall(r"<(.*?)>")` does. It splits each group on commas and
  dispatches every entry in wire order, using the fixed priority `RA`, then `WA`,
  then `D` in second place. It then removes each `<entry>` from the text and
  appends what is left to the serial monitor.
- Inside that loop, a short entry raises `IndexError` and a non-numeric value
  raises `ValueError`. Either one stops the loop, keeps the updates already made
  and prints nothing.
- The three widget dictionaries are maps from the pin key to a widget record:
  line edits for A0–A5, mode buttons for D2–D13, and PWM spin boxes for
  A3/A5/A6/A9/A10/A11.
- A connected click or value-changed handler is recorded as the pin character it
  will send.
- `SetDigital` and `SetPwm` are the two handlers: they format `<set d ...>` and
  `<set a ...>`.
- Module `Ports` holds the serial-port menu: the `list_serial` hwid test and the
  `set_serial` port-name split.

**Firmware**, in two revisions.

- **Root `Devino.cpp`** (module `RootDevino`). Every helper echoes its frame with
  `Serial.print`, so a host `set` is acknowledged by `<WDp v>` or `<WAp v>`.
- **Library copy bundled with the host**
  (`src/main/resources/base/library/Devino.cpp`, module `GatedDevino`):
  - A host `set` drives the pin directly and prints nothing. It also clears
    `_enabledPins[pin]`, which takes the pin away from the sketch.
  - A host `get` reads the pin and sets the flag again.
  - The sketch's own writes happen only for pins it holds.
  - Every frame is printed with `println`, and only when `_transmit` is on.

  The library's state is a `Gate` value: the per-pin flags, the serial output
  and the pin writes made. The class is proved against functions on `Gate`.

Both revisions share the framing loop of `processCommands`, modelled by the
function `Framer.Scan`:

- `isCmd` and `index` are static, so they outlive a call.
- The 64-byte `cmd` buffer is a fresh, uninitialised local on every call.
- `index` is held at 63 by `constrain`.
- `'>'` writes the terminating NUL and hands the line to `runCommand`.

The `runCommand` side also models:

- `strtok` on spaces, `strcmp`, and `atoi` with a 16-bit `int`;
- the conversions to `uint8_t` and `uint16_t`, written out as `% 256` and
  `% 65536`.

Module `RoundTrip` connects the two ends:

- What `set_digital` and `set_pwm` send is framed and decoded by the firmware as
  the write it names.
- Each report the firmware prints is decoded by the host into exactly one entry
  with the right key and value.
- A click on a mode button is confirmed by the echo, and the echo leaves nothing
  in the log.

Some behaviour of the code is modelled as written and proved as a property.

- **Pins 10–13.** The handlers connected by `update_digital_display` and
  `update_pwm_display` send `data[2]`, the first digit of the pin number. A
  click on D10–D13 therefore sends pin `1`, which drives pin 1. The echo
  `<WD1 b>` names no button. See `WideDigitalPinsDrivePinOne` and
  `PinOneEchoIgnored`.
- **PWM values.** The ungated firmware passes the PWM value through a `uint8_t`.
  A spin-box value of 256 or more is written and echoed modulo 256, and the
  echo then changes the spin box (`PwmEchoWraps`).
- **Gated echo line ends.** The gated firmware ends its reports with CR LF. The
  host prints that CR LF as log text (`GatedReportLeavesLineEnd`).

Behaviour of the code worth knowing:

- `update_pwm_display` applies the value even when the spin box has focus.
- Only `update_analog_display` compares before setting. The digital label and
  the PWM value are set on every report.
- The host never sends `get`.
- The host sends the pin character `data[2]`, not the pin number.

Modelling choices:

- Serial bytes on the board are `char`s, one per byte.
- Host bytes are a `byte` newtype.
- `analogRead` and `digitalRead` are functions of the pin, supplied from outside.
- `analogWrite` and `digitalWrite` calls are recorded in order.

## Model

| member | source | states |
|---|---|---|
| Host.Design.ParseMessage | src/main/python/main.py:218-231 | Undecodable bytes leave widgets and monitor unchanged. Otherwise the widgets become the result of applying every entry of the decoded text in order. If no entry raised, the monitor gains the text with every `<entry>` removed; if one raised, the monitor is unchanged and the panel keeps the earlier entries' effects. The panel invariant is kept. |
| Host.Design.DispatchEntry | src/main/python/main.py:224-227 | One entry updates the panel exactly as the RA / WA / second-character-D priority chain says. An entry of fewer than two characters raises IndexError. The panel invariant is kept. |
| Host.Design.UpdateAnalogDisplay | src/main/python/main.py:236-238 | The widgets become the analog update of the entry, or stay unchanged with the error it raises. Monitor, sent bytes and sender text are untouched. |
| Host.Design.UpdatePwmDisplay | src/main/python/main.py:240-251 | The widgets become the PWM update of the entry, or stay unchanged with the IndexError or ValueError it raises. |
| Host.Design.UpdateDigitalDisplay | src/main/python/main.py:253-262 | The widgets become the digital update of the entry, or stay unchanged with the IndexError or ValueError it raises. |
| Host.Design.SendMessage | src/main/python/main.py:214-216 | The typed-message field is cleared and exactly these bytes are appended to what was sent. |
| Host.Design.SetDigital | src/main/python/main.py:264-267 | The clicked button's label flips between LOW and HIGH. The UTF-8 bytes of `<set d pin b>` are sent, with b = 0 when the label was HIGH and 1 otherwise. No other widget changes. |
| Host.Design.SetPwm | src/main/python/main.py:269-271 | The UTF-8 bytes of `<set a pin v>` are sent, v being the spin box's value in decimal. No widget changes. |
| Host.Design.constructor | src/main/python/main.py:134-165 | The window starts with the three fixed dictionaries (A0–A5; D2–D13; A3, A5, A6, A9, A10, A11), every control disabled and nothing connected. The panel invariant holds. |
| Host.InitialPanelInv | src/main/python/main.py:134-165 | The initial panel has exactly the dictionary keys of the source, and every control satisfies its invariant. |
| Host.PinKey | src/main/python/main.py:237 | The key taken from an entry is the first space-separated field without its first character. It is empty or a substring starting at position 1. It holds no space, and a non-empty key is followed in the entry by a space or by the end. |
| Host.AnalogUpdate | src/main/python/main.py:236-238 | A successful analog update changes only the analog dictionary and keeps its keys. |
| Host.PwmUpdate | src/main/python/main.py:240-251 | A successful PWM update changes only the PWM dictionary and keeps its keys. |
| Host.DigitalUpdate | src/main/python/main.py:253-262 | A successful digital update changes only the digital dictionary and keeps its keys. |
| Host.Dispatch | src/main/python/main.py:225-227 | An RA entry touches only analog widgets, a WA entry only PWM widgets, and a second-character-D entry only digital widgets. Any other entry of length ≥ 2 changes nothing. A shorter one raises IndexError. The dictionary keys are kept. |
| Host.ProcessEntries | src/main/python/main.py:224-229 | Processing a message's entries keeps the dictionary keys. |
| Host.DispatchKeepsInv | src/main/python/main.py:249-251 | No entry breaks the invariant: a button is enabled exactly when its single handler is connected. A PWM control shows page 1 exactly when its single handler is connected, and is then enabled with keyboard tracking off. |
| Host.ProcessKeepsInv | src/main/python/main.py:218-231 | A whole message keeps that invariant. |
| Host.DispatchIdempotent | src/main/python/main.py:236-262 | Applying the same entry twice is the same as applying it once. No text is set twice and no handler is connected twice. |
| Host.AnalogIdempotent | src/main/python/main.py:238 | A repeated analog reading makes no further setText call. |
| Host.PwmIdempotent | src/main/python/main.py:245-251 | A repeated WA entry leaves the PWM control as the first one left it. |
| Host.DigitalIdempotent | src/main/python/main.py:258-262 | A repeated digital entry leaves the button as the first one left it. |
| Host.DispatchGrows | src/main/python/main.py:247-251 | After an entry, enabled buttons stay enabled and PWM controls on page 1 stay there. Handler lists only grow at the end. |
| Host.PwmGrows | src/main/python/main.py:247-251 | The PWM update never leaves page 1 and never drops a handler. |
| Host.DigitalGrows | src/main/python/main.py:260-262 | The digital update never disables a button and never drops a handler. |
| Host.ProcessGrows | src/main/python/main.py:224-229 | No message disables a button, leaves a spin-box page or disconnects a handler. |
| Host.AnalogReport | src/main/python/main.py:236-238 | An RA entry for A0–A5 leaves the reported text in the line edit. It counts one setText exactly when the text differed. |
| Host.UnknownPinIgnored | src/main/python/main.py:236-262 | An entry naming a key outside its dictionary changes nothing. |
| Host.DigitalReport | src/main/python/main.py:253-262 | For D2–D13 the label is HIGH exactly when the value is positive and LOW otherwise. The button is enabled afterwards exactly when it was before or the entry starts with W. A handler is connected only when a W entry enables the button, and it sends the key's second character. |
| Host.PwmReport | src/main/python/main.py:240-251 | The spin box takes the value. The first report also switches to page 1, enables the spin box, stops keyboard tracking and connects one handler. Later reports only set the value. |
| Host.CommaGroupNotMatched | src/main/python/main.py:224-229 | No single entry of a comma-joined group occurs as `<entry>` in that group's frame. |
| Host.ResidualUnchanged | src/main/python/main.py:229-231 | If no entry occurs as `<entry>` in the text, the printed residual is the whole text. |
| Host.CommaGroupPrinted | src/main/python/main.py:224-231 | A message made of one comma-joined group has the group's comma-separated pieces as its entries. Those entries are applied, but the frame is printed whole. |
| Ports.PortLabel | src/main/python/main.py:201-204 | The label is the port name, followed by " (Arduino Uno)" exactly when the hwid contains one of the two Uno USB ids. |
| Ports.PortName | src/main/python/main.py:180 | The selected name is the longest space-free prefix of the action text. It ends at the text's end or at a space. |
| Ports.PortNameOfLabel | src/main/python/main.py:178-204 | Choosing a menu entry selects the port it was made for, whatever its hwid. |
| Ports.NoUsbIdPlain | src/main/python/main.py:201 | A hwid with no "VID:PID=" field never gets the Uno label. |
| Ports.UnoIdLabelled | src/main/python/main.py:201-202 | Either Uno id anywhere in the hwid gets the Uno label. |
| Ports.PortMenu | src/main/python/main.py:195-212 | The menu has one entry per enumerated port, in order. Each entry carries its label and is ticked exactly when its port is the current one. |
| Ports.ReselectTicks | src/main/python/main.py:178-212 | After choosing entry i and relisting, exactly the entries for that port are ticked. |
| PyStr.Split | src/main/python/main.py:237 | `str.split` on one character always returns at least one piece. |
| PyStr.SplitPieces | src/main/python/main.py:237 | No piece contains the separator. The first piece is a prefix of the text ending at a separator or at the end. |
| PyStr.JoinSplit | src/main/python/main.py:224 | Joining the pieces with the separator gives the text back. |
| PyStr.SplitJoin | src/main/python/main.py:224 | Separator-free pieces come back unchanged from a join and a split. |
| PyStr.SplitNoSep | src/main/python/main.py:237 | Text without the separator is one piece. |
| PyStr.SplitAt | src/main/python/main.py:180 | A separator-free prefix followed by the separator is the first piece. |
| PyStr.Groups | src/main/python/main.py:224 | Every group found by the lazy `<(.*?)>` match is free of '>' and of line breaks. |
| PyStr.GroupsSkipText | src/main/python/main.py:224 | Text before the first '<' contributes no group. |
| PyStr.GroupsTake | src/main/python/main.py:224 | A complete `<g>` is matched whole, and matching resumes right after it. |
| PyStr.EntriesStep | src/main/python/main.py:224 | Entries come out in wire order: text is skipped, then a group's comma pieces, then the rest. |
| PyStr.EntriesNone | src/main/python/main.py:224 | A text without '<' has no entries. |
| PyStr.Entries | src/main/python/main.py:224 | Every group gives at least one entry, and no entry holds a comma, a '>' or a line break. |
| PyStr.SplitEach | src/main/python/main.py:224 | Splitting each group on commas gives at least one entry per group and no entry with a comma. Entries keep the groups' freedom from '>' and line breaks. |
| PyStr.SplitChars | src/main/python/main.py:224 | A piece of a split holds no character that the text does not. |
| PyStr.GroupsUnclosed | src/main/python/main.py:224 | A '<' whose group is not closed before the end or a line break is skipped. Matching resumes right after it. |
| PyStr.RemoveAll | src/main/python/main.py:229 | `replace(pat, "")` never lengthens the text. |
| PyStr.RemoveAllAbsent | src/main/python/main.py:229 | Removing a pattern that does not occur leaves the text unchanged. |
| PyStr.RemoveAllSkips | src/main/python/main.py:229 | Text holding no copy of the pattern's first character passes through untouched. |
| PyStr.RemoveAllFront | src/main/python/main.py:229 | An occurrence at the front is removed. |
| PyStr.PyInt | src/main/python/main.py:246-259 | `int()` refuses a text without a digit. It gives a negative number only for a text with a minus sign. |
| PyStr.StripLeftSuffix | src/main/python/main.py:246-259 | `int()`'s left strip leaves a suffix that does not start with whitespace. |
| PyStr.StripRightPrefix | src/main/python/main.py:246-259 | `int()`'s right strip leaves a prefix that does not end with whitespace. |
| PyStr.PyIntOfDigits | src/main/python/main.py:246-259 | `int()` of a digit string is its decimal value. |
| PyStr.PyIntOfNat | src/main/python/main.py:246-259 | `int()` reads back what `str()` writes for a natural number. |
| PyStr.PyIntOfNegative | src/main/python/main.py:246-259 | `int()` of '-' followed by digits is the negated value. |
| Utf8.EncodeChar | src/main/python/main.py:267 | Each character encodes to 1–4 bytes, and to one byte exactly when it is ASCII. |
| Utf8.Decode | src/main/python/main.py:220-222 | A successful strict decode yields no more characters than bytes. |
| Utf8.Encode | src/main/python/main.py:267 | Encoding takes at least one and at most four bytes per character. |
| Utf8.TwoBytesEncode | src/main/python/main.py:220 | A two-byte sequence the decoder accepts is the encoding of the character it yields. |
| Utf8.ThreeBytesEncode | src/main/python/main.py:220 | A three-byte sequence the decoder accepts, with no overlong form and no surrogate, is the encoding of its character. |
| Utf8.FourBytesEncode | src/main/python/main.py:220 | A four-byte sequence the decoder accepts, with no overlong form and nothing above U+10FFFF, is the encoding of its character. |
| Utf8.DecodeFirstEncodes | src/main/python/main.py:220 | The bytes the decoder consumes for its first character are exactly that character's encoding. |
| Utf8.EncodeDecode | src/main/python/main.py:220-222 | Whatever bytes decode successfully are the encoding of the decoded text, so decoding is strict. |
| Utf8.EncodeCons | src/main/python/main.py:267 | Encoding a character followed by a text is the character's bytes followed by the text's bytes. |
| Utf8.DecodeEncode | src/main/python/main.py:220-267 | Decoding the UTF-8 encoding of any text gives the text back. |
| Utf8.DecodeFirstOfEncodeChar | src/main/python/main.py:220 | The decoder reads back exactly one encoded character and its length. |
| Utf8.EncodeAscii | src/main/python/main.py:267-271 | ASCII text encodes byte for byte. |
| Utf8.StrayByteFails | src/main/python/main.py:221-222 | A byte that cannot start a UTF-8 sequence makes the whole chunk undecodable, so it is dropped. |
| Decimal.NatToString | Devino.cpp:84 | `%d` output is a non-empty digit string. It starts with '0' only for 0, and is one digit exactly below 10. |
| Decimal.IntToString | src/main/python/main.py:271 | `str()` of an int starts with '-' exactly for negatives. |
| Decimal.NatToStringValue | Devino.cpp:84 | The digits written denote the number. |
| Decimal.NatToStringInjective | Devino.cpp:84 | Different numbers are written differently. |
| Decimal.NatToStringLength | Devino.cpp:83-84 | A number below 10^k takes at most k digits. |
| CStr.CString | Devino.cpp:32 | The string in a buffer is its NUL-free prefix, ending at the first NUL or at the buffer's end. |
| CStr.CStringCut | Devino.cpp:32 | A NUL at position i cuts the string there at the latest. |
| CStr.CStringWhole | Devino.cpp:32 | A NUL-free string followed by NUL reads back whole. |
| CStr.Tokens | Devino.cpp:49-67 | `strtok` tokens are non-empty and hold no space. |
| CStr.TokensUnwords | Devino.cpp:49-67 | `strtok` on words joined by single spaces gives the words back. |
| CStr.Atoi | Devino.cpp:70 | `atoi` of an accepted digit string fits a 16-bit int. |
| CStr.AtoiOfNat | Devino.cpp:70 | `atoi` reads back a number written in decimal up to 32767. |
| CStr.ToUint8 | Devino.cpp:102 | Passing to a `uint8_t` gives a value below 256, unchanged when already in range. |
| CStr.ToUint16 | Devino.cpp:81 | Storing in a `uint16_t` gives a value below 65536, unchanged when already in range. |
| Commands.Decode | Devino.cpp:69-76 | A request is made exactly when fn is set or get and arg1 is a or d. Its pin is atoi of arg2. Exactly the set commands give writes, with value atoi of arg3. Exactly the requests with arg1 a are analog. |
| Commands.DecodeSetLine | Devino.cpp:46-72 | The line `set k p v` decodes to the write of v to p, for numbers up to 32767. |
| Commands.DecodeGetLine | Devino.cpp:46-76 | The line `get k p` decodes to the read of p. |
| Commands.UnknownFunctionIgnored | Devino.cpp:69-76 | A line whose first token is neither set nor get does nothing. |
| Framer.Scan | Devino.cpp:23-42 | The framing state stays well formed. Input is left over only after a completed command, and a completed command always leaves the idle state. |
| Framer.ScanOutcome | Devino.cpp:23-42 | A completed line is at most 63 bytes and holds no NUL and no '>'. A garbled completion needs a command already open with an unknown buffer. |
| Framer.Call | Devino.cpp:14-43 | One call of processCommands keeps the framing state well formed. A completed line is at most 63 bytes with no NUL and no '>'. A garbled completion happens only when the call began inside a command with bytes already stored. |
| Framer.BufferStore | Devino.cpp:28-29 | Storing a byte at cmd[index] keeps the buffer's used part equal to the first 63 stored bytes. |
| Framer.BufferLine | Devino.cpp:32 | The terminating NUL makes the buffer read as the line the scan delivers. |
| Framer.SkipsUntilStart | Devino.cpp:39-41 | Outside a command, bytes other than '<' have no effect. |
| Framer.CollectsUntilEnd | Devino.cpp:26-37 | Inside a command, the bytes up to '>' are collected. The line is their first 63 bytes up to any NUL, or Garbled when the buffer was not filled in this call. |
| Framer.CollectsWithoutEnd | Devino.cpp:26-30 | Without '>', every byte is stored and the index advances, held at 63. |
| Framer.FramesOneCommand | Devino.cpp:14-43 | From idle, junk then `<body>` completes exactly one command: the body cut to 63 bytes and at its first NUL. The following bytes stay unread. |
| Framer.ShortLineIntact | Devino.cpp:28-32 | A command of at most 63 bytes without NUL arrives unchanged. |
| Framer.LongLineTruncated | Devino.cpp:28-32 | A longer command is cut to its first 63 bytes. |
| Framer.ScanSplits | Devino.cpp:15-23 | Until a command completes, feeding bytes in two parts equals feeding them at once. |
| Framer.StatePersistsAcrossCalls | Devino.cpp:15-16 | Across a call that completes nothing, the static state continues exactly as in one long call, for isCmd, index, the unread input and completion. |
| Framer.ControlIgnoresBuffer | Devino.cpp:23-42 | Control flow never depends on the buffer's contents. |
| Framer.ContinuedCommandGarbled | Devino.cpp:18-32 | A command whose first bytes were stored by an earlier call completes over an uninitialised buffer. |
| Framer.PartialCommandLeavesIndex | Devino.cpp:15-29 | A call ending inside a command leaves isCmd set and index = min(length, 63). |
| RootDevino.Respond | Devino.cpp:46-117 | A set writes its pin and value cut to `uint8_t`, and its echo is the `<WA...>` or `<WD...>` report of exactly the write made. A get writes nothing and prints a report starting with `<R`. |
| RootDevino.RespondShape | Devino.cpp:69-117 | Only an ignored command prints nothing. Every other command prints exactly one `<...>` frame. Only a set writes a pin, exactly once. |
| RootDevino.ReportIsOneFrame | Devino.cpp:80-117 | A report opens with '<', closes with '>' and holds neither marker inside. |
| RootDevino.SetDigitalEchoes | Devino.cpp:71-117 | `set d p v` with p < 256 writes v mod 256 to p and echoes `<WDp v mod 256>`. |
| RootDevino.SetAnalogEchoes | Devino.cpp:70-108 | `set a p v` with p < 256 writes v mod 256 to p and echoes `<WAp v mod 256>`. |
| RootDevino.Devino.constructor | Devino.cpp:9-11 | The board starts idle, with nothing received, printed or written, and stores its flag. |
| RootDevino.Devino.Receive | Devino.cpp:23-24 | Arriving bytes are queued after the unread ones. |
| RootDevino.Devino.ReadAnalog | Devino.cpp:80-88 | Returns the pin's reading as a `uint16_t` and prints `<RApin val>`. |
| RootDevino.Devino.ReadDigital | Devino.cpp:91-99 | Returns the pin's reading as a `uint8_t` and prints `<RDpin val>`. |
| RootDevino.Devino.WriteAnalog | Devino.cpp:102-108 | Writes the pin and prints `<WApin val>`. |
| RootDevino.Devino.WriteDigital | Devino.cpp:111-117 | Writes the pin and prints `<WDpin val>`. |
| RootDevino.Devino.RunCommand | Devino.cpp:46-77 | Prints and writes exactly the response to the decoded command. |
| RootDevino.Devino.EndCommand | Devino.cpp:31-36 | The state returns to idle and the collected line is run. |
| RootDevino.Devino.ProcessCommands | Devino.cpp:14-43 | isCmd, index and the unread bytes become those of the framing scan. Output and pin writes gain exactly the response to the line it completes, if any. |
| GatedDevino.Println | src/main/resources/base/library/Devino.cpp:98 | A printed line is the text followed by CR LF. |
| GatedDevino.Emit | src/main/resources/base/library/Devino.cpp:95-99 | Something is printed exactly when transmit is on. |
| GatedDevino.HostRequest | src/main/resources/base/library/Devino.cpp:69-88 | A set disables its pin, prints nothing and appends one write: `analogWrite` of the pin cut to `uint8_t` with the value as an int, or `digitalWrite` with both cut to `uint8_t`. A get enables its pin, makes no write, and prints exactly when transmit is on; what it prints is the `<RA...>` or `<RD...>` report of the reading (cut to `uint16_t` or `uint8_t`) on its own line. Other pins are untouched, and an ignored line changes nothing. |
| GatedDevino.SketchWriteAnalog | src/main/resources/base/library/Devino.cpp:118-128 | The sketch's analog write is made exactly when the pin is enabled. It never changes the flags, and on a disabled pin it changes nothing. |
| GatedDevino.SketchWriteDigital | src/main/resources/base/library/Devino.cpp:131-141 | The sketch's digital write is made exactly when the pin is enabled. It never changes the flags, and on a disabled pin it changes nothing. |
| GatedDevino.SilentWithoutTransmit | src/main/resources/base/library/Devino.cpp:92-141 | Built with transmit off, the library never prints, whatever happens. |
| GatedDevino.WithoutSketchWrites | src/main/resources/base/library/Devino.cpp:118-141 | The filtered events are original events, none of them a sketch write to the pin. |
| GatedDevino.StepKeepsDisabled | src/main/resources/base/library/Devino.cpp:72-86 | Only a host get re-enables a disabled pin. |
| GatedDevino.HostOverridesSketch | src/main/resources/base/library/Devino.cpp:69-141 | After a host set and until a host get of that pin, the run is the same as if the sketch's writes to that pin were removed. |
| GatedDevino.SetDisablesSketchWrite | src/main/resources/base/library/Devino.cpp:69-141 | After a host set, a sketch write to that pin has no effect. |
| GatedDevino.GetEnablesSketchWrite | src/main/resources/base/library/Devino.cpp:79-141 | After a host get, a sketch write to that pin is made. |
| GatedDevino.CallGate | src/main/resources/base/library/Devino.cpp:14-43 | A call that completes no line leaves the state unchanged. |
| GatedDevino.Devino.constructor | src/main/resources/base/library/Devino.cpp:9-11 | Stores transmit. Every pin flag starts cleared, and the board starts idle with nothing printed or written. |
| GatedDevino.Devino.Receive | src/main/resources/base/library/Devino.cpp:23-24 | Arriving bytes are queued. Nothing else changes. |
| GatedDevino.Devino.ReadAnalog | src/main/resources/base/library/Devino.cpp:92-102 | Returns the reading as a `uint16_t` and prints the report line only with transmit on. |
| GatedDevino.Devino.ReadDigital | src/main/resources/base/library/Devino.cpp:105-115 | Returns the reading as a `uint8_t` and prints the report line only with transmit on. |
| GatedDevino.Devino.WriteAnalog | src/main/resources/base/library/Devino.cpp:118-128 | Acts as the gated sketch write. |
| GatedDevino.Devino.WriteDigital | src/main/resources/base/library/Devino.cpp:131-141 | Acts as the gated sketch write. |
| GatedDevino.Devino.RunCommand | src/main/resources/base/library/Devino.cpp:46-89 | The state becomes the host request's effect, with flags, output and writes as stated for HostRequest. |
| GatedDevino.Devino.EndCommand | src/main/resources/base/library/Devino.cpp:31-36 | The state returns to idle and the collected line's request is applied. |
| GatedDevino.Devino.ProcessCommands | src/main/resources/base/library/Devino.cpp:14-43 | The framing state follows the scan, and the library state becomes the effect of the completed line, if any. |
| RoundTrip.Chars | src/main/resources/base/library/Devino.cpp:24 | The board reads one char per byte, with equal codes. |
| RoundTrip.Bytes | Devino.cpp:85 | The board prints one byte per char, with equal codes. |
| RoundTrip.CharsOfAscii | src/main/python/main.py:267 | The board reads back the ASCII text the host encoded. |
| RoundTrip.BytesOfAscii | Devino.cpp:85 | The bytes the board prints for ASCII text are its UTF-8 encoding. |
| RoundTrip.HostCommandFramed | src/main/python/main.py:267-271 | After any text without '<', the bytes `set_digital`/`set_pwm` send complete exactly the line `set k p v`. That line decodes to the write it names, and later bytes stay unread. |
| RoundTrip.ReportDecodes | Devino.cpp:84-85 | A report frame is plain ASCII around its entry, and the host decodes its bytes back to it. |
| RoundTrip.FrameEntries | src/main/python/main.py:224 | A frame followed by text without '<' yields exactly its entry. |
| RoundTrip.EntryFields | src/main/python/main.py:236-262 | The host reads a report's key as the tag's second letter plus the pin, and its value as the number sent. |
| RoundTrip.ReportIsOneEntry | Devino.cpp:84-85 | Every report reaches the host as one entry with the right key and value. |
| RoundTrip.NoFrameIn | src/main/python/main.py:229 | Text without '<' contains no `<entry>` to remove. |
| RoundTrip.OneFrameParsed | src/main/python/main.py:218-231 | For one frame followed by text, the entry is dispatched. The text after the frame is printed, or nothing if the entry raised. |
| RoundTrip.DigitalEchoShown | src/main/python/main.py:253-262 | A `<WDp v>` echo for a button's pin labels it HIGH exactly when v > 0 and leaves it enabled. |
| RoundTrip.PwmEchoShown | src/main/python/main.py:240-251 | A `<WAp v>` echo sets the spin box to v and shows its page. |
| RoundTrip.ClickReachesPin | src/main/python/main.py:264-267 | A click on a single-digit pin's button reaches the ungated firmware as `set d p b`. The pin is driven to b and `<WDp b>` is echoed. |
| RoundTrip.ToggleConfirmed | src/main/python/main.py:264-267 | The echo of a click sets the button to the label the click flipped it to, and prints nothing. |
| RoundTrip.EchoLabel | src/main/python/main.py:259 | The echo `<WDp b>` labels HIGH for b = 1 and LOW for b = 0. |
| RoundTrip.PwmEchoWraps | src/main/python/main.py:269-271 | A spin-box value v up to 32767 is written as v mod 256 and echoed so. The spin box keeps v exactly when v < 256. |
| RoundTrip.WideDigitalPinsDrivePinOne | src/main/python/main.py:262 | Clicks on D10–D13 send pin '1' and drive pin 1. |
| RoundTrip.PinOneEchoIgnored | src/main/python/main.py:254 | The echo for pin 1 names no button and changes nothing. |
| RoundTrip.GatedClickSilent | src/main/resources/base/library/Devino.cpp:74-77 | Against the gated firmware a click drives the pin, prints no echo and takes the pin from the sketch. |
| RoundTrip.GatedReportLeavesLineEnd | src/main/resources/base/library/Devino.cpp:98 | A gated report line is applied as one entry, and the host prints its CR LF (or nothing if the entry raised). |

## Left out

- The serial manager is not part of this model: opening the port, the polling timer, reconnecting, and the thread that delivers chunks. `ParseMessage` takes one delivered chunk of bytes; `SendMessage` records the bytes handed to its write.
- Qt itself is not modelled. Widgets are records, `print_message`'s `insertPlainText` appends at the end of the monitor, and signal emission is the caller invoking `SetDigital` or `SetPwm`.
- The `.ui` form is not part of this model. Initial widget state is assumed: empty texts, disabled controls, page 0, value 0, keyboard tracking on.
- Host.PwmUpdate: the spin box's range clamping in `setValue` is not modelled; the parsed int is stored as is.
- Host.Design.SetPwm: the `hasFocus`/`clearFocus` step is not modelled, because focus is Qt window state.
- PyStr.PyInt: non-ASCII digits and non-ASCII whitespace accepted by `int()` are not modelled. A result for arbitrary negative ints is stated only for `'-'` followed by digits.
- Ports.PortMenu: the order comes from `sorted(comports())` and is taken as given. The menu title, QAction objects, and the `set_serial` unchecked branch (stop and relist) are not modelled.
- `save_lib`, `setup_serial`, `closeEvent` and application start-up are outside the protocol engine.
- RootDevino.Devino.RunCommand: the firmware's undefined behaviour is excluded by `requires`. Excluded are missing tokens (`strcmp` on NULL) and numeric tokens other than plain digit strings up to 32767. `atoi`'s handling of signs, blanks, trailing text and overflow is not modelled.
- GatedDevino.Devino.RunCommand: the same preconditions apply. Also, an `_enabledPins` index outside the array is excluded, because C does not check it.
- RootDevino.Devino.ProcessCommands: excludes a command whose first bytes were stored by an earlier call. Such a command is run over an uninitialised buffer. `Framer.ContinuedCommandGarbled` shows when this happens.
- GatedDevino.Devino.ProcessCommands: excludes the same case.
- `_transmit` and `_enabledPins` are not declared in `src/main/resources/base/library/Devino.h`, which still declares `_commandsEnabled`. They are modelled as a flag and a zero-initialised bool array whose size is a constructor argument.
- `analogRead` and `digitalRead` are fixed functions of the pin: time-varying inputs are not modelled.
- Serial buffering, baud rate, timing and the Arduino sketch's own `loop` are not modelled.
- RoundTrip.PwmEchoShown: states the value and page only, not that the spin box ends enabled. The enabled state follows from the panel invariant, `Host.PwmReport`.
