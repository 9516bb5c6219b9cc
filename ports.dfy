/**
 * The host's serial-port menu: a port whose hardware id carries one of the two
 * Arduino Uno USB ids is labelled "(Arduino Uno)", and choosing a menu entry
 * selects the port named by the label's text up to its first space.
 */
module Ports {
  import opened PyStr

  const UnoSuffix: string := " (Arduino Uno)"

  /** The hwid substring test of list_serial. */
  predicate IsArduinoUno(hwid: string)
  {
    Contains(hwid, "VID:PID=2A03:0043") || Contains(hwid, "VID:PID=2341:0043")
  }

  /** The text of the menu action created for one port. */
  function PortLabel(port: string, hwid: string): (shown: string)
    ensures |port| <= |shown| && shown[..|port|] == port
    ensures shown[|port|..] == (if IsArduinoUno(hwid) then UnoSuffix else "")
  {
    if IsArduinoUno(hwid) then port + UnoSuffix else port
  }

  /** set_serial: the port name is the action text up to the first space. */
  function PortName(text: string): (name: string)
    ensures ' ' !in name
    ensures |name| <= |text| && text[..|name|] == name
    ensures |name| < |text| ==> text[|name|] == ' '
  {
    SplitPieces(text, ' ');
    Split(text, ' ')[0]
  }

  /** Choosing a labelled entry selects the port it was made for, whatever its hwid. */
  lemma {:induction false} PortNameOfLabel(port: string, hwid: string)
    requires ' ' !in port
    ensures PortName(PortLabel(port, hwid)) == port
  {
    if IsArduinoUno(hwid) {
      assert PortLabel(port, hwid) == port + [' '] + "(Arduino Uno)";
      SplitAt(port, "(Arduino Uno)", ' ');
    }
    SplitNoSep(port, ' ');
  }

  /** A hwid without any "VID:PID=" field never earns the Uno label. */
  lemma {:induction false} NoUsbIdPlain(port: string, hwid: string)
    requires !Contains(hwid, "VID:PID=")
    ensures PortLabel(port, hwid) == port
  {
    forall i | OccursAt(hwid, "VID:PID=2A03:0043", i) || OccursAt(hwid, "VID:PID=2341:0043", i)
      ensures OccursAt(hwid, "VID:PID=", i)
    {
      assert hwid[i..i + 8] == hwid[i..i + 17][..8];
    }
  }

  /** Either Uno id anywhere in the hwid earns the label. */
  lemma {:induction false} UnoIdLabelled(port: string, pre: string, id: string, post: string)
    requires id == "VID:PID=2A03:0043" || id == "VID:PID=2341:0043"
    ensures PortLabel(port, pre + id + post) == port + " (Arduino Uno)"
  {
    var hwid := pre + id + post;
    assert hwid[|pre|..|pre| + |id|] == id;
    assert OccursAt(hwid, id, |pre|);
  }

  /** One entry of the port menu: its label and whether it is ticked. */
  datatype MenuEntry = MenuEntry(text: string, checked: bool)

  /** list_serial: one entry per enumerated (port, hwid), ticked when it is the current port. */
  function PortMenu(ports: seq<(string, string)>, current: string): (menu: seq<MenuEntry>)
    ensures |menu| == |ports|
    ensures forall i | 0 <= i < |ports| ::
      menu[i].text == PortLabel(ports[i].0, ports[i].1) && (menu[i].checked <==> ports[i].0 == current)
  {
    if ports == [] then []
    else [MenuEntry(PortLabel(ports[0].0, ports[0].1), ports[0].0 == current)] + PortMenu(ports[1..], current)
  }

  /** Choosing entry i of a rebuilt menu and listing again ticks exactly the entries of that port. */
  lemma {:induction false} ReselectTicks(ports: seq<(string, string)>, i: nat)
    requires i < |ports| && ' ' !in ports[i].0
    ensures var current := PortName(PortMenu(ports, "")[i].text);
            forall j | 0 <= j < |ports| :: PortMenu(ports, current)[j].checked <==> ports[j].0 == ports[i].0
  {
    var current := PortName(PortMenu(ports, "")[i].text);
    PortNameOfLabel(ports[i].0, ports[i].1);
    assert current == ports[i].0;
    var menu := PortMenu(ports, current);
    forall j | 0 <= j < |ports|
      ensures menu[j].checked <==> ports[j].0 == ports[i].0
    {
    }
  }
}
