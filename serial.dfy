/**
 * The serial link to the Arduino board: finding its port among the ports
 * the operating system lists, opening it once at start-up, and writing
 * single command bytes to it.
 *
 * The port list is an input (the OS enumeration is not modelled). Whether
 * opening the port or a write succeeds is decided by the driver; both are
 * nondeterministic outcomes here.
 */
module Serial {
  import opened Wrappers

  /** One entry of the OS port list: the device name and its description. */
  datatype PortInfo = PortInfo(device: string, description: string)

  /** Python's `pattern in text` for strings: `pattern` occurs at `i`. */
  ghost predicate OccursAt(text: string, pattern: string, i: int) {
    0 <= i && i + |pattern| <= |text| && text[i..i + |pattern|] == pattern
  }

  /** Substring test, scanning the start positions left to right. */
  function Contains(text: string, pattern: string): bool
    decreases |text|
  {
    if |pattern| > |text| then false
    else if text[..|pattern|] == pattern then true
    else Contains(text[1..], pattern)
  }

  /** Contains agrees with the positional definition of a substring. */
  lemma {:induction false} ContainsIsSubstring(text: string, pattern: string)
    ensures Contains(text, pattern) <==> exists i :: OccursAt(text, pattern, i)
    decreases |text|
  {
    if |pattern| > |text| {
    } else if text[..|pattern|] == pattern {
      assert OccursAt(text, pattern, 0);
    } else {
      var rest := text[1..];
      ContainsIsSubstring(rest, pattern);
      if Contains(rest, pattern) {
        var i :| OccursAt(rest, pattern, i);
        assert text[i + 1..i + 1 + |pattern|] == rest[i..i + |pattern|];
        assert OccursAt(text, pattern, i + 1);
      }
      if i :| OccursAt(text, pattern, i) {
        assert i != 0;
        assert rest[i - 1..i - 1 + |pattern|] == text[i..i + |pattern|];
        assert OccursAt(rest, pattern, i - 1);
      }
    }
  }

  /** The description tokens of an Arduino board or a common USB-serial bridge. */
  predicate IsArduinoDescription(description: string) {
    Contains(description, "Arduino") || Contains(description, "CH340") ||
    Contains(description, "USB Serial")
  }

  /** The device of the first listed port with an Arduino-like description. */
  function FirstArduinoPort(ports: seq<PortInfo>): Option<string> {
    if ports == [] then None
    else if IsArduinoDescription(ports[0].description) then Some(ports[0].device)
    else FirstArduinoPort(ports[1..])
  }

  /**
   * A search hit is the device of a matching port with no matching port
   * before it; the search comes back empty exactly when no port matches.
   */
  lemma {:induction false} FirstArduinoPortIsFirstMatch(ports: seq<PortInfo>)
    ensures FirstArduinoPort(ports).None? <==>
            forall i :: 0 <= i < |ports| ==> !IsArduinoDescription(ports[i].description)
    ensures FirstArduinoPort(ports).Some? ==>
            exists i :: 0 <= i < |ports| && IsArduinoDescription(ports[i].description) &&
                        FirstArduinoPort(ports).value == ports[i].device &&
                        forall j :: 0 <= j < i ==> !IsArduinoDescription(ports[j].description)
  {
    if ports != [] && !IsArduinoDescription(ports[0].description) {
      var rest := ports[1..];
      FirstArduinoPortIsFirstMatch(rest);
      assert forall i :: 1 <= i < |ports| ==> ports[i] == rest[i - 1];
      if FirstArduinoPort(rest).Some? {
        var i :| 0 <= i < |rest| && IsArduinoDescription(rest[i].description) &&
                 FirstArduinoPort(rest).value == rest[i].device &&
                 forall j :: 0 <= j < i ==> !IsArduinoDescription(rest[j].description);
        assert ports[i + 1] == rest[i];
        assert forall j :: 0 <= j < i + 1 ==> !IsArduinoDescription(ports[j].description) by {
          forall j | 0 <= j < i + 1
            ensures !IsArduinoDescription(ports[j].description)
          {
            if j > 0 {
              assert ports[j] == rest[j - 1];
            }
          }
        }
      }
    } else if ports != [] {
      assert IsArduinoDescription(ports[0].description);
    }
  }

  /** find_arduino_port: scan the list and return at the first match. */
  method FindArduinoPort(ports: seq<PortInfo>) returns (found: Option<string>)
    ensures found == FirstArduinoPort(ports)
  {
    for i := 0 to |ports|
      invariant FirstArduinoPort(ports[i..]) == FirstArduinoPort(ports)
    {
      assert ports[i..][1..] == ports[i + 1..];
      if IsArduinoDescription(ports[i].description) {
        return Some(ports[i].device);
      }
    }
    assert ports[|ports|..] == [];
    return None;
  }

  /** A value that fits one byte on the wire. */
  type Byte = b: int | 0 <= b < 256

  /** An open serial connection to the board. */
  class SerialPort {
    const device: string
    const baudRate: nat
    /** Read timeout, in seconds. */
    const timeout: nat
    /** Every byte the board has received on this connection, oldest first. */
    ghost var written: seq<Byte>

    /** serial.Serial(port, 9600, timeout=1), when the driver lets it open. */
    constructor (device: string)
      ensures this.device == device && baudRate == 9600 && timeout == 1
      ensures written == []
    {
      this.device := device;
      baudRate := 9600;
      timeout := 1;
      written := [];
    }

    /** A write either delivers all of `data` or fails and delivers nothing. */
    method Write(data: seq<Byte>) returns (ok: bool)
      modifies this
      ensures ok ==> written == old(written) + data
      ensures !ok ==> written == old(written)
    {
      ok :| true;
      if ok {
        written := written + data;
      }
    }
  }

  /**
   * Start-up: look for the board and open its port. No match, an empty
   * device name (falsy in `if arduino_port:`) or a failed open leave the
   * program without a connection for the whole run.
   */
  method ConnectArduino(ports: seq<PortInfo>) returns (arduino: SerialPort?)
    ensures arduino != null ==>
              fresh(arduino) && arduino.written == [] && arduino.baudRate == 9600 &&
              arduino.device != "" && FirstArduinoPort(ports) == Some(arduino.device)
    ensures FirstArduinoPort(ports).None? || FirstArduinoPort(ports) == Some("") ==>
              arduino == null
  {
    var port := FindArduinoPort(ports);
    arduino := null;
    if port.Some? && port.value != "" {
      var open: bool :| true;
      if open {
        arduino := new SerialPort(port.value);
      }
    }
  }
}
