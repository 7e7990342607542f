/** The GM60 configuration window as an object whose methods update its
    fields in place. Each method is proved to leave the object in the state the
    matching function of `Session` computes from the state before the call, so
    everything proved about those functions holds of the object. */
module Gm60 {
  import opened Framing
  import opened Catalog
  import opened Session

  /** `GM60BarcodeReader`: its serial handle and the text of its two state
      labels, together with what stands in for the port and the dialogs: the
      lines written so far, what the device will do with the coming exchanges,
      and the dialogs shown so far. */
  class BarcodeReader {
    var ser: Handle
    var sent: seq<string>
    var device: seq<Exchange>
    var readModeLabel: string
    var baudRateLabel: string
    var alerts: seq<Alert>

    /** The object's fields as a `Session.Panel` value. */
    function State(): Panel
      reads this
    {
      Panel(ser, sent, device, readModeLabel, baudRateLabel, alerts)
    }

    ghost predicate Valid()
      reads this
    {
      WellFormed(State())
    }

    constructor (device: seq<Exchange>)
      ensures Valid()
      ensures State() == Initial(device)
    {
      ser := NoHandle;
      sent := [];
      this.device := device;
      readModeLabel := NotAvailable;
      baudRateLabel := NotAvailable;
      alerts := [];
    }

    /** `send_command`. */
    method SendCommand(command: string) returns (response: string)
      requires Valid()
      modifies this
      ensures Valid()
      ensures State() == Send(old(State()), command).panel
      ensures response == Send(old(State()), command).response
    {
      ghost var before := State();
      SendKeeps(before, command);
      if !ser.Open? {
        alerts := alerts + [CommunicationError];
        return "";
      }
      var exchange := Next(device);
      device := Rest(device);
      match exchange
      case WriteFails =>
        alerts := alerts + [CommunicationError];
        response := "";
      case ReadFails =>
        sent := sent + [Frame(command)];
        alerts := alerts + [CommunicationError];
        response := "";
      case Reply(raw) =>
        sent := sent + [Frame(command)];
        response := Strip(raw);
    }

    /** `update_current_state`. */
    method UpdateCurrentState()
      requires Valid()
      modifies this
      ensures Valid()
      ensures State() == Refresh(old(State()))
    {
      var readMode := SendCommand(ReadModeQuery);
      readModeLabel := ReadModeLabel(readMode);
      var baudRate := SendCommand(BaudRateQuery);
      baudRateLabel := BaudLabel(baudRate);
    }

    /** `set_configuration`, as written. */
    method SetConfiguration(sel: Selection) returns (outcome: Outcome)
      requires Valid()
      modifies this
      ensures Valid()
      ensures Configured(State(), outcome) == Configure(old(State()), sel)
    {
      ghost var before := State();
      var modeCommand := ModeCommand(sel.mode);
      if modeCommand.None? {
        alerts := alerts + [ConfigurationError(InvalidMode)];
        return Rejected;
      }
      var baudCommand := BaudCommand(sel.baudRate);
      var ledCommand := LedCommand(sel.ledMode);
      if ledCommand.None? {
        alerts := alerts + [ConfigurationError(InvalidLedMode)];
        return Rejected;
      }
      var brightnessCommand := BrightnessCommand(sel.ledBrightness);
      if brightnessCommand.None? {
        alerts := alerts + [ConfigurationError(InvalidBrightness)];
        return Rejected;
      }
      var reply := SendCommand(modeCommand.value);
      if baudCommand.None? {
        // the unbound `baud_command` raises here and ends the handler
        return Crashed;
      }
      ghost var afterMode := State();
      reply := SendCommand(baudCommand.value);
      reply := SendCommand(ledCommand.value);
      reply := SendCommand(brightnessCommand.value);
      SendAllThree(afterMode, baudCommand.value, ledCommand.value, brightnessCommand.value);
      alerts := alerts + [ConfigurationSet];
      UpdateCurrentState();
      outcome := Applied;
    }

    /** `set_configuration` as evidently intended: the same validation, and the
        baud command is sent only when a baud rate is selected. The ghost `todo`
        holds the commands still to send, so that the exchanges so far followed
        by those still to come are exactly `Session.Commands(sel)`. */
    method SetConfigurationFixed(sel: Selection) returns (outcome: Outcome)
      requires Valid()
      modifies this
      ensures Valid()
      ensures Configured(State(), outcome) == ConfigureFixed(old(State()), sel)
    {
      ghost var before := State();
      var modeCommand := ModeCommand(sel.mode);
      if modeCommand.None? {
        alerts := alerts + [ConfigurationError(InvalidMode)];
        return Rejected;
      }
      var baudCommand := BaudCommand(sel.baudRate);
      var ledCommand := LedCommand(sel.ledMode);
      if ledCommand.None? {
        alerts := alerts + [ConfigurationError(InvalidLedMode)];
        return Rejected;
      }
      var brightnessCommand := BrightnessCommand(sel.ledBrightness);
      if brightnessCommand.None? {
        alerts := alerts + [ConfigurationError(InvalidBrightness)];
        return Rejected;
      }
      ghost var commands := Commands(sel).value;
      ghost var todo := commands;
      ghost var s := State();
      var reply := SendCommand(modeCommand.value);
      SendAllStep(s, todo);
      todo := todo[1..];
      if baudCommand.Some? {
        s := State();
        reply := SendCommand(baudCommand.value);
        SendAllStep(s, todo);
        todo := todo[1..];
      }
      s := State();
      reply := SendCommand(ledCommand.value);
      SendAllStep(s, todo);
      todo := todo[1..];
      s := State();
      reply := SendCommand(brightnessCommand.value);
      SendAllStep(s, todo);
      todo := todo[1..];
      assert State() == SendAll(before, commands);
      alerts := alerts + [ConfigurationSet];
      UpdateCurrentState();
      outcome := Applied;
    }

    /** `connect_port`; `opens` says whether the operating system opens the port. */
    method ConnectPort(selected: string, opens: bool)
      requires Valid()
      modifies this
      ensures Valid()
      ensures State() == Connect(old(State()), selected, opens)
    {
      if selected != "" {
        if opens {
          ser := Open(selected);
          UpdateCurrentState();
        } else {
          alerts := alerts + [ConnectionError(selected)];
          ser := NoHandle;
        }
      }
    }

    /** `close`, without the window teardown. */
    method Close()
      requires Valid()
      modifies this
      ensures Valid()
      ensures State() == Session.Close(old(State()))
    {
      if ser.Open? {
        ser := Closed(ser.port);
      }
    }
  }

  /** The first exchange of a run, taken on its own. */
  lemma SendAllStep(p: Panel, commands: seq<string>)
    requires commands != []
    ensures SendAll(Send(p, commands[0]).panel, commands[1..]) == SendAll(p, commands)
  {
  }

  /** Three exchanges in a row, as `SendAll` runs them. */
  lemma SendAllThree(p: Panel, a: string, b: string, c: string)
    ensures SendAll(p, [a, b, c]) == Send(Send(Send(p, a).panel, b).panel, c).panel
  {
    var q := Send(p, a).panel;
    assert [a, b, c][1..] == [b, c];
    assert [b, c][1..] == [c];
    assert [c][1..] == [];
    assert SendAll(p, [a, b, c]) == SendAll(q, [b, c]);
    assert SendAll(q, [b, c]) == SendAll(Send(q, b).panel, [c]);
  }
}
