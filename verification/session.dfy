/** The state of the GM60 configuration panel as values, and each operation of
    the panel as a function from the old state to the new one. The serial port
    is abstracted as a handle, the log of lines written to it, and the script of
    what the device does with each exchange still to come. */
module Session {
  import opened Framing
  import opened Catalog

  /** The panel's serial handle: none (at start, or after a failed open), an
      open port, or a port that closing the panel has closed. */
  datatype Handle = NoHandle | Open(port: string) | Closed(port: string)

  /** What one exchange does on the device side: the write fails, the write
      succeeds but the read or its decoding fails, or the write succeeds and
      `raw` is the text read back (empty when the read timed out). */
  datatype Exchange = Reply(raw: string) | WriteFails | ReadFails

  /** The dialogs the panel pops up. */
  datatype Alert =
    | ConnectionError(port: string)
    | CommunicationError
    | ConfigurationError(message: string)
    | ConfigurationSet

  const InvalidMode: string := "Invalid mode selected."
  const InvalidLedMode: string := "Invalid LED mode selected."
  const InvalidBrightness: string := "Invalid LED brightness selected."

  /** What the state labels show before the first query. */
  const NotAvailable: string := "N/A"

  /** The two queries a state refresh sends, in order. */
  const StateQueries: seq<string> := [ReadModeQuery, BaudRateQuery]

  /** The four configuration drop-downs as they read when the button is pressed. */
  datatype Selection = Selection(mode: string, baudRate: string, ledMode: string, ledBrightness: string)

  /** How a press of "Set Configuration" ends: the commands went out, the
      selection was refused before anything was sent, or the handler stopped
      with an exception part-way. */
  datatype Outcome = Applied | Rejected | Crashed

  datatype Panel = Panel(
    handle: Handle,
    sent: seq<string>,          // every line written to the port, oldest first
    device: seq<Exchange>,      // what the device does with the coming exchanges
    readModeLabel: string,
    baudRateLabel: string,
    alerts: seq<Alert>)         // every dialog shown, oldest first

  /** A freshly built panel. */
  function Initial(device: seq<Exchange>): (p: Panel)
    ensures p.handle == NoHandle && p.sent == [] && p.alerts == []
  {
    Panel(NoHandle, [], device, NotAvailable, NotAvailable, [])
  }

  /** What every state reachable from `Initial` satisfies: each written line
      ends in CR LF, and each label shows either its start text or a decoded value. */
  predicate WellFormed(p: Panel) {
    (forall i :: 0 <= i < |p.sent| ==> IsFramed(p.sent[i]))
    && (p.readModeLabel in {NotAvailable, ContinuousMode, InductionMode, UnknownMode})
    && (p.baudRateLabel == NotAvailable || p.baudRateLabel in BaudRates || p.baudRateLabel == UnknownBaudRate)
  }

  /** The exchange the device performs next; a device with nothing left to say
      lets the read time out with no text. */
  function Next(device: seq<Exchange>): Exchange {
    if device == [] then Reply("") else device[0]
  }

  function Rest(device: seq<Exchange>): seq<Exchange> {
    if device == [] then [] else device[1..]
  }

  /** The device answers the next `n` exchanges, each with a successful write and read. */
  predicate Answers(device: seq<Exchange>, n: nat) {
    n <= |device| && forall i :: 0 <= i < n ==> device[i].Reply?
  }

  /** The lines written for `commands`, in order. */
  function Frames(commands: seq<string>): (lines: seq<string>)
    ensures |lines| == |commands|
    ensures forall i :: 0 <= i < |commands| ==> lines[i] == Frame(commands[i])
  {
    if commands == [] then [] else [Frame(commands[0])] + Frames(commands[1..])
  }

  datatype Answer = Answer(panel: Panel, response: string)

  /** One command/response exchange (`send_command`). Without an open handle,
      or when the write fails, nothing reaches the wire; a failure anywhere
      shows one communication error and gives the empty response. */
  function Send(p: Panel, command: string): (a: Answer)
    ensures a.panel.handle == p.handle
    ensures a.panel.readModeLabel == p.readModeLabel && a.panel.baudRateLabel == p.baudRateLabel
    ensures Trimmed(a.response)
  {
    if !p.handle.Open? then
      Answer(p.(alerts := p.alerts + [CommunicationError]), "")
    else
      var rest := Rest(p.device);
      match Next(p.device)
      case WriteFails =>
        Answer(p.(device := rest, alerts := p.alerts + [CommunicationError]), "")
      case ReadFails =>
        Answer(p.(sent := p.sent + [Frame(command)], device := rest,
                  alerts := p.alerts + [CommunicationError]), "")
      case Reply(raw) =>
        Answer(p.(sent := p.sent + [Frame(command)], device := rest), Strip(raw))
  }

  /** Several exchanges in a row, their responses discarded. */
  function SendAll(p: Panel, commands: seq<string>): (q: Panel)
    ensures q.handle == p.handle
    ensures q.readModeLabel == p.readModeLabel && q.baudRateLabel == p.baudRateLabel
    decreases |commands|
  {
    if commands == [] then p else SendAll(Send(p, commands[0]).panel, commands[1..])
  }

  /** Re-reading the device state (`update_current_state`): query the read
      mode and show it, then query the baud rate and show it. */
  function Refresh(p: Panel): (q: Panel)
    ensures q.handle == p.handle
    ensures q.readModeLabel in {ContinuousMode, InductionMode, UnknownMode}
    ensures q.baudRateLabel in BaudRates || q.baudRateLabel == UnknownBaudRate
  {
    var mode := Send(p, ReadModeQuery);
    var p1 := mode.panel.(readModeLabel := ReadModeLabel(mode.response));
    var baud := Send(p1, BaudRateQuery);
    baud.panel.(baudRateLabel := BaudLabel(baud.response))
  }

  /** The state after a configuration run that passed validation: the set
      commands go out, the success dialog is shown, the state is re-read. */
  function ApplyAndRefresh(p: Panel, commands: seq<string>): Panel {
    Refresh(Announced(p, commands))
  }

  datatype Configured = Configured(panel: Panel, outcome: Outcome)

  /** `set_configuration` as written. The read mode, LED mode and brightness
      are checked before anything is sent. The baud command exists only for a
      non-empty baud selection; when it is missing, the handler fails on its
      second send, after the read-mode command has already gone out. */
  function Configure(p: Panel, sel: Selection): (c: Configured)
    ensures c.panel.handle == p.handle
    ensures c.outcome == Rejected <==>
              !(sel.mode in ReadModes && sel.ledMode in LedModes && sel.ledBrightness in LedBrightnesses)
    ensures c.outcome == Crashed <==>
              sel.mode in ReadModes && sel.ledMode in LedModes && sel.ledBrightness in LedBrightnesses
              && sel.baudRate == ""
  {
    var mode := ModeCommand(sel.mode);
    var baud := BaudCommand(sel.baudRate);
    var led := LedCommand(sel.ledMode);
    var bright := BrightnessCommand(sel.ledBrightness);
    if mode.None? then
      Configured(p.(alerts := p.alerts + [ConfigurationError(InvalidMode)]), Rejected)
    else if led.None? then
      Configured(p.(alerts := p.alerts + [ConfigurationError(InvalidLedMode)]), Rejected)
    else if bright.None? then
      Configured(p.(alerts := p.alerts + [ConfigurationError(InvalidBrightness)]), Rejected)
    else
      var p1 := Send(p, mode.value).panel;
      if baud.None? then
        Configured(p1, Crashed)
      else
        Configured(ApplyAndRefresh(p1, [baud.value, led.value, bright.value]), Applied)
  }

  /** The set commands of a selection, in sending order, when every setting is
      valid; the baud command is included only when a baud rate is selected. */
  function Commands(sel: Selection): (commands: Option<seq<string>>)
    ensures commands.Some? <==>
              sel.mode in ReadModes && sel.ledMode in LedModes && sel.ledBrightness in LedBrightnesses
    ensures commands.Some? ==>
              |commands.value| == (if sel.baudRate == "" then 3 else 4)
              && commands.value[0] == ModeCommand(sel.mode).value
              && (sel.baudRate != "" ==> commands.value[1] == SetBaudPrefix + sel.baudRate)
              && commands.value[|commands.value| - 2] == LedCommand(sel.ledMode).value
              && commands.value[|commands.value| - 1] == BrightnessCommand(sel.ledBrightness).value
  {
    match (ModeCommand(sel.mode), LedCommand(sel.ledMode), BrightnessCommand(sel.ledBrightness))
    case (Some(mode), Some(led), Some(bright)) =>
      Some([mode] + (if sel.baudRate == "" then [] else [BaudCommand(sel.baudRate).value]) + [led, bright])
    case _ => None
  }

  /** `set_configuration` as evidently intended: the baud rate is optional (its
      command is built only when one is selected, with no error otherwise), so
      a missing baud rate skips that command instead of aborting half-way. */
  function ConfigureFixed(p: Panel, sel: Selection): (c: Configured)
    ensures c.outcome != Crashed
    ensures c.panel.handle == p.handle
  {
    match Commands(sel)
    case Some(commands) => Configured(ApplyAndRefresh(p, commands), Applied)
    case None =>
      var message :=
        if sel.mode !in ReadModes then InvalidMode
        else if sel.ledMode !in LedModes then InvalidLedMode
        else InvalidBrightness;
      Configured(p.(alerts := p.alerts + [ConfigurationError(message)]), Rejected)
  }

  /** `connect_port`: nothing happens without a port selection; a successful
      open installs the handle and re-reads the state; a failed open shows a
      connection error and leaves no handle, whatever was there before. */
  function Connect(p: Panel, selected: string, opens: bool): (q: Panel)
    ensures selected == "" ==> q == p
    ensures selected != "" ==> q.handle == if opens then Open(selected) else NoHandle
  {
    if selected == "" then p
    else if opens then Refresh(p.(handle := Open(selected)))
    else p.(handle := NoHandle, alerts := p.alerts + [ConnectionError(selected)])
  }

  /** `close`: the handle is closed only if there is one. */
  function Close(p: Panel): (q: Panel)
    ensures !q.handle.Open?
    ensures p.handle.Open? ==> q.handle == Closed(p.handle.port)
    ensures !p.handle.Open? ==> q == p
  {
    if p.handle.Open? then p.(handle := Closed(p.handle.port)) else p
  }

  // ---------------------------------------------------------------------------
  // Exchanges

  /** An exchange writes at most the framed command, and only on an open
      handle; it shows at most one communication error; and a non-empty
      response means the command was written and nothing went wrong. */
  lemma SendWrites(p: Panel, command: string)
    ensures Send(p, command).panel.sent == p.sent
            || (p.handle.Open? && Send(p, command).panel.sent == p.sent + [Frame(command)])
    ensures Send(p, command).panel.alerts == p.alerts
            || Send(p, command).panel.alerts == p.alerts + [CommunicationError]
    ensures Send(p, command).response != "" ==>
              Send(p, command).panel.sent == p.sent + [Frame(command)]
              && Send(p, command).panel.alerts == p.alerts
  {
  }

  /** A successful exchange writes exactly the framed command and returns the
      reply with its surrounding white space removed. */
  lemma SendAnswered(p: Panel, command: string)
    requires p.handle.Open? && Answers(p.device, 1)
    ensures Send(p, command).panel.sent == p.sent + [Frame(command)]
    ensures Send(p, command).panel.device == p.device[1..]
    ensures Send(p, command).panel.alerts == p.alerts
    ensures Send(p, command).response == Strip(p.device[0].raw)
  {
  }

  /** A device that echoes a trimmed token as a framed line is read back as
      that very token. */
  lemma SendEcho(p: Panel, command: string, token: string)
    requires p.handle.Open? && Trimmed(token)
    requires p.device != [] && p.device[0] == Reply(Frame(token))
    ensures Send(p, command).response == token
  {
    StripFrame(token);
  }

  /** A device with nothing left to say lets the read time out: the framed
      command is written and the response is empty, with no dialog. */
  lemma SendSilent(p: Panel, command: string)
    requires p.handle.Open? && p.device == []
    ensures Send(p, command).panel.sent == p.sent + [Frame(command)]
    ensures Send(p, command).panel.device == []
    ensures Send(p, command).panel.alerts == p.alerts
    ensures Send(p, command).response == ""
  {
    assert Strip("") == "";
  }

  /** Any failure, including having no open handle, yields the empty response
      and exactly one communication error; only a failed write keeps the line
      off the wire. */
  lemma SendFailed(p: Panel, command: string)
    requires !p.handle.Open? || !Next(p.device).Reply?
    ensures Send(p, command).response == ""
    ensures Send(p, command).panel.alerts == p.alerts + [CommunicationError]
    ensures Send(p, command).panel.sent ==
              if p.handle.Open? && Next(p.device).ReadFails? then p.sent + [Frame(command)] else p.sent
  {
  }

  /** A device that answers every exchange receives exactly the framed
      commands, in order, and consumes one step of its script per command. */
  lemma {:induction false} SendAllAnswered(p: Panel, commands: seq<string>)
    requires p.handle.Open? && Answers(p.device, |commands|)
    ensures SendAll(p, commands).sent == p.sent + Frames(commands)
    ensures SendAll(p, commands).device == p.device[|commands|..]
    ensures SendAll(p, commands).alerts == p.alerts
    decreases |commands|
  {
    if commands == [] {
      assert p.device[0..] == p.device;
    } else {
      var q := Send(p, commands[0]).panel;
      SendAnswered(p, commands[0]);
      AnswersRest(p.device, |commands| - 1);
      SendAllAnswered(q, commands[1..]);
      var r := SendAll(q, commands[1..]);
      assert SendAll(p, commands) == r;
      assert r.sent == p.sent + Frames(commands) by {
        assert Frames(commands) == [Frame(commands[0])] + Frames(commands[1..]);
        AppendAssoc(p.sent, [Frame(commands[0])], Frames(commands[1..]));
      }
      assert r.device == p.device[|commands|..] by {
        assert q.device[|commands| - 1..] == p.device[|commands|..];
      }
    }
  }

  /** A device that answers the next `n + 1` exchanges, once past the first,
      answers the next `n`. */
  lemma AnswersRest(device: seq<Exchange>, n: nat)
    requires Answers(device, n + 1)
    ensures Answers(device[1..], n)
  {
    forall i | 0 <= i < n ensures device[1..][i].Reply? {
      assert device[1..][i] == device[i + 1];
    }
  }

  /** Without an open handle nothing reaches the wire and the device is not
      consulted; every command shows one communication error. */
  lemma {:induction false} SendAllUnopened(p: Panel, commands: seq<string>)
    requires !p.handle.Open?
    ensures SendAll(p, commands).sent == p.sent && SendAll(p, commands).device == p.device
    ensures SendAll(p, commands).handle == p.handle
    ensures SendAll(p, commands).alerts == p.alerts + seq(|commands|, _ => CommunicationError)
    decreases |commands|
  {
    if commands == [] {
      assert seq(0, _ => CommunicationError) == [];
    } else {
      var q := Send(p, commands[0]).panel;
      SendAllUnopened(q, commands[1..]);
      assert seq(|commands|, _ => CommunicationError)
          == [CommunicationError] + seq(|commands| - 1, _ => CommunicationError);
      AppendAssoc(p.alerts, [CommunicationError], seq(|commands| - 1, _ => CommunicationError));
    }
  }

  /** A run of exchanges keeps the handle and the labels, and every line it
      writes is framed. */
  lemma {:induction false} SendAllKeeps(p: Panel, commands: seq<string>)
    requires WellFormed(p)
    ensures WellFormed(SendAll(p, commands))
    decreases |commands|
  {
    if commands != [] {
      SendKeeps(p, commands[0]);
      SendAllKeeps(Send(p, commands[0]).panel, commands[1..]);
    }
  }

  /** A state refresh against an answering device sends "VAL1?" then "BAUD?"
      and shows the decoded first and second replies. */
  lemma RefreshAnswered(p: Panel)
    requires p.handle.Open? && Answers(p.device, 2)
    ensures Refresh(p).sent == p.sent + Frames(StateQueries)
    ensures Refresh(p).device == p.device[2..]
    ensures Refresh(p).readModeLabel == ReadModeLabel(Strip(p.device[0].raw))
    ensures Refresh(p).baudRateLabel == BaudLabel(Strip(p.device[1].raw))
    ensures Refresh(p).alerts == p.alerts
  {
    var mode := Send(p, ReadModeQuery);
    SendAnswered(p, ReadModeQuery);
    var p1 := mode.panel.(readModeLabel := ReadModeLabel(mode.response));
    assert p1.device[0] == p.device[1];
    SendAnswered(p1, BaudRateQuery);
    assert p1.device[1..] == p.device[2..];
    var p2 := Send(p1, BaudRateQuery).panel;
    assert Refresh(p).sent == p2.sent;
    assert p2.sent == p.sent + Frames(StateQueries) by {
      var first := [Frame(ReadModeQuery)];
      var second := [Frame(BaudRateQuery)];
      var f := Frames(StateQueries);
      assert f[0] == Frame(ReadModeQuery) && f[1] == Frame(BaudRateQuery);
      assert f == first + second;
      AppendAssoc(p.sent, first, second);
    }
  }

  // ---------------------------------------------------------------------------
  // Configuration as written

  /** An invalid read mode, LED mode or brightness is refused before anything
      is sent: the only change is one configuration-error dialog naming the
      first invalid setting. */
  lemma ConfigureRejects(p: Panel, sel: Selection)
    requires !(sel.mode in ReadModes && sel.ledMode in LedModes && sel.ledBrightness in LedBrightnesses)
    ensures Configure(p, sel).outcome == Rejected
    ensures Configure(p, sel).panel == p.(alerts := p.alerts + [ConfigurationError(
              if sel.mode !in ReadModes then InvalidMode
              else if sel.ledMode !in LedModes then InvalidLedMode
              else InvalidBrightness)])
  {
  }

  /** With every setting valid and a device that answers, exactly the four set
      commands go out, in the order read mode, baud rate, LED mode, brightness,
      followed by the two state queries; the labels then show the decoded fifth
      and sixth replies. */
  lemma ConfigureOrder(p: Panel, sel: Selection)
    requires sel.mode in ReadModes && sel.ledMode in LedModes && sel.ledBrightness in LedBrightnesses
    requires sel.baudRate != ""
    requires p.handle.Open? && Answers(p.device, 6)
    ensures Configure(p, sel).outcome == Applied
    ensures |Commands(sel).value| == 4
    ensures Configure(p, sel).panel.sent == p.sent + Frames(Commands(sel).value + StateQueries)
    ensures Configure(p, sel).panel.device == p.device[6..]
    ensures Configure(p, sel).panel.readModeLabel == ReadModeLabel(Strip(p.device[4].raw))
    ensures Configure(p, sel).panel.baudRateLabel == BaudLabel(Strip(p.device[5].raw))
    ensures Configure(p, sel).panel.alerts == p.alerts + [ConfigurationSet]
  {
    ConfigureFixedAgrees(p, sel);
    ApplyAnswered(p, Commands(sel).value);
  }

  /** A validated run against a device that answers every exchange: the given
      commands go out in order, then the success dialog, then the two queries,
      whose decoded replies the labels show. */
  lemma ApplyAnswered(p: Panel, commands: seq<string>)
    requires p.handle.Open? && Answers(p.device, |commands| + 2)
    ensures ApplyAndRefresh(p, commands).sent == p.sent + Frames(commands + StateQueries)
    ensures ApplyAndRefresh(p, commands).device == p.device[|commands| + 2..]
    ensures ApplyAndRefresh(p, commands).readModeLabel == ReadModeLabel(Strip(p.device[|commands|].raw))
    ensures ApplyAndRefresh(p, commands).baudRateLabel == BaudLabel(Strip(p.device[|commands| + 1].raw))
    ensures ApplyAndRefresh(p, commands).alerts == p.alerts + [ConfigurationSet]
  {
    var q1 := Announced(p, commands);
    AnnouncedAnswered(p, commands);
    RefreshAnswered(q1);
    assert ApplyAndRefresh(p, commands) == Refresh(q1);
    assert Refresh(q1).device == p.device[|commands| + 2..] by {
      assert q1.device[2..] == p.device[|commands| + 2..];
    }
    assert Refresh(q1).sent == p.sent + Frames(commands + StateQueries) by {
      FramesAppend(commands, StateQueries);
      AppendAssoc(p.sent, Frames(commands), Frames(StateQueries));
    }
  }

  /** The state just before the re-read of a validated run. */
  function Announced(p: Panel, commands: seq<string>): Panel {
    var q := SendAll(p, commands);
    q.(alerts := q.alerts + [ConfigurationSet])
  }

  lemma AnnouncedAnswered(p: Panel, commands: seq<string>)
    requires p.handle.Open? && Answers(p.device, |commands| + 2)
    ensures Announced(p, commands).handle.Open?
    ensures Announced(p, commands).sent == p.sent + Frames(commands)
    ensures Announced(p, commands).device == p.device[|commands|..]
    ensures Announced(p, commands).alerts == p.alerts + [ConfigurationSet]
    ensures Answers(Announced(p, commands).device, 2)
    ensures Announced(p, commands).device[0] == p.device[|commands|]
    ensures Announced(p, commands).device[1] == p.device[|commands| + 1]
  {
    SendAllAnswered(p, commands);
    var q := SendAll(p, commands);
    assert Announced(p, commands) == q.(alerts := q.alerts + [ConfigurationSet]);
    var rest := p.device[|commands|..];
    assert q.device == rest;
    assert Answers(rest, 2) by {
      forall i | 0 <= i < 2 ensures rest[i].Reply? {
        assert rest[i] == p.device[|commands| + i];
      }
    }
  }

  /** Without an open handle a configuration run writes nothing, whatever the selection. */
  lemma ConfigureUnopened(p: Panel, sel: Selection)
    requires !p.handle.Open?
    ensures Configure(p, sel).panel.sent == p.sent
    ensures ConfigureFixed(p, sel).panel.sent == p.sent
  {
    var mode := ModeCommand(sel.mode);
    var led := LedCommand(sel.ledMode);
    var bright := BrightnessCommand(sel.ledBrightness);
    if mode.Some? && led.Some? && bright.Some? {
      var p1 := Send(p, mode.value).panel;
      if sel.baudRate != "" {
        var cmds := [BaudCommand(sel.baudRate).value, led.value, bright.value];
        SendAllUnopened(p1, cmds);
        var q := SendAll(p1, cmds);
        assert Refresh(q.(alerts := q.alerts + [ConfigurationSet])).sent == q.sent;
      }
      var cmds := Commands(sel).value;
      SendAllUnopened(p, cmds);
      var q := SendAll(p, cmds);
      assert Refresh(q.(alerts := q.alerts + [ConfigurationSet])).sent == q.sent;
    }
  }

  /** The partial send: with a valid read mode, LED mode and brightness but no
      baud rate selected, the read-mode command is written and then the run
      stops, with no further command, no success dialog and no state refresh. */
  lemma ConfigurePartialSend(p: Panel, sel: Selection)
    requires sel.mode in ReadModes && sel.ledMode in LedModes && sel.ledBrightness in LedBrightnesses
    requires sel.baudRate == ""
    requires p.handle.Open? && Answers(p.device, 1)
    ensures Configure(p, sel).outcome == Crashed
    ensures Configure(p, sel).panel.sent == p.sent + [Frame(ModeCommand(sel.mode).value)]
    ensures Configure(p, sel).panel.readModeLabel == p.readModeLabel
    ensures Configure(p, sel).panel.baudRateLabel == p.baudRateLabel
    ensures Configure(p, sel).panel.alerts == p.alerts
  {
    SendAnswered(p, ModeCommand(sel.mode).value);
  }

  // ---------------------------------------------------------------------------
  // Configuration as intended

  /** The corrected run never sends part of a selection: it is refused with
      nothing sent exactly when `Configure` refuses it, and otherwise a device
      that answers receives every set command of the selection in order,
      followed by the two state queries. */
  lemma ConfigureFixedAllOrNothing(p: Panel, sel: Selection)
    requires p.handle.Open? && Answers(p.device, 6)
    ensures ConfigureFixed(p, sel).outcome == Rejected <==> Configure(p, sel).outcome == Rejected
    ensures ConfigureFixed(p, sel).outcome == Rejected ==>
              ConfigureFixed(p, sel) == Configure(p, sel)
    ensures Commands(sel).Some? ==>
              ConfigureFixed(p, sel).panel.sent == p.sent + Frames(Commands(sel).value + StateQueries)
              && ConfigureFixed(p, sel).panel.alerts == p.alerts + [ConfigurationSet]
  {
    if Commands(sel).Some? {
      ApplyAnswered(p, Commands(sel).value);
    }
  }

  /** Wherever the source's run does not fail, the corrected run does the same. */
  lemma ConfigureFixedAgrees(p: Panel, sel: Selection)
    requires sel.baudRate != ""
    ensures ConfigureFixed(p, sel) == Configure(p, sel)
  {
    match Commands(sel)
    case Some(cmds) =>
      var mode := ModeCommand(sel.mode).value;
      var rest := [BaudCommand(sel.baudRate).value, LedCommand(sel.ledMode).value,
                   BrightnessCommand(sel.ledBrightness).value];
      assert cmds == [mode] + rest;
      assert cmds[1..] == rest;
      assert SendAll(p, cmds) == SendAll(Send(p, mode).panel, rest);
    case None =>
  }

  lemma {:induction false} FramesAppend(a: seq<string>, b: seq<string>)
    ensures Frames(a + b) == Frames(a) + Frames(b)
  {
    if a != [] {
      assert (a + b)[1..] == a[1..] + b;
      FramesAppend(a[1..], b);
    } else {
      assert a + b == b;
    }
  }

  // ---------------------------------------------------------------------------
  // Connection lifecycle

  /** A successful open at an answering device queries the state once, on the
      new handle; a failed open writes nothing and leaves no handle. */
  lemma ConnectOutcome(p: Panel, selected: string, opens: bool)
    requires selected != ""
    requires opens ==> Answers(p.device, 2)
    ensures opens ==> Connect(p, selected, opens).sent == p.sent + Frames(StateQueries)
    ensures opens ==> Connect(p, selected, opens).readModeLabel == ReadModeLabel(Strip(p.device[0].raw))
    ensures opens ==> Connect(p, selected, opens).baudRateLabel == BaudLabel(Strip(p.device[1].raw))
    ensures !opens ==>
              Connect(p, selected, opens) == p.(handle := NoHandle, alerts := p.alerts + [ConnectionError(selected)])
  {
    if opens {
      RefreshAnswered(p.(handle := Open(selected)));
    }
  }

  /** Closing twice is closing once, and after closing nothing reaches the wire. */
  lemma CloseFinal(p: Panel, command: string)
    ensures Close(Close(p)) == Close(p)
    ensures Send(Close(p), command).panel.sent == p.sent
    ensures Send(Close(p), command).response == ""
  {
  }

  /** Every operation keeps the panel well formed. */
  lemma OperationsKeepWellFormed(p: Panel, command: string, sel: Selection, selected: string, opens: bool)
    requires WellFormed(p)
    ensures WellFormed(Initial(p.device))
    ensures WellFormed(Send(p, command).panel)
    ensures WellFormed(Refresh(p))
    ensures WellFormed(Configure(p, sel).panel)
    ensures WellFormed(ConfigureFixed(p, sel).panel)
    ensures WellFormed(Connect(p, selected, opens))
    ensures WellFormed(Close(p))
  {
    SendKeeps(p, command);
    RefreshKeeps(p);
    ConfigureKeeps(p, sel);
    ConfigureFixedKeeps(p, sel);
    ConnectKeeps(p, selected, opens);
  }

  lemma ConfigureKeeps(p: Panel, sel: Selection)
    requires WellFormed(p)
    ensures WellFormed(Configure(p, sel).panel)
  {
    var mode := ModeCommand(sel.mode);
    var baud := BaudCommand(sel.baudRate);
    var led := LedCommand(sel.ledMode);
    var bright := BrightnessCommand(sel.ledBrightness);
    if mode.Some? && led.Some? && bright.Some? {
      var p1 := Send(p, mode.value).panel;
      SendKeeps(p, mode.value);
      if baud.Some? {
        var cmds := [baud.value, led.value, bright.value];
        ApplyKeeps(p1, cmds);
        assert Configure(p, sel).panel == ApplyAndRefresh(p1, cmds);
      } else {
        assert Configure(p, sel).panel == p1;
      }
    } else {
      assert Configure(p, sel).panel.sent == p.sent;
    }
  }

  lemma ConfigureFixedKeeps(p: Panel, sel: Selection)
    requires WellFormed(p)
    ensures WellFormed(ConfigureFixed(p, sel).panel)
  {
    if Commands(sel).Some? {
      ApplyKeeps(p, Commands(sel).value);
    }
  }

  lemma ConnectKeeps(p: Panel, selected: string, opens: bool)
    requires WellFormed(p)
    ensures WellFormed(Connect(p, selected, opens))
  {
    RefreshKeeps(p.(handle := Open(selected)));
  }

  lemma SendKeeps(p: Panel, command: string)
    requires WellFormed(p)
    ensures WellFormed(Send(p, command).panel)
  {
    SendWrites(p, command);
    FrameInjective(command, command);
  }

  lemma RefreshKeeps(p: Panel)
    requires WellFormed(p)
    ensures WellFormed(Refresh(p))
  {
    var mode := Send(p, ReadModeQuery);
    SendKeeps(p, ReadModeQuery);
    var p1 := mode.panel.(readModeLabel := ReadModeLabel(mode.response));
    assert WellFormed(p1);
    SendKeeps(p1, BaudRateQuery);
  }

  lemma ApplyKeeps(p: Panel, commands: seq<string>)
    requires WellFormed(p)
    ensures WellFormed(ApplyAndRefresh(p, commands))
  {
    SendAllKeeps(p, commands);
    RefreshKeeps(Announced(p, commands));
  }
}
