# GM60 barcode reader configuration panel

A Dafny model of the configuration tool for the GM60 barcode scanner (`main.py`,
class `GM60BarcodeReader`). The tool talks to the scanner over a serial port in
a line-based text protocol. Each command is written as ASCII text followed by
CR LF, and the reply is read back and stripped of surrounding white space. The
tool:

- opens the selected port and reads the device state (`connect_port`);
- sends one command and returns the reply (`send_command`);
- queries the read mode (`VAL1?`) and the baud rate (`BAUD?`) and shows them
  decoded on two labels (`update_current_state`);
- validates the read-mode, LED-mode and brightness drop-downs (the baud rate
  is only tested for being non-empty, and any non-empty text is sent), then
  sends the read-mode, baud-rate, LED-mode and brightness commands in that
  order, shows a success dialog and re-reads the state (`set_configuration`);
- closes the port (`close`).

The model has four modules:

- `Framing` (`framing.dfy`): the CR LF frame and Python's `str.strip()`. It
  proves that stripping removes exactly the white space at both ends and that
  it inverts framing on trimmed tokens.
- `Catalog` (`catalog.dfy`): the query and set commands, the drop-down
  choices, the two reply decoders (read mode, and the baud whitelist), and the
  command builders. It proves their decoding tables and round trips.
- `Session` (`session.dfy`): the panel's state as a value `Panel` and each
  handler as a pure function from the old state to the new one. The serial
  port is abstracted as:
  - a handle: `NoHandle`, `Open(port)` or `Closed(port)`;
  - the log of every line written;
  - a script of what the device does with each coming exchange: reply with
    some text, fail the write, or fail the read. An exhausted script is a
    silent device, whose read times out with no text.

  Dialogs (`messagebox`) are an `alerts` log. This module holds the properties:
  which lines are written and in what order, what the labels show, which
  dialogs appear, what a failure does, and the invariant that every operation
  keeps.
- `Gm60` (`reader.dfy`): class `BarcodeReader`, with the source's fields and
  imperative methods that mirror the handlers branch by branch. Each method
  is proved to leave the object in exactly the state that the matching
  `Session` function gives, and to keep the invariant `Valid()`. Besides
  `SetConfiguration` as written, the class has `SetConfigurationFixed`, the
  corrected handler described under "Findings".

Commands are plain text over a port opened at a fixed 57600 baud. There is no
binary framing, checksum or baud negotiation. A refresh updates the read-mode
label even when the baud query fails.

## Model

| member | source | states |
|---|---|---|
| Framing.Frame | main.py:84 | the written line is the command followed by exactly CR LF |
| Framing.FrameInjective | main.py:84 | distinct commands give distinct lines, and every written line ends in CR LF |
| Framing.TrimStart | main.py:85 | the result is a suffix of the input that does not start with white space |
| Framing.TrimEnd | main.py:85 | the result is a prefix of the input that does not end with white space |
| Framing.Strip | main.py:85 | the reply after `strip()` is no longer than the raw text and neither starts nor ends with white space |
| Framing.TrimStartRemovesSpace | main.py:85 | everything removed from the front is white space |
| Framing.TrimEndRemovesSpace | main.py:85 | everything removed from the back is white space |
| Framing.StripSplits | main.py:85 | the raw text is white space, then the stripped text, then white space |
| Framing.StripSurrounded | main.py:85 | any white space around a trimmed text is removed, and nothing else |
| Framing.StripIdempotent | main.py:85 | stripping a stripped reply changes nothing |
| Framing.StripFrame | main.py:84-85 | a device echoing a trimmed token as a framed line is read back as that token |
| Catalog.ReadModeLabel | main.py:95-100 | the read-mode label is always Continuous, Induction or Unknown Mode |
| Catalog.ReadModeDecoding | main.py:94-100 | "02" and only "02" shows Continuous Mode, "03" and only "03" Induction Mode, anything else Unknown Mode |
| Catalog.BaudLabel | main.py:104-111 | the baud label is always a listed rate or "Unknown Baud Rate" |
| Catalog.BaudDecoding | main.py:103-111 | a listed rate is shown as itself, any other reply as "Unknown Baud Rate"; the label is a listed rate exactly when the reply is one |
| Catalog.ModeCode | main.py:120-123 | a read-mode selection has a device code exactly when it is one of the two offered modes |
| Catalog.ModeCommand | main.py:120-126 | a read-mode command exists exactly for the two offered modes |
| Catalog.ModeRoundTrip | main.py:120-123 | each mode is sent as "SET " plus the code that decodes back to that mode, and each decodable code belongs to one mode |
| Catalog.BaudCommand | main.py:128-129 | a baud command exists exactly when some baud rate is selected |
| Catalog.BaudRoundTrip | main.py:128-129 | a listed rate is sent as "SET BAUD " plus the rate, and that rate as a reply is shown as itself |
| Catalog.LedCommand | main.py:131-139 | an LED command exists exactly for the three offered LED modes |
| Catalog.BrightnessCommand | main.py:141-149 | a brightness command exists exactly for the three offered brightnesses |
| Catalog.CommandsInjective | main.py:120-146 | within each setting, different selections give different commands |
| Session.Initial | main.py:12-34 | a new panel has no handle, has written nothing and has shown no dialog |
| Session.Frames | main.py:84 | the lines for a command list are the framed commands, one per command, in order |
| Session.Send | main.py:81-89 | an exchange keeps the handle and labels, and its response is always stripped |
| Session.SendWrites | main.py:81-89 | an exchange writes at most the framed command, and only on an open handle; it shows at most one error; a non-empty response means the line was written with no error |
| Session.SendAnswered | main.py:83-86 | on an open port with an answering device, exactly the framed command is written, one reply is consumed, and the stripped reply is returned |
| Session.SendEcho | main.py:84-85 | a device echoing a framed trimmed token returns that token |
| Session.SendSilent | main.py:83-86 | on an open port with a device that has nothing left to say, the framed command is written, the read times out, and the response is "" with no dialog |
| Session.SendFailed | main.py:87-89 | any failure, including no open port, gives "" and exactly one communication error; only a failed read leaves the line on the wire |
| Session.SendAll | main.py:152-155 | a run of exchanges keeps the handle and the labels |
| Session.SendAllAnswered | main.py:152-155 | with an answering device, the framed commands are written in order, one reply each, with no dialog |
| Session.SendAllUnopened | main.py:83-88 | without an open port nothing is written, the device is not consulted, and the old dialogs are followed by one communication error per command |
| Session.SendAllKeeps | main.py:152-155 | a run of exchanges keeps the panel well formed |
| Session.Refresh | main.py:91-111 | after a refresh, the labels show a decoded read mode and a listed rate or "Unknown Baud Rate" |
| Session.RefreshAnswered | main.py:91-111 | "VAL1?" then "BAUD?" are written, and the labels show the decoded first and second replies |
| Session.Configure | main.py:113-158 | the run is refused exactly when the read mode, LED mode or brightness is invalid, and it crashes exactly when those are valid and no baud rate is selected |
| Session.Commands | main.py:120-155 | for valid settings, the commands are read mode, baud (if selected), LED and brightness, in that order |
| Session.ConfigureRejects | main.py:120-149 | an invalid selection sends nothing and shows one error naming the first invalid setting |
| Session.ConfigureOrder | main.py:151-158 | valid settings with a baud rate write the four set commands in order, then the two queries; the success dialog is shown and the labels show the fifth and sixth replies |
| Session.ApplyAnswered | main.py:152-158 | after validation, the commands go out in order, then the success dialog and the two queries, whose replies the labels show |
| Session.AnnouncedAnswered | main.py:152-157 | after the set commands and the success dialog, the device still answers the two state queries |
| Session.ConfigureUnopened | main.py:151-155 | without an open port, neither the source's run nor the corrected run writes anything |
| Session.ConfigurePartialSend | main.py:128-153 | with no baud rate selected, the read-mode command is written and the run stops, with no success dialog and no refresh |
| Session.ConfigureFixed | main.py:128-155 | the corrected run never stops part-way |
| Session.ConfigureFixedAllOrNothing | main.py:113-158 | the corrected run is refused exactly when the source's is; otherwise every set command goes out in order, then the two queries |
| Session.ConfigureFixedAgrees | main.py:128-155 | whenever a baud rate is selected, the corrected run and the source's run give the same result |
| Session.Connect | main.py:70-79 | no selection changes nothing; otherwise the handle is the opened port, or none if opening failed |
| Session.ConnectOutcome | main.py:70-79 | a successful open writes the two state queries and shows their replies; a failed open writes nothing, drops the handle and shows one connection error |
| Session.Close | main.py:160-162 | after closing, no handle is open; an open handle becomes closed, and anything else is left as it was |
| Session.CloseFinal | main.py:160-162 | closing twice is closing once, and after closing no command reaches the wire |
| Session.OperationsKeepWellFormed | main.py:70-162 | every operation keeps every written line framed and both labels within their possible texts |
| Session.ConfigureKeeps | main.py:113-158 | a configuration run, even one that stops part-way, keeps the panel well formed |
| Gm60.BarcodeReader.constructor | main.py:7-35 | a new reader is in the initial state and valid |
| Gm60.BarcodeReader.SendCommand | main.py:81-89 | the new state and the response are those of `Session.Send`; the invariant is kept |
| Gm60.BarcodeReader.UpdateCurrentState | main.py:91-111 | the new state is that of `Session.Refresh`; the invariant is kept |
| Gm60.BarcodeReader.SetConfiguration | main.py:113-158 | the new state and the outcome are those of `Session.Configure`; the invariant is kept |
| Gm60.BarcodeReader.SetConfigurationFixed | main.py:128-155 | the new state and the outcome are those of the corrected `Session.ConfigureFixed`; the invariant is kept |
| Gm60.BarcodeReader.ConnectPort | main.py:70-79 | the new state is that of `Session.Connect`; the invariant is kept |
| Gm60.BarcodeReader.Close | main.py:160-162 | the new state is that of `Session.Close`; the invariant is kept |

## Left out

- The tkinter window is not modelled: widgets, layout, the combobox values as
  widgets, and `master.quit` in `close`. The drop-down readings are a
  `Selection` parameter.
- Dialogs are recorded as `Alert` values, with their kind and the
  configuration-error message. The exception text shown in connection and
  communication errors is not modelled.
- The port list (`get_serial_ports`, `serial.tools.list_ports`) is not
  modelled: it comes from the operating system.
- Opening the port is a boolean parameter `opens`, since its success depends
  on the operating system. The open parameters (57600 baud, a one-second
  timeout) are not modelled. Only `SerialException` is modelled as a failed
  open; other exceptions from the constructor are not.
- Old handles are not modelled: reconnecting replaces the handle without
  closing the old port, and the model keeps no record of that port.
- Reads are reduced to one text per exchange: `read(100)`'s byte count,
  short reads and buffering are not modelled. A reply is the text that was
  read. A decoding failure of the bytes is folded into the failed-read case.
- Character encoding is not modelled: strings are sequences of characters,
  and the encoding to bytes is left out.
- A partly successful write is not modelled: a write either sends the whole
  line or fails.
- Concurrency is not modelled: the Tk event loop runs one handler at a time,
  and so does the model.

## Findings

| source | as written | input that shows it | evidently intended | confidence | as-written member | corrected member |
|---|---|---|---|---|---|---|
| main.py:128-153 | `baud_command` is bound only when a baud rate is selected, but line 153 sends it unconditionally | read mode "Continuous Mode", baud rate "" (nothing selected), LED "Normal", brightness "Low" on an open port: "SET 02" is written, then line 153 raises `UnboundLocalError`, so the LED and brightness commands, the success dialog and the refresh never happen | the guard at line 128 makes the baud rate optional, so an empty selection skips its command and sends the others | not executed | Session.ConfigurePartialSend | Session.ConfigureFixedAllOrNothing |
