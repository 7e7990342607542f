/** The GM60 command vocabulary: the query commands, the set commands built from
    the four configuration drop-downs, and the tables that turn a reply token
    into the text shown on the "Current State" panel. The catalog is constant
    data and pure lookups; it holds no connection state. */
module Catalog {

  datatype Option<T> = None | Some(value: T)

  /** Query for the current read mode, and for the current baud rate. */
  const ReadModeQuery: string := "VAL1?"
  const BaudRateQuery: string := "BAUD?"

  /** Read-mode labels. */
  const ContinuousMode: string := "Continuous Mode"
  const InductionMode: string := "Induction Mode"
  const UnknownMode: string := "Unknown Mode"

  /** The label shown for a baud reply outside the table. */
  const UnknownBaudRate: string := "Unknown Baud Rate"

  /** The choices each configuration drop-down offers. */
  const ReadModes: seq<string> := [ContinuousMode, InductionMode]
  const BaudRates: seq<string> := ["9600", "19200", "38400", "57600", "115200"]
  const LedModes: seq<string> := ["Normal", "Normally On", "Off"]
  const LedBrightnesses: seq<string> := ["Low", "Middle", "High"]

  /** The table the baud reply is looked up in: every listed rate maps to itself. */
  const BaudRateMapping: map<string, string> :=
    map["9600" := "9600", "19200" := "19200", "38400" := "38400",
        "57600" := "57600", "115200" := "115200"]

  /** The prefixes of the set commands. */
  const SetPrefix: string := "SET "
  const SetBaudPrefix: string := "SET BAUD "

  /** The read-mode label for a (stripped) reply to `ReadModeQuery`. */
  function ReadModeLabel(response: string): (shown: string)
    ensures shown == ContinuousMode || shown == InductionMode || shown == UnknownMode
  {
    if response == "02" then ContinuousMode
    else if response == "03" then InductionMode
    else UnknownMode
  }

  /** The baud-rate label for a (stripped) reply to `BaudRateQuery`. */
  function BaudLabel(response: string): (shown: string)
    ensures shown in BaudRates || shown == UnknownBaudRate
  {
    if response in BaudRateMapping then BaudRateMapping[response] else UnknownBaudRate
  }

  /** The device code of a read-mode selection. */
  function ModeCode(selection: string): (code: Option<string>)
    ensures code.Some? <==> selection in ReadModes
  {
    if selection == ContinuousMode then Some("02")
    else if selection == InductionMode then Some("03")
    else None
  }

  /** The command that sets the read mode; `None` for an invalid selection. */
  function ModeCommand(selection: string): (command: Option<string>)
    ensures command.Some? <==> selection in ReadModes
  {
    match ModeCode(selection)
    case Some(code) => Some(SetPrefix + code)
    case None => None
  }

  /** The command that sets the baud rate. Only an empty selection has none:
      any other text is sent as it is. */
  function BaudCommand(selection: string): (command: Option<string>)
    ensures command.Some? <==> selection != ""
  {
    if selection != "" then Some(SetBaudPrefix + selection) else None
  }

  /** The command that sets the LED mode; `None` for an invalid selection. */
  function LedCommand(selection: string): (command: Option<string>)
    ensures command.Some? <==> selection in LedModes
  {
    if selection == "Normal" then Some("SET LED 01")
    else if selection == "Normally On" then Some("SET LED 02")
    else if selection == "Off" then Some("SET LED 00")
    else None
  }

  /** The command that sets the LED brightness; `None` for an invalid selection. */
  function BrightnessCommand(selection: string): (command: Option<string>)
    ensures command.Some? <==> selection in LedBrightnesses
  {
    if selection == "Low" then Some("SET BRIGHT 01")
    else if selection == "Middle" then Some("SET BRIGHT 50")
    else if selection == "High" then Some("SET BRIGHT 99")
    else None
  }

  /** The read-mode reply decodes as the device documents it, in both directions. */
  lemma ReadModeDecoding(response: string)
    ensures ReadModeLabel(response) == ContinuousMode <==> response == "02"
    ensures ReadModeLabel(response) == InductionMode <==> response == "03"
    ensures ReadModeLabel(response) == UnknownMode <==> response != "02" && response != "03"
  {
  }

  /** A listed baud reply is shown as itself, anything else as `UnknownBaudRate`;
      so the label is a listed rate exactly when the reply is one. (The reply text
      "Unknown Baud Rate" itself is also shown unchanged, which is why "shown as
      itself" alone does not characterise the listed rates.) */
  lemma BaudDecoding(response: string)
    ensures response in BaudRates ==> BaudLabel(response) == response
    ensures response !in BaudRates ==> BaudLabel(response) == UnknownBaudRate
    ensures BaudLabel(response) in BaudRates <==> response in BaudRates
  {
    assert BaudRateMapping.Keys == set r | r in BaudRates;
  }

  /** Each read-mode selection is sent as "SET " plus the very code that the
      decoder maps back to that selection, and every code the decoder recognises
      is the code of one selection: selections and known codes correspond one to one. */
  lemma ModeRoundTrip(selection: string, response: string)
    ensures ModeCode(selection).Some? ==>
              ModeCommand(selection) == Some(SetPrefix + ModeCode(selection).value)
              && ReadModeLabel(ModeCode(selection).value) == selection
    ensures ReadModeLabel(response) != UnknownMode ==>
              ModeCode(ReadModeLabel(response)) == Some(response)
  {
    assert SetPrefix + "02" == "SET 02";
    assert SetPrefix + "03" == "SET 03";
  }

  /** A valid baud selection is sent as "SET BAUD " plus the rate, and a device
      that replies with that rate is shown that rate. */
  lemma BaudRoundTrip(selection: string)
    requires selection in BaudRates
    ensures BaudCommand(selection) == Some(SetBaudPrefix + selection)
    ensures BaudLabel(selection) == selection
  {
    BaudDecoding(selection);
  }

  /** Within each setting, different selections give different commands. */
  lemma CommandsInjective(a: string, b: string)
    ensures ModeCommand(a).Some? && ModeCommand(a) == ModeCommand(b) ==> a == b
    ensures BaudCommand(a).Some? && BaudCommand(a) == BaudCommand(b) ==> a == b
    ensures LedCommand(a).Some? && LedCommand(a) == LedCommand(b) ==> a == b
    ensures BrightnessCommand(a).Some? && BrightnessCommand(a) == BrightnessCommand(b) ==> a == b
  {
    if BaudCommand(a).Some? && BaudCommand(a) == BaudCommand(b) {
      var c := SetBaudPrefix + a;
      assert a == c[|SetBaudPrefix|..];
      assert b == (SetBaudPrefix + b)[|SetBaudPrefix|..];
    }
    if LedCommand(a).Some? && LedCommand(a) == LedCommand(b) {
      assert "SET LED 01"[9] != "SET LED 02"[9];
      assert "SET LED 01"[9] != "SET LED 00"[9];
      assert "SET LED 02"[9] != "SET LED 00"[9];
    }
    if BrightnessCommand(a).Some? && BrightnessCommand(a) == BrightnessCommand(b) {
      assert "SET BRIGHT 01"[11] != "SET BRIGHT 50"[11];
      assert "SET BRIGHT 01"[11] != "SET BRIGHT 99"[11];
      assert "SET BRIGHT 50"[11] != "SET BRIGHT 99"[11];
    }
    if ModeCommand(a).Some? && ModeCommand(a) == ModeCommand(b) {
      assert (SetPrefix + "02")[5] != (SetPrefix + "03")[5];
    }
  }
}
