/** Commands, the raw structures they become, and the way back. */
module Commands {
  import opened Wrappers
  import opened Raw
  import opened Biometrics

  type Encoded<T> = Result<T, Error>

  // --- LED ----------------------------------------------------------------------

  datatype LedColor = NoColor | Red | Green | Amber | Blue | Magenta | Cyan | White | UnknownColor(code: u8)

  function ColorFrom(code: u8): LedColor {
    match code
    case 0 => NoColor
    case 1 => Red
    case 2 => Green
    case 3 => Amber
    case 4 => Blue
    case 5 => Magenta
    case 6 => Cyan
    case 7 => White
    case _ => UnknownColor(code)
  }

  function ColorCode(color: LedColor): u8 {
    match color
    case NoColor => 0
    case Red => 1
    case Green => 2
    case Amber => 3
    case Blue => 4
    case Magenta => 5
    case Cyan => 6
    case White => 7
    case UnknownColor(code) => code
  }

  datatype LedParams = LedParams(onTime: Duration, offTime: Duration, onColor: LedColor, offColor: LedColor)

  const DARK := LedParams(ZERO, ZERO, NoColor, NoColor)

  datatype LedTemporary = KeepTemporary | CancelTemporary | SetTemporary(params: LedParams, timer: Duration)

  datatype LedPermanent = KeepPermanent | SetPermanent(params: LedParams)

  datatype RawLedParams = RawLedParams(
    control: u8, onCount: u8, offCount: u8, onColor: u8, offColor: u8, timer: u16)

  function EncodeParams(p: LedParams, control: u8, timer: Duration): Encoded<RawLedParams> {
    var onCount :- ToCount(p.onTime, TENTH, 0x100, "LED on time");
    var offCount :- ToCount(p.offTime, TENTH, 0x100, "LED off time");
    var timerCount :- ToCount(timer, TENTH, 0x1_0000, "LED timer");
    Ok(RawLedParams(control, onCount, offCount, ColorCode(p.onColor), ColorCode(p.offColor), timerCount))
  }

  function DecodeParams(raw: RawLedParams): LedParams {
    LedParams(FromCount(raw.onCount, TENTH), FromCount(raw.offCount, TENTH),
              ColorFrom(raw.onColor), ColorFrom(raw.offColor))
  }

  function EncodeTemporary(t: LedTemporary): Encoded<RawLedParams> {
    match t
    case KeepTemporary => EncodeParams(DARK, 0, ZERO)
    case CancelTemporary => EncodeParams(DARK, 1, ZERO)
    case SetTemporary(params, timer) => EncodeParams(params, 2, timer)
  }

  function DecodeTemporary(raw: RawLedParams): Encoded<LedTemporary> {
    match raw.control
    case 0 => Ok(KeepTemporary)
    case 1 => Ok(CancelTemporary)
    case 2 => Ok(SetTemporary(DecodeParams(raw), FromCount(raw.timer, TENTH)))
    case _ => Err(Malformed("LED temporary control code"))
  }

  function EncodePermanent(p: LedPermanent): Encoded<RawLedParams> {
    match p
    case KeepPermanent => EncodeParams(DARK, 0, ZERO)
    case SetPermanent(params) => EncodeParams(params, 1, ZERO)
  }

  function DecodePermanent(raw: RawLedParams): Encoded<LedPermanent> {
    match raw.control
    case 0 => Ok(KeepPermanent)
    case 1 => Ok(SetPermanent(DecodeParams(raw)))
    case _ => Err(Malformed("LED permanent control code"))
  }

  datatype Led = Led(reader: u8, number: u8, temporary: LedTemporary, permanent: LedPermanent)

  datatype RawLed = RawLed(reader: u8, number: u8, temporary: RawLedParams, permanent: RawLedParams)

  function EncodeLed(c: Led): Encoded<RawLed> {
    var temporary :- EncodeTemporary(c.temporary);
    var permanent :- EncodePermanent(c.permanent);
    Ok(RawLed(c.reader, c.number, temporary, permanent))
  }

  function DecodeLed(raw: RawLed): Encoded<Led> {
    var temporary :- DecodeTemporary(raw.temporary);
    var permanent :- DecodePermanent(raw.permanent);
    Ok(Led(raw.reader, raw.number, temporary, permanent))
  }

  // --- buzzer -------------------------------------------------------------------

  datatype Action = Off | Tone(on: Duration, off: Duration, repeat: u8)

  datatype Buzzer = Buzzer(reader: u8, action: Action)

  datatype RawBuzzer = RawBuzzer(reader: u8, control: u8, onCount: u8, offCount: u8, repeat: u8)

  function EncodeBuzzer(c: Buzzer): Encoded<RawBuzzer> {
    match c.action
    case Off => Ok(RawBuzzer(c.reader, 1, 0, 0, 0))
    case Tone(on, off, repeat) =>
      var onCount :- ToCount(on, TENTH, 0x100, "buzzer on time");
      var offCount :- ToCount(off, TENTH, 0x100, "buzzer off time");
      Ok(RawBuzzer(c.reader, 2, onCount, offCount, repeat))
  }

  function DecodeBuzzer(raw: RawBuzzer): Encoded<Buzzer> {
    match raw.control
    case 0 => Ok(Buzzer(raw.reader, Off))
    case 1 => Ok(Buzzer(raw.reader, Off))
    case 2 =>
      Ok(Buzzer(raw.reader, Tone(FromCount(raw.onCount, TENTH), FromCount(raw.offCount, TENTH), raw.repeat)))
    case _ => Err(Malformed("buzzer control code"))
  }

  // --- text ---------------------------------------------------------------------

  const TEXT_MAX := 32

  datatype TextMode = PermanentNoWrap | PermanentWrap
    | TemporaryNoWrap(shownFor: Duration) | TemporaryWrap(shownFor: Duration)

  datatype Text = Text(reader: u8, mode: TextMode, row: u8, col: u8, data: seq<byte>)

  datatype RawText = RawText(reader: u8, control: u8, time: u8, row: u8, col: u8, text: Buffer)

  function EncodeText(c: Text): Encoded<RawText> {
    var time :-
      if c.mode.TemporaryNoWrap? || c.mode.TemporaryWrap?
      then ToCount(c.mode.shownFor, SECOND, 0x100, "text display time") else Ok(0);
    var control :=
      match c.mode
      case PermanentNoWrap => 1
      case PermanentWrap => 2
      case TemporaryNoWrap(_) => 3
      case TemporaryWrap(_) => 4;
    var text :- Fill(c.data, TEXT_MAX, 0x100);
    Ok(RawText(c.reader, control, time, c.row, c.col, text))
  }

  function DecodeText(raw: RawText): Encoded<Text> {
    var mode :-
      match raw.control
      case 1 => Ok(PermanentNoWrap)
      case 2 => Ok(PermanentWrap)
      case 3 => Ok(TemporaryNoWrap(FromCount(raw.time, SECOND)))
      case 4 => Ok(TemporaryWrap(FromCount(raw.time, SECOND)))
      case _ => Err(Malformed("text control code"));
    var data :- Read(raw.text, "text length");
    Ok(Text(raw.reader, mode, raw.row, raw.col, data))
  }

  // --- output -------------------------------------------------------------------

  datatype OutputAction = KeepOutput | PermanentOff | PermanentOn
    | PermanentOffAllowTimed | PermanentOnAllowTimed
    | TemporaryOn(timer: Duration) | TemporaryOff(timer: Duration)

  datatype Output = Output(number: u8, action: OutputAction)

  datatype RawOutput = RawOutput(number: u8, control: u8, timer: u16)

  function OutputCode(action: OutputAction): u8 {
    match action
    case KeepOutput => 0
    case PermanentOff => 1
    case PermanentOn => 2
    case PermanentOffAllowTimed => 3
    case PermanentOnAllowTimed => 4
    case TemporaryOn(_) => 5
    case TemporaryOff(_) => 6
  }

  function EncodeOutput(c: Output): Encoded<RawOutput> {
    var timer := if c.action.TemporaryOn? || c.action.TemporaryOff? then c.action.timer else ZERO;
    var count :- ToCount(timer, TENTH, 0x1_0000, "output timer");
    Ok(RawOutput(c.number, OutputCode(c.action), count))
  }

  function DecodeOutput(raw: RawOutput): Encoded<Output> {
    var timer := FromCount(raw.timer, TENTH);
    match raw.control
    case 0 => Ok(Output(raw.number, KeepOutput))
    case 1 => Ok(Output(raw.number, PermanentOff))
    case 2 => Ok(Output(raw.number, PermanentOn))
    case 3 => Ok(Output(raw.number, PermanentOffAllowTimed))
    case 4 => Ok(Output(raw.number, PermanentOnAllowTimed))
    case 5 => Ok(Output(raw.number, TemporaryOn(timer)))
    case 6 => Ok(Output(raw.number, TemporaryOff(timer)))
    case _ => Err(Malformed("output control code"))
  }

  // --- keys, manufacturer commands, dates ----------------------------------------

  const KEY_MAX := 32
  const MFG_MAX := 64

  datatype KeySet = KeySet(kind: u8, data: seq<byte>)

  datatype Mfg = Mfg(vendor: (byte, byte, byte), data: seq<byte>)

  datatype RawKeySet = RawKeySet(kind: u8, key: Buffer)

  datatype RawMfg = RawMfg(vendor: bv32, payload: Buffer)

  function EncodeKeySet(c: KeySet): Encoded<RawKeySet> {
    var key :- Fill(c.data, KEY_MAX, 0x100);
    Ok(RawKeySet(c.kind, key))
  }

  function DecodeKeySet(raw: RawKeySet): Encoded<KeySet> {
    var data :- Read(raw.key, "key length");
    Ok(KeySet(raw.kind, data))
  }

  function EncodeMfg(c: Mfg): Encoded<RawMfg> {
    var payload :- Fill(c.data, MFG_MAX, 0x100);
    Ok(RawMfg(Word24(c.vendor), payload))
  }

  function DecodeMfg(raw: RawMfg): Encoded<Mfg> {
    var data :- Read(raw.payload, "manufacturer command length");
    Ok(Mfg(Bytes24(raw.vendor), data))
  }

  /** The raw structure has the same fields. */
  datatype TimeDate = TimeDate(year: u16, month: u8, day: u8, hour: u8, minute: u8, second: u8)

  predicate InRange(t: TimeDate) {
    1 <= t.month <= 12 && 1 <= t.day <= 31 && t.hour <= 23 && t.minute <= 59 && t.second <= 59
  }

  function EncodeTimeDate(t: TimeDate): Encoded<TimeDate> {
    if t.month < 1 || t.month > 12 || t.day < 1 || t.day > 31 || t.hour > 23 || t.minute > 59 || t.second > 59
    then Err(InvalidArgument("date or time out of range"))
    else Ok(t)
  }

  // --- smart cards ---------------------------------------------------------------

  const PIV_MAX := 256
  const APDU_MAX := 258

  datatype Challenge = Challenge(algorithm: u8, key: u8, data: seq<byte>)

  datatype RawAuth = RawAuth(algorithm: u8, key: u8, payload: Buffer)

  /** A smart card payload may not be empty. */
  function ToPayload(data: seq<byte>, what: string): Encoded<Buffer> {
    if data == [] then Err(InvalidArgument(what)) else Fill(data, PIV_MAX, 0x1_0000)
  }

  function EncodeChallenge(c: Challenge): Encoded<RawAuth> {
    var payload :- ToPayload(c.data, "challenge is empty");
    Ok(RawAuth(c.algorithm, c.key, payload))
  }

  function DecodeChallenge(raw: RawAuth): Encoded<Challenge> {
    var data :- Read(raw.payload, "challenge length");
    Ok(Challenge(raw.algorithm, raw.key, data))
  }

  datatype PinFormat = Binary | Bcd | Ascii

  datatype LengthField = LengthField(size: u8, offset: u16)

  /** The fields that pass through unconverted are gathered in `rest`. */
  datatype PinEntry = PinEntry(
    firstDigit: Duration, digit: Duration, format: PinFormat, field: Option<LengthField>,
    rest: PinRest, apdu: seq<byte>)

  datatype PinRest = PinRest(
    rightJustify: bool, blockOffset: u16, blockSize: u8, minDigits: u8, maxDigits: u8, endOn: u32,
    messages: u8, language: u16, message: u8, prologue: (byte, byte, byte))

  datatype RawPinEntry = RawPinEntry(
    first: u8, digit: u8, format: u8, field: LengthField, rest: PinRest, apdu: Buffer)

  function EncodePin(p: PinEntry): Encoded<RawPinEntry> {
    var format := match p.format case Binary => 1 case Bcd => 2 case Ascii => 3;
    var field :-
      match p.field
      case None => Ok(LengthField(0, 0))
      case Some(field) => if field.size == 0 then Err(InvalidArgument("PIN length field size")) else Ok(field);
    var first :- ToCount(p.firstDigit, SECOND, 0x100, "PIN entry timeout");
    var digit :- ToCount(p.digit, SECOND, 0x100, "PIN digit timeout");
    var apdu :- Fill(p.apdu, APDU_MAX, 0x1_0000);
    Ok(RawPinEntry(first, digit, format, field, p.rest, apdu))
  }

  function DecodePin(raw: RawPinEntry): Encoded<PinEntry> {
    var format :-
      match raw.format
      case 1 => Ok(Binary)
      case 2 => Ok(Bcd)
      case 3 => Ok(Ascii)
      case _ => Err(Malformed("PIN format"));
    var apdu :- Read(raw.apdu, "APDU length");
    Ok(PinEntry(FromCount(raw.first, SECOND), FromCount(raw.digit, SECOND), format,
                if raw.field.size != 0 then Some(raw.field) else None, raw.rest, apdu))
  }

  datatype Trs = Start | Stop | Apdu(apdu: seq<byte>) | EnterPin(entry: PinEntry) | CardScan

  /** The constructor is the command code that selects the union. */
  datatype RawTrs = RawStart | RawStop | RawApdu(apdu: Buffer) | RawEnterPin(entry: RawPinEntry) | RawCardScan
    | RawTrsUnknown

  function EncodeTrs(c: Trs): Encoded<RawTrs> {
    match c
    case Start => Ok(RawStart)
    case Stop => Ok(RawStop)
    case Apdu(apdu) =>
      var raw :- Fill(apdu, APDU_MAX, 0x1_0000);
      Ok(RawApdu(raw))
    case EnterPin(entry) =>
      var raw :- EncodePin(entry);
      Ok(RawEnterPin(raw))
    case CardScan => Ok(RawCardScan)
  }

  function DecodeTrs(raw: RawTrs): Encoded<Trs> {
    match raw
    case RawStart => Ok(Start)
    case RawStop => Ok(Stop)
    case RawApdu(apdu) =>
      var data :- Read(apdu, "APDU length");
      Ok(Apdu(data))
    case RawEnterPin(entry) =>
      var pin :- DecodePin(entry);
      Ok(EnterPin(pin))
    case RawCardScan => Ok(CardScan)
    case RawTrsUnknown => Err(Malformed("TRS command"))
  }

  /** The three times of a card presence scan; these are only ever encoded. */
  datatype Scan = Scan(mode0Dwell: Duration, mode1Dwell: Duration, hold: Duration)

  datatype RawScan = RawScan(mode0Dwell: u16, mode1Dwell: u16, hold: u16)

  function EncodeScan(s: Scan): Encoded<RawScan> {
    var mode0 :- ToCount(s.mode0Dwell, MILLISECOND, 0x1_0000, "scan mode 0 dwell time");
    var mode1 :- ToCount(s.mode1Dwell, MILLISECOND, 0x1_0000, "scan mode 1 dwell time");
    var hold :- ToCount(s.hold, MILLISECOND, 0x1_0000, "scan hold time");
    Ok(RawScan(mode0, mode1, hold))
  }

  // --- commands ------------------------------------------------------------------

  datatype ComSet = ComSet(address: u8, baud: u32)

  datatype PivRequest = PivRequest(object: (byte, byte, byte), element: u8, offset: u8)

  datatype StatusKind = Input | Outputs | Local | Reader

  datatype Command =
    | CmdLed(led: Led) | CmdBuzzer(buzzer: Buzzer) | CmdText(text: Text) | CmdOutput(output: Output)
    | CmdComSet(comset: ComSet) | CmdComSetDone(comset: ComSet) | CmdKeySet(keyset: KeySet) | CmdMfg(mfg: Mfg)
    | CmdFileTx(file: i32) | CmdStatus(kind: StatusKind) | CmdTimeDate(time: TimeDate) | CmdPivData(piv: PivRequest)
    | CmdGenAuth(auth: Challenge) | CmdCrAuth(auth: Challenge) | CmdTrs(trs: Trs)
    | CmdBioRead(bioRead: BioRead) | CmdBioMatch(bioMatch: BioMatch)

  /** The constructor is the id that selects the union. */
  datatype RawCommand =
    | IdLed(led: RawLed) | IdBuzzer(buzzer: RawBuzzer) | IdText(text: RawText) | IdOutput(output: RawOutput)
    | IdComSet(comset: ComSet) | IdComSetDone(comset: ComSet) | IdKeySet(keyset: RawKeySet) | IdMfg(mfg: RawMfg)
    | IdFileTx(file: i32, flags: u32) | IdStatus(kind: u8) | IdTdSet(time: TimeDate) | IdPivData(piv: PivRequest)
    | IdGenAuth(auth: RawAuth) | IdCrAuth(auth: RawAuth) | IdXwr(trs: RawTrs)
    | IdBioRead(bioRead: RawBioRead) | IdBioMatch(bioMatch: RawBioMatch) | IdUnknown(id: u32)

  function KindCode(kind: StatusKind): u8 {
    match kind
    case Input => 0
    case Outputs => 1
    case Local => 2
    case Reader => 3
  }

  function KindFrom(code: u8): Encoded<StatusKind> {
    match code
    case 0 => Ok(Input)
    case 1 => Ok(Outputs)
    case 2 => Ok(Local)
    case 3 => Ok(Reader)
    case _ => Err(Malformed("status report type"))
  }

  function EncodeCommand(c: Command): Encoded<RawCommand> {
    match c
    case CmdLed(led) => var raw :- EncodeLed(led); Ok(IdLed(raw))
    case CmdBuzzer(buzzer) => var raw :- EncodeBuzzer(buzzer); Ok(IdBuzzer(raw))
    case CmdText(text) => var raw :- EncodeText(text); Ok(IdText(raw))
    case CmdOutput(output) => var raw :- EncodeOutput(output); Ok(IdOutput(raw))
    case CmdComSet(comset) => Ok(IdComSet(comset))
    case CmdComSetDone(comset) => Ok(IdComSetDone(comset))
    case CmdKeySet(keyset) => var raw :- EncodeKeySet(keyset); Ok(IdKeySet(raw))
    case CmdMfg(mfg) => var raw :- EncodeMfg(mfg); Ok(IdMfg(raw))
    case CmdFileTx(file) => Ok(IdFileTx(file, 0))
    case CmdStatus(kind) => Ok(IdStatus(KindCode(kind)))
    case CmdTimeDate(time) => var raw :- EncodeTimeDate(time); Ok(IdTdSet(raw))
    case CmdPivData(piv) => Ok(IdPivData(piv))
    case CmdGenAuth(auth) => var raw :- EncodeChallenge(auth); Ok(IdGenAuth(raw))
    case CmdCrAuth(auth) => var raw :- EncodeChallenge(auth); Ok(IdCrAuth(raw))
    case CmdTrs(trs) => var raw :- EncodeTrs(trs); Ok(IdXwr(raw))
    case CmdBioRead(bio) => Ok(IdBioRead(EncodeRead(bio)))
    case CmdBioMatch(bio) => var raw :- EncodeMatch(bio); Ok(IdBioMatch(raw))
  }

  function DecodeCommand(raw: RawCommand): Encoded<Command> {
    match raw
    case IdLed(led) => var c :- DecodeLed(led); Ok(CmdLed(c))
    case IdBuzzer(buzzer) => var c :- DecodeBuzzer(buzzer); Ok(CmdBuzzer(c))
    case IdText(text) => var c :- DecodeText(text); Ok(CmdText(c))
    case IdOutput(output) => var c :- DecodeOutput(output); Ok(CmdOutput(c))
    case IdComSet(comset) => Ok(CmdComSet(comset))
    case IdComSetDone(comset) => Ok(CmdComSetDone(comset))
    case IdKeySet(keyset) => var c :- DecodeKeySet(keyset); Ok(CmdKeySet(c))
    case IdMfg(mfg) => var c :- DecodeMfg(mfg); Ok(CmdMfg(c))
    case IdFileTx(file, _) => Ok(CmdFileTx(file))
    case IdStatus(kind) => var c :- KindFrom(kind); Ok(CmdStatus(c))
    case IdTdSet(time) => Ok(CmdTimeDate(time))
    case IdPivData(piv) => Ok(CmdPivData(piv))
    case IdGenAuth(auth) => var c :- DecodeChallenge(auth); Ok(CmdGenAuth(c))
    case IdCrAuth(auth) => var c :- DecodeChallenge(auth); Ok(CmdCrAuth(c))
    case IdXwr(trs) => var c :- DecodeTrs(trs); Ok(CmdTrs(c))
    case IdBioRead(bio) => Ok(CmdBioRead(DecodeRead(bio)))
    case IdBioMatch(bio) => var c :- DecodeMatch(bio); Ok(CmdBioMatch(c))
    case IdUnknown(_) => Err(Malformed("command id"))
  }
}
