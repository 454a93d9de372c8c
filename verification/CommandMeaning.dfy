/** What the C library is told by a raw command, in the codes of its header; and
    that encoding says it and decoding understands it. */
module CommandMeaning {
  import opened Wrappers
  import opened Raw
  import opened Biometrics
  import opened Commands
  import opened CommandLaws
  import opened H = Header

  // --- counts, buffers and words --------------------------------------------------

  predicate Lasts(count: nat, unit: nat, d: Duration) {
    d.secs * 1_000_000_000 + d.nanos == count * unit
  }

  predicate Tenths(count: nat, d: Duration) { Lasts(count, 100_000_000, d) }

  predicate Seconds(count: nat, d: Duration) { Lasts(count, 1_000_000_000, d) }

  predicate Millis(count: nat, d: Duration) { Lasts(count, 1_000_000, d) }

  lemma CountMeans(count: u16, unit: Duration, d: Duration)
    requires IsUnit(unit)
    ensures FromCount(count, unit) == d <==> Lasts(count, unit.secs * 1_000_000_000 + unit.nanos, d)
  {
    FromCountLength(count, unit);
    if Lasts(count, Length(unit), d) {
      SameLength(FromCount(count, unit), d);
    }
  }

  /** The buffer says that it holds exactly `data`, and does. */
  predicate Holds(b: Buffer, data: seq<byte>) {
    b.length == |data| && |data| <= |b.data| && b.data[..|data|] == data
  }

  /** A buffer of the C library's size, with nothing behind its data. */
  predicate Clean(b: Buffer, size: nat) {
    && |b.data| == size && 0 <= b.length <= size
    && forall i | b.length <= i < size :: b.data[i] == 0
  }

  lemma ReadIsHeld(b: Buffer, data: seq<byte>, what: string)
    ensures Read(b, what) == Ok(data) <==> Holds(b, data)
  {
  }

  lemma FillIsClean(data: seq<byte>, max: nat, width: nat)
    requires max < width
    ensures Fill(data, max, width).Ok? ==>
              Holds(Fill(data, max, width).value, data) && Clean(Fill(data, max, width).value, max)
  {
  }

  // --- LED -----------------------------------------------------------------------------

  predicate ColorMeans(code: u8, color: LedColor) {
    match color
    case NoColor => code == H.LED_COLOR_NONE
    case Red => code == H.LED_COLOR_RED
    case Green => code == H.LED_COLOR_GREEN
    case Amber => code == H.LED_COLOR_AMBER
    case Blue => code == H.LED_COLOR_BLUE
    case Magenta => code == H.LED_COLOR_MAGENTA
    case Cyan => code == H.LED_COLOR_CYAN
    case White => code == H.LED_COLOR_WHITE
    case UnknownColor(other) => code == other
  }

  lemma ColorIsMeant(code: u8, color: LedColor)
    ensures ColorMeans(code, color) <==> ColorFrom(code) == CommandLaws.Named(color)
    ensures ColorMeans(ColorCode(color), color)
  {
  }

  predicate ParamsMean(raw: RawLedParams, p: LedParams) {
    && Tenths(raw.onCount, p.onTime) && Tenths(raw.offCount, p.offTime)
    && ColorMeans(raw.onColor, p.onColor) && ColorMeans(raw.offColor, p.offColor)
  }

  predicate TemporaryMeans(raw: RawLedParams, t: LedTemporary) {
    match t
    case KeepTemporary => raw.control == H.LED_TEMPORARY_CC_NOP
    case CancelTemporary => raw.control == H.LED_TEMPORARY_CC_CANCEL
    case SetTemporary(params, timer) =>
      raw.control == H.LED_TEMPORARY_CC_SET && ParamsMean(raw, params) && Tenths(raw.timer, timer)
  }

  predicate PermanentMeans(raw: RawLedParams, p: LedPermanent) {
    match p
    case KeepPermanent => raw.control == H.LED_PERMANENT_CC_NOP
    case SetPermanent(params) => raw.control == H.LED_PERMANENT_CC_SET && ParamsMean(raw, params)
  }

  predicate LedMeans(raw: RawLed, c: Led) {
    && raw.reader == c.reader && raw.number == c.number
    && TemporaryMeans(raw.temporary, c.temporary) && PermanentMeans(raw.permanent, c.permanent)
  }

  /** Nothing but a control code. */
  predicate Blank(raw: RawLedParams) {
    && raw.onCount == 0 && raw.offCount == 0 && raw.timer == 0
    && raw.onColor == H.LED_COLOR_NONE && raw.offColor == H.LED_COLOR_NONE
  }

  predicate LedIdle(raw: RawLed, c: Led) {
    && (!c.temporary.SetTemporary? ==> Blank(raw.temporary))
    && (!c.permanent.SetPermanent? ==> Blank(raw.permanent))
    && raw.permanent.timer == 0
  }

  lemma ParamsAreMeant(raw: RawLedParams, p: LedParams)
    ensures ParamsMean(raw, p) <==> DecodeParams(raw) == NamedParams(p)
  {
    CountMeans(raw.onCount, TENTH, p.onTime);
    CountMeans(raw.offCount, TENTH, p.offTime);
    ColorIsMeant(raw.onColor, p.onColor);
    ColorIsMeant(raw.offColor, p.offColor);
  }

  lemma LedIsMeant(raw: RawLed, c: Led)
    ensures LedMeans(raw, c) <==> DecodeLed(raw) == Ok(NamedLed(c))
  {
    if c.temporary.SetTemporary? {
      ParamsAreMeant(raw.temporary, c.temporary.params);
      CountMeans(raw.temporary.timer, TENTH, c.temporary.timer);
    }
    if c.permanent.SetPermanent? {
      ParamsAreMeant(raw.permanent, c.permanent.params);
    }
  }

  lemma LedIsSaid(c: Led)
    ensures EncodeLed(c).Ok? ==> LedMeans(EncodeLed(c).value, c) && LedIdle(EncodeLed(c).value, c)
  {
    LedThroughRaw(c);
    if EncodeLed(c).Ok? {
      LedIsMeant(EncodeLed(c).value, c);
    }
  }

  // --- buzzer, text, output ---------------------------------------------------------------

  predicate BuzzerMeans(raw: RawBuzzer, c: Buzzer) {
    && raw.reader == c.reader
    && match c.action
       case Off => raw.control == H.BUZZER_CC_OFF || raw.control == H.BUZZER_CC_NO_TONE
       case Tone(on, off, repeat) =>
         && raw.control == H.BUZZER_CC_DEFAULT_TONE
         && Tenths(raw.onCount, on) && Tenths(raw.offCount, off) && raw.repeat == repeat
  }

  /** Silence is said with one code. */
  predicate BuzzerIdle(raw: RawBuzzer, c: Buzzer) {
    c.action.Off? ==> raw.control == H.BUZZER_CC_OFF && raw.onCount == 0 && raw.offCount == 0 && raw.repeat == 0
  }

  lemma BuzzerIsMeant(raw: RawBuzzer, c: Buzzer)
    ensures BuzzerMeans(raw, c) <==> DecodeBuzzer(raw) == Ok(c)
  {
    if c.action.Tone? {
      CountMeans(raw.onCount, TENTH, c.action.on);
      CountMeans(raw.offCount, TENTH, c.action.off);
    }
  }

  predicate TextMeans(raw: RawText, c: Text) {
    && raw.reader == c.reader && raw.row == c.row && raw.col == c.col && Holds(raw.text, c.data)
    && match c.mode
       case PermanentNoWrap => raw.control == H.TEXT_CC_PERMANENT_NO_WRAP
       case PermanentWrap => raw.control == H.TEXT_CC_PERMANENT_WRAP
       case TemporaryNoWrap(shownFor) => raw.control == H.TEXT_CC_TEMPORARY_NO_WRAP && Seconds(raw.time, shownFor)
       case TemporaryWrap(shownFor) => raw.control == H.TEXT_CC_TEMPORARY_WRAP && Seconds(raw.time, shownFor)
  }

  predicate TextIdle(raw: RawText, c: Text) {
    && (c.mode.PermanentNoWrap? || c.mode.PermanentWrap? ==> raw.time == 0)
    && Clean(raw.text, H.CMD_TEXT_MAX_LEN)
  }

  lemma TextIsMeant(raw: RawText, c: Text)
    ensures TextMeans(raw, c) <==> DecodeText(raw) == Ok(c)
  {
    ReadIsHeld(raw.text, c.data, "text length");
    if c.mode.TemporaryNoWrap? || c.mode.TemporaryWrap? {
      CountMeans(raw.time, SECOND, c.mode.shownFor);
    }
  }

  predicate OutputMeans(raw: RawOutput, c: Output) {
    && raw.number == c.number
    && match c.action
       case KeepOutput => raw.control == H.OUTPUT_CC_NOP
       case PermanentOff => raw.control == H.OUTPUT_CC_PERMANENT_OFF
       case PermanentOn => raw.control == H.OUTPUT_CC_PERMANENT_ON
       case PermanentOffAllowTimed => raw.control == H.OUTPUT_CC_PERMANENT_OFF_ALLOW_TIMED
       case PermanentOnAllowTimed => raw.control == H.OUTPUT_CC_PERMANENT_ON_ALLOW_TIMED
       case TemporaryOn(timer) => raw.control == H.OUTPUT_CC_TEMPORARY_ON && Tenths(raw.timer, timer)
       case TemporaryOff(timer) => raw.control == H.OUTPUT_CC_TEMPORARY_OFF && Tenths(raw.timer, timer)
  }

  predicate OutputIdle(raw: RawOutput, c: Output) {
    c.action.TemporaryOn? || c.action.TemporaryOff? || raw.timer == 0
  }

  lemma OutputIsMeant(raw: RawOutput, c: Output)
    ensures OutputMeans(raw, c) <==> DecodeOutput(raw) == Ok(c)
  {
    if c.action.TemporaryOn? || c.action.TemporaryOff? {
      CountMeans(raw.timer, TENTH, c.action.timer);
    }
  }

  // --- keys, manufacturer commands, challenges -----------------------------------------------

  /** The low bytes of the word, lowest first. */
  predicate VendorMeans(word: bv32, vendor: (byte, byte, byte)) {
    && word % 0x100 == vendor.0 as bv32
    && word / 0x100 % 0x100 == vendor.1 as bv32
    && word / 0x1_0000 % 0x100 == vendor.2 as bv32
  }

  lemma VendorIsMeant(word: bv32, vendor: (byte, byte, byte))
    ensures VendorMeans(word, vendor) <==> Bytes24(word) == vendor
    ensures Word24(vendor) / 0x100_0000 == 0
  {
  }

  predicate MfgMeans(raw: RawMfg, c: Mfg) {
    VendorMeans(raw.vendor, c.vendor) && Holds(raw.payload, c.data)
  }

  lemma MfgIsMeant(raw: RawMfg, c: Mfg)
    ensures MfgMeans(raw, c) <==> DecodeMfg(raw) == Ok(c)
  {
    VendorIsMeant(raw.vendor, c.vendor);
    ReadIsHeld(raw.payload, c.data, "manufacturer command length");
  }

  predicate AuthMeans(raw: RawAuth, c: Challenge) {
    raw.algorithm == c.algorithm && raw.key == c.key && Holds(raw.payload, c.data)
  }

  lemma AuthIsMeant(raw: RawAuth, c: Challenge)
    ensures AuthMeans(raw, c) <==> DecodeChallenge(raw) == Ok(c)
  {
    ReadIsHeld(raw.payload, c.data, "challenge length");
  }

  predicate KindMeans(code: u8, kind: StatusKind) {
    match kind
    case Input => code == H.STATUS_REPORT_INPUT
    case Outputs => code == H.STATUS_REPORT_OUTPUT
    case Local => code == H.STATUS_REPORT_LOCAL
    case Reader => code == H.STATUS_REPORT_READER
  }

  // --- transparent reader ------------------------------------------------------------------------

  predicate PinMeans(raw: RawPinEntry, p: PinEntry) {
    && Seconds(raw.first, p.firstDigit) && Seconds(raw.digit, p.digit)
    && (match p.format
        case Binary => raw.format == H.TRS_PIN_FORMAT_BINARY
        case Bcd => raw.format == H.TRS_PIN_FORMAT_BCD
        case Ascii => raw.format == H.TRS_PIN_FORMAT_ASCII)
    && (match p.field
        case None => raw.field.size == 0
        case Some(field) => field.size != 0 && raw.field == field)
    && raw.rest == p.rest && Holds(raw.apdu, p.apdu)
  }

  predicate PinIdle(raw: RawPinEntry, p: PinEntry) {
    (p.field.None? ==> raw.field.offset == 0) && Clean(raw.apdu, H.TRS_APDU_MAX_LEN)
  }

  lemma PinIsMeant(raw: RawPinEntry, p: PinEntry)
    ensures PinMeans(raw, p) <==> DecodePin(raw) == Ok(p)
  {
    CountMeans(raw.first, SECOND, p.firstDigit);
    CountMeans(raw.digit, SECOND, p.digit);
    ReadIsHeld(raw.apdu, p.apdu, "APDU length");
  }

  predicate TrsMeans(raw: RawTrs, c: Trs) {
    match c
    case Start => raw.RawStart?
    case Stop => raw.RawStop?
    case Apdu(apdu) => raw.RawApdu? && Holds(raw.apdu, apdu)
    case EnterPin(entry) => raw.RawEnterPin? && PinMeans(raw.entry, entry)
    case CardScan => raw.RawCardScan?
  }

  predicate TrsIdle(raw: RawTrs, c: Trs) {
    && (c.Apdu? && raw.RawApdu? ==> Clean(raw.apdu, H.TRS_APDU_MAX_LEN))
    && (c.EnterPin? && raw.RawEnterPin? ==> PinIdle(raw.entry, c.entry))
  }

  lemma TrsIsMeant(raw: RawTrs, c: Trs)
    ensures TrsMeans(raw, c) <==> DecodeTrs(raw) == Ok(c)
  {
    match c
    case Apdu(apdu) => if raw.RawApdu? { ReadIsHeld(raw.apdu, apdu, "APDU length"); }
    case EnterPin(entry) => if raw.RawEnterPin? { PinIsMeant(raw.entry, entry); }
    case _ =>
  }

  predicate ScanMeans(raw: RawScan, s: Scan) {
    Millis(raw.mode0Dwell, s.mode0Dwell) && Millis(raw.mode1Dwell, s.mode1Dwell) && Millis(raw.hold, s.hold)
  }

  /** A presence scan is encoded to its three times in milliseconds. */
  lemma ScanIsSaid(s: Scan)
    ensures EncodeScan(s).Ok? ==> ScanMeans(EncodeScan(s).value, s)
  {
    ScanInMilliseconds(s);
    if EncodeScan(s).Ok? {
      var raw := EncodeScan(s).value;
      CountMeans(raw.mode0Dwell, MILLISECOND, s.mode0Dwell);
      CountMeans(raw.mode1Dwell, MILLISECOND, s.mode1Dwell);
      CountMeans(raw.hold, MILLISECOND, s.hold);
    }
  }

  // --- biometrics ------------------------------------------------------------------------------------

  predicate BioReadMeans(raw: RawBioRead, c: BioRead) {
    && raw.reader == c.reader && raw.kind == c.kind.code && raw.format == c.format.code
    && raw.quality == c.quality
  }

  predicate BioMatchMeans(raw: RawBioMatch, c: BioMatch) {
    && raw.reader == c.reader && raw.kind == c.kind.code && raw.format == c.format.code
    && raw.quality == c.threshold && Holds(raw.template, c.template)
  }

  /** What has a name in the header has it here. */
  lemma NamedCodes(code: u8)
    ensures TypeFrom(code).code == code && (TypeFrom(code).Named? <==> code <= 17)
    ensures FormatFrom(code).code == code && (FormatFrom(code).Named? <==> code <= 2)
    ensures StatusFrom(code).code == code && (StatusFrom(code).Named? <==> code <= 1 || code == 255)
  {
  }

  lemma BioMatchIsMeant(raw: RawBioMatch, c: BioMatch)
    ensures BioMatchMeans(raw, c) <==> DecodeMatch(raw) == Ok(NamedMatch(c))
  {
    ReadIsHeld(raw.template, c.template, "biometric template length");
    NamedCodes(raw.kind);
    NamedCodes(raw.format);
  }

  // --- all commands --------------------------------------------------------------------------------------

  predicate CommandMeans(raw: RawCommand, c: Command) {
    match c
    case CmdLed(led) => raw.IdLed? && LedMeans(raw.led, led)
    case CmdBuzzer(buzzer) => raw.IdBuzzer? && BuzzerMeans(raw.buzzer, buzzer)
    case CmdText(text) => raw.IdText? && TextMeans(raw.text, text)
    case CmdOutput(output) => raw.IdOutput? && OutputMeans(raw.output, output)
    case CmdComSet(comset) => raw.IdComSet? && raw.comset == comset
    case CmdComSetDone(comset) => raw.IdComSetDone? && raw.comset == comset
    case CmdKeySet(keyset) =>
      raw.IdKeySet? && raw.keyset.kind == keyset.kind && Holds(raw.keyset.key, keyset.data)
    case CmdMfg(mfg) => raw.IdMfg? && MfgMeans(raw.mfg, mfg)
    case CmdFileTx(file) => raw.IdFileTx? && raw.file == file
    case CmdStatus(kind) => raw.IdStatus? && KindMeans(raw.kind, kind)
    case CmdTimeDate(time) => raw.IdTdSet? && raw.time == time
    case CmdPivData(piv) => raw.IdPivData? && raw.piv == piv
    case CmdGenAuth(auth) => raw.IdGenAuth? && AuthMeans(raw.auth, auth)
    case CmdCrAuth(auth) => raw.IdCrAuth? && AuthMeans(raw.auth, auth)
    case CmdTrs(trs) => raw.IdXwr? && TrsMeans(raw.trs, trs)
    case CmdBioRead(bio) => raw.IdBioRead? && BioReadMeans(raw.bioRead, bio)
    case CmdBioMatch(bio) => raw.IdBioMatch? && BioMatchMeans(raw.bioMatch, bio)
  }

  /** What the command leaves open is zero, and buffers have the C library's sizes. */
  predicate CommandIdle(raw: RawCommand, c: Command)
    requires CommandMeans(raw, c)
  {
    match c
    case CmdLed(led) => LedIdle(raw.led, led)
    case CmdBuzzer(buzzer) => BuzzerIdle(raw.buzzer, buzzer)
    case CmdText(text) => TextIdle(raw.text, text)
    case CmdOutput(output) => OutputIdle(raw.output, output)
    case CmdKeySet(keyset) => Clean(raw.keyset.key, H.CMD_KEYSET_KEY_MAX_LEN)
    case CmdMfg(mfg) => raw.mfg.vendor / 0x100_0000 == 0 && Clean(raw.mfg.payload, H.CMD_MFG_MAX_DATALEN)
    case CmdFileTx(_) => raw.flags == 0
    case CmdGenAuth(_) => Clean(raw.auth.payload, H.PIV_DATA_MAX_LEN)
    case CmdCrAuth(_) => Clean(raw.auth.payload, H.PIV_DATA_MAX_LEN)
    case CmdTrs(trs) => TrsIdle(raw.trs, trs)
    case CmdBioMatch(_) => Clean(raw.bioMatch.template, H.CMD_BIOMATCH_MAX_TEMPLATE_LEN)
    case _ => true
  }

  lemma DecodingTimed(raw: RawCommand, c: Command)
    requires IsTimed(c)
    ensures CommandMeans(raw, c) <==> DecodeCommand(raw) == Ok(Canonical(c))
  {
    match c
    case CmdLed(led) => if raw.IdLed? { LedIsMeant(raw.led, led); }
    case CmdBuzzer(buzzer) => if raw.IdBuzzer? { BuzzerIsMeant(raw.buzzer, buzzer); }
    case CmdText(text) => if raw.IdText? { TextIsMeant(raw.text, text); }
    case CmdOutput(output) => if raw.IdOutput? { OutputIsMeant(raw.output, output); }
  }

  lemma DecodingForCard(raw: RawCommand, c: Command)
    requires ForCard(c)
    ensures CommandMeans(raw, c) <==> DecodeCommand(raw) == Ok(Canonical(c))
  {
    match c
    case CmdGenAuth(auth) => if raw.IdGenAuth? { AuthIsMeant(raw.auth, auth); }
    case CmdCrAuth(auth) => if raw.IdCrAuth? { AuthIsMeant(raw.auth, auth); }
    case CmdTrs(trs) => if raw.IdXwr? { TrsIsMeant(raw.trs, trs); }
    case CmdPivData(_) =>
  }

  lemma DecodingData(raw: RawCommand, c: Command)
    requires c.CmdKeySet? || c.CmdMfg? || c.CmdBioRead? || c.CmdBioMatch?
    ensures CommandMeans(raw, c) <==> DecodeCommand(raw) == Ok(Canonical(c))
  {
    match c
    case CmdKeySet(keyset) => if raw.IdKeySet? { ReadIsHeld(raw.keyset.key, keyset.data, "key length"); }
    case CmdMfg(mfg) => if raw.IdMfg? { MfgIsMeant(raw.mfg, mfg); }
    case CmdBioMatch(bio) => if raw.IdBioMatch? { BioMatchIsMeant(raw.bioMatch, bio); }
    case CmdBioRead(_) =>
      if raw.IdBioRead? {
        NamedCodes(raw.bioRead.kind);
        NamedCodes(raw.bioRead.format);
      }
  }

  /** Decoding understands exactly what is meant: a raw command decodes to a command,
      in its named form, if and only if it means it. */
  lemma DecodingIsMeaning(raw: RawCommand, c: Command)
    ensures CommandMeans(raw, c) <==> DecodeCommand(raw) == Ok(Canonical(c))
  {
    if IsTimed(c) {
      DecodingTimed(raw, c);
    } else if ForCard(c) {
      DecodingForCard(raw, c);
    } else if c.CmdKeySet? || c.CmdMfg? || c.CmdBioRead? || c.CmdBioMatch? {
      DecodingData(raw, c);
    }
  }

  /** What is encoded means the command, and nothing besides. */
  lemma EncodingIsMeaning(c: Command)
    ensures EncodeCommand(c).Ok? <==> Sendable(c)
    ensures EncodeCommand(c).Ok? ==>
              CommandMeans(EncodeCommand(c).value, c) && CommandIdle(EncodeCommand(c).value, c)
  {
    CommandThroughRaw(c);
    if EncodeCommand(c).Ok? {
      DecodingIsMeaning(EncodeCommand(c).value, c);
      NothingBesides(c);
    }
  }

  lemma NothingBesides(c: Command)
    requires EncodeCommand(c).Ok? && CommandMeans(EncodeCommand(c).value, c)
    ensures CommandIdle(EncodeCommand(c).value, c)
  {
    match c
    case CmdLed(led) => LedIsSaid(led);
    case CmdText(text) => FillIsClean(text.data, TEXT_MAX, 0x100);
    case CmdKeySet(keyset) => FillIsClean(keyset.data, KEY_MAX, 0x100);
    case CmdMfg(mfg) =>
      FillIsClean(mfg.data, MFG_MAX, 0x100);
      VendorIsMeant(0, mfg.vendor);
    case CmdGenAuth(auth) => FillIsClean(auth.data, PIV_MAX, 0x1_0000);
    case CmdCrAuth(auth) => FillIsClean(auth.data, PIV_MAX, 0x1_0000);
    case CmdTrs(trs) => TrsBesides(trs);
    case CmdBioMatch(bio) => FillIsClean(bio.template, MATCH_MAX, 0x1_0000);
    case _ =>
  }

  lemma TrsBesides(c: Trs)
    ensures EncodeTrs(c).Ok? ==> TrsIdle(EncodeTrs(c).value, c)
  {
    match c
    case Apdu(apdu) => FillIsClean(apdu, APDU_MAX, 0x1_0000);
    case EnterPin(entry) => FillIsClean(entry.apdu, APDU_MAX, 0x1_0000);
    case _ =>
  }

  // --- refusals ----------------------------------------------------------------------------------------------

  /** The data of a command that goes to a buffer. */
  function Payload(c: Command): seq<byte> {
    match c
    case CmdText(text) => text.data
    case CmdKeySet(keyset) => keyset.data
    case CmdMfg(mfg) => mfg.data
    case CmdGenAuth(auth) => auth.data
    case CmdCrAuth(auth) => auth.data
    case CmdTrs(trs) => if trs.Apdu? then trs.apdu else if trs.EnterPin? then trs.entry.apdu else []
    case CmdBioMatch(bio) => bio.template
    case _ => []
  }

  /** A command is refused as too long only if its data is, and else as invalid; a raw
      one as malformed. */
  lemma RefusedAs(c: Command, raw: RawCommand)
    ensures EncodeCommand(c).Err? ==>
              match EncodeCommand(c).error
              case TooLong(max) => |Payload(c)| > max
              case InvalidArgument(_) => true
              case Malformed(_) => false
    ensures DecodeCommand(raw).Err? ==> DecodeCommand(raw).error.Malformed?
  {
  }
}
