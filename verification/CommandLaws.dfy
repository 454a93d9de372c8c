/** Encoding a command and decoding it give it back, with its defined colors
    named; and which commands can be encoded. */
module CommandLaws {
  import opened Wrappers
  import opened Raw
  import opened Biometrics
  import opened Commands

  // --- what can be sent, and what comes back -------------------------------------

  /** An unknown color whose code is defined is that color. */
  function Named(color: LedColor): LedColor {
    if color.UnknownColor? && color.code < 8 then ColorFrom(color.code) else color
  }

  function NamedParams(p: LedParams): LedParams {
    p.(onColor := Named(p.onColor), offColor := Named(p.offColor))
  }

  function NamedLed(c: Led): Led {
    var t, p := c.temporary, c.permanent;
    c.(temporary := if t.SetTemporary? then t.(params := NamedParams(t.params)) else t,
       permanent := if p.SetPermanent? then p.(params := NamedParams(p.params)) else p)
  }

  function Canonical(c: Command): Command {
    match c
    case CmdLed(led) => CmdLed(NamedLed(led))
    case CmdBioRead(bio) => CmdBioRead(NamedRead(bio))
    case CmdBioMatch(bio) => CmdBioMatch(NamedMatch(bio))
    case _ => c
  }

  predicate Flashes(p: LedParams) {
    Whole(p.onTime, TENTH, 0x100) && Whole(p.offTime, TENTH, 0x100)
  }

  predicate SendableLed(c: Led) {
    && (c.temporary.SetTemporary? ==> Flashes(c.temporary.params) && Whole(c.temporary.timer, TENTH, 0x1_0000))
    && (c.permanent.SetPermanent? ==> Flashes(c.permanent.params))
  }

  predicate SendablePin(p: PinEntry) {
    && Whole(p.firstDigit, SECOND, 0x100) && Whole(p.digit, SECOND, 0x100)
    && (p.field.Some? ==> p.field.value.size != 0)
    && |p.apdu| <= APDU_MAX
  }

  predicate SendableTrs(c: Trs) {
    && (c.Apdu? ==> |c.apdu| <= APDU_MAX)
    && (c.EnterPin? ==> SendablePin(c.entry))
  }

  /** Its times are whole counts that fit, its data fits, and it is no empty
      challenge, out-of-range date or empty PIN length field. */
  predicate Sendable(c: Command) {
    match c
    case CmdLed(led) => SendableLed(led)
    case CmdBuzzer(buzzer) =>
      buzzer.action.Tone? ==> Whole(buzzer.action.on, TENTH, 0x100) && Whole(buzzer.action.off, TENTH, 0x100)
    case CmdText(text) =>
      && |text.data| <= TEXT_MAX
      && (text.mode.TemporaryNoWrap? || text.mode.TemporaryWrap? ==> Whole(text.mode.shownFor, SECOND, 0x100))
    case CmdOutput(output) =>
      output.action.TemporaryOn? || output.action.TemporaryOff? ==> Whole(output.action.timer, TENTH, 0x1_0000)
    case CmdKeySet(keyset) => |keyset.data| <= KEY_MAX
    case CmdMfg(mfg) => |mfg.data| <= MFG_MAX
    case CmdTimeDate(time) => InRange(time)
    case CmdGenAuth(auth) => 1 <= |auth.data| <= PIV_MAX
    case CmdCrAuth(auth) => 1 <= |auth.data| <= PIV_MAX
    case CmdTrs(trs) => SendableTrs(trs)
    case CmdBioMatch(bio) => |bio.template| <= MATCH_MAX
    case _ => true
  }

  // --- there and back ---------------------------------------------------------------

  lemma ColorThroughCode(color: LedColor)
    ensures ColorFrom(ColorCode(color)) == Named(color)
  {
  }

  lemma ParamsThroughRaw(p: LedParams, control: u8, timer: Duration)
    ensures var r := EncodeParams(p, control, timer);
            && (r.Ok? <==> Flashes(p) && Whole(timer, TENTH, 0x1_0000))
            && (r.Ok? ==> r.value.control == control && DecodeParams(r.value) == NamedParams(p)
                          && FromCount(r.value.timer, TENTH) == timer)
  {
    ToCountIsExact(p.onTime, TENTH, 0x100, "LED on time");
    ToCountIsExact(p.offTime, TENTH, 0x100, "LED off time");
    ToCountIsExact(timer, TENTH, 0x1_0000, "LED timer");
    ColorThroughCode(p.onColor);
    ColorThroughCode(p.offColor);
  }

  lemma LedThroughRaw(c: Led)
    ensures var r := EncodeLed(c);
            && (r.Ok? <==> SendableLed(c))
            && (r.Ok? ==> DecodeLed(r.value) == Ok(NamedLed(c)))
  {
    ParamsThroughRaw(DARK, 0, ZERO);
    ParamsThroughRaw(DARK, 1, ZERO);
    if c.temporary.SetTemporary? {
      ParamsThroughRaw(c.temporary.params, 2, c.temporary.timer);
    }
    if c.permanent.SetPermanent? {
      ParamsThroughRaw(c.permanent.params, 1, ZERO);
    }
  }

  lemma BuzzerThroughRaw(c: Buzzer)
    ensures var r := EncodeBuzzer(c);
            (r.Ok? <==> Sendable(CmdBuzzer(c))) && (r.Ok? ==> DecodeBuzzer(r.value) == Ok(c))
  {
    if c.action.Tone? {
      ToCountIsExact(c.action.on, TENTH, 0x100, "buzzer on time");
      ToCountIsExact(c.action.off, TENTH, 0x100, "buzzer off time");
    }
  }

  lemma TextThroughRaw(c: Text)
    ensures var r := EncodeText(c);
            (r.Ok? <==> Sendable(CmdText(c))) && (r.Ok? ==> DecodeText(r.value) == Ok(c))
  {
    if c.mode.TemporaryNoWrap? || c.mode.TemporaryWrap? {
      ToCountIsExact(c.mode.shownFor, SECOND, 0x100, "text display time");
    }
    FillThenRead(c.data, TEXT_MAX, 0x100, "text length");
  }

  lemma OutputThroughRaw(c: Output)
    ensures var r := EncodeOutput(c);
            (r.Ok? <==> Sendable(CmdOutput(c))) && (r.Ok? ==> DecodeOutput(r.value) == Ok(c))
  {
    ToCountIsExact(ZERO, TENTH, 0x1_0000, "output timer");
    if c.action.TemporaryOn? || c.action.TemporaryOff? {
      ToCountIsExact(c.action.timer, TENTH, 0x1_0000, "output timer");
    }
  }

  lemma ChallengeThroughRaw(c: Challenge)
    ensures var r := EncodeChallenge(c);
            (r.Ok? <==> 1 <= |c.data| <= PIV_MAX) && (r.Ok? ==> DecodeChallenge(r.value) == Ok(c))
  {
    FillThenRead(c.data, PIV_MAX, 0x1_0000, "challenge length");
  }

  lemma PinThroughRaw(p: PinEntry)
    ensures var r := EncodePin(p);
            (r.Ok? <==> SendablePin(p)) && (r.Ok? ==> DecodePin(r.value) == Ok(p))
  {
    ToCountIsExact(p.firstDigit, SECOND, 0x100, "PIN entry timeout");
    ToCountIsExact(p.digit, SECOND, 0x100, "PIN digit timeout");
    FillThenRead(p.apdu, APDU_MAX, 0x1_0000, "APDU length");
  }

  lemma TrsThroughRaw(c: Trs)
    ensures var r := EncodeTrs(c);
            (r.Ok? <==> SendableTrs(c)) && (r.Ok? ==> DecodeTrs(r.value) == Ok(c))
  {
    match c
    case Apdu(apdu) => FillThenRead(apdu, APDU_MAX, 0x1_0000, "APDU length");
    case EnterPin(entry) => PinThroughRaw(entry);
    case _ =>
  }

  /** A scan's times are encoded exactly if they are whole milliseconds that fit,
      and then stand for those times. */
  lemma ScanInMilliseconds(s: Scan)
    ensures var r := EncodeScan(s);
            && (r.Ok? <==> Whole(s.mode0Dwell, MILLISECOND, 0x1_0000)
                           && Whole(s.mode1Dwell, MILLISECOND, 0x1_0000)
                           && Whole(s.hold, MILLISECOND, 0x1_0000))
            && (r.Ok? ==> s == Scan(FromCount(r.value.mode0Dwell, MILLISECOND),
                                    FromCount(r.value.mode1Dwell, MILLISECOND),
                                    FromCount(r.value.hold, MILLISECOND)))
  {
    ToCountIsExact(s.mode0Dwell, MILLISECOND, 0x1_0000, "scan mode 0 dwell time");
    ToCountIsExact(s.mode1Dwell, MILLISECOND, 0x1_0000, "scan mode 1 dwell time");
    ToCountIsExact(s.hold, MILLISECOND, 0x1_0000, "scan hold time");
  }

  lemma KeySetThroughRaw(c: KeySet)
    ensures var r := EncodeKeySet(c);
            (r.Ok? <==> |c.data| <= KEY_MAX) && (r.Ok? ==> DecodeKeySet(r.value) == Ok(c))
  {
    FillThenRead(c.data, KEY_MAX, 0x100, "key length");
  }

  lemma MfgThroughRaw(c: Mfg)
    ensures var r := EncodeMfg(c);
            (r.Ok? <==> |c.data| <= MFG_MAX) && (r.Ok? ==> DecodeMfg(r.value) == Ok(c))
  {
    FillThenRead(c.data, MFG_MAX, 0x100, "manufacturer command length");
    BytesThroughWord24(c.vendor);
  }

  predicate IsTimed(c: Command) {
    c.CmdLed? || c.CmdBuzzer? || c.CmdText? || c.CmdOutput?
  }

  lemma TimedThroughRaw(c: Command)
    requires IsTimed(c)
    ensures var r := EncodeCommand(c);
            && (r.Ok? <==> Sendable(c))
            && (r.Ok? ==> DecodeCommand(r.value) == Ok(Canonical(c)))
  {
    match c
    case CmdLed(led) => LedThroughRaw(led);
    case CmdBuzzer(buzzer) => BuzzerThroughRaw(buzzer);
    case CmdText(text) => TextThroughRaw(text);
    case CmdOutput(output) => OutputThroughRaw(output);
  }

  predicate ForCard(c: Command) {
    c.CmdGenAuth? || c.CmdCrAuth? || c.CmdPivData? || c.CmdTrs?
  }

  lemma CardThroughRaw(c: Command)
    requires ForCard(c)
    ensures var r := EncodeCommand(c);
            && (r.Ok? <==> Sendable(c))
            && (r.Ok? ==> DecodeCommand(r.value) == Ok(Canonical(c)))
  {
    match c
    case CmdGenAuth(auth) => ChallengeThroughRaw(auth);
    case CmdCrAuth(auth) => ChallengeThroughRaw(auth);
    case CmdTrs(trs) => TrsThroughRaw(trs);
    case CmdPivData(_) =>
  }

  lemma OtherThroughRaw(c: Command)
    requires !IsTimed(c) && !ForCard(c)
    ensures var r := EncodeCommand(c);
            && (r.Ok? <==> Sendable(c))
            && (r.Ok? ==> DecodeCommand(r.value) == Ok(Canonical(c)))
  {
    match c
    case CmdKeySet(keyset) => KeySetThroughRaw(keyset);
    case CmdMfg(mfg) => MfgThroughRaw(mfg);
    case CmdBioMatch(bio) => MatchThroughRaw(bio);
    case _ =>
  }

  /** A command is encoded exactly if it can be sent, and then decodes to itself,
      with what has a name by that name. */
  lemma CommandThroughRaw(c: Command)
    ensures var r := EncodeCommand(c);
            && (r.Ok? <==> Sendable(c))
            && (r.Ok? ==> DecodeCommand(r.value) == Ok(Canonical(c)))
  {
    if IsTimed(c) {
      TimedThroughRaw(c);
    } else if ForCard(c) {
      CardThroughRaw(c);
    } else {
      OtherThroughRaw(c);
    }
  }

  // --- back and there ----------------------------------------------------------------

  /** The buffers of a raw command have the sizes the C library gives them. */
  predicate Sized(raw: RawCommand) {
    match raw
    case IdText(text) => |text.text.data| == TEXT_MAX
    case IdKeySet(keyset) => |keyset.key.data| == KEY_MAX
    case IdMfg(mfg) => |mfg.payload.data| == MFG_MAX
    case IdGenAuth(auth) => |auth.payload.data| == PIV_MAX
    case IdCrAuth(auth) => |auth.payload.data| == PIV_MAX
    case IdXwr(trs) =>
      && (trs.RawApdu? ==> |trs.apdu.data| == APDU_MAX)
      && (trs.RawEnterPin? ==> |trs.entry.apdu.data| == APDU_MAX)
    case IdBioMatch(bio) => |bio.template.data| == MATCH_MAX
    case _ => true
  }

  lemma WholeCount(count: u16, unit: Duration, limit: nat)
    requires IsUnit(unit) && count < limit <= 0x1_0000
    ensures Whole(FromCount(count, unit), unit, limit)
  {
    FromCountIsExact(count, unit, limit, "");
    ToCountIsExact(FromCount(count, unit), unit, limit, "");
  }

  /** The two kinds of command that decode but cannot be sent. */
  predicate DecodesOnly(c: Command) {
    || (c.CmdTimeDate? && !InRange(c.time))
    || ((c.CmdGenAuth? || c.CmdCrAuth?) && c.auth.data == [])
  }

  lemma DecodedLedIsSendable(raw: RawLed)
    ensures DecodeLed(raw).Ok? ==>
              var c := DecodeLed(raw).value; SendableLed(c) && NamedLed(c) == c
  {
    WholeCount(raw.temporary.onCount, TENTH, 0x100);
    WholeCount(raw.temporary.offCount, TENTH, 0x100);
    WholeCount(raw.temporary.timer, TENTH, 0x1_0000);
    WholeCount(raw.permanent.onCount, TENTH, 0x100);
    WholeCount(raw.permanent.offCount, TENTH, 0x100);
  }

  lemma DecodedIsSendable(raw: RawCommand)
    requires Sized(raw) && DecodeCommand(raw).Ok?
    ensures var c := DecodeCommand(raw).value;
            Canonical(c) == c && (Sendable(c) <==> !DecodesOnly(c))
  {
    match raw
    case IdLed(led) => DecodedLedIsSendable(led);
    case IdBuzzer(buzzer) =>
      WholeCount(buzzer.onCount, TENTH, 0x100);
      WholeCount(buzzer.offCount, TENTH, 0x100);
    case IdText(text) => WholeCount(text.time, SECOND, 0x100);
    case IdOutput(output) => WholeCount(output.timer, TENTH, 0x1_0000);
    case IdXwr(trs) =>
      if trs.RawEnterPin? {
        WholeCount(trs.entry.first, SECOND, 0x100);
        WholeCount(trs.entry.digit, SECOND, 0x100);
      }
    case _ =>
  }

  /** What was decoded can be encoded again and decodes to the same command,
      unless it is an out-of-range date or an empty challenge, which is refused. */
  lemma DecodedThroughRaw(raw: RawCommand)
    requires Sized(raw) && DecodeCommand(raw).Ok?
    ensures var c := DecodeCommand(raw).value;
            && (EncodeCommand(c).Ok? <==> !DecodesOnly(c))
            && (EncodeCommand(c).Ok? ==> DecodeCommand(EncodeCommand(c).value) == Ok(c))
  {
    DecodedIsSendable(raw);
    CommandThroughRaw(DecodeCommand(raw).value);
  }
}
