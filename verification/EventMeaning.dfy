/** What a raw event says, in the codes of the C library's header; and that encoding
    says it and decoding understands it. */
module EventMeaning {
  import opened Wrappers
  import opened Raw
  import opened Biometrics
  import opened Commands
  import opened Events
  import opened EventLaws
  import opened CommandMeaning
  import opened H = Header

  // --- card reads -------------------------------------------------------------------

  /** So many bytes hold the bits, and one fewer do not. */
  predicate Covers(bytes: nat, bits: nat) {
    8 * bytes >= bits && (bytes > 0 ==> 8 * (bytes - 1) < bits)
  }

  predicate CardMeans(raw: RawCard, c: CardRead) {
    && raw.reader == c.reader && raw.length == c.bits
    && (match c.format
        case Unspecified => raw.format == H.CARD_FMT_RAW_UNSPECIFIED
        case Wiegand => raw.format == H.CARD_FMT_RAW_WIEGAND)
    && (c.reverse <==> raw.direction == 1)
    && exists n: nat | n <= |raw.data| :: Covers(n, c.bits) && raw.data[..n] <= c.data
  }

  predicate CardIdle(raw: RawCard, c: CardRead) {
    && (raw.direction == 0 || raw.direction == 1)
    && |raw.data| == H.EVENT_CARDREAD_MAX_DATALEN && |c.data| <= |raw.data|
    && raw.data[..|c.data|] == c.data
    && forall i | |c.data| <= i < |raw.data| :: raw.data[i] == 0
  }

  lemma CoversOnce(n: nat, bits: nat)
    ensures Covers(n, bits) <==> n == BytesFor(bits)
  {
  }

  lemma CardIsMeant(raw: RawCard, c: CardRead)
    ensures CardMeans(raw, c) <==> DecodeCard(raw) == Ok(Canonical(EvCardRead(c)).card)
  {
    var n := BytesFor(c.bits);
    CoversOnce(n, c.bits);
    if CardMeans(raw, c) {
      var k: nat :| k <= |raw.data| && Covers(k, c.bits) && raw.data[..k] <= c.data;
      CoversOnce(k, c.bits);
      assert c.data[..n] == raw.data[..n];
    }
    if DecodeCard(raw) == Ok(Canonical(EvCardRead(c)).card) {
      assert Covers(n, c.bits) && raw.data[..n] <= c.data;
    }
  }

  // --- status -------------------------------------------------------------------------

  predicate StateMeans(code: byte, s: ReaderStatus) {
    match s
    case Normal => code == 0
    case NotConnected => code == 1
    case Tamper => code == 2
    case UnknownState(other) => code == other
  }

  predicate StatusMeans(raw: RawStatus, s: Status) {
    match s
    case Inputs(entries) => raw.kind == H.STATUS_REPORT_INPUT && Holds(raw.report, entries)
    case OutputStates(entries) => raw.kind == H.STATUS_REPORT_OUTPUT && Holds(raw.report, entries)
    case LocalState(tamper, power) =>
      && raw.kind == H.STATUS_REPORT_LOCAL && raw.report.length == 2 && |raw.report.data| >= 2
      && (tamper <==> raw.report.data[0] != 0) && (power <==> raw.report.data[1] != 0)
    case Readers(readers) =>
      && raw.kind == H.STATUS_REPORT_READER && raw.report.length == |readers| <= |raw.report.data|
      && forall i | 0 <= i < |readers| :: StateMeans(raw.report.data[i], readers[i])
  }

  predicate StatusIdle(raw: RawStatus, s: Status) {
    && Clean(raw.report, H.STATUS_REPORT_MAX_LEN)
    && (s.LocalState? ==> raw.report.data[0] <= 1 && raw.report.data[1] <= 1)
  }

  lemma StateIsMeant(code: byte, s: ReaderStatus)
    ensures StateMeans(code, s) <==> ReaderFrom(code) == NamedState(s)
  {
  }

  lemma ReadersAreMeant(raw: RawStatus, readers: seq<ReaderStatus>)
    ensures StatusMeans(raw, Readers(readers)) <==>
            DecodeStatus(raw) == Ok(Canonical(EvStatus(Readers(readers))).status)
  {
    if 0 <= raw.report.length <= |raw.report.data| && raw.kind == H.STATUS_REPORT_READER {
      var entries := raw.report.data[..raw.report.length];
      var got := seq(|entries|, i requires 0 <= i < |entries| => ReaderFrom(entries[i]));
      var named := seq(|readers|, i requires 0 <= i < |readers| => NamedState(readers[i]));
      assert DecodeStatus(raw) == Ok(Readers(got));
      assert Canonical(EvStatus(Readers(readers))).status == Readers(named);
      forall i | 0 <= i < |readers| && i < |entries|
        ensures StateMeans(raw.report.data[i], readers[i]) <==> got[i] == named[i]
      {
        StateIsMeant(raw.report.data[i], readers[i]);
      }
      if StatusMeans(raw, Readers(readers)) {
        assert got == named;
      }
    }
  }

  lemma StatusIsMeant(raw: RawStatus, s: Status)
    ensures StatusMeans(raw, s) <==> DecodeStatus(raw) == Ok(Canonical(EvStatus(s)).status)
  {
    match s
    case Inputs(entries) => ReadIsHeld(raw.report, entries, "status entry count");
    case OutputStates(entries) => ReadIsHeld(raw.report, entries, "status entry count");
    case LocalState(_, _) =>
    case Readers(readers) => ReadersAreMeant(raw, readers);
  }

  // --- transparent reader replies --------------------------------------------------------

  predicate ReplyMeans(raw: RawReply, c: TrsReply) {
    match c
    case CardInfo(reader, protocol, csn, protocolData) =>
      && raw.RawCardInfo? && raw.reader == reader
      && (match protocol
          case Contact => raw.protocol == H.TRS_CARD_PROTOCOL_CONTACT
          case Contactless => raw.protocol == H.TRS_CARD_PROTOCOL_CONTACTLESS)
      && Holds(raw.csn, csn) && Holds(raw.protocolData, protocolData)
    case CardPresent(reader, presence) =>
      && raw.RawCardPresent? && raw.reader == reader
      && (match presence
          case UnknownCard => raw.presence == H.TRS_CARD_STATUS_UNKNOWN
          case NotPresent => raw.presence == H.TRS_CARD_NOT_PRESENT
          case Present => raw.presence == H.TRS_CARD_PRESENT
          case PresentContactless => raw.presence == H.TRS_CARD_PRESENT_CONTACTLESS
          case PresentContact => raw.presence == H.TRS_CARD_PRESENT_CONTACT)
    case CardData(reader, status, apdu) =>
      raw.RawCardData? && raw.reader == reader && raw.status == status && Holds(raw.apdu, apdu)
    case PinComplete(reader, status, tries) =>
      raw.RawPinComplete? && raw.reader == reader && raw.status == status && raw.tries == tries
    case TrsError(code) => raw.RawTrsError? && raw.code == code
  }

  predicate ReplyIdle(raw: RawReply) {
    && (raw.RawCardInfo? ==>
          Clean(raw.csn, H.TRS_CSN_MAX_LEN) && Clean(raw.protocolData, H.TRS_PROTOCOL_DATA_MAX_LEN))
    && (raw.RawCardData? ==> Clean(raw.apdu, H.TRS_APDU_MAX_LEN))
  }

  lemma ReplyIsMeant(raw: RawReply, c: TrsReply)
    ensures ReplyMeans(raw, c) <==> DecodeReply(raw) == Ok(c)
  {
    match c
    case CardInfo(_, _, csn, protocolData) =>
      if raw.RawCardInfo? {
        ReadIsHeld(raw.csn, csn, "card info length");
        ReadIsHeld(raw.protocolData, protocolData, "card info length");
      }
    case CardData(_, _, apdu) => if raw.RawCardData? { ReadIsHeld(raw.apdu, apdu, "APDU length"); }
    case _ =>
  }

  // --- biometrics ---------------------------------------------------------------------------

  predicate ReadReplyMeans(raw: RawReadReply, r: ReadReply) {
    && raw.reader == r.reader && raw.status == r.status.code && raw.kind == r.kind.code
    && raw.quality == r.quality && Holds(raw.template, r.template)
  }

  predicate MatchReplyMeans(raw: RawMatchReply, r: MatchReply) {
    raw.reader == r.reader && raw.status == r.status.code && raw.score == r.score
  }

  lemma ReadReplyIsMeant(raw: RawReadReply, r: ReadReply)
    ensures ReadReplyMeans(raw, r) <==> DecodeReadReply(raw) == Ok(NamedReadReply(r))
  {
    ReadIsHeld(raw.template, r.template, "biometric template length");
    NamedCodes(raw.status);
    NamedCodes(raw.kind);
  }

  // --- all events -------------------------------------------------------------------------------

  predicate EventMeans(raw: RawEvent, e: Event) {
    match e
    case EvCardRead(card) => raw.TypeCardRead? && CardMeans(raw.card, card)
    case EvKeyPress(keys) =>
      raw.TypeKeyPress? && raw.keys.reader == keys.reader && Holds(raw.keys.keys, keys.data)
    case EvMfgReply(mfg) => raw.TypeMfgRep? && MfgMeans(raw.mfg, mfg)
    case EvMfgStatus(data) => raw.TypeMfgStatR? && Holds(raw.buffer, data)
    case EvMfgError(data) => raw.TypeMfgErrR? && Holds(raw.buffer, data)
    case EvPivData(data) => raw.TypePivDataR? && Holds(raw.buffer, data)
    case EvGenAuth(data) => raw.TypeGenAuthR? && Holds(raw.buffer, data)
    case EvCrAuth(data) => raw.TypeCrAuthR? && Holds(raw.buffer, data)
    case EvTrs(reply) => raw.TypeTrs? && ReplyMeans(raw.reply, reply)
    case EvStatus(status) => raw.TypeStatus? && StatusMeans(raw.status, status)
    case EvBioRead(bio) => raw.TypeBioReadR? && ReadReplyMeans(raw.bioRead, bio)
    case EvBioMatch(bio) => raw.TypeBioMatchR? && MatchReplyMeans(raw.bioMatch, bio)
  }

  /** What the event leaves open is zero, and buffers have the C library's sizes. */
  predicate EventIdle(raw: RawEvent, e: Event)
    requires EventMeans(raw, e)
  {
    match e
    case EvCardRead(card) => CardIdle(raw.card, card)
    case EvKeyPress(_) => Clean(raw.keys.keys, H.EVENT_KEYPRESS_MAX_DATALEN)
    case EvMfgReply(_) => raw.mfg.vendor / 0x100_0000 == 0 && Clean(raw.mfg.payload, H.EVENT_MFGREP_MAX_DATALEN)
    case EvMfgStatus(_) => Clean(raw.buffer, H.EVENT_MFGREP_MAX_DATALEN)
    case EvMfgError(_) => Clean(raw.buffer, H.EVENT_MFGREP_MAX_DATALEN)
    case EvPivData(_) => Clean(raw.buffer, H.PIV_DATA_MAX_LEN)
    case EvGenAuth(_) => Clean(raw.buffer, H.PIV_DATA_MAX_LEN)
    case EvCrAuth(_) => Clean(raw.buffer, H.PIV_DATA_MAX_LEN)
    case EvTrs(_) => ReplyIdle(raw.reply)
    case EvStatus(status) => StatusIdle(raw.status, status)
    case EvBioRead(_) => Clean(raw.bioRead.template, H.EVENT_BIOREADR_MAX_TEMPLATE_LEN)
    case EvBioMatch(_) => true
  }

  /** Decoding understands exactly what is meant: a raw event decodes to an event, in
      its canonical form, if and only if it means it. */
  lemma DecodingIsMeaning(raw: RawEvent, e: Event)
    ensures EventMeans(raw, e) <==> DecodeEvent(raw) == Ok(Canonical(e))
  {
    match e
    case EvCardRead(card) => if raw.TypeCardRead? { CardIsMeant(raw.card, card); }
    case EvStatus(status) => if raw.TypeStatus? { StatusIsMeant(raw.status, status); }
    case EvTrs(reply) => if raw.TypeTrs? { ReplyIsMeant(raw.reply, reply); }
    case EvBioRead(bio) => if raw.TypeBioReadR? { ReadReplyIsMeant(raw.bioRead, bio); }
    case EvBioMatch(bio) => if raw.TypeBioMatchR? { NamedCodes(raw.bioMatch.status); }
    case EvKeyPress(keys) => if raw.TypeKeyPress? { ReadIsHeld(raw.keys.keys, keys.data, "key press length"); }
    case EvMfgReply(mfg) =>
      if raw.TypeMfgRep? {
        VendorIsMeant(raw.mfg.vendor, mfg.vendor);
        ReadIsHeld(raw.mfg.payload, mfg.data, "manufacturer reply length");
      }
    case _ => DecodingBytes(raw, e);
  }

  lemma DecodingBytes(raw: RawEvent, e: Event)
    requires IsBytes(e)
    ensures EventMeans(raw, e) <==> DecodeEvent(raw) == Ok(Canonical(e))
  {
    match raw
    case TypeMfgStatR(buffer) => ReadIsHeld(buffer, e.data, "manufacturer status length");
    case TypeMfgErrR(buffer) => ReadIsHeld(buffer, e.data, "manufacturer status length");
    case TypePivDataR(buffer) => ReadIsHeld(buffer, e.data, "PIV reply length");
    case TypeGenAuthR(buffer) => ReadIsHeld(buffer, e.data, "PIV reply length");
    case TypeCrAuthR(buffer) => ReadIsHeld(buffer, e.data, "PIV reply length");
    case _ =>
  }

  /** What is encoded means the event, and nothing besides. */
  lemma EncodingIsMeaning(e: Event)
    ensures EncodeEvent(e).Ok? <==> Sendable(e)
    ensures EncodeEvent(e).Ok? ==> EventMeans(EncodeEvent(e).value, e) && EventIdle(EncodeEvent(e).value, e)
  {
    EventThroughRaw(e);
    if EncodeEvent(e).Ok? {
      DecodingIsMeaning(EncodeEvent(e).value, e);
      NothingBesides(e);
    }
  }

  lemma NothingBesides(e: Event)
    requires EncodeEvent(e).Ok? && EventMeans(EncodeEvent(e).value, e)
    ensures EventIdle(EncodeEvent(e).value, e)
  {
    match e
    case EvCardRead(card) =>
      var raw := EncodeCard(card).value;
      assert raw.data[..|card.data|] == card.data;
    case EvKeyPress(keys) => FillIsClean(keys.data, KEYS_MAX, 0x8000_0000);
    case EvMfgReply(mfg) =>
      FillIsClean(mfg.data, MFGREP_MAX, 0x100);
      VendorIsMeant(0, mfg.vendor);
    case EvTrs(reply) => ReplyBesides(reply);
    case EvStatus(status) => FillIsClean(Entries(status), ENTRIES_MAX, 0x8000_0000);
    case EvBioRead(bio) => FillIsClean(bio.template, READ_MAX, 0x1_0000);
    case EvBioMatch(_) =>
    case _ =>
      FillIsClean(e.data, MFGREP_MAX, 0x100);
      FillIsClean(e.data, PIV_MAX, 0x1_0000);
  }

  lemma ReplyBesides(c: TrsReply)
    ensures EncodeReply(c).Ok? ==> ReplyIdle(EncodeReply(c).value)
  {
    match c
    case CardInfo(_, _, csn, protocolData) =>
      FillIsClean(csn, CSN_MAX, 0x100);
      FillIsClean(protocolData, PROTOCOL_MAX, 0x100);
    case CardData(_, _, apdu) => FillIsClean(apdu, APDU_MAX, 0x1_0000);
    case _ =>
  }
}
