/** Encoding an event and decoding it give it back, with card data cut to its
    bits and defined reader states named; and which events can be encoded. */
module EventLaws {
  import opened Wrappers
  import opened Raw
  import opened Biometrics
  import opened Commands
  import opened Events

  function NamedState(s: ReaderStatus): ReaderStatus {
    if s.UnknownState? && s.code < 3 then ReaderFrom(s.code) else s
  }

  function Canonical(e: Event): Event {
    if e.EvCardRead? && BytesFor(e.card.bits) <= |e.card.data|
    then EvCardRead(e.card.(data := e.card.data[..BytesFor(e.card.bits)]))
    else if e.EvStatus? && e.status.Readers?
    then
      var readers := e.status.readers;
      EvStatus(Readers(seq(|readers|, i requires 0 <= i < |readers| => NamedState(readers[i]))))
    else if e.EvBioRead? then EvBioRead(NamedReadReply(e.bioRead))
    else if e.EvBioMatch? then EvBioMatch(NamedMatchReply(e.bioMatch))
    else e
  }

  predicate SendableReply(r: TrsReply) {
    && (r.CardInfo? ==> |r.csn| <= CSN_MAX && |r.protocolData| <= PROTOCOL_MAX)
    && (r.CardData? ==> |r.apdu| <= APDU_MAX)
  }

  /** Its data fits, a card read has no more bits than data, and a smart card
      answer is not empty. */
  predicate Sendable(e: Event) {
    match e
    case EvCardRead(card) => |card.data| <= CARD_MAX && card.bits <= |card.data| * 8
    case EvKeyPress(keys) => |keys.data| <= KEYS_MAX
    case EvMfgReply(mfg) => |mfg.data| <= MFGREP_MAX
    case EvMfgStatus(data) => |data| <= MFGREP_MAX
    case EvMfgError(data) => |data| <= MFGREP_MAX
    case EvPivData(data) => 1 <= |data| <= PIV_MAX
    case EvGenAuth(data) => 1 <= |data| <= PIV_MAX
    case EvCrAuth(data) => 1 <= |data| <= PIV_MAX
    case EvTrs(reply) => SendableReply(reply)
    case EvStatus(status) => |Entries(status)| <= ENTRIES_MAX
    case EvBioRead(bio) => |bio.template| <= READ_MAX
    case EvBioMatch(_) => true
  }

  // --- there and back ---------------------------------------------------------------

  lemma CardThroughRaw(c: CardRead)
    ensures var r := EncodeCard(c);
            && (r.Ok? <==> Sendable(EvCardRead(c)))
            && (r.Ok? ==> DecodeCard(r.value) == Ok(Canonical(EvCardRead(c)).card))
  {
    var r := EncodeCard(c);
    if r.Ok? {
      var n := BytesFor(c.bits);
      assert r.value.data[..n] == r.value.data[..|c.data|][..n];
    }
  }

  lemma StatusThroughRaw(s: Status)
    ensures var r := EncodeStatus(s);
            && (r.Ok? <==> |Entries(s)| <= ENTRIES_MAX)
            && (r.Ok? ==> DecodeStatus(r.value) == Ok(Canonical(EvStatus(s)).status))
  {
    FillThenRead(Entries(s), ENTRIES_MAX, 0x8000_0000, "status entry count");
    if EncodeStatus(s).Ok? && s.Readers? {
      var entries := Entries(s);
      assert DecodeStatus(EncodeStatus(s).value).value.readers
          == seq(|entries|, i requires 0 <= i < |entries| => ReaderFrom(entries[i]))
          == Canonical(EvStatus(s)).status.readers;
    }
  }

  lemma ReplyThroughRaw(r: TrsReply)
    ensures var raw := EncodeReply(r);
            (raw.Ok? <==> SendableReply(r)) && (raw.Ok? ==> DecodeReply(raw.value) == Ok(r))
  {
    match r
    case CardInfo(reader, protocol, csn, protocolData) =>
      FillThenRead(csn, CSN_MAX, 0x100, "card info length");
      FillThenRead(protocolData, PROTOCOL_MAX, 0x100, "card info length");
    case CardData(reader, status, apdu) => FillThenRead(apdu, APDU_MAX, 0x1_0000, "APDU length");
    case _ =>
  }

  lemma MfgReplyThroughRaw(c: Mfg)
    ensures var r := EncodeMfgReply(c);
            (r.Ok? <==> |c.data| <= MFGREP_MAX) && (r.Ok? ==> DecodeMfgReply(r.value) == Ok(c))
  {
    FillThenRead(c.data, MFGREP_MAX, 0x100, "manufacturer reply length");
    BytesThroughWord24(c.vendor);
  }

  predicate IsBytes(e: Event) {
    e.EvMfgStatus? || e.EvMfgError? || e.EvPivData? || e.EvGenAuth? || e.EvCrAuth?
  }

  lemma BytesEventThroughRaw(e: Event)
    requires IsBytes(e)
    ensures var r := EncodeEvent(e);
            && (r.Ok? <==> Sendable(e))
            && (r.Ok? ==> DecodeEvent(r.value) == Ok(e))
  {
    if e.EvMfgStatus? || e.EvMfgError? {
      FillThenRead(e.data, MFGREP_MAX, 0x100, "manufacturer status length");
    } else {
      FillThenRead(e.data, PIV_MAX, 0x1_0000, "PIV reply length");
    }
  }

  lemma OtherEventThroughRaw(e: Event)
    requires !IsBytes(e)
    ensures var r := EncodeEvent(e);
            && (r.Ok? <==> Sendable(e))
            && (r.Ok? ==> DecodeEvent(r.value) == Ok(Canonical(e)))
  {
    match e
    case EvCardRead(card) => CardThroughRaw(card);
    case EvKeyPress(keys) => FillThenRead(keys.data, KEYS_MAX, 0x8000_0000, "key press length");
    case EvMfgReply(mfg) => MfgReplyThroughRaw(mfg);
    case EvTrs(reply) => ReplyThroughRaw(reply);
    case EvStatus(status) => StatusThroughRaw(status);
    case EvBioRead(bio) => ReadReplyThroughRaw(bio);
    case EvBioMatch(_) =>
  }

  /** An event is encoded exactly if it can be sent, and then decodes to itself,
      with card data cut to its bits and what has a name by that name. */
  lemma EventThroughRaw(e: Event)
    ensures var r := EncodeEvent(e);
            && (r.Ok? <==> Sendable(e))
            && (r.Ok? ==> DecodeEvent(r.value) == Ok(Canonical(e)))
  {
    if IsBytes(e) {
      BytesEventThroughRaw(e);
    } else {
      OtherEventThroughRaw(e);
    }
  }

  // --- back and there ----------------------------------------------------------------

  /** The buffers of a raw event have the sizes the C library gives them. */
  predicate Sized(raw: RawEvent) {
    match raw
    case TypeCardRead(card) => |card.data| == CARD_MAX
    case TypeKeyPress(keys) => |keys.keys.data| == KEYS_MAX
    case TypeMfgRep(mfg) => |mfg.payload.data| == MFGREP_MAX
    case TypeMfgStatR(buffer) => |buffer.data| == MFGREP_MAX
    case TypeMfgErrR(buffer) => |buffer.data| == MFGREP_MAX
    case TypePivDataR(buffer) => |buffer.data| == PIV_MAX
    case TypeGenAuthR(buffer) => |buffer.data| == PIV_MAX
    case TypeCrAuthR(buffer) => |buffer.data| == PIV_MAX
    case TypeTrs(reply) =>
      && (reply.RawCardInfo? ==> |reply.csn.data| == CSN_MAX && |reply.protocolData.data| == PROTOCOL_MAX)
      && (reply.RawCardData? ==> |reply.apdu.data| == APDU_MAX)
    case TypeStatus(status) => |status.report.data| == ENTRIES_MAX
    case TypeBioReadR(bio) => |bio.template.data| == READ_MAX
    case TypeBioMatchR(_) => true
    case TypeUnknown(_) => true
  }

  /** The events that decode but cannot be sent. */
  predicate DecodesOnly(e: Event) {
    (e.EvPivData? || e.EvGenAuth? || e.EvCrAuth?) && e.data == []
  }

  lemma DecodedIsSendable(raw: RawEvent)
    requires Sized(raw) && DecodeEvent(raw).Ok?
    ensures var e := DecodeEvent(raw).value;
            Canonical(e) == e && (Sendable(e) <==> !DecodesOnly(e))
  {
    match raw
    case TypeCardRead(card) => DecodedCardIsSendable(card);
    case TypeStatus(status) => DecodedStatusIsSendable(status);
    case _ =>
  }

  lemma DecodedCardIsSendable(raw: RawCard)
    requires |raw.data| == CARD_MAX && DecodeCard(raw).Ok?
    ensures var e := EvCardRead(DecodeCard(raw).value); Canonical(e) == e && Sendable(e)
  {
    var c := DecodeCard(raw).value;
    assert c.data[..BytesFor(c.bits)] == c.data;
  }

  lemma DecodedStatusIsSendable(raw: RawStatus)
    requires |raw.report.data| == ENTRIES_MAX && DecodeStatus(raw).Ok?
    ensures var e := EvStatus(DecodeStatus(raw).value); Canonical(e) == e && Sendable(e)
  {
    var e := EvStatus(DecodeStatus(raw).value);
    if e.status.Readers? {
      assert Canonical(e).status.readers == e.status.readers;
    }
  }

  /** What was decoded can be encoded again and decodes to the same event, unless
      it is an empty smart card answer, which is refused. */
  lemma DecodedThroughRaw(raw: RawEvent)
    requires Sized(raw) && DecodeEvent(raw).Ok?
    ensures var e := DecodeEvent(raw).value;
            && (EncodeEvent(e).Ok? <==> !DecodesOnly(e))
            && (EncodeEvent(e).Ok? ==> DecodeEvent(EncodeEvent(e).value) == Ok(e))
  {
    DecodedIsSendable(raw);
    EventThroughRaw(DecodeEvent(raw).value);
  }
}
