/** Events, the raw structures they become, and the way back. */
module Events {
  import opened Wrappers
  import opened Raw
  import opened Biometrics
  import opened Commands

  const CARD_MAX := 64
  const KEYS_MAX := 64
  const MFGREP_MAX := 128
  const ENTRIES_MAX := 64
  const CSN_MAX := 32
  const PROTOCOL_MAX := 64

  // --- card reads and keys --------------------------------------------------------

  datatype CardFormat = Unspecified | Wiegand

  datatype CardRead = CardRead(reader: i32, format: CardFormat, reverse: bool, bits: nat, data: seq<byte>)

  datatype RawCard = RawCard(reader: i32, format: u8, direction: i32, length: u16, data: seq<byte>)

  function BytesFor(bits: nat): nat {
    (bits + 7) / 8
  }

  function EncodeCard(c: CardRead): Encoded<RawCard> {
    var data :- CopyInto(c.data, CARD_MAX);
    if c.bits > |c.data| * 8 then Err(InvalidArgument("more card bits than data"))
    else
      Ok(RawCard(c.reader, if c.format.Unspecified? then 0 else 1, if c.reverse then 1 else 0,
                 c.bits % 0x1_0000, data))
  }

  function DecodeCard(raw: RawCard): Encoded<CardRead> {
    var format :-
      match raw.format
      case 0 => Ok(Unspecified)
      case 1 => Ok(Wiegand)
      case _ => Err(Malformed("card format"));
    if BytesFor(raw.length) > |raw.data| then Err(Malformed("card data length"))
    else Ok(CardRead(raw.reader, format, raw.direction == 1, raw.length, raw.data[..BytesFor(raw.length)]))
  }

  datatype KeyPress = KeyPress(reader: i32, data: seq<byte>)

  datatype RawKeyPress = RawKeyPress(reader: i32, keys: Buffer)

  function EncodeKeys(c: KeyPress): Encoded<RawKeyPress> {
    var keys :- Fill(c.data, KEYS_MAX, 0x8000_0000);
    Ok(RawKeyPress(c.reader, keys))
  }

  function DecodeKeys(raw: RawKeyPress): Encoded<KeyPress> {
    var data :- Read(raw.keys, "key press length");
    Ok(KeyPress(raw.reader, data))
  }

  // --- manufacturer replies and smart card answers ----------------------------------

  function EncodeMfgReply(c: Mfg): Encoded<RawMfg> {
    var payload :- Fill(c.data, MFGREP_MAX, 0x100);
    Ok(RawMfg(Word24(c.vendor), payload))
  }

  function DecodeMfgReply(raw: RawMfg): Encoded<Mfg> {
    var data :- Read(raw.payload, "manufacturer reply length");
    Ok(Mfg(Bytes24(raw.vendor), data))
  }

  // --- status -----------------------------------------------------------------------

  datatype ReaderStatus = Normal | NotConnected | Tamper | UnknownState(code: byte)

  function ReaderFrom(code: byte): ReaderStatus {
    if code == 0 then Normal
    else if code == 1 then NotConnected
    else if code == 2 then Tamper
    else UnknownState(code)
  }

  function ReaderCode(s: ReaderStatus): byte {
    match s
    case Normal => 0
    case NotConnected => 1
    case Tamper => 2
    case UnknownState(code) => code
  }

  datatype Status =
    | Inputs(entries: seq<byte>) | OutputStates(entries: seq<byte>)
    | LocalState(tamper: bool, power: bool) | Readers(readers: seq<ReaderStatus>)

  datatype RawStatus = RawStatus(kind: u8, report: Buffer)

  function KindOf(s: Status): StatusKind {
    match s
    case Inputs(_) => Input
    case OutputStates(_) => Outputs
    case LocalState(_, _) => Local
    case Readers(_) => Reader
  }

  function Flag(b: bool): byte {
    if b then 1 else 0
  }

  function Entries(s: Status): seq<byte> {
    match s
    case Inputs(entries) => entries
    case OutputStates(entries) => entries
    case LocalState(tamper, power) => [Flag(tamper), Flag(power)]
    case Readers(readers) => seq(|readers|, i requires 0 <= i < |readers| => ReaderCode(readers[i]))
  }

  function EncodeStatus(s: Status): Encoded<RawStatus> {
    var report :- Fill(Entries(s), ENTRIES_MAX, 0x8000_0000);
    Ok(RawStatus(KindCode(KindOf(s)), report))
  }

  function DecodeStatus(raw: RawStatus): Encoded<Status> {
    var entries :- Read(raw.report, "status entry count");
    var kind :- KindFrom(raw.kind);
    match kind
    case Input => Ok(Inputs(entries))
    case Outputs => Ok(OutputStates(entries))
    case Local =>
      if |entries| == 2 then Ok(LocalState(entries[0] != 0, entries[1] != 0))
      else Err(Malformed("status entry count"))
    case Reader => Ok(Readers(seq(|entries|, i requires 0 <= i < |entries| => ReaderFrom(entries[i]))))
  }

  // --- transparent reader replies -------------------------------------------------------

  datatype Protocol = Contact | Contactless

  datatype CardStatus = UnknownCard | NotPresent | Present | PresentContactless | PresentContact

  datatype TrsReply =
    | CardInfo(reader: u8, protocol: Protocol, csn: seq<byte>, protocolData: seq<byte>)
    | CardPresent(reader: u8, presence: CardStatus)
    | CardData(reader: u8, status: u8, apdu: seq<byte>)
    | PinComplete(reader: u8, status: u8, tries: u8)
    | TrsError(code: u8)

  /** The constructor is the reply code that selects the union. */
  datatype RawReply =
    | RawCardInfo(reader: u8, protocol: u8, csn: Buffer, protocolData: Buffer)
    | RawCardPresent(reader: u8, presence: u8)
    | RawCardData(reader: u8, status: u8, apdu: Buffer)
    | RawPinComplete(reader: u8, status: u8, tries: u8)
    | RawTrsError(code: u8)
    | RawReplyUnknown

  function EncodeReply(c: TrsReply): Encoded<RawReply> {
    match c
    case CardInfo(reader, protocol, csn, protocolData) =>
      var rawCsn :- Fill(csn, CSN_MAX, 0x100);
      var rawData :- Fill(protocolData, PROTOCOL_MAX, 0x100);
      Ok(RawCardInfo(reader, if protocol.Contact? then 1 else 2, rawCsn, rawData))
    case CardPresent(reader, presence) =>
      Ok(RawCardPresent(reader,
        match presence
        case UnknownCard => 0
        case NotPresent => 1
        case Present => 2
        case PresentContactless => 3
        case PresentContact => 4))
    case CardData(reader, status, apdu) =>
      var raw :- Fill(apdu, APDU_MAX, 0x1_0000);
      Ok(RawCardData(reader, status, raw))
    case PinComplete(reader, status, tries) => Ok(RawPinComplete(reader, status, tries))
    case TrsError(code) => Ok(RawTrsError(code))
  }

  function DecodeReply(raw: RawReply): Encoded<TrsReply> {
    match raw
    case RawCardInfo(reader, protocol, csn, protocolData) =>
      var protocol :-
        match protocol
        case 1 => Ok(Contact)
        case 2 => Ok(Contactless)
        case _ => Err(Malformed("card protocol"));
      var csn :- Read(csn, "card info length");
      var data :- Read(protocolData, "card info length");
      Ok(CardInfo(reader, protocol, csn, data))
    case RawCardPresent(reader, presence) =>
      var presence :-
        match presence
        case 0 => Ok(UnknownCard)
        case 1 => Ok(NotPresent)
        case 2 => Ok(Present)
        case 3 => Ok(PresentContactless)
        case 4 => Ok(PresentContact)
        case _ => Err(Malformed("card status"));
      Ok(CardPresent(reader, presence))
    case RawCardData(reader, status, apdu) =>
      var data :- Read(apdu, "APDU length");
      Ok(CardData(reader, status, data))
    case RawPinComplete(reader, status, tries) => Ok(PinComplete(reader, status, tries))
    case RawTrsError(code) => Ok(TrsError(code))
    case RawReplyUnknown => Err(Malformed("TRS reply"))
  }

  // --- events ---------------------------------------------------------------------------

  datatype Event =
    | EvCardRead(card: CardRead) | EvKeyPress(keys: KeyPress) | EvMfgReply(mfg: Mfg)
    | EvMfgStatus(data: seq<byte>) | EvMfgError(data: seq<byte>)
    | EvPivData(data: seq<byte>) | EvGenAuth(data: seq<byte>) | EvCrAuth(data: seq<byte>)
    | EvTrs(reply: TrsReply) | EvStatus(status: Status)
    | EvBioRead(bioRead: ReadReply) | EvBioMatch(bioMatch: MatchReply)

  /** The constructor is the type that selects the union. */
  datatype RawEvent =
    | TypeCardRead(card: RawCard) | TypeKeyPress(keys: RawKeyPress) | TypeMfgRep(mfg: RawMfg)
    | TypeMfgStatR(buffer: Buffer) | TypeMfgErrR(buffer: Buffer)
    | TypePivDataR(buffer: Buffer) | TypeGenAuthR(buffer: Buffer) | TypeCrAuthR(buffer: Buffer)
    | TypeTrs(reply: RawReply) | TypeStatus(status: RawStatus)
    | TypeBioReadR(bioRead: RawReadReply) | TypeBioMatchR(bioMatch: RawMatchReply) | TypeUnknown(code: u32)

  function EncodeEvent(e: Event): Encoded<RawEvent> {
    match e
    case EvCardRead(card) => var raw :- EncodeCard(card); Ok(TypeCardRead(raw))
    case EvKeyPress(keys) => var raw :- EncodeKeys(keys); Ok(TypeKeyPress(raw))
    case EvMfgReply(mfg) => var raw :- EncodeMfgReply(mfg); Ok(TypeMfgRep(raw))
    case EvMfgStatus(data) => var raw :- Fill(data, MFGREP_MAX, 0x100); Ok(TypeMfgStatR(raw))
    case EvMfgError(data) => var raw :- Fill(data, MFGREP_MAX, 0x100); Ok(TypeMfgErrR(raw))
    case EvPivData(data) => var raw :- ToPayload(data, "PIV reply is empty"); Ok(TypePivDataR(raw))
    case EvGenAuth(data) => var raw :- ToPayload(data, "PIV reply is empty"); Ok(TypeGenAuthR(raw))
    case EvCrAuth(data) => var raw :- ToPayload(data, "PIV reply is empty"); Ok(TypeCrAuthR(raw))
    case EvTrs(reply) => var raw :- EncodeReply(reply); Ok(TypeTrs(raw))
    case EvStatus(status) => var raw :- EncodeStatus(status); Ok(TypeStatus(raw))
    case EvBioRead(bio) => var raw :- EncodeReadReply(bio); Ok(TypeBioReadR(raw))
    case EvBioMatch(bio) => Ok(TypeBioMatchR(EncodeMatchReply(bio)))
  }

  function DecodeEvent(raw: RawEvent): Encoded<Event> {
    match raw
    case TypeCardRead(card) => var e :- DecodeCard(card); Ok(EvCardRead(e))
    case TypeKeyPress(keys) => var e :- DecodeKeys(keys); Ok(EvKeyPress(e))
    case TypeMfgRep(mfg) => var e :- DecodeMfgReply(mfg); Ok(EvMfgReply(e))
    case TypeMfgStatR(buffer) => var e :- Read(buffer, "manufacturer status length"); Ok(EvMfgStatus(e))
    case TypeMfgErrR(buffer) => var e :- Read(buffer, "manufacturer status length"); Ok(EvMfgError(e))
    case TypePivDataR(buffer) => var e :- Read(buffer, "PIV reply length"); Ok(EvPivData(e))
    case TypeGenAuthR(buffer) => var e :- Read(buffer, "PIV reply length"); Ok(EvGenAuth(e))
    case TypeCrAuthR(buffer) => var e :- Read(buffer, "PIV reply length"); Ok(EvCrAuth(e))
    case TypeTrs(reply) => var e :- DecodeReply(reply); Ok(EvTrs(e))
    case TypeStatus(status) => var e :- DecodeStatus(status); Ok(EvStatus(e))
    case TypeBioReadR(bio) => var e :- DecodeReadReply(bio); Ok(EvBioRead(e))
    case TypeBioMatchR(bio) => Ok(EvBioMatch(DecodeMatchReply(bio)))
    case TypeUnknown(_) => Err(Malformed("event type"))
  }
}
