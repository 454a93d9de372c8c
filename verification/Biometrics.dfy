/** Biometric commands and events, the raw structures they become, and the way
    back. */
module Biometrics {
  import opened Wrappers
  import opened Raw

  const MATCH_MAX := 128
  const READ_MAX := 256

  /** An OSDP code of one byte: by its name if it has one, else as it is. */
  datatype Byte = Named(code: u8) | Other(code: u8)

  predicate TypeNamed(code: u8) { code < 18 }

  predicate FormatNamed(code: u8) { code < 3 }

  predicate StatusNamed(code: u8) { code == 0 || code == 1 || code == 255 }

  type BioType = b: Byte | b.Named? ==> TypeNamed(b.code) witness Named(0)
  type BioFormat = b: Byte | b.Named? ==> FormatNamed(b.code) witness Named(0)
  type BioStatus = b: Byte | b.Named? ==> StatusNamed(b.code) witness Named(0)

  function TypeFrom(code: u8): BioType {
    if TypeNamed(code) then Named(code) else Other(code)
  }

  function FormatFrom(code: u8): BioFormat {
    if FormatNamed(code) then Named(code) else Other(code)
  }

  function StatusFrom(code: u8): BioStatus {
    if StatusNamed(code) then Named(code) else Other(code)
  }

  // --- commands -------------------------------------------------------------------

  datatype BioRead = BioRead(reader: u8, kind: BioType, format: BioFormat, quality: u8)

  datatype RawBioRead = RawBioRead(reader: u8, kind: u8, format: u8, quality: u8)

  function EncodeRead(c: BioRead): RawBioRead {
    RawBioRead(c.reader, c.kind.code, c.format.code, c.quality)
  }

  function DecodeRead(raw: RawBioRead): BioRead {
    BioRead(raw.reader, TypeFrom(raw.kind), FormatFrom(raw.format), raw.quality)
  }

  datatype BioMatch = BioMatch(reader: u8, kind: BioType, format: BioFormat, threshold: u8, template: seq<byte>)

  datatype RawBioMatch = RawBioMatch(reader: u8, kind: u8, format: u8, quality: u8, template: Buffer)

  function EncodeMatch(c: BioMatch): Result<RawBioMatch, Error> {
    var template :- Fill(c.template, MATCH_MAX, 0x1_0000);
    Ok(RawBioMatch(c.reader, c.kind.code, c.format.code, c.threshold, template))
  }

  function DecodeMatch(raw: RawBioMatch): Result<BioMatch, Error> {
    var template :- Read(raw.template, "biometric template length");
    Ok(BioMatch(raw.reader, TypeFrom(raw.kind), FormatFrom(raw.format), raw.quality, template))
  }

  // --- replies ----------------------------------------------------------------------

  datatype ReadReply = ReadReply(reader: u8, status: BioStatus, kind: BioType, quality: u8, template: seq<byte>)

  datatype RawReadReply = RawReadReply(reader: u8, status: u8, kind: u8, quality: u8, template: Buffer)

  function EncodeReadReply(r: ReadReply): Result<RawReadReply, Error> {
    var template :- Fill(r.template, READ_MAX, 0x1_0000);
    Ok(RawReadReply(r.reader, r.status.code, r.kind.code, r.quality, template))
  }

  function DecodeReadReply(raw: RawReadReply): Result<ReadReply, Error> {
    var template :- Read(raw.template, "biometric template length");
    Ok(ReadReply(raw.reader, StatusFrom(raw.status), TypeFrom(raw.kind), raw.quality, template))
  }

  datatype MatchReply = MatchReply(reader: u8, status: BioStatus, score: u8)

  datatype RawMatchReply = RawMatchReply(reader: u8, status: u8, score: u8)

  function EncodeMatchReply(r: MatchReply): RawMatchReply {
    RawMatchReply(r.reader, r.status.code, r.score)
  }

  function DecodeMatchReply(raw: RawMatchReply): MatchReply {
    MatchReply(raw.reader, StatusFrom(raw.status), raw.score)
  }

  // --- laws --------------------------------------------------------------------------

  /** The same values, those that have a name by that name. */
  function NamedRead(c: BioRead): BioRead {
    c.(kind := TypeFrom(c.kind.code), format := FormatFrom(c.format.code))
  }

  function NamedMatch(c: BioMatch): BioMatch {
    c.(kind := TypeFrom(c.kind.code), format := FormatFrom(c.format.code))
  }

  function NamedReadReply(r: ReadReply): ReadReply {
    r.(status := StatusFrom(r.status.code), kind := TypeFrom(r.kind.code))
  }

  function NamedMatchReply(r: MatchReply): MatchReply {
    r.(status := StatusFrom(r.status.code))
  }

  lemma MatchThroughRaw(c: BioMatch)
    ensures var r := EncodeMatch(c);
            (r.Ok? <==> |c.template| <= MATCH_MAX) && (r.Ok? ==> DecodeMatch(r.value) == Ok(NamedMatch(c)))
  {
    FillThenRead(c.template, MATCH_MAX, 0x1_0000, "biometric template length");
  }

  lemma ReadReplyThroughRaw(r: ReadReply)
    ensures var raw := EncodeReadReply(r);
            && (raw.Ok? <==> |r.template| <= READ_MAX)
            && (raw.Ok? ==> DecodeReadReply(raw.value) == Ok(NamedReadReply(r)))
  {
    FillThenRead(r.template, READ_MAX, 0x1_0000, "biometric template length");
  }
}
