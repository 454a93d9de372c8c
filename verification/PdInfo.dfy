/** A PD's id and capabilities, as they are handed to the C library and taken
    back. */
module PdInfo {
  import opened Wrappers
  import opened Raw
  import H = Header

  // --- id -------------------------------------------------------------------------

  datatype PdId = PdId(
    version: u8, model: u8, vendor: (byte, byte, byte), serial: (byte, byte, byte, byte),
    firmware: (byte, byte, byte))

  datatype RawPdId = RawPdId(version: i32, model: i32, vendor: bv32, serial: bv32, firmware: bv32)

  function EncodeId(id: PdId): RawPdId {
    RawPdId(id.version, id.model, Word24(id.vendor), AsLe(id.serial), Word24(id.firmware))
  }

  function OrZero(n: i32): u8 {
    if 0 <= n < 0x100 then n else 0
  }

  function DecodeId(raw: RawPdId): PdId {
    PdId(OrZero(raw.version), OrZero(raw.model), Bytes24(raw.vendor), ToLeBytes(raw.serial),
         Bytes24(raw.firmware))
  }

  lemma IdThroughRaw(id: PdId)
    ensures DecodeId(EncodeId(id)) == id
  {
    BytesThroughWord24(id.vendor);
    BytesThroughWord24(id.firmware);
    BytesThroughWord(id.serial);
  }

  /** Byte by byte, the number is the word's, lowest first. */
  predicate SameBytes(w: bv32, b: (byte, byte, byte, byte)) {
    && w % 0x100 == b.0 as bv32 && w / 0x100 % 0x100 == b.1 as bv32
    && w / 0x1_0000 % 0x100 == b.2 as bv32 && w / 0x100_0000 == b.3 as bv32
  }

  lemma BytesByPlace(w: bv32)
    ensures SameBytes(w, ToLeBytes(w))
  {
  }

  lemma WordsAreLittleEndian(b: (byte, byte, byte, byte))
    ensures SameBytes(AsLe(b), b)
  {
    BytesThroughWord(b);
    BytesByPlace(AsLe(b));
  }

  /** The fields of LibOSDP's form are those of the id, in order. */
  lemma IdMeans(id: PdId)
    ensures var raw := EncodeId(id);
            && raw.version == id.version && raw.model == id.model
            && SameBytes(raw.vendor, (id.vendor.0, id.vendor.1, id.vendor.2, 0))
            && SameBytes(raw.serial, id.serial)
            && SameBytes(raw.firmware, (id.firmware.0, id.firmware.1, id.firmware.2, 0))
  {
    WordsAreLittleEndian(id.serial);
    WordsAreLittleEndian((id.vendor.0, id.vendor.1, id.vendor.2, 0));
    WordsAreLittleEndian((id.firmware.0, id.firmware.1, id.firmware.2, 0));
  }

  /** An id of the C library survives exactly if its parts fit the bytes OSDP has
      for them. */
  lemma RawThroughId(raw: RawPdId)
    ensures EncodeId(DecodeId(raw)) == raw <==>
            0 <= raw.version < 0x100 && 0 <= raw.model < 0x100
            && ToLeBytes(raw.vendor).3 == 0 && ToLeBytes(raw.firmware).3 == 0
  {
    WordThroughBytes24(raw.vendor);
    WordThroughBytes24(raw.firmware);
    WordThroughBytes(raw.serial);
  }

  // --- capabilities -----------------------------------------------------------------

  const FIRST_FUNCTION := 1
  const LAST_FUNCTION := 16
  const SENTINEL := 17

  /** The functions OSDP defines, by their codes. */
  type CapFunction = n: nat | FIRST_FUNCTION <= n <= LAST_FUNCTION witness FIRST_FUNCTION

  datatype Capability = Capability(function_: CapFunction, compliance: u8, items: u8)

  datatype RawCap = RawCap(code: nat, compliance: u8, items: u8)

  const END := RawCap(SENTINEL, 0, 0)

  function EncodeCap(c: Capability): RawCap {
    RawCap(c.function_, c.compliance, c.items)
  }

  function DecodeCap(raw: RawCap): Option<Capability> {
    if FIRST_FUNCTION <= raw.code <= LAST_FUNCTION then Some(Capability(raw.code, raw.compliance, raw.items)) else None
  }

  /** A raw capability is defined exactly if its code is one of the header's functions,
      and is then that function, with its compliance and count. */
  lemma CapMeans(raw: RawCap, c: Capability)
    ensures DecodeCap(raw).Some? <==> H.PD_CAP_UNUSED < raw.code < H.PD_CAP_SENTINEL
    ensures DecodeCap(raw) == Some(c) <==>
            raw.code == c.function_ && raw.compliance == c.compliance && raw.items == c.items
    ensures END.code == H.PD_CAP_SENTINEL && END.compliance == 0 && END.items == 0
  {
  }

  function EncodeCaps(caps: seq<Capability>): seq<RawCap> {
    seq(|caps|, i requires 0 <= i < |caps| => EncodeCap(caps[i]))
  }

  function TerminatedCapabilities(caps: seq<RawCap>): seq<RawCap> {
    caps + [END]
  }

  /** How far a walk from `i` gets before it meets the sentinel. */
  function Walk(caps: seq<RawCap>, i: nat): nat
    requires i <= |caps|
    decreases |caps| - i
  {
    if i == |caps| || caps[i].code == SENTINEL then i else Walk(caps, i + 1)
  }

  /** The walk stops at the entry that was appended exactly if no capability has
      the sentinel's code. */
  lemma {:induction false} WalkEndsAtSentinel(caps: seq<RawCap>, i: nat)
    requires i <= |caps|
    ensures Walk(TerminatedCapabilities(caps), i) == |caps| <==>
            forall k :: i <= k < |caps| ==> caps[k].code != SENTINEL
    ensures i <= Walk(TerminatedCapabilities(caps), i) <= |caps|
    decreases |caps| - i
  {
    if i < |caps| && caps[i].code != SENTINEL {
      WalkEndsAtSentinel(caps, i + 1);
    }
  }

  /** The capabilities that OSDP defines, in order. */
  function Defined(raw: seq<RawCap>): seq<Capability> {
    if raw == [] then []
    else
      var rest := Defined(raw[..|raw| - 1]);
      match DecodeCap(raw[|raw| - 1])
      case None => rest
      case Some(c) => rest + [c]
  }

  lemma {:induction false} CapabilitiesComeBack(caps: seq<Capability>)
    ensures Defined(EncodeCaps(caps)) == caps
  {
    if caps != [] {
      var n := |caps| - 1;
      assert EncodeCaps(caps)[..n] == EncodeCaps(caps[..n]);
      CapabilitiesComeBack(caps[..n]);
      assert caps == caps[..n] + [caps[n]];
    }
  }

  class Builder {
    var cap: seq<RawCap>

    ghost predicate Valid()
      reads this
    {
      forall i :: 0 <= i < |cap| ==> FIRST_FUNCTION <= cap[i].code <= LAST_FUNCTION
    }

    constructor ()
      ensures Valid() && cap == []
    {
      cap := [];
    }

    method Add(c: Capability)
      requires Valid()
      modifies this
      ensures Valid() && cap == old(cap) + [EncodeCap(c)]
      ensures var added := cap[|cap| - 1];
              added.code == c.function_ && added.compliance == c.compliance && added.items == c.items
    {
      cap := cap + [EncodeCap(c)];
    }

    method AddAll(caps: seq<Capability>)
      requires Valid()
      modifies this
      ensures Valid() && cap == old(cap) + EncodeCaps(caps)
    {
      for i := 0 to |caps|
        invariant Valid() && cap == old(cap) + EncodeCaps(caps)[..i]
      {
        Add(caps[i]);
      }
    }

    /** The capabilities of the built PD information. */
    method Capabilities() returns (caps: seq<Capability>)
      ensures caps == Defined(cap)
    {
      caps := [];
      for i := 0 to |cap|
        invariant caps == Defined(cap[..i])
      {
        var decoded := DecodeCap(cap[i]);
        assert cap[..i + 1][..i] == cap[..i];
        if decoded.Some? {
          caps := caps + [decoded.value];
        }
      }
      assert cap[..|cap|] == cap;
    }
  }

  /** The array the C library reads; none for a PD without capabilities. */
  class Handle {
    const cap: array?<RawCap>

    ghost predicate Valid()
      reads this, cap
    {
      cap != null ==>
        cap.Length > 0 && cap[cap.Length - 1] == END
        && forall i :: 0 <= i < cap.Length - 1 ==> cap[i].code != SENTINEL
    }

    constructor (info: Builder)
      requires info.Valid()
      ensures Valid() && (cap != null ==> fresh(cap))
      ensures if info.cap == [] then cap == null else cap != null && cap[..] == TerminatedCapabilities(info.cap)
    {
      if info.cap == [] {
        cap := null;
      } else {
        var list := TerminatedCapabilities(info.cap);
        cap := new RawCap[|list|](i requires 0 <= i < |list| => list[i]);
      }
    }

    /** The length the destructor frees, found by walking to the sentinel. */
    method Drop() returns (freed: nat)
      requires Valid()
      ensures cap != null ==> freed == cap.Length && freed == Walk(cap[..], 0) + 1
      ensures cap == null ==> freed == 0
    {
      freed := 0;
      if cap != null {
        var i := 0;
        while cap[i].code != SENTINEL
          invariant 0 <= i < cap.Length
          invariant Walk(cap[..], i) == Walk(cap[..], 0)
          decreases cap.Length - i
        {
          i := i + 1;
        }
        freed := i + 1;
      }
    }
  }
}
