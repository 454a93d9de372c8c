/** What the raw structures of the C library are made of: counts of a time
    unit, byte buffers with a length, and little-endian words. */
module Raw {
  import opened Wrappers

  type byte = bv8
  type u8 = n: nat | n < 0x100
  type u16 = n: nat | n < 0x1_0000
  type u32 = n: nat | n < 0x1_0000_0000
  type u64 = n: nat | n < U64
  type i32 = n: int | -0x8000_0000 <= n < 0x8000_0000

  const U64 := 0x1_0000_0000_0000_0000
  const NANOS := 1_000_000_000

  datatype Error = InvalidArgument(what: string) | Malformed(what: string) | TooLong(max: nat)

  // --- durations ---------------------------------------------------------------

  datatype Span = Span(secs: u64, nanos: nat)

  /** The subsecond part of a duration is less than a second. */
  type Duration = d: Span | d.nanos < NANOS witness Span(0, 0)

  const ZERO: Duration := Span(0, 0)
  const MILLISECOND: Duration := Span(0, 1_000_000)
  const TENTH: Duration := Span(0, 100_000_000)
  const SECOND: Duration := Span(1, 0)

  /** The length of a duration in nanoseconds, unbounded. */
  function Length(d: Duration): nat {
    d.secs * NANOS + d.nanos
  }

  /** The same in checked 64-bit arithmetic. */
  function Nanos(d: Duration): Option<u64> {
    if d.secs * NANOS >= U64 then None
    else if d.secs * NANOS + d.nanos >= U64 then None
    else Some(d.secs * NANOS + d.nanos)
  }

  /** How many `unit`s `d` is, if that is whole and below `limit`. */
  function ToCount(d: Duration, unit: Duration, limit: nat, what: string): (r: Result<nat, Error>)
    requires unit != ZERO
    ensures r.Ok? ==> r.value < limit
  {
    var nanos, units := Nanos(d), Nanos(unit);
    if nanos.None? || units.None? then Err(InvalidArgument(what))
    else if nanos.value % units.value != 0 then Err(InvalidArgument(what))
    else if nanos.value / units.value < limit then Ok(nanos.value / units.value)
    else Err(InvalidArgument(what))
  }

  lemma Product(count: u16, unit: Duration)
    requires unit.secs <= 1
    ensures unit.secs * count <= count
    ensures 0 <= unit.nanos * count <= NANOS * 0x1_0000
  {
    if unit.secs == 0 {
      assert unit.secs * count == 0;
    }
    assert 0 <= (NANOS - unit.nanos) * count;
    assert unit.nanos * count == NANOS * count - (NANOS - unit.nanos) * count;
  }

  /** `count` times `unit`, seconds and nanoseconds apart. */
  function FromCount(count: u16, unit: Duration): Duration
    requires unit.secs <= 1
  {
    Product(count, unit);
    Carried(unit.secs * count, unit.nanos * count)
  }

  /** Seconds and nanoseconds, carrying. */
  function Carried(secs: nat, nanos: nat): Duration
    requires secs < 0x1_0000 && nanos <= NANOS * 0x1_0000
  {
    Span(secs + nanos / NANOS, nanos % NANOS)
  }

  /** `d` is made up of `unit`s, fewer than `limit` of them. */
  predicate Whole(d: Duration, unit: Duration, limit: nat)
    requires unit != ZERO
  {
    Length(d) % Length(unit) == 0 && Length(d) / Length(unit) < limit
  }

  predicate IsUnit(unit: Duration) {
    unit == MILLISECOND || unit == TENTH || unit == SECOND
  }

  lemma FromCountLength(count: u16, unit: Duration)
    requires IsUnit(unit)
    ensures Length(FromCount(count, unit)) == count * Length(unit)
  {
    Product(count, unit);
    var total := unit.nanos * count;
    assert total == total / NANOS * NANOS + total % NANOS;
  }

  lemma SameLength(a: Duration, b: Duration)
    requires Length(a) == Length(b)
    ensures a == b
  {
  }

  /** A count is produced exactly for the whole durations that fit, and stands
      for that duration: checked 64-bit arithmetic refuses none of them. */
  lemma ToCountIsExact(d: Duration, unit: Duration, limit: nat, what: string)
    requires IsUnit(unit) && limit <= 0x1_0000
    ensures var r := ToCount(d, unit, limit, what);
            && (r.Ok? <==> Whole(d, unit, limit))
            && (r.Ok? ==> Length(d) == r.value * Length(unit) && FromCount(r.value, unit) == d)
            && (r.Err? ==> r.error == InvalidArgument(what))
  {
    if Whole(d, unit, limit) {
      assert Length(d) == Length(d) / Length(unit) * Length(unit);
      assert Length(d) < 0x1_0000 * NANOS;
    }
    var r := ToCount(d, unit, limit, what);
    if r.Ok? {
      FromCountLength(r.value, unit);
      SameLength(FromCount(r.value, unit), d);
    }
  }

  lemma Multiple(count: nat, n: nat)
    requires n == 1_000_000 || n == 100_000_000 || n == NANOS
    ensures (count * n) % n == 0 && (count * n) / n == count
  {
  }

  /** Every count comes back from the duration it stands for. */
  lemma FromCountIsExact(count: u16, unit: Duration, limit: nat, what: string)
    requires IsUnit(unit) && count < limit <= 0x1_0000
    ensures ToCount(FromCount(count, unit), unit, limit, what) == Ok(count)
  {
    FromCountLength(count, unit);
    Multiple(count, Length(unit));
    ToCountIsExact(FromCount(count, unit), unit, limit, what);
  }

  // --- buffers -------------------------------------------------------------------

  /** A length field and the fixed buffer it is about. */
  datatype Buffer = Buffer(length: int, data: seq<byte>)

  /** `data` at the front of a zeroed array of `max` bytes. */
  function CopyInto(data: seq<byte>, max: nat): (r: Result<seq<byte>, Error>)
    ensures r.Ok? <==> |data| <= max
    ensures r.Ok? ==> |r.value| == max && r.value[..|data|] == data
  {
    if |data| <= max then Ok(data + seq(max - |data|, _ => 0)) else Err(TooLong(max))
  }

  method CopyInArray(data: seq<byte>, max: nat) returns (r: Result<seq<byte>, Error>)
    ensures r == CopyInto(data, max)
  {
    var copied := new byte[max](_ => 0);
    if |data| > max {
      return Err(TooLong(max));
    }
    for i := 0 to |data|
      invariant copied[..i] == data[..i]
      invariant forall k :: i <= k < max ==> copied[k] == 0
    {
      copied[i] := data[i];
    }
    assert copied[..] == data + seq(max - |data|, _ => 0);
    return Ok(copied[..]);
  }

  /** `data` in a buffer of `max` bytes, its length narrowed to `width` values. */
  function Fill(data: seq<byte>, max: nat, width: nat): Result<Buffer, Error>
    requires width > 0
  {
    var copied :- CopyInto(data, max);
    Ok(Buffer(|data| % width, copied))
  }

  /** The bytes a buffer says it holds. */
  function Read(b: Buffer, what: string): Result<seq<byte>, Error> {
    if 0 <= b.length <= |b.data| then Ok(b.data[..b.length]) else Err(Malformed(what))
  }

  /** Filling succeeds exactly if the bytes fit, and then they are read back:
      no buffer is so long that narrowing its length loses anything. */
  lemma FillThenRead(data: seq<byte>, max: nat, width: nat, what: string)
    requires max < width
    ensures Fill(data, max, width).Ok? <==> |data| <= max
    ensures |data| <= max ==> Read(Fill(data, max, width).value, what) == Ok(data)
    ensures |data| <= max ==> |Fill(data, max, width).value.data| == max
  {
  }

  // --- words ----------------------------------------------------------------------

  function AsLe(b: (byte, byte, byte, byte)): bv32 {
    (b.0 as bv32) | ((b.1 as bv32) << 8) | ((b.2 as bv32) << 16) | ((b.3 as bv32) << 24)
  }

  function ToLeBytes(w: bv32): (byte, byte, byte, byte) {
    ((w & 0xFF) as byte, ((w >> 8) & 0xFF) as byte, ((w >> 16) & 0xFF) as byte, ((w >> 24) & 0xFF) as byte)
  }

  lemma BytesThroughWord(b: (byte, byte, byte, byte))
    ensures ToLeBytes(AsLe(b)) == b
  {
  }

  lemma WordThroughBytes(w: bv32)
    ensures AsLe(ToLeBytes(w)) == w
  {
  }

  /** Three bytes in a word, as for vendor codes. */
  function Word24(b: (byte, byte, byte)): bv32 {
    AsLe((b.0, b.1, b.2, 0))
  }

  function Bytes24(w: bv32): (byte, byte, byte) {
    var b := ToLeBytes(w);
    (b.0, b.1, b.2)
  }

  lemma BytesThroughWord24(b: (byte, byte, byte))
    ensures Bytes24(Word24(b)) == b
  {
    BytesThroughWord((b.0, b.1, b.2, 0));
  }

  lemma WordThroughBytes24(w: bv32)
    ensures Word24(Bytes24(w)) == w <==> ToLeBytes(w).3 == 0
  {
    WordThroughBytes(w);
    var b := Bytes24(w);
    BytesThroughWord((b.0, b.1, b.2, 0));
  }
}
