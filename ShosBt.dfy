// Bluetooth device addresses and UUIDs as the relay builds them from raw
// advertisement bytes (shos::bt::Addr and shos::bt::UUID).
module ShosBt {
  import opened Bytes

  /** The address type the byte constructor always assigns (MGOS_BT_ADDR_TYPE_NONE). */
  const AddrTypeNone: nat := 0

  /** A 6-byte device address in display order (most significant byte first) and its type. */
  datatype Addr = Addr(addr: seq<byte>, addrType: nat)

  /** Addr(): all six bytes zero, type none. */
  const ZeroAddr: Addr := Addr([0, 0, 0, 0, 0, 0], AddrTypeNone)

  /**
   * Addr(bytes, little_endian): the six bytes are taken reversed when they are
   * stored little-endian (as in the advertisement payloads) and in order otherwise.
   */
  function AddrFromBytes(ab: seq<byte>, littleEndian: bool): (r: Addr)
    requires |ab| >= 6
    ensures |r.addr| == 6 && r.addrType == AddrTypeNone
    ensures littleEndian ==> forall i :: 0 <= i < 6 ==> r.addr[i] == ab[5 - i]
    ensures !littleEndian ==> r.addr == ab[..6]
  {
    if littleEndian then Addr([ab[5], ab[4], ab[3], ab[2], ab[1], ab[0]], AddrTypeNone)
    else Addr(ab[..6], AddrTypeNone)
  }

  /** Reading a little-endian field twice undoes the reversal. */
  lemma AddrReversalInvolutive(ab: seq<byte>)
    requires |ab| >= 6
    ensures AddrFromBytes(AddrFromBytes(ab, true).addr, true) == AddrFromBytes(ab, false)
  {
    var once := AddrFromBytes(ab, true).addr;
    var twice := AddrFromBytes(once, true).addr;
    assert forall i :: 0 <= i < 6 ==> twice[i] == ab[i];
  }

  /**
   * A UUID: its little-endian bytes, of length 2, 4 or 16 for a valid UUID and
   * empty for the default one. Len() is the `len` field.
   */
  datatype Uuid = Uuid(le: seq<byte>) {
    function Len(): nat { |le| }

    /** UUID::IsValid: the length is one of the three Bluetooth UUID widths. */
    predicate IsValid() { Len() == 2 || Len() == 4 || Len() == 16 }
  }

  /** The empty UUID of the default constructor. */
  const EmptyUuid: Uuid := Uuid([])

  /**
   * UUID(bytes, len): a 16- or 32-bit load or a 128-bit copy of the leading
   * `len` bytes; any other length leaves the UUID empty with length 0.
   */
  function UuidFromBytes(p: seq<byte>, len: nat): (r: Uuid)
    requires (len == 2 || len == 4 || len == 16) ==> len <= |p|
    ensures r.IsValid() <==> (len == 2 || len == 4 || len == 16)
    ensures r.IsValid() ==> r.Len() == len && r.le == p[..len]
    ensures !r.IsValid() ==> r == EmptyUuid
  {
    if len == 2 || len == 4 || len == 16 then Uuid(p[..len]) else EmptyUuid
  }

  /** Four bytes stored least-significant first. */
  function Le32(b0: byte, b1: byte, b2: byte, b3: byte): u32
  {
    Le16(b0, b1) + Le16(b2, b3) * 0x1_0000
  }

  /** UUID::To16: the 16-bit value of a 16-bit UUID, 0 for any other length. */
  function To16(u: Uuid): (r: u16)
    ensures u.Len() == 2 ==> r % 0x100 == u.le[0] && r / 0x100 == u.le[1]
    ensures u.Len() != 2 ==> r == 0
  {
    if u.Len() == 2 then Le16(u.le[0], u.le[1]) else 0
  }

  /** UUID::To32: the 32-bit value of a 32-bit UUID, 0 for any other length. */
  function To32(u: Uuid): (r: u32)
    ensures u.Len() == 4 ==> r == Le32(u.le[0], u.le[1], u.le[2], u.le[3])
    ensures u.Len() != 4 ==> r == 0
  {
    if u.Len() == 4 then Le32(u.le[0], u.le[1], u.le[2], u.le[3]) else 0
  }

  /**
   * UUID(int): a numeric UUID constant. The constructor passes the value on
   * to the 16-bit constructor, so it always yields a 16-bit UUID of the low
   * 16 bits.
   */
  function UuidFromNumber(v: u32): (r: Uuid)
    ensures r.Len() == 2 && To16(r) == v % 0x1_0000
  {
    var w := v % 0x1_0000;
    Uuid([w % 0x100, w / 0x100])
  }

  /** UUID({b0, ..., b15}): a 128-bit UUID written big-endian, stored reversed. */
  function UuidFromBigEndian(l: seq<byte>): (r: Uuid)
    requires |l| == 16
    ensures r.Len() == 16 && forall i :: 0 <= i < 16 ==> r.le[i] == l[15 - i]
  {
    Uuid(seq(16, i requires 0 <= i < 16 => l[15 - i]))
  }

  /**
   * ToBytes as its declaration states it: the UUID's 0, 2, 4 or 16 bytes,
   * little-endian, which the advertisement builder emits.
   */
  function UuidToBytes(u: Uuid): (r: seq<byte>)
    ensures |r| == u.Len()
    ensures u.IsValid() ==> UuidFromBytes(r, u.Len()) == u
  {
    u.le
  }

  /** Loading the little-endian bytes of a 16-bit constant gives back that constant. */
  lemma NumberUuidRoundTrip(v: u16)
    ensures UuidFromBytes([v % 0x100, v / 0x100], 2) == UuidFromNumber(v)
    ensures To16(UuidFromNumber(v)) == v
  {
  }

  /** A loaded UUID reads back as the little-endian value of the bytes it was loaded from. */
  lemma LoadedValues(p: seq<byte>)
    requires |p| >= 4
    ensures To16(UuidFromBytes(p, 2)) == Le16(p[0], p[1])
    ensures To32(UuidFromBytes(p, 4)) == Le32(p[0], p[1], p[2], p[3])
    ensures To16(UuidFromBytes(p, 4)) == 0 && To32(UuidFromBytes(p, 2)) == 0
  {
  }
}
