// BTHome v2 service data (bthome::BTHomeValue and bthome::BTHomeData): the
// records of an advertisement are looked up in the object table, decoded into
// typed values, and numbered per object id.
module BTHome {
  import opened Wrappers
  import opened Bytes
  import opened ShosBt
  import GapAdv
  import opened BTHomeRegistry

  /** kBTHomeServiceUUID: the 16-bit service UUID the payload is carried under. */
  const ServiceUuid: Uuid := UuidFromNumber(0xFCD2)

  // BTHomeData::ParseErrors.
  const KeyMissingOrBad: int := -201
  const DecryptFailed: int := -202
  const ParseFailed: int := -203
  const Unencrypted: int := -204

  /** The only protocol version BTHomeData accepts. */
  const SupportedVersion: nat := 2

  /** A text value keeps at most three bytes (the size of str_val.val). */
  type StrBytes = s: seq<byte> | |s| <= 3

  /** The member of the value union a BTHomeValue carries, selected by its format. */
  datatype Payload =
    | NoneVal
    | UnsignedVal(u: u32)
    | SignedVal(i: i32)
    | FloatVal(f: real)
    | BoolVal(b: bool)
    | StrVal(s: StrBytes)
  {
    function Format(): DataFormat {
      match this
      case NoneVal => FormatNone
      case UnsignedVal(_) => UnsignedInt
      case SignedVal(_) => SignedInt
      case FloatVal(_) => Float
      case BoolVal(_) => Bool
      case StrVal(_) => Str
    }
  }

  /** One decoded object: its id, its number among values of that id, its type and its value. */
  datatype BTHomeValue = BTHomeValue(objId: byte, index: byte, dtype: DataType, payload: Payload)

  /**
   * operator==: two values are equal when their formats agree and so do the
   * members of the union that format selects; id, index and type are not compared.
   */
  function Same(a: BTHomeValue, b: BTHomeValue): (r: bool)
    ensures r <==> a.payload == b.payload
  {
    a.payload.Format() == b.payload.Format() &&
    match a.payload
    case NoneVal => b.payload.Format() == FormatNone
    case UnsignedVal(x) => x == b.payload.u
    case SignedVal(x) => x == b.payload.i
    case FloatVal(x) => x == b.payload.f
    case BoolVal(x) => x == b.payload.b
    case StrVal(x) => x == b.payload.s
  }

  // ----- Integer fields -----

  lemma PowWidths()
    ensures Pow(0x100, 1) == 0x100 && Pow(0x100, 2) == 0x1_0000
    ensures Pow(0x100, 3) == 0x100_0000 && Pow(0x100, 4) == 0x1_0000_0000
  {
  }

  lemma LittleEndianWidths(v: seq<byte>)
    requires 1 <= |v| <= 4
    ensures |v| == 1 ==> LittleEndian(v) == v[0]
    ensures |v| == 2 ==> LittleEndian(v) == v[0] as int + 0x100 * (v[1] as int)
    ensures |v| == 3 ==> LittleEndian(v) == v[0] as int + 0x100 * (v[1] as int) + 0x1_0000 * (v[2] as int)
    ensures |v| == 4 ==> LittleEndian(v) == v[0] as int + 0x100 * (v[1] as int) + 0x1_0000 * (v[2] as int) + 0x100_0000 * (v[3] as int)
  {
    var v1 := v[1..];
    assert LittleEndian(v) == v[0] + 0x100 * LittleEndian(v1);
    if |v| >= 2 {
      var v2 := v1[1..];
      assert v1[0] == v[1];
      assert LittleEndian(v1) == v[1] + 0x100 * LittleEndian(v2);
      if |v| >= 3 {
        var v3 := v2[1..];
        assert v2[0] == v[2];
        assert LittleEndian(v2) == v[2] + 0x100 * LittleEndian(v3);
        if |v| == 4 {
          assert v3[0] == v[3] && v3[1..] == [];
          assert LittleEndian(v3) == v[3];
        }
      }
    }
  }

  /**
   * The 32-bit word of the `uv` union after its initialiser and the copy of the
   * value bytes: the value bytes at the bottom and, above them, bytes 0xFF when
   * the last value byte has its top bit set and zero bytes otherwise.
   */
  function UnionWord(v: seq<byte>): (w: u32)
    requires 1 <= |v| <= 4
    ensures w % Pow(0x100, |v|) == LittleEndian(v)
    ensures v[|v| - 1] < 0x80 ==> w == LittleEndian(v)
    ensures v[|v| - 1] >= 0x80 ==> w + Pow(0x100, |v|) == 0x1_0000_0000 + LittleEndian(v)
  {
    PowWidths();
    var n := |v|;
    var fill := if v[n - 1] < 0x80 then 0 else 0x1_0000_0000 - Pow(0x100, n);
    assert n == 1 || n == 2 || n == 3 || n == 4;
    LittleEndian(v) + fill
  }

  /**
   * The raw integer as BTHomeData.cpp's ParseAndConsume reads it back from the
   * union (the model's ParseAndConsume reads RawValue instead): 3- and
   * 4-byte fields through the 32-bit members, 2-byte fields through the 16-bit
   * and 1-byte fields through the 8-bit ones, signed when the format is.
   */
  function RawAsWritten(signed: bool, v: seq<byte>): (r: int)
    requires 1 <= |v| <= 4
    ensures signed ==> -0x8000_0000 <= r < 0x8000_0000
    ensures !signed ==> 0 <= r < 0x1_0000_0000
  {
    var w := UnionWord(v);
    if |v| >= 3 then (if signed then AsI32(w) else w)
    else if |v| == 2 then (if signed then AsI16(w % 0x1_0000) else w % 0x1_0000)
    else (if signed then AsI8(w % 0x100) else w % 0x100)
  }

  /**
   * The integer a field of |v| little-endian bytes carries: its unsigned value,
   * or the two's-complement reading of it when the format is signed.
   */
  function RawValue(signed: bool, v: seq<byte>): (r: int)
    requires 1 <= |v| <= 4
    ensures r == LittleEndian(v) || r == LittleEndian(v) - Pow(0x100, |v|)
    ensures !signed ==> 0 <= r < Pow(0x100, |v|)
    ensures signed ==> -(Pow(0x100, |v|) as int) <= 2 * r < Pow(0x100, |v|)
  {
    var u := LittleEndian(v);
    if signed && 2 * u >= Pow(0x100, |v|) then u - Pow(0x100, |v|) else u
  }

  /** Outside 3-byte unsigned fields with the top bit set, the union reading is the intended integer. */
  lemma RawAsWrittenAgrees(signed: bool, v: seq<byte>)
    requires 1 <= |v| <= 4
    requires !(|v| == 3 && !signed && v[2] >= 0x80)
    ensures RawAsWritten(signed, v) == RawValue(signed, v)
  {
    PowWidths();
    LittleEndianWidths(v);
  }

  /**
   * A 3-byte unsigned field whose top bit is set comes back from the union with
   * its fourth byte still 0xFF from the sign-fill initialiser.
   */
  lemma RawAsWrittenThreeByteUnsigned(v: seq<byte>)
    requires |v| == 3 && v[2] >= 0x80
    ensures RawAsWritten(false, v) == RawValue(false, v) + 0xFF00_0000
  {
    PowWidths();
    LittleEndianWidths(v);
  }

  /** An illuminance field of 0x800000 (83886.08 lux) reads as 0xFF800000. */
  lemma IlluminanceOverflow()
    ensures RawAsWritten(false, [0x00, 0x00, 0x80]) == 0xFF80_0000
    ensures RawValue(false, [0x00, 0x00, 0x80]) == 0x80_0000
  {
    RawAsWrittenThreeByteUnsigned([0x00, 0x00, 0x80]);
    LittleEndianWidths([0x00, 0x00, 0x80]);
  }

  /** raw * 10^exp, as an exact real (the firmware computes it in floating point). */
  function Scale(raw: int, exp: int): (r: real)
    ensures exp <= 0 ==> r * (Pow(10, -exp) as real) == raw as real
    ensures exp >= 0 ==> r == (raw * Pow(10, exp)) as real
  {
    if exp >= 0 then (raw * Pow(10, exp)) as real else raw as real / (Pow(10, -exp) as real)
  }

  // ----- One record -----

  /** obj_value_len: a length byte and the text for strings, the fixed width otherwise. */
  function ValueLength(obj: BTHomeObject, data: seq<byte>): nat
    requires |data| >= 2
  {
    if obj.format == Str then 1 + data[1] else obj.dataLength
  }

  /** A decoded value and the bytes after its record. */
  datatype Consumed = Consumed(value: BTHomeValue, rest: seq<byte>)

  /** The length check of ParseAndConsume: the whole record of `obj` is present. */
  predicate RecordFits(obj: BTHomeObject, data: seq<byte>)
  {
    |data| >= 2 && 1 + ValueLength(obj, data) <= |data|
  }

  /** The text a string record keeps: its first three bytes at most. */
  function TextOf(data: seq<byte>): (t: StrBytes)
    requires |data| >= 2 && 2 + data[1] <= |data|
    ensures |t| == if data[1] < 3 then data[1] else 3
    ensures t == data[2..2 + |t|]
  {
    var toCopy := if data[1] < 3 then data[1] else 3;
    data[2..2 + toCopy]
  }

  /**
   * The value ParseAndConsume builds once the record of `obj` is known to be
   * complete: text keeps at most three bytes and is typed kOther; integers are
   * read at the object's width and become a scaled float for sensors, a flag for
   * binary sensors and the integer itself otherwise. Integers are read with
   * RawValue, the intended reading; DecodeRecordAsWritten reads them through the
   * union word as the firmware does. The rest of the model uses this one.
   */
  function DecodeRecord(obj: BTHomeObject, data: seq<byte>): (c: Consumed)
    requires WellShaped(obj) && RecordFits(obj, data)
    ensures c.rest == data[1 + ValueLength(obj, data)..] && |c.rest| <= |data| - 2
    ensures c.value.objId == data[0] && c.value.index == 0
    ensures obj.format == Str ==>
              c.value.dtype == Other &&
              c.value.payload == StrVal(TextOf(data))
    ensures obj.format != Str ==> (
              var raw := RawValue(obj.format == SignedInt, data[1..1 + obj.dataLength]);
              var p := c.value.payload;
              && c.value.dtype == obj.dtype
              && (obj.dtype == Sensor ==> p == FloatVal(Scale(raw, obj.exponent)))
              && (obj.dtype == BinarySensor ==> p == BoolVal(raw != 0))
              && (obj.dtype != Sensor && obj.dtype != BinarySensor ==>
                    (obj.format == UnsignedInt ==> p.UnsignedVal? && p.u == raw) &&
                    (obj.format == SignedInt ==> p.SignedVal? && p.i == raw)))
  {
    var id := data[0];
    var n := 1 + ValueLength(obj, data);
    if obj.format == Str then
      Consumed(BTHomeValue(id, 0, Other, StrVal(TextOf(data))), data[n..])
    else
      PowWidths();
      Consumed(BTHomeValue(id, 0, obj.dtype, NumericPayload(obj, RawValue(obj.format == SignedInt, data[1..n]))), data[n..])
  }

  /** The union member a numeric record fills from its raw integer. */
  function NumericPayload(obj: BTHomeObject, raw: int): Payload {
    if obj.dtype == Sensor then FloatVal(Scale(raw, obj.exponent))
    else if obj.dtype == BinarySensor then BoolVal(raw != 0)
    else if obj.format == UnsignedInt then UnsignedVal(ToU32(raw))
    else SignedVal(ToI32(raw))
  }

  /** A complete 3-byte unsigned record whose last value byte has its top bit set. */
  predicate ThreeByteHigh(obj: BTHomeObject, data: seq<byte>) {
    obj.format == UnsignedInt && obj.dataLength == 3 && |data| >= 4 && data[3] >= 0x80
  }

  /**
   * The record as BTHomeData.cpp decodes it, through the union word: the same
   * as DecodeRecord, except that a 3-byte unsigned value with its top bit set
   * carries the 0xFF fill in its fourth byte.
   */
  function DecodeRecordAsWritten(obj: BTHomeObject, data: seq<byte>): (c: Consumed)
    requires WellShaped(obj) && RecordFits(obj, data)
    ensures !ThreeByteHigh(obj, data) ==> c == DecodeRecord(obj, data)
    ensures ThreeByteHigh(obj, data) ==>
              && c.rest == DecodeRecord(obj, data).rest
              && c.value == DecodeRecord(obj, data).value.(payload :=
                   NumericPayload(obj, RawValue(false, data[1..4]) + 0xFF00_0000))
  {
    var id := data[0];
    var n := 1 + ValueLength(obj, data);
    if obj.format == Str then
      Consumed(BTHomeValue(id, 0, Other, StrVal(TextOf(data))), data[n..])
    else
      var v := data[1..n];
      var signed := obj.format == SignedInt;
      if ThreeByteHigh(obj, data) then
        RawAsWrittenThreeByteUnsigned(v);
        Consumed(BTHomeValue(id, 0, obj.dtype, NumericPayload(obj, RawAsWritten(signed, v))), data[n..])
      else
        RawAsWrittenAgrees(signed, v);
        Consumed(BTHomeValue(id, 0, obj.dtype, NumericPayload(obj, RawAsWritten(signed, v))), data[n..])
  }

  /**
   * BTHomeValue::ParseAndConsume: decodes the record at the front of `data`
   * (an object id, then its value) and returns it with the bytes that follow.
   * Fewer than two bytes is an invalid argument; an unknown id or a record cut
   * short is a parse failure. A complete record is decoded by the corrected
   * DecodeRecord.
   */
  function ParseAndConsume(data: seq<byte>): (r: Result<Consumed>)
    ensures |data| < 2 ==> r == Err(InvalidArgument)
    ensures |data| >= 2 && Get(data[0]).Err? ==> r == Err(Code(ParseFailed))
    ensures |data| >= 2 && Get(data[0]).Ok? && !RecordFits(Get(data[0]).value, data) ==>
              r == Err(Code(ParseFailed))
    ensures |data| >= 2 && Get(data[0]).Ok? && RecordFits(Get(data[0]).value, data) ==>
              r == Ok(DecodeRecord(Get(data[0]).value, data))
  {
    if |data| < 2 then Err(InvalidArgument)
    else
      match Get(data[0])
      case Err(_) => Err(Code(ParseFailed))
      case Ok(obj) =>
        if !RecordFits(obj, data) then Err(Code(ParseFailed))
        else Ok(DecodeRecord(obj, data))
  }



  /** A window record decodes to a binary-sensor value; the next record is left in place. */
  lemma ParseWindowRecord()
    ensures ParseAndConsume([0x2D, 0x01, 0x02]) == Ok(Consumed(BTHomeValue(0x2D, 0, BinarySensor, BoolVal(true)), [0x02]))
  {
    GetIsRow(0x2D);
    assert Slot(0x2D) == 69;
    LittleEndianWidths([0x01]);
  }

  /** A packet-id record is an unsigned value of type Other, never a sensor value. */
  lemma PacketIdRecord(data: seq<byte>)
    requires ParseAndConsume(data).Ok? && data[0] == PacketId
    ensures ParseAndConsume(data).value.value.dtype == Other
    ensures ParseAndConsume(data).value.value.payload.UnsignedVal?
  {
    GetIsRow(0x00);
    assert Slot(0x00) == 0;
  }

  /** A text record keeps its first three bytes and consumes the whole record. */
  lemma ParseTextRecord()
    ensures ParseAndConsume([0x53, 0x04, 0x61, 0x62, 0x63, 0x64, 0x01]) ==
            Ok(Consumed(BTHomeValue(0x53, 0, Other, StrVal([0x61, 0x62, 0x63])), [0x01]))
  {
    var d := [0x53, 0x04, 0x61, 0x62, 0x63, 0x64, 0x01];
    GetIsRow(0x53);
    assert Slot(0x53) == 72;
    assert RecordFits(Row(72), d);
    assert d[2..5] == [0x61, 0x62, 0x63] && d[6..] == [0x01];
  }

  /**
   * An illuminance record of 0x800000 hundredths of a lux: the model decodes
   * 83886.08 lux, the union read of the firmware 42865786.88.
   */
  lemma IlluminanceRecordAsWritten()
    ensures ParseAndConsume([0x05, 0x00, 0x00, 0x80]) ==
            Ok(Consumed(BTHomeValue(0x05, 0, Sensor, FloatVal(83886.08)), []))
    ensures Get(0x05).Ok? && DecodeRecordAsWritten(Get(0x05).value, [0x05, 0x00, 0x00, 0x80]) ==
            Consumed(BTHomeValue(0x05, 0, Sensor, FloatVal(42865786.88)), [])
  {
    var d: seq<byte> := [0x05, 0x00, 0x00, 0x80];
    GetIsRow(0x05);
    assert Slot(0x05) == 5;
    assert RecordFits(Row(5), d);
    assert d[1..4] == [0x00, 0x00, 0x80] && d[4..] == [];
    IlluminanceOverflow();
    assert Pow(10, 2) == 100;
  }

  /** A record cut short by the end of the data is a parse failure. */
  lemma ShortRecordFails()
    ensures ParseAndConsume([0x02, 0xC4]) == Err(Code(ParseFailed))
  {
    GetIsRow(0x02);
    assert Slot(0x02) == 2;
  }

  // ----- The values of one advertisement -----

  /** The number of values among vs[..n] that carry object id `id`. */
  function CountId(vs: seq<BTHomeValue>, id: byte, n: nat): (c: nat)
    requires n <= |vs|
    ensures c <= n
  {
    if n == 0 then 0 else CountId(vs, id, n - 1) + (if vs[n - 1].objId == id then 1 else 0)
  }

  /** The count is 0 exactly when no value looked at has the id, and n exactly when all of them do. */
  lemma {:induction false} CountIdMeans(vs: seq<BTHomeValue>, id: byte, n: nat)
    requires n <= |vs|
    ensures CountId(vs, id, n) == 0 <==> forall k :: 0 <= k < n ==> vs[k].objId != id
    ensures CountId(vs, id, n) == n <==> forall k :: 0 <= k < n ==> vs[k].objId == id
  {
    if n > 0 {
      CountIdMeans(vs, id, n - 1);
    }
  }

  lemma {:induction false} CountIdMonotonic(vs: seq<BTHomeValue>, id: byte, m: nat, n: nat)
    requires m <= n <= |vs|
    ensures CountId(vs, id, m) <= CountId(vs, id, n)
    decreases n - m
  {
    if m < n {
      CountIdMonotonic(vs, id, m, n - 1);
    }
  }

  /** Appending values does not change the counts over the earlier ones. */
  lemma {:induction false} CountIdPrefix(a: seq<BTHomeValue>, b: seq<BTHomeValue>, id: byte, n: nat)
    requires n <= |a|
    ensures CountId(a + b, id, n) == CountId(a, id, n)
  {
    if n > 0 {
      assert (a + b)[n - 1] == a[n - 1];
      CountIdPrefix(a, b, id, n - 1);
    }
  }

  /**
   * Each value is numbered by how many values with its object id come before
   * it, modulo 256 (the index is a uint8_t).
   */
  ghost predicate Numbered(vs: seq<BTHomeValue>)
  {
    forall k :: 0 <= k < |vs| ==> vs[k].index == CountId(vs, vs[k].objId, k) % 0x100
  }

  /**
   * The index ParseData gives a new value with id `id`: one more for every
   * value already held with that id, wrapping around at 256.
   */
  method NextIndex(values: seq<BTHomeValue>, id: byte) returns (index: byte)
    ensures index == CountId(values, id, |values|) % 0x100
  {
    index := 0;
    var j := 0;
    while j < |values|
      invariant 0 <= j <= |values|
      invariant index == CountId(values, id, j) % 0x100
    {
      if values[j].objId == id {
        index := (index + 1) % 0x100;
      }
      j := j + 1;
    }
  }

  /** Appending a value numbered after the values before it keeps the sequence numbered. */
  lemma NumberedAppend(vs: seq<BTHomeValue>, v: BTHomeValue)
    requires Numbered(vs) && v.index == CountId(vs, v.objId, |vs|) % 0x100
    ensures Numbered(vs + [v])
  {
    var next := vs + [v];
    forall k | 0 <= k < |next|
      ensures next[k].index == CountId(next, next[k].objId, k) % 0x100
    {
      CountIdPrefix(vs, [v], next[k].objId, k);
    }
  }

  /** The records of a payload, in order, and whether none of them failed. */
  datatype Decoded = Decoded(values: seq<BTHomeValue>, ok: bool)

  /**
   * The records ParseData decodes from `data`, one after the other, until fewer
   * than two bytes remain (ok: a final single byte is ignored) or a record fails
   * (not ok, keeping the records decoded before it). Their index is still 0.
   */
  function Records(data: seq<byte>): Decoded
    decreases |data|
  {
    if |data| < 2 then Decoded([], true)
    else
      match ParseAndConsume(data)
      case Err(_) => Decoded([], false)
      case Ok(c) =>
        var tail := Records(c.rest);
        Decoded([c.value] + tail.values, tail.ok)
  }

  /**
   * ParseAndConsume as ParseData calls it, stated as the step of Records it
   * takes: a record that parses is the first of the records, a failing one ends
   * them unsuccessfully.
   */
  method NextRecord(data: seq<byte>) returns (rv: Result<Consumed>)
    requires |data| >= 2
    ensures rv == ParseAndConsume(data)
    ensures rv.Ok? ==> |rv.value.rest| < |data|
    ensures rv.Ok? ==> Records(data) == Decoded([rv.value.value] + Records(rv.value.rest).values, Records(rv.value.rest).ok)
    ensures rv.Err? ==> Records(data) == Decoded([], false)
  {
    rv := ParseAndConsume(data);
  }

  /**
   * The new values `vs` numbered as ParseData numbers them after `prev`: each
   * by the number of values with its id among `prev` and the new values before it.
   */
  function Number(prev: seq<BTHomeValue>, vs: seq<BTHomeValue>): (r: seq<BTHomeValue>)
    ensures |r| == |vs|
    ensures forall k :: 0 <= k < |vs| ==> r[k] == vs[k].(index := r[k].index)
  {
    if vs == [] then []
    else
      var init := Number(prev, vs[..|vs| - 1]);
      var v := vs[|vs| - 1];
      init + [v.(index := CountId(prev + init, v.objId, |prev + init|) % 0x100)]
  }

  /** Numbering after `prev` keeps the whole sequence numbered per object id. */
  lemma {:induction false} NumberKeepsNumbered(prev: seq<BTHomeValue>, vs: seq<BTHomeValue>)
    requires Numbered(prev)
    ensures Numbered(prev + Number(prev, vs))
    decreases |vs|
  {
    if vs == [] {
      assert prev + Number(prev, vs) == prev;
    } else {
      var init := Number(prev, vs[..|vs| - 1]);
      var v := vs[|vs| - 1];
      var w := v.(index := CountId(prev + init, v.objId, |prev + init|) % 0x100);
      NumberKeepsNumbered(prev, vs[..|vs| - 1]);
      NumberedAppend(prev + init, w);
      assert prev + Number(prev, vs) == (prev + init) + [w];
    }
  }

  /** One more record in front of the records still to come moves to the decoded ones. */
  lemma RecordsStep(all: seq<byte>, data: seq<byte>, parsed: seq<BTHomeValue>, c: Consumed)
    requires Records(all) == Decoded(parsed + Records(data).values, Records(data).ok)
    requires Records(data) == Decoded([c.value] + Records(c.rest).values, Records(c.rest).ok)
    ensures Records(all) == Decoded((parsed + [c.value]) + Records(c.rest).values, Records(c.rest).ok)
  {
    AppendAssoc(parsed, c.value, Records(c.rest).values);
  }

  /** Numbering one more value appends it with the index NextIndex gives it. */
  lemma NumberStep(prev: seq<BTHomeValue>, parsed: seq<BTHomeValue>, v: BTHomeValue, index: byte)
    requires index == CountId(prev + Number(prev, parsed), v.objId, |prev + Number(prev, parsed)|) % 0x100
    ensures prev + Number(prev, parsed + [v]) == (prev + Number(prev, parsed)) + [v.(index := index)]
  {
    assert (parsed + [v])[..|parsed|] == parsed;
  }

  /** Two new values with the same object id, after none, are numbered 0 and 1. */
  lemma NumberSameTwice(a: BTHomeValue, b: BTHomeValue)
    requires a.objId == b.objId
    ensures Number([], [a, b]) == [a.(index := 0), b.(index := 1)]
  {
    var a0 := a.(index := 0);
    assert [a, b][..1] == [a];
    assert [a][..0] == [];
    assert Number([], [a]) == [a0];
    assert [] + [a0] == [a0];
    assert CountId([a0], a.objId, 1) == 1;
  }

  /** Temperature 100.00 (0x2710) read from the first three bytes, the rest left over. */
  lemma HundredDegreesRecord(rest: seq<byte>)
    ensures ParseAndConsume([0x02, 0x10, 0x27] + rest) ==
            Ok(Consumed(BTHomeValue(0x02, 0, Sensor, FloatVal(100.0)), rest))
  {
    var d := [0x02, 0x10, 0x27] + rest;
    GetIsRow(0x02);
    assert Slot(0x02) == 2;
    LittleEndianWidths([0x10, 0x27]);
    assert d[1..3] == [0x10, 0x27] && d[3..] == rest;
  }

  /** Temperature 25.00 (0x09C4) read from the first three bytes, the rest left over. */
  lemma QuarterHundredRecord(rest: seq<byte>)
    ensures ParseAndConsume([0x02, 0xC4, 0x09] + rest) ==
            Ok(Consumed(BTHomeValue(0x02, 0, Sensor, FloatVal(25.0)), rest))
  {
    var d := [0x02, 0xC4, 0x09] + rest;
    GetIsRow(0x02);
    assert Slot(0x02) == 2;
    LittleEndianWidths([0xC4, 0x09]);
    assert d[1..3] == [0xC4, 0x09] && d[3..] == rest;
  }

  /** Two temperature records in one payload get indices 0 and 1. */
  lemma TwoTemperatures()
    ensures Records([0x02, 0xC4, 0x09, 0x02, 0x10, 0x27]).ok
    ensures Number([], Records([0x02, 0xC4, 0x09, 0x02, 0x10, 0x27]).values) ==
            [BTHomeValue(0x02, 0, Sensor, FloatVal(25.0)), BTHomeValue(0x02, 1, Sensor, FloatVal(100.0))]
  {
    var d2: seq<byte> := [0x02, 0x10, 0x27];
    var first := BTHomeValue(0x02, 0, Sensor, FloatVal(25.0));
    var second := BTHomeValue(0x02, 0, Sensor, FloatVal(100.0));
    HundredDegreesRecord([]);
    assert d2 + [] == d2;
    assert Records(d2) == Decoded([second], true);
    QuarterHundredRecord(d2);
    assert [0x02, 0xC4, 0x09] + d2 == [0x02, 0xC4, 0x09, 0x02, 0x10, 0x27];
    assert Records([0x02, 0xC4, 0x09, 0x02, 0x10, 0x27]) == Decoded([first, second], true);
    NumberSameTwice(first, second);
  }


  /**
   * The position of the k-th value (counting from 0) with object id `id` at or
   * after position i, or |vs| when there are not that many.
   */
  function FindValue(vs: seq<BTHomeValue>, id: byte, k: nat, i: nat): (p: nat)
    requires i <= |vs|
    ensures i <= p <= |vs|
    ensures p < |vs| ==> vs[p].objId == id
    decreases |vs| - i
  {
    if i == |vs| then |vs|
    else if vs[i].objId != id then FindValue(vs, id, k, i + 1)
    else if k == 0 then i
    else FindValue(vs, id, k - 1, i + 1)
  }

  /** FindValue finds a value exactly when enough values carry the id, and finds the k-th. */
  lemma {:induction false} FindValueCounts(vs: seq<BTHomeValue>, id: byte, k: nat, i: nat)
    requires i <= |vs|
    ensures var p := FindValue(vs, id, k, i);
      && (p < |vs| <==> CountId(vs, id, i) + k < CountId(vs, id, |vs|))
      && (p < |vs| ==> CountId(vs, id, p) == CountId(vs, id, i) + k)
    decreases |vs| - i
  {
    if i < |vs| {
      CountIdMonotonic(vs, id, i + 1, |vs|);
      assert CountId(vs, id, i + 1) == CountId(vs, id, i) + (if vs[i].objId == id then 1 else 0);
      if vs[i].objId != id {
        FindValueCounts(vs, id, k, i + 1);
      } else if k > 0 {
        FindValueCounts(vs, id, k - 1, i + 1);
      }
    }
  }

  /** A value with id `id` after position p is counted beyond p's count. */
  lemma CountIdStrict(vs: seq<BTHomeValue>, id: byte, p: nat, q: nat)
    requires p < q <= |vs| && vs[p].objId == id
    ensures CountId(vs, id, p) < CountId(vs, id, q)
  {
    CountIdMonotonic(vs, id, p + 1, q);
  }

  /**
   * In numbered values with at most 256 of one id, asking for a value by its own
   * id and index finds that very value.
   */
  lemma FindOwnValue(vs: seq<BTHomeValue>, q: nat)
    requires Numbered(vs) && q < |vs|
    requires CountId(vs, vs[q].objId, |vs|) <= 0x100
    ensures FindValue(vs, vs[q].objId, vs[q].index, 0) == q
  {
    var id := vs[q].objId;
    CountIdStrict(vs, id, q, |vs|);
    assert vs[q].index == CountId(vs, id, q);
    FindValueCounts(vs, id, vs[q].index, 0);
    var p := FindValue(vs, id, vs[q].index, 0);
    if p < q {
      CountIdStrict(vs, id, p, q);
    } else if q < p {
      CountIdStrict(vs, id, q, p);
    }
  }

  /**
   * BTHomeData::GetValue: the index-th value with object id `objId`, or
   * NOT_FOUND when fewer values carry that id.
   */
  method GetValue(values: seq<BTHomeValue>, objId: byte, index: byte) returns (r: Result<BTHomeValue>)
    ensures var p := FindValue(values, objId, index, 0);
      r == if p < |values| then Ok(values[p]) else Err(NotFound)
  {
    var k: nat := index;
    var i := 0;
    while i < |values|
      invariant 0 <= i <= |values|
      invariant FindValue(values, objId, k, i) == FindValue(values, objId, index, 0)
    {
      if values[i].objId == objId {
        if k == 0 {
          return Ok(values[i]);
        }
        k := k - 1;
      }
      i := i + 1;
    }
    return Err(NotFound);
  }

  // ----- The device-information byte -----

  /** Bit 0: the payload is encrypted. */
  function Encrypted(info: byte): bool { info % 2 == 1 }

  /** Bit 2: the device sends on a trigger rather than at regular intervals. */
  function TriggerBased(info: byte): bool { (info / 4) % 2 == 1 }

  /** Bits 5 to 7: the protocol version. */
  function Version(info: byte): (v: nat)
    ensures v < 8
  {
    info / 32
  }

  /** The three fields and the two unused ones put the byte back together. */
  lemma InfoFields(info: byte)
    ensures info == (if Encrypted(info) then 1 else 0) + 2 * ((info / 2) % 2)
                    + 4 * (if TriggerBased(info) then 1 else 0) + 8 * ((info / 8) % 4)
                    + 32 * Version(info)
  {
    var h1, h2, h3 := info / 2, info / 4, info / 8;
    assert info == info % 2 + 2 * h1;
    assert h1 == h1 % 2 + 2 * h2 && h2 == h1 / 2;
    assert h2 == h2 % 2 + 2 * h3 && h3 == h2 / 2;
    assert h3 == h3 % 4 + 4 * (info / 32) && info / 32 == h3 / 4;
  }

  /** 0x40 is a plain version-2 payload, 0x41 an encrypted one, 0x44 a triggered one. */
  lemma InfoExamples()
    ensures Version(0x40) == SupportedVersion && !Encrypted(0x40) && !TriggerBased(0x40)
    ensures Version(0x41) == SupportedVersion && Encrypted(0x41)
    ensures Version(0x44) == SupportedVersion && TriggerBased(0x44) && !Encrypted(0x44)
  {
  }

  // ----- The parser object -----

  /** The parts of a BTHomeData Parse call that accept the payload: version 2, and a key only for encrypted data. */
  predicate Accepts(data: seq<byte>, key: seq<byte>)
  {
    |data| > 0 && Version(data[0]) == SupportedVersion && (Encrypted(data[0]) || |key| == 0)
  }

  /** bthome::BTHomeData: the sender, the last device-information byte, the payload and the values parsed so far. */
  class BTHomeData {
    var address: Addr
    var info: byte
    var bthomeData: seq<byte>
    var values: seq<BTHomeValue>

    /** The values are numbered per object id. */
    ghost predicate Valid()
      reads this
    {
      Numbered(values)
    }

    /** BTHomeData(): a zero address and information byte, no payload and no values. */
    constructor()
      ensures address == ZeroAddr && info == 0 && bthomeData == [] && values == []
      ensures Valid()
    {
      address := ZeroAddr;
      info := 0;
      bthomeData := [];
      values := [];
    }

    /**
     * ParseData: decodes the records of the payload and appends them to the
     * values, each numbered after all values already held with its id; a failing
     * record stops the loop with kParseFailed, keeping what was appended before it.
     */
    method ParseData() returns (st: Result<()>)
      modifies this
      ensures address == old(address) && info == old(info) && bthomeData == old(bthomeData)
      ensures values == old(values) + Number(old(values), Records(bthomeData).values)
      ensures st == if Records(bthomeData).ok then Ok(()) else Err(Code(ParseFailed))
      ensures old(Valid()) ==> Valid()
    {
      ghost var prev := values;
      ghost var parsed: seq<BTHomeValue> := [];
      var data := bthomeData;
      while |data| >= 2
        invariant address == old(address) && info == old(info) && bthomeData == old(bthomeData)
        invariant Records(bthomeData) == Decoded(parsed + Records(data).values, Records(data).ok)
        invariant values == prev + Number(prev, parsed)
        decreases |data|
      {
        var rv := NextRecord(data);
        if rv.Err? {
          assert parsed + Records(data).values == parsed;
          if old(Valid()) {
            NumberKeepsNumbered(prev, parsed);
          }
          return Err(Code(ParseFailed));
        }
        var value := rv.value.value;
        var index := NextIndex(values, value.objId);
        RecordsStep(bthomeData, data, parsed, rv.value);
        NumberStep(prev, parsed, value, index);
        parsed := parsed + [value];
        values := values + [value.(index := index)];
        data := rv.value.rest;
      }
      assert Records(data) == Decoded([], true);
      assert parsed + Records(data).values == parsed;
      if old(Valid()) {
        NumberKeepsNumbered(prev, parsed);
      }
      return Ok(());
    }

    /**
     * Parse(addr, data, key): records the sender and the information byte, then
     * parses a version-2 payload. Decryption is disabled in the firmware, so for
     * an encrypted payload the previous payload is parsed again; an unencrypted
     * payload with a key is refused with kUnencrypted.
     */
    method Parse(addr: Addr, data: seq<byte>, key: seq<byte>) returns (st: Result<()>)
      modifies this
      ensures address == addr
      ensures |data| == 0 ==> st == Err(InvalidArgument) && info == old(info)
      ensures |data| > 0 ==> info == data[0]
      ensures |data| > 0 && Version(data[0]) != SupportedVersion ==> st == Err(Code(ParseFailed))
      ensures |data| > 0 && Version(data[0]) == SupportedVersion && !Encrypted(data[0]) && |key| > 0 ==>
                st == Err(Code(Unencrypted))
      ensures !Accepts(data, key) ==> bthomeData == old(bthomeData) && values == old(values)
      ensures Accepts(data, key) ==>
                && bthomeData == (if Encrypted(data[0]) then old(bthomeData) else data[1..])
                && values == old(values) + Number(old(values), Records(bthomeData).values)
                && st == if Records(bthomeData).ok then Ok(()) else Err(Code(ParseFailed))
      ensures old(Valid()) ==> Valid()
    {
      address := addr;
      if |data| == 0 {
        return Err(InvalidArgument);
      }
      info := data[0];
      if Version(info) != SupportedVersion {
        return Err(Code(ParseFailed));
      }
      if Encrypted(info) {
        // Decryption is compiled out: the payload field keeps its previous contents.
      } else if |key| > 0 {
        return Err(Code(Unencrypted));
      } else {
        bthomeData := data[1..];
      }
      st := ParseData();
    }

    /**
     * Parse(addr, ad, key): parses the service data carried under the BTHome
     * UUID; without such data nothing changes and the result is NOT_FOUND.
     */
    method ParseAdv(addr: Addr, ad: GapAdv.AdvData, key: seq<byte>) returns (st: Result<()>)
      modifies this
      ensures var sd := GapAdv.ServiceData(ad.entries, ServiceUuid);
        && (|sd| == 0 ==> st == Err(NotFound) && address == old(address) && info == old(info)
                          && bthomeData == old(bthomeData) && values == old(values))
        && (|sd| > 0 ==> address == addr && info == sd[0])
        && (|sd| > 0 && !Accepts(sd, key) ==> st.Err? && bthomeData == old(bthomeData) && values == old(values))
        && (Accepts(sd, key) ==>
              && bthomeData == (if Encrypted(sd[0]) then old(bthomeData) else sd[1..])
              && values == old(values) + Number(old(values), Records(bthomeData).values)
              && st == if Records(bthomeData).ok then Ok(()) else Err(Code(ParseFailed)))
      ensures old(Valid()) ==> Valid()
    {
      var sd := GapAdv.ServiceData(ad.entries, ServiceUuid);
      if |sd| == 0 {
        return Err(NotFound);
      }
      st := Parse(addr, sd, key);
    }
  }
}
