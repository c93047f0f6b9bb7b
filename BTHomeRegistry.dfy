// The BTHome v2 object registry: the fixed table of object ids with their
// category, name, wire format, value length, decimal exponent and unit, and
// the lookups over it (bthome::BTHomeObject).
module BTHomeRegistry {
  import opened Wrappers
  import opened Bytes

  /** The category of an object. */
  datatype DataType = Any | Sensor | BinarySensor | RawSensor | Event | Other

  /** The representation of a decoded value. */
  datatype DataFormat = FormatNone | UnsignedInt | SignedInt | Float | Bool | Str

  datatype BTHomeObject = BTHomeObject(
    id: byte,
    dtype: DataType,
    name: string,
    format: DataFormat,
    dataLength: nat,
    exponent: int,
    unit: string)

  // Object ids the firmware names.
  const PacketId: byte := 0x00
  const Battery: byte := 0x01
  const Temperature1: byte := 0x02
  const Temperature2: byte := 0x45
  const Humidity1: byte := 0x03
  const Humidity2: byte := 0x2E
  const Illuminance: byte := 0x05
  const Window: byte := 0x2D
  const Button: byte := 0x3A
  const Dimmer: byte := 0x3C
  const Rotation: byte := 0x3F
  const Text: byte := 0x53
  const Raw: byte := 0x54

  /** Number of rows of the table. */
  const ObjectCount: nat := 77

  // The table s_bthome_objects, one function per column: RowId(i) is the
  // id of row i, RowName(i) its name and so on, in declaration order.

  /** Row i of the table, assembled from its columns. */
  function Row(i: nat): BTHomeObject
    requires i < ObjectCount
  {
    BTHomeObject(RowId(i), RowType(i), RowName(i), RowFormat(i), RowLength(i), RowExponent(i), RowUnit(i))
  }

  /** Column `id`. */
  function RowId(i: nat): byte
    requires i < ObjectCount
  {
    if i < 16 then
      match i
      case 0 => 0x00
      case 1 => 0x01
      case 2 => 0x02
      case 3 => 0x03
      case 4 => 0x04
      case 5 => 0x05
      case 6 => 0x06
      case 7 => 0x07
      case 8 => 0x08
      case 9 => 0x09
      case 10 => 0x0A
      case 11 => 0x0B
      case 12 => 0x0C
      case 13 => 0x0D
      case 14 => 0x0E
      case _ => 0x12
    else if i < 32 then
      match i
      case 16 => 0x13
      case 17 => 0x14
      case 18 => 0x2E
      case 19 => 0x2F
      case 20 => 0x3D
      case 21 => 0x3E
      case 22 => 0x3F
      case 23 => 0x40
      case 24 => 0x41
      case 25 => 0x42
      case 26 => 0x43
      case 27 => 0x44
      case 28 => 0x45
      case 29 => 0x46
      case 30 => 0x47
      case _ => 0x48
    else if i < 48 then
      match i
      case 32 => 0x49
      case 33 => 0x4A
      case 34 => 0x4B
      case 35 => 0x4C
      case 36 => 0x4D
      case 37 => 0x4E
      case 38 => 0x4F
      case 39 => 0x50
      case 40 => 0x51
      case 41 => 0x52
      case 42 => 0x0F
      case 43 => 0x10
      case 44 => 0x11
      case 45 => 0x15
      case 46 => 0x16
      case _ => 0x17
    else if i < 64 then
      match i
      case 48 => 0x18
      case 49 => 0x19
      case 50 => 0x1A
      case 51 => 0x1B
      case 52 => 0x1C
      case 53 => 0x1D
      case 54 => 0x1E
      case 55 => 0x1F
      case 56 => 0x20
      case 57 => 0x21
      case 58 => 0x22
      case 59 => 0x23
      case 60 => 0x24
      case 61 => 0x25
      case 62 => 0x26
      case _ => 0x27
    else
      match i
      case 64 => 0x28
      case 65 => 0x29
      case 66 => 0x2A
      case 67 => 0x2B
      case 68 => 0x2C
      case 69 => 0x2D
      case 70 => 0x3A
      case 71 => 0x3C
      case 72 => 0x53
      case 73 => 0x54
      case 74 => 0xF0
      case 75 => 0xF1
      case _ => 0xF2
  }

  /** Column `type`. */
  function RowType(i: nat): DataType
    requires i < ObjectCount
  {
    if i < 16 then
      match i
      case 0 => Other
      case 1 => Sensor
      case 2 => Sensor
      case 3 => Sensor
      case 4 => Sensor
      case 5 => Sensor
      case 6 => Sensor
      case 7 => Sensor
      case 8 => Sensor
      case 9 => Sensor
      case 10 => Sensor
      case 11 => Sensor
      case 12 => Sensor
      case 13 => Sensor
      case 14 => Sensor
      case _ => Sensor
    else if i < 32 then
      match i
      case 16 => Sensor
      case 17 => Sensor
      case 18 => Sensor
      case 19 => Sensor
      case 20 => Sensor
      case 21 => Sensor
      case 22 => Sensor
      case 23 => Sensor
      case 24 => Sensor
      case 25 => Sensor
      case 26 => Sensor
      case 27 => Sensor
      case 28 => Sensor
      case 29 => Sensor
      case 30 => Sensor
      case _ => Sensor
    else if i < 48 then
      match i
      case 32 => Sensor
      case 33 => Sensor
      case 34 => Sensor
      case 35 => Sensor
      case 36 => Sensor
      case 37 => Sensor
      case 38 => Sensor
      case 39 => Sensor
      case 40 => Sensor
      case 41 => Sensor
      case 42 => BinarySensor
      case 43 => BinarySensor
      case 44 => BinarySensor
      case 45 => BinarySensor
      case 46 => BinarySensor
      case _ => BinarySensor
    else if i < 64 then
      match i
      case 48 => BinarySensor
      case 49 => BinarySensor
      case 50 => BinarySensor
      case 51 => BinarySensor
      case 52 => BinarySensor
      case 53 => BinarySensor
      case 54 => BinarySensor
      case 55 => BinarySensor
      case 56 => BinarySensor
      case 57 => BinarySensor
      case 58 => BinarySensor
      case 59 => BinarySensor
      case 60 => BinarySensor
      case 61 => BinarySensor
      case 62 => BinarySensor
      case _ => BinarySensor
    else
      match i
      case 64 => BinarySensor
      case 65 => BinarySensor
      case 66 => BinarySensor
      case 67 => BinarySensor
      case 68 => BinarySensor
      case 69 => BinarySensor
      case 70 => Event
      case 71 => Event
      case 72 => RawSensor
      case 73 => RawSensor
      case 74 => Other
      case 75 => Other
      case _ => Other
  }

  /** Column `name`. */
  function RowName(i: nat): string
    requires i < ObjectCount
  {
    if i < 16 then
      match i
      case 0 => "packet_id"
      case 1 => "battery"
      case 2 => "temperature"
      case 3 => "humidity"
      case 4 => "pressure"
      case 5 => "illuminance"
      case 6 => "mass_kg"
      case 7 => "mass_lb"
      case 8 => "dewpoint"
      case 9 => "count"
      case 10 => "energy"
      case 11 => "power"
      case 12 => "voltage"
      case 13 => "pm2.5"
      case 14 => "pm10"
      case _ => "co2"
    else if i < 32 then
      match i
      case 16 => "tvoc"
      case 17 => "moisture"
      case 18 => "humidity"
      case 19 => "moisture"
      case 20 => "count"
      case 21 => "count"
      case 22 => "rotation"
      case 23 => "distance_mm"
      case 24 => "distance_m"
      case 25 => "duration"
      case 26 => "current"
      case 27 => "speed"
      case 28 => "temperature"
      case 29 => "uv_index"
      case 30 => "volume"
      case _ => "volume"
    else if i < 48 then
      match i
      case 32 => "volume_flow_rate"
      case 33 => "voltage"
      case 34 => "gas"
      case 35 => "gas"
      case 36 => "energy"
      case 37 => "volume"
      case 38 => "water"
      case 39 => "timestamp"
      case 40 => "acceleration"
      case 41 => "gyroscope"
      case 42 => "generic_boolean"
      case 43 => "power_status"
      case 44 => "opening"
      case 45 => "battery_status"
      case 46 => "battery_charging"
      case _ => "carbon_monoxide"
    else if i < 64 then
      match i
      case 48 => "cold"
      case 49 => "connectivity"
      case 50 => "door"
      case 51 => "garage_door"
      case 52 => "gas"
      case 53 => "heat"
      case 54 => "light"
      case 55 => "lock"
      case 56 => "moisture"
      case 57 => "motion"
      case 58 => "moving"
      case 59 => "occupancy"
      case 60 => "plug"
      case 61 => "presence"
      case 62 => "problem"
      case _ => "running"
    else
      match i
      case 64 => "safety"
      case 65 => "smoke"
      case 66 => "sound"
      case 67 => "tamper"
      case 68 => "vibration"
      case 69 => "window"
      case 70 => "button"
      case 71 => "dimmer"
      case 72 => "text"
      case 73 => "raw"
      case 74 => "device_type_id"
      case 75 => "firmware_version"
      case _ => "firmware_version"
  }

  /** Column `format`. */
  function RowFormat(i: nat): DataFormat
    requires i < ObjectCount
  {
    if i < 16 then
      match i
      case 0 => UnsignedInt
      case 1 => UnsignedInt
      case 2 => SignedInt
      case 3 => UnsignedInt
      case 4 => UnsignedInt
      case 5 => UnsignedInt
      case 6 => UnsignedInt
      case 7 => UnsignedInt
      case 8 => SignedInt
      case 9 => UnsignedInt
      case 10 => UnsignedInt
      case 11 => UnsignedInt
      case 12 => UnsignedInt
      case 13 => UnsignedInt
      case 14 => UnsignedInt
      case _ => UnsignedInt
    else if i < 32 then
      match i
      case 16 => UnsignedInt
      case 17 => UnsignedInt
      case 18 => UnsignedInt
      case 19 => UnsignedInt
      case 20 => UnsignedInt
      case 21 => UnsignedInt
      case 22 => SignedInt
      case 23 => UnsignedInt
      case 24 => UnsignedInt
      case 25 => UnsignedInt
      case 26 => UnsignedInt
      case 27 => UnsignedInt
      case 28 => SignedInt
      case 29 => UnsignedInt
      case 30 => UnsignedInt
      case _ => UnsignedInt
    else if i < 48 then
      match i
      case 32 => UnsignedInt
      case 33 => UnsignedInt
      case 34 => UnsignedInt
      case 35 => UnsignedInt
      case 36 => UnsignedInt
      case 37 => UnsignedInt
      case 38 => UnsignedInt
      case 39 => UnsignedInt
      case 40 => UnsignedInt
      case 41 => UnsignedInt
      case 42 => UnsignedInt
      case 43 => UnsignedInt
      case 44 => UnsignedInt
      case 45 => UnsignedInt
      case 46 => UnsignedInt
      case _ => UnsignedInt
    else if i < 64 then
      match i
      case 48 => UnsignedInt
      case 49 => UnsignedInt
      case 50 => UnsignedInt
      case 51 => UnsignedInt
      case 52 => UnsignedInt
      case 53 => UnsignedInt
      case 54 => UnsignedInt
      case 55 => UnsignedInt
      case 56 => UnsignedInt
      case 57 => UnsignedInt
      case 58 => UnsignedInt
      case 59 => UnsignedInt
      case 60 => UnsignedInt
      case 61 => UnsignedInt
      case 62 => UnsignedInt
      case _ => UnsignedInt
    else
      match i
      case 64 => UnsignedInt
      case 65 => UnsignedInt
      case 66 => UnsignedInt
      case 67 => UnsignedInt
      case 68 => UnsignedInt
      case 69 => UnsignedInt
      case 70 => UnsignedInt
      case 71 => UnsignedInt
      case 72 => Str
      case 73 => Str
      case 74 => UnsignedInt
      case 75 => UnsignedInt
      case _ => UnsignedInt
  }

  /** Column `data_length` (unused for strings). */
  function RowLength(i: nat): nat
    requires i < ObjectCount
  {
    if i < 16 then
      match i
      case 0 => 1
      case 1 => 1
      case 2 => 2
      case 3 => 2
      case 4 => 3
      case 5 => 3
      case 6 => 2
      case 7 => 2
      case 8 => 2
      case 9 => 1
      case 10 => 3
      case 11 => 3
      case 12 => 2
      case 13 => 2
      case 14 => 2
      case _ => 2
    else if i < 32 then
      match i
      case 16 => 2
      case 17 => 2
      case 18 => 1
      case 19 => 1
      case 20 => 2
      case 21 => 4
      case 22 => 2
      case 23 => 2
      case 24 => 2
      case 25 => 3
      case 26 => 2
      case 27 => 2
      case 28 => 2
      case 29 => 1
      case 30 => 2
      case _ => 2
    else if i < 48 then
      match i
      case 32 => 2
      case 33 => 2
      case 34 => 3
      case 35 => 4
      case 36 => 4
      case 37 => 4
      case 38 => 4
      case 39 => 4
      case 40 => 2
      case 41 => 2
      case 42 => 1
      case 43 => 1
      case 44 => 1
      case 45 => 1
      case 46 => 1
      case _ => 1
    else if i < 64 then
      match i
      case 48 => 1
      case 49 => 1
      case 50 => 1
      case 51 => 1
      case 52 => 1
      case 53 => 1
      case 54 => 1
      case 55 => 1
      case 56 => 1
      case 57 => 1
      case 58 => 1
      case 59 => 1
      case 60 => 1
      case 61 => 1
      case 62 => 1
      case _ => 1
    else
      match i
      case 64 => 1
      case 65 => 1
      case 66 => 1
      case 67 => 1
      case 68 => 1
      case 69 => 1
      case 70 => 1
      case 71 => 2
      case 72 => 0
      case 73 => 0
      case 74 => 2
      case 75 => 4
      case _ => 3
  }

  /** Column `exponent`: the value is raw * 10^exponent. */
  function RowExponent(i: nat): int
    requires i < ObjectCount
  {
    if i < 16 then
      match i
      case 0 => 0
      case 1 => 0
      case 2 => -2
      case 3 => -2
      case 4 => -2
      case 5 => -2
      case 6 => -2
      case 7 => -2
      case 8 => -2
      case 9 => 0
      case 10 => -3
      case 11 => -2
      case 12 => -3
      case 13 => 0
      case 14 => 0
      case _ => 0
    else if i < 32 then
      match i
      case 16 => 0
      case 17 => -2
      case 18 => 0
      case 19 => 0
      case 20 => 0
      case 21 => 0
      case 22 => -1
      case 23 => 0
      case 24 => -1
      case 25 => -3
      case 26 => -3
      case 27 => -2
      case 28 => -1
      case 29 => 0
      case 30 => -1
      case _ => 0
    else if i < 48 then
      match i
      case 32 => -3
      case 33 => -1
      case 34 => -3
      case 35 => -3
      case 36 => -3
      case 37 => -3
      case 38 => -3
      case 39 => 0
      case 40 => -3
      case 41 => -3
      case 42 => 0
      case 43 => 0
      case 44 => 0
      case 45 => 0
      case 46 => 0
      case _ => 0
    else if i < 64 then
      match i
      case 48 => 0
      case 49 => 0
      case 50 => 0
      case 51 => 0
      case 52 => 0
      case 53 => 0
      case 54 => 0
      case 55 => 0
      case 56 => 0
      case 57 => 0
      case 58 => 0
      case 59 => 0
      case 60 => 0
      case 61 => 0
      case 62 => 0
      case _ => 0
    else
      match i
      case 64 => 0
      case 65 => 0
      case 66 => 0
      case 67 => 0
      case 68 => 0
      case 69 => 0
      case 70 => 0
      case 71 => 0
      case 72 => 0
      case 73 => 0
      case 74 => 0
      case 75 => 0
      case _ => 0
  }

  /** Column `unit`. */
  function RowUnit(i: nat): string
    requires i < ObjectCount
  {
    if i < 16 then
      match i
      case 0 => ""
      case 1 => "%"
      case 2 => "\U{B0} C"
      case 3 => "%"
      case 4 => "hPa"
      case 5 => "lux"
      case 6 => "kg"
      case 7 => "lb"
      case 8 => "\U{B0} C"
      case 9 => ""
      case 10 => "kWh"
      case 11 => "W"
      case 12 => "V"
      case 13 => "ug/m3"
      case 14 => "ug/m3"
      case _ => "ppm"
    else if i < 32 then
      match i
      case 16 => "ug/m3"
      case 17 => "%"
      case 18 => "%"
      case 19 => "%"
      case 20 => ""
      case 21 => ""
      case 22 => "\U{B0}"
      case 23 => "mm"
      case 24 => "m"
      case 25 => "s"
      case 26 => "A"
      case 27 => "m/s"
      case 28 => "\U{B0} C"
      case 29 => ""
      case 30 => "L"
      case _ => "mL"
    else if i < 48 then
      match i
      case 32 => "m3/hr"
      case 33 => "V"
      case 34 => "m3"
      case 35 => "m3"
      case 36 => "kWh"
      case 37 => "L"
      case 38 => "L"
      case 39 => ""
      case 40 => "m/s2"
      case 41 => "\U{B0}/s"
      case 42 => ""
      case 43 => ""
      case 44 => ""
      case 45 => ""
      case 46 => ""
      case _ => ""
    else if i < 64 then
      match i
      case 48 => ""
      case 49 => ""
      case 50 => ""
      case 51 => ""
      case 52 => ""
      case 53 => ""
      case 54 => ""
      case 55 => ""
      case 56 => ""
      case 57 => ""
      case 58 => ""
      case 59 => ""
      case 60 => ""
      case 61 => ""
      case 62 => ""
      case _ => ""
    else
      match i
      case 64 => ""
      case 65 => ""
      case 66 => ""
      case 67 => ""
      case 68 => ""
      case 69 => ""
      case 70 => ""
      case 71 => ""
      case 72 => ""
      case 73 => ""
      case 74 => ""
      case 75 => ""
      case _ => ""
  }

  /**
   * The row holding an id, or ObjectCount when no row does; the ids are
   * grouped by their high nibble.
   */
  ghost function Slot(id: byte): nat
  {
    if 0x00 <= id < 0x10 then
      match id
      case 0x00 => 0
      case 0x01 => 1
      case 0x02 => 2
      case 0x03 => 3
      case 0x04 => 4
      case 0x05 => 5
      case 0x06 => 6
      case 0x07 => 7
      case 0x08 => 8
      case 0x09 => 9
      case 0x0A => 10
      case 0x0B => 11
      case 0x0C => 12
      case 0x0D => 13
      case 0x0E => 14
      case 0x0F => 42
      case _ => ObjectCount
    else if 0x10 <= id < 0x20 then
      match id
      case 0x12 => 15
      case 0x13 => 16
      case 0x14 => 17
      case 0x10 => 43
      case 0x11 => 44
      case 0x15 => 45
      case 0x16 => 46
      case 0x17 => 47
      case 0x18 => 48
      case 0x19 => 49
      case 0x1A => 50
      case 0x1B => 51
      case 0x1C => 52
      case 0x1D => 53
      case 0x1E => 54
      case 0x1F => 55
      case _ => ObjectCount
    else if 0x20 <= id < 0x30 then
      match id
      case 0x2E => 18
      case 0x2F => 19
      case 0x20 => 56
      case 0x21 => 57
      case 0x22 => 58
      case 0x23 => 59
      case 0x24 => 60
      case 0x25 => 61
      case 0x26 => 62
      case 0x27 => 63
      case 0x28 => 64
      case 0x29 => 65
      case 0x2A => 66
      case 0x2B => 67
      case 0x2C => 68
      case 0x2D => 69
      case _ => ObjectCount
    else if 0x30 <= id < 0x40 then
      match id
      case 0x3D => 20
      case 0x3E => 21
      case 0x3F => 22
      case 0x3A => 70
      case 0x3C => 71
      case _ => ObjectCount
    else if 0x40 <= id < 0x50 then
      match id
      case 0x40 => 23
      case 0x41 => 24
      case 0x42 => 25
      case 0x43 => 26
      case 0x44 => 27
      case 0x45 => 28
      case 0x46 => 29
      case 0x47 => 30
      case 0x48 => 31
      case 0x49 => 32
      case 0x4A => 33
      case 0x4B => 34
      case 0x4C => 35
      case 0x4D => 36
      case 0x4E => 37
      case 0x4F => 38
      case _ => ObjectCount
    else if 0x50 <= id < 0x60 then
      match id
      case 0x50 => 39
      case 0x51 => 40
      case 0x52 => 41
      case 0x53 => 72
      case 0x54 => 73
      case _ => ObjectCount
    else if 0xF0 <= id < 0x100 then
      match id
      case 0xF0 => 74
      case 0xF1 => 75
      case 0xF2 => 76
      case _ => ObjectCount
    else ObjectCount
  }

  /** The id is the id of some row. */
  ghost predicate InTable(id: byte) {
    Slot(id) < ObjectCount
  }

  /** Slot inverts the id column. */
  lemma SlotOfRow(i: nat)
    requires i < ObjectCount
    ensures Slot(RowId(i)) == i
  {
    if i < 16 {
      SlotOfRows0To16(i);
    } else if i < 32 {
      SlotOfRows16To32(i);
    } else if i < 48 {
      SlotOfRows32To48(i);
    } else if i < 64 {
      SlotOfRows48To64(i);
    } else {
      SlotOfRows64To77(i);
    }
  }

  lemma SlotOfRows0To16(i: nat)
    requires 0 <= i < 16
    ensures Slot(RowId(i)) == i
  {
  }

  lemma SlotOfRows16To32(i: nat)
    requires 16 <= i < 32
    ensures Slot(RowId(i)) == i
  {
  }

  lemma SlotOfRows32To48(i: nat)
    requires 32 <= i < 48
    ensures Slot(RowId(i)) == i
  {
  }

  lemma SlotOfRows48To64(i: nat)
    requires 48 <= i < 64
    ensures Slot(RowId(i)) == i
  {
  }

  lemma SlotOfRows64To77(i: nat)
    requires 64 <= i < 77
    ensures Slot(RowId(i)) == i
  {
  }

  /** Slot(id), when below ObjectCount, is a row carrying that id. */
  lemma RowOfSlot(id: byte)
    ensures InTable(id) ==> RowId(Slot(id)) == id
  {
    if 0x00 <= id < 0x10 {
      RowOfSlotIn00(id);
    } else if 0x10 <= id < 0x20 {
      RowOfSlotIn10(id);
    } else if 0x20 <= id < 0x30 {
      RowOfSlotIn20(id);
    } else if 0x30 <= id < 0x40 {
      RowOfSlotIn30(id);
    } else if 0x40 <= id < 0x50 {
      RowOfSlotIn40(id);
    } else if 0x50 <= id < 0x60 {
      RowOfSlotIn50(id);
    } else if 0xF0 <= id < 0x100 {
      RowOfSlotInF0(id);
    }
  }

  lemma RowOfSlotIn00(id: byte)
    requires 0x00 <= id < 0x10
    ensures InTable(id) ==> RowId(Slot(id)) == id
  {
  }

  lemma RowOfSlotIn10(id: byte)
    requires 0x10 <= id < 0x20
    ensures InTable(id) ==> RowId(Slot(id)) == id
  {
  }

  lemma RowOfSlotIn20(id: byte)
    requires 0x20 <= id < 0x30
    ensures InTable(id) ==> RowId(Slot(id)) == id
  {
  }

  lemma RowOfSlotIn30(id: byte)
    requires 0x30 <= id < 0x40
    ensures InTable(id) ==> RowId(Slot(id)) == id
  {
  }

  lemma RowOfSlotIn40(id: byte)
    requires 0x40 <= id < 0x50
    ensures InTable(id) ==> RowId(Slot(id)) == id
  {
  }

  lemma RowOfSlotIn50(id: byte)
    requires 0x50 <= id < 0x60
    ensures InTable(id) ==> RowId(Slot(id)) == id
  {
  }

  lemma RowOfSlotInF0(id: byte)
    requires 0xF0 <= id < 0x100
    ensures InTable(id) ==> RowId(Slot(id)) == id
  {
  }

  /** Row ids are unique. */
  lemma IdsUnique(i: nat, j: nat)
    requires i < ObjectCount && j < ObjectCount && RowId(i) == RowId(j)
    ensures i == j
  {
    SlotOfRow(i);
    SlotOfRow(j);
  }

  /** InTable(id) holds exactly when some row has that id. */
  lemma InTableIff(id: byte)
    ensures InTable(id) <==> exists i :: 0 <= i < ObjectCount && RowId(i) == id
  {
    RowOfSlot(id);
    if i :| 0 <= i < ObjectCount && RowId(i) == id {
      SlotOfRow(i);
    }
  }

  /** An id no row carries is not in the table. */
  lemma AbsentId(id: byte)
    requires forall i :: 0 <= i < ObjectCount ==> RowId(i) != id
    ensures !InTable(id)
  {
    RowOfSlot(id);
  }

  /** No row has the id UINT8_MAX, so GetId can use it as its miss marker. */
  lemma RowIdNotMax(i: nat)
    requires i < ObjectCount
    ensures RowId(i) != 0xFF
  {
    SlotOfRow(i);
  }

  /**
   * The shape of a row: integer rows have 1 to 4 value bytes, string rows
   * (text and raw) have none and are raw sensors, no exponent is positive,
   * and every row has a category other than kAny.
   */
  lemma RowShapes(i: nat)
    requires i < ObjectCount
    ensures RowFormat(i) == UnsignedInt || RowFormat(i) == SignedInt || RowFormat(i) == Str
    ensures RowFormat(i) == Str <==> RowLength(i) == 0
    ensures RowFormat(i) != Str ==> 1 <= RowLength(i) <= 4
    ensures RowFormat(i) == Str ==> RowType(i) == RawSensor
    ensures RowExponent(i) <= 0 && RowType(i) != Any
  {
  }

  /**
   * The facts of RowShapes stated for an object descriptor: what the decoder
   * relies on about the object it has looked up.
   */
  predicate WellShaped(o: BTHomeObject) {
    && (o.format == UnsignedInt || o.format == SignedInt || o.format == Str)
    && (o.format == Str ==> o.dataLength == 0 && o.dtype == RawSensor)
    && (o.format != Str ==> 1 <= o.dataLength <= 4)
    && o.exponent <= 0
    && o.dtype != Any
  }

  /** The table as the sequence of rows the scans walk. */
  function Table(): (t: seq<BTHomeObject>)
    ensures |t| == ObjectCount
    ensures forall i :: 0 <= i < ObjectCount ==> t[i].id == RowId(i) && t[i].name == RowName(i)
  {
    seq(ObjectCount, i requires 0 <= i < ObjectCount => Row(i))
  }

  /** The scan of Get(id) over t from k on: the first row at or after k with that id, or |t|. */
  function FindId(t: seq<BTHomeObject>, id: byte, k: nat): (j: nat)
    requires k <= |t|
    ensures k <= j <= |t|
    ensures j < |t| ==> t[j].id == id
    ensures forall i :: k <= i < j ==> t[i].id != id
    decreases |t| - k
  {
    if k == |t| then |t|
    else if t[k].id == id then k
    else FindId(t, id, k + 1)
  }

  /** The scan over the table stops at Slot(id), or at the end for an id no row has. */
  lemma FindIdIsSlot(id: byte)
    ensures FindId(Table(), id, 0) == if InTable(id) then Slot(id) else ObjectCount
  {
    if FindId(Table(), id, 0) < ObjectCount {
      FoundIsSlot(id);
    } else {
      MissedIsAbsent(id);
    }
  }

  lemma FoundIsSlot(id: byte)
    requires FindId(Table(), id, 0) < ObjectCount
    ensures InTable(id) && FindId(Table(), id, 0) == Slot(id)
  {
    var j := FindId(Table(), id, 0);
    assert RowId(j) == id;
    SlotOfRow(j);
  }

  lemma MissedIsAbsent(id: byte)
    requires FindId(Table(), id, 0) == ObjectCount
    ensures !InTable(id)
  {
    assert forall i :: 0 <= i < ObjectCount ==> Table()[i].id != id;
    AbsentId(id);
  }

  /**
   * Get(id): the row with that id; an unknown id is an error. (That it finds
   * one exactly for the ids in the table, and then Row(Slot(id)), is the lemma
   * GetIsRow.)
   */
  function Get(id: byte): (r: Result<BTHomeObject>)
    ensures r.Ok? ==> r.value.id == id && WellShaped(r.value)
    ensures r.Err? ==> r.status == InternalError
  {
    FindIdIsSlot(id);
    RowOfSlot(id);
    GetFromIsFind(id, 0);
    FoundShape(id);
    GetFrom(id, 0)
  }

  /** The object Get finds for a registered id is the row holding it. */
  lemma GetIsRow(id: byte)
    ensures Get(id).Ok? <==> InTable(id)
    ensures InTable(id) ==> Get(id) == Ok(Row(Slot(id))) && RowId(Slot(id)) == id
    ensures !InTable(id) ==> Get(id) == Err(InternalError)
  {
    FindIdIsSlot(id);
    RowOfSlot(id);
    GetFromIsFind(id, 0);
  }

  lemma FoundShape(id: byte)
    ensures InTable(id) ==> WellShaped(Row(Slot(id)))
  {
    if InTable(id) {
      RowShapes(Slot(id));
    }
  }

  /** The loop of Get from row i on: the first row at or after i with the id. */
  function GetFrom(id: byte, i: nat): Result<BTHomeObject>
    requires i <= ObjectCount
    decreases ObjectCount - i
  {
    if i == ObjectCount then Err(InternalError)
    else if RowId(i) == id then Ok(Row(i))
    else GetFrom(id, i + 1)
  }

  lemma {:induction false} GetFromIsFind(id: byte, i: nat)
    requires i <= ObjectCount
    ensures var j := FindId(Table(), id, i);
      GetFrom(id, i) == if j < ObjectCount then Ok(Row(j)) else Err(InternalError)
    decreases ObjectCount - i
  {
    if i < ObjectCount {
      assert Table()[i].id == RowId(i);
      GetFromIsFind(id, i + 1);
    }
  }

  /** Rows of t before k that carry `name`. */
  ghost function NameCount(t: seq<BTHomeObject>, name: string, k: nat): nat
    requires k <= |t|
  {
    if k == 0 then 0 else NameCount(t, name, k - 1) + (if t[k - 1].name == name then 1 else 0)
  }

  lemma {:induction false} NameCountMonotonic(t: seq<BTHomeObject>, name: string, j: nat, k: nat)
    requires j <= k <= |t|
    ensures NameCount(t, name, j) <= NameCount(t, name, k)
    decreases k - j
  {
    if j < k { NameCountMonotonic(t, name, j, k - 1); }
  }

  /**
   * The scan of Get(name, order) over t from row k on, with n rows of that
   * name already passed: the row where the count reaches `order`, or |t|.
   */
  function FindByName(t: seq<BTHomeObject>, name: string, order: int, k: nat, n: int): (j: nat)
    requires k <= |t|
    ensures k <= j <= |t|
    decreases |t| - k
  {
    if k == |t| then |t|
    else if t[k].name == name then
      if n == order then k else FindByName(t, name, order, k + 1, n + 1)
    else FindByName(t, name, order, k + 1, n)
  }

  /**
   * FindByName finds the first row j >= k of that name with exactly
   * `order - n` rows of that name in [k, j), and it finds one exactly when
   * there are more than `order - n` such rows in [k, |t|).
   */
  lemma {:induction false} FindByNameCounts(t: seq<BTHomeObject>, name: string, order: int, k: nat, n: int)
    requires k <= |t|
    ensures var j := FindByName(t, name, order, k, n);
      (j < |t| <==> n <= order < n + NameCount(t, name, |t|) - NameCount(t, name, k))
      && (j < |t| ==> t[j].name == name && n + NameCount(t, name, j) - NameCount(t, name, k) == order)
    decreases |t| - k
  {
    if k < |t| {
      if t[k].name == name && n == order {
        NameCountMonotonic(t, name, k + 1, |t|);
      } else if t[k].name == name {
        FindByNameCounts(t, name, order, k + 1, n + 1);
      } else {
        FindByNameCounts(t, name, order, k + 1, n);
      }
    }
  }

  /**
   * Get(name, order): the order-th row (from 0, in table order) with that
   * name. It exists iff 0 <= order and order is below the number of rows
   * with that name, and then exactly `order` rows of that name precede it.
   */
  function GetByName(name: string, order: int): (r: Result<BTHomeObject>)
    ensures r.Ok? <==> 0 <= order < NameCount(Table(), name, ObjectCount)
    ensures r.Ok? ==> InTable(r.value.id) && r.value == Row(Slot(r.value.id))
    ensures r.Ok? ==> r.value.name == name && NameCount(Table(), name, Slot(r.value.id)) == order
    ensures r.Ok? ==> r.value.id != 0xFF
    ensures r.Err? ==> r.status == InternalError
  {
    FoundByName(name, order);
    var j := FindByName(Table(), name, order, 0, 0);
    if j < ObjectCount then Ok(Row(j)) else Err(InternalError)
  }

  /** What the scan of GetByName finds, in terms of the table's columns. */
  lemma FoundByName(name: string, order: int)
    ensures var j := FindByName(Table(), name, order, 0, 0);
      (j < ObjectCount <==> 0 <= order < NameCount(Table(), name, ObjectCount))
      && (j < ObjectCount ==> Slot(RowId(j)) == j && RowId(j) != 0xFF)
      && (j < ObjectCount ==> RowName(j) == name && NameCount(Table(), name, j) == order)
  {
    FindByNameCounts(Table(), name, order, 0, 0);
    var j := FindByName(Table(), name, order, 0, 0);
    if j < ObjectCount {
      SlotOfRow(j);
      RowIdNotMax(j);
    }
  }

  /** Skipping the rows of other names up to the next row with `name`. */
  lemma {:induction false} SkipOthers(t: seq<BTHomeObject>, name: string, order: int, k: nat, j: nat, n: int)
    requires k <= j < |t|
    requires forall i :: k <= i < j ==> t[i].name != name
    requires t[j].name == name
    ensures FindByName(t, name, order, k, n)
            == if n == order then j else FindByName(t, name, order, j + 1, n + 1)
    decreases j - k
  {
    if k < j {
      assert t[k].name != name;
      SkipOthers(t, name, order, k + 1, j, n);
    }
  }

  /** GetId(name, order): the id of that row, or UINT8_MAX on a miss. */
  function GetId(name: string, order: int): (r: byte)
    ensures r == 0xFF <==> !(0 <= order < NameCount(Table(), name, ObjectCount))
    ensures r != 0xFF ==> GetByName(name, order).Ok? && GetByName(name, order).value.id == r
  {
    match GetByName(name, order)
    case Ok(obj) => obj.id
    case Err(_) => 0xFF
  }

  // The two temperature rows and the two humidity rows are told apart by
  // order: the scans below walk the table row by row.

  /** Where "temperature" and "humidity" sit among the first rows. */
  lemma TemperatureRows()
    ensures forall i :: 0 <= i < 2 ==> Table()[i].name != "temperature"
    ensures forall i :: 3 <= i < 28 ==> Table()[i].name != "temperature"
    ensures Table()[2].name == "temperature" && Table()[28].name == "temperature"
  {
    assert forall i :: 0 <= i < 28 && i != 2 ==> RowName(i) != "temperature";
  }

  lemma HumidityRows()
    ensures forall i :: 0 <= i < 3 ==> Table()[i].name != "humidity"
    ensures forall i :: 4 <= i < 18 ==> Table()[i].name != "humidity"
    ensures Table()[3].name == "humidity" && Table()[18].name == "humidity"
  {
    assert forall i :: 0 <= i < 18 && i != 3 ==> RowName(i) != "humidity";
  }

  lemma ScanFirstTemperature()
    ensures FindByName(Table(), "temperature", 0, 0, 0) == 2
  {
    TemperatureRows();
    SkipOthers(Table(), "temperature", 0, 0, 2, 0);
  }

  lemma ScanSecondTemperature()
    ensures FindByName(Table(), "temperature", 1, 0, 0) == 28
  {
    TemperatureRows();
    SkipOthers(Table(), "temperature", 1, 0, 2, 0);
    SkipOthers(Table(), "temperature", 1, 3, 28, 1);
  }

  lemma FirstTemperatureId()
    ensures GetId("temperature", 0) == Temperature1
  {
    ScanFirstTemperature();
    assert RowId(2) == 0x02;
  }

  lemma SecondTemperatureId()
    ensures GetId("temperature", 1) == Temperature2
  {
    ScanSecondTemperature();
    assert RowId(28) == 0x45;
  }

  lemma ScanFirstHumidity()
    ensures FindByName(Table(), "humidity", 0, 0, 0) == 3
  {
    HumidityRows();
    SkipOthers(Table(), "humidity", 0, 0, 3, 0);
  }

  lemma ScanSecondHumidity()
    ensures FindByName(Table(), "humidity", 1, 0, 0) == 18
  {
    HumidityRows();
    SkipOthers(Table(), "humidity", 1, 0, 3, 0);
    SkipOthers(Table(), "humidity", 1, 4, 18, 1);
  }

  lemma FirstHumidityId()
    ensures GetId("humidity", 0) == Humidity1
  {
    ScanFirstHumidity();
    assert RowId(3) == 0x03;
  }

  lemma SecondHumidityId()
    ensures GetId("humidity", 1) == Humidity2
  {
    ScanSecondHumidity();
    assert RowId(18) == 0x2E;
  }

  /** GetName: the row's name, or "unknown". */
  function GetName(id: byte): (r: string)
    ensures !InTable(id) ==> r == "unknown"
    ensures InTable(id) ==> r == RowName(Slot(id))
  {
    GetIsRow(id);
    match Get(id)
    case Ok(obj) => obj.name
    case Err(_) => "unknown"
  }

  function IsSensor(id: byte): (r: bool)
    ensures r <==> InTable(id) && RowType(Slot(id)) == Sensor
  {
    GetIsRow(id);
    match Get(id)
    case Ok(obj) => obj.dtype == Sensor
    case Err(_) => false
  }

  function IsBinarySensor(id: byte): (r: bool)
    ensures r <==> InTable(id) && RowType(Slot(id)) == BinarySensor
  {
    GetIsRow(id);
    match Get(id)
    case Ok(obj) => obj.dtype == BinarySensor
    case Err(_) => false
  }

  function IsEvent(id: byte): (r: bool)
    ensures r <==> InTable(id) && RowType(Slot(id)) == Event
  {
    GetIsRow(id);
    match Get(id)
    case Ok(obj) => obj.dtype == Event
    case Err(_) => false
  }

  /** GetDataType: the row's category, kAny exactly for an unknown id. */
  function GetDataType(id: byte): (r: DataType)
    ensures !InTable(id) ==> r == Any
    ensures InTable(id) ==> r == RowType(Slot(id)) && r != Any
  {
    GetIsRow(id);
    match Get(id)
    case Ok(obj) =>
      RowShapes(Slot(id));
      obj.dtype
    case Err(_) => Any
  }

  /** GetUnit: the row's unit, empty for an unknown id. */
  function GetUnit(id: byte): (r: string)
    ensures !InTable(id) ==> r == ""
    ensures InTable(id) ==> r == RowUnit(Slot(id))
  {
    GetIsRow(id);
    match Get(id)
    case Ok(obj) => obj.unit
    case Err(_) => ""
  }

  /** GetPrecision: the number of decimals, -exponent for a negative exponent, else 0. */
  function GetPrecision(id: byte): (r: nat)
    ensures !InTable(id) ==> r == 0
    ensures InTable(id) ==> r == -RowExponent(Slot(id))
  {
    GetIsRow(id);
    match Get(id)
    case Ok(obj) =>
      RowShapes(Slot(id));
      if obj.exponent >= 0 then 0 else -obj.exponent
    case Err(_) => 0
  }

  /** Unknown ids fall back to the defaults. */
  lemma UnknownIdDefaults(id: byte)
    requires forall i :: 0 <= i < ObjectCount ==> RowId(i) != id
    ensures GetName(id) == "unknown" && !IsSensor(id) && !IsBinarySensor(id) && !IsEvent(id)
    ensures GetDataType(id) == Any && GetUnit(id) == "" && GetPrecision(id) == 0
  {
    AbsentId(id);
  }

  // Known ids report their row; the precision is the number of decimals of
  // the exponent. The ids are written out: 0x02 and 0x45 are the two
  // temperatures, 0x2D the window, 0x3A the button, 0x00 the packet id and
  // 0x2E the second humidity.

  lemma FirstTemperatureIsSensor()
    ensures IsSensor(0x02) && GetPrecision(0x02) == 2
  {
    assert Slot(0x02) == 2;
  }

  lemma SecondTemperaturePrecision()
    ensures GetPrecision(0x45) == 1
  {
    assert Slot(0x45) == 28 && RowExponent(28) == -1;
  }

  lemma WindowIsBinarySensor()
    ensures IsBinarySensor(0x2D)
  {
    assert Slot(0x2D) == 69;
  }

  lemma ButtonIsEvent()
    ensures IsEvent(0x3A)
  {
    assert Slot(0x3A) == 70;
  }

  lemma PacketIdIsOther()
    ensures GetDataType(0x00) == Other && !IsSensor(0x00)
  {
    assert Slot(0x00) == 0;
  }

  lemma SecondHumidityName()
    ensures GetName(0x2E) == "humidity"
  {
    assert Slot(0x2E) == 18;
  }
}
