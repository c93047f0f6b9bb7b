// The BTHome adapter (BTSensorBTHome.cpp): each advertisement is parsed
// afresh and compared value by value with the frame stored from the last
// one; every sensor value that is new or different gets a bit of the changed
// mask, and Report sends the sensor values whose bit is asked for.
//
// The source numbers the bits two ways: Update counts sensor values only,
// Report counts all values. The duplicate-packet check sits behind the
// sensor-type filter, which the packet id never passes. Both are modelled as
// written and corrected; the sensor class uses the corrected versions.
module BTHomeSensor {
  import opened Wrappers
  import opened Bytes
  import GapAdv
  import opened BTHomeRegistry
  import opened BTHome
  import opened SensorReports

  // ----- Parsing an advertisement afresh -----

  /**
   * The values a newly constructed BTHomeData holds after
   * Parse(addr, ad) with no key, or None when that parse fails. Decryption is
   * compiled out, so an encrypted payload parses as an empty frame.
   */
  function FreshParse(entries: seq<GapAdv.AdvDataEntry>): (r: Option<seq<BTHomeValue>>)
    ensures r.Some? ==> Numbered(r.value)
    ensures var sd := GapAdv.ServiceData(entries, ServiceUuid);
      r.Some? <==> Accepts(sd, []) && Records(if Encrypted(sd[0]) then [] else sd[1..]).ok
  {
    var sd := GapAdv.ServiceData(entries, ServiceUuid);
    if !Accepts(sd, []) then None
    else
      var d := Records(if Encrypted(sd[0]) then [] else sd[1..]);
      if !d.ok then None
      else
        NumberKeepsNumbered([], d.values);
        assert [] + Number([], d.values) == Number([], d.values);
        Some(Number([], d.values))
  }

  /** BTSensorBTHome::Taste: parsing the advertisement into a fresh BTHomeData succeeds. */
  predicate Taste(entries: seq<GapAdv.AdvDataEntry>)
    ensures var sd := GapAdv.ServiceData(entries, ServiceUuid);
      Taste(entries) <==> |sd| > 0 && Version(sd[0]) == 2 && (Encrypted(sd[0]) || Records(sd[1..]).ok)
  {
    FreshParse(entries).Some?
  }

  // ----- Comparing with the stored frame -----

  /** The number of sensor values among the first n: the bit position Update gives value n. */
  function SensorsBefore(vs: seq<BTHomeValue>, n: nat): (c: nat)
    requires n <= |vs|
    ensures c <= n
  {
    if n == 0 then 0 else SensorsBefore(vs, n - 1) + (if vs[n - 1].dtype == Sensor then 1 else 0)
  }

  /** Later sensor values get strictly larger bit positions. */
  lemma {:induction false} SensorsBeforeStrict(vs: seq<BTHomeValue>, k: nat, m: nat)
    requires k < m <= |vs| && vs[k].dtype == Sensor
    ensures SensorsBefore(vs, k) < SensorsBefore(vs, m)
    decreases m - k
  {
    if m > k + 1 {
      SensorsBeforeStrict(vs, k, m - 1);
    }
  }

  /** GetValue(obj_id, index) on the stored frame: the value of the same id and index, if any. */
  function Previous(prev: seq<BTHomeValue>, v: BTHomeValue): (r: Option<BTHomeValue>)
    ensures r.Some? ==> r.value in prev && r.value.objId == v.objId
  {
    var p := FindValue(prev, v.objId, v.index, 0);
    if p < |prev| then Some(prev[p]) else None
  }

  /** A value is new or different: the stored frame lacks it, or holds another value there. */
  predicate Changed(prev: seq<BTHomeValue>, v: BTHomeValue) {
    Previous(prev, v).None? || !Same(Previous(prev, v).value, v)
  }

  /** A packet id that the stored frame already holds: the advertisement was seen before. */
  predicate Repeats(prev: seq<BTHomeValue>, v: BTHomeValue) {
    v.objId == PacketId && Previous(prev, v).Some? && Same(Previous(prev, v).value, v)
  }

  /**
   * The bit positions of the changed mask after the first n values: the
   * sensor position SensorsBefore(vs, k) of every sensor value k < n that
   * changed.
   */
  function Positions(prev: seq<BTHomeValue>, vs: seq<BTHomeValue>, n: nat): set<nat>
    requires n <= |vs|
  {
    if n == 0 then {}
    else
      Positions(prev, vs, n - 1) +
      (if vs[n - 1].dtype == Sensor && Changed(prev, vs[n - 1]) then {SensorsBefore(vs, n - 1)} else {})
  }

  /** The uint32_t mask m has exactly the positions of s below 32 set. */
  ghost predicate MaskOf(m: bv32, s: set<nat>) {
    forall b: nat :: BitSet(m, b) <==> b < 32 && b in s
  }

  /** Setting bit i adds position i. */
  lemma MaskAdd(m: bv32, s: set<nat>, i: nat)
    requires MaskOf(m, s)
    ensures MaskOf(m | Bit(i), s + {i})
  {
    forall b: nat
      ensures BitSet(m | Bit(i), b) <==> b < 32 && b in s + {i}
    {
      SetBit(m, i, b);
    }
  }

  /**
   * The changed mask Update builds over the first n values: bit
   * SensorsBefore(vs, k) for every changed sensor value k < n.
   */
  function Mask(prev: seq<BTHomeValue>, vs: seq<BTHomeValue>, n: nat): bv32
    requires n <= |vs|
  {
    if n == 0 then 0
    else
      var m := Mask(prev, vs, n - 1);
      if vs[n - 1].dtype == Sensor && Changed(prev, vs[n - 1]) then m | Bit(SensorsBefore(vs, n - 1)) else m
  }

  /** The mask holds exactly the positions below 32. */
  lemma {:induction false} MaskMeans(prev: seq<BTHomeValue>, vs: seq<BTHomeValue>, n: nat)
    requires n <= |vs|
    ensures MaskOf(Mask(prev, vs, n), Positions(prev, vs, n))
  {
    if n > 0 {
      MaskMeans(prev, vs, n - 1);
      var m, p := Mask(prev, vs, n - 1), Positions(prev, vs, n - 1);
      var i := SensorsBefore(vs, n - 1);
      var c := MaskStep(prev, vs, n);
      if c {
        MaskAdd(m, p, i);
      }
    }
  }

  /** One value further: its position joins the mask and the set exactly when it is a changed sensor value. */
  lemma MaskStep(prev: seq<BTHomeValue>, vs: seq<BTHomeValue>, n: nat) returns (c: bool)
    requires 0 < n <= |vs|
    ensures c ==> Mask(prev, vs, n) == Mask(prev, vs, n - 1) | Bit(SensorsBefore(vs, n - 1))
    ensures c ==> Positions(prev, vs, n) == Positions(prev, vs, n - 1) + {SensorsBefore(vs, n - 1)}
    ensures !c ==> Mask(prev, vs, n) == Mask(prev, vs, n - 1)
    ensures !c ==> Positions(prev, vs, n) == Positions(prev, vs, n - 1)
  {
    c := vs[n - 1].dtype == Sensor && Changed(prev, vs[n - 1]);
  }

  /** The position of a sensor value is in the mask exactly when that value changed. */
  lemma {:induction false} PositionsMean(prev: seq<BTHomeValue>, vs: seq<BTHomeValue>, n: nat, k: nat)
    requires n <= |vs| && k < |vs| && vs[k].dtype == Sensor
    ensures SensorsBefore(vs, k) in Positions(prev, vs, n) <==> k < n && Changed(prev, vs[k])
  {
    if n > 0 {
      PositionsMean(prev, vs, n - 1, k);
      if k < n - 1 {
        SensorsBeforeStrict(vs, k, n - 1);
      } else if k > n - 1 && vs[n - 1].dtype == Sensor {
        SensorsBeforeStrict(vs, n - 1, k);
      }
    }
  }

  /** Corrected duplicate test: some packet id of the new frame repeats the stored one. */
  function Duplicate(prev: seq<BTHomeValue>, vs: seq<BTHomeValue>, n: nat): bool
    requires n <= |vs|
  {
    n > 0 && (Duplicate(prev, vs, n - 1) || Repeats(prev, vs[n - 1]))
  }

  lemma {:induction false} DuplicateMeans(prev: seq<BTHomeValue>, vs: seq<BTHomeValue>, n: nat)
    requires n <= |vs|
    ensures Duplicate(prev, vs, n) <==> exists k :: 0 <= k < n && Repeats(prev, vs[k])
  {
    if n > 0 {
      DuplicateMeans(prev, vs, n - 1);
    }
  }

  /** A duplicate found among the first m values is one among the first n. */
  lemma {:induction false} DuplicateGrows(prev: seq<BTHomeValue>, vs: seq<BTHomeValue>, m: nat, n: nat)
    requires m <= n <= |vs| && Duplicate(prev, vs, m)
    ensures Duplicate(prev, vs, n)
    decreases n - m
  {
    if n > m {
      DuplicateGrows(prev, vs, m, n - 1);
    }
  }

  /** As written: only values that passed the sensor-type filter reach the packet-id test. */
  function DuplicateAsWritten(prev: seq<BTHomeValue>, vs: seq<BTHomeValue>, n: nat): bool
    requires n <= |vs|
  {
    n > 0 && (DuplicateAsWritten(prev, vs, n - 1) || (vs[n - 1].dtype == Sensor && Repeats(prev, vs[n - 1])))
  }

  /**
   * Update's loop over the new frame, with the packet-id test moved ahead of
   * the sensor-type filter: a repeated packet id ends it as a duplicate;
   * otherwise it yields the changed mask.
   */
  method Scan(prev: seq<BTHomeValue>, vs: seq<BTHomeValue>) returns (dup: bool, changed: bv32)
    ensures dup == Duplicate(prev, vs, |vs|)
    ensures !dup ==> changed == Mask(prev, vs, |vs|)
  {
    dup, changed := false, 0;
    var i: nat := 0;
    var j: nat := 0;
    while j < |vs|
      invariant j <= |vs| && i == SensorsBefore(vs, j)
      invariant changed == Mask(prev, vs, j) && !Duplicate(prev, vs, j) && !dup
    {
      var repeats, differs := Compare(prev, vs[j]);
      if repeats {
        DuplicateGrows(prev, vs, j + 1, |vs|);
        dup := true;
        break;
      }
      ScanStep(prev, vs, j);
      if vs[j].dtype == Sensor {
        if differs {
          changed := changed | Bit(i);
        }
        i := i + 1;
      }
      j := j + 1;
    }
  }

  /**
   * The tests of Scan's loop on one value v, through GetValue on the stored
   * frame: whether v repeats the stored packet id, and whether it is new or
   * different.
   */
  method Compare(prev: seq<BTHomeValue>, v: BTHomeValue) returns (repeats: bool, differs: bool)
    ensures repeats == Repeats(prev, v)
    ensures differs == Changed(prev, v)
  {
    var oldV := GetValue(prev, v.objId, v.index);
    repeats := v.objId == PacketId && oldV.Ok? && Same(v, oldV.value);
    differs := oldV.Err? || !Same(oldV.value, v);
  }

  /** A value that does not repeat the packet id extends the duplicate test, the mask and the sensor count by itself. */
  lemma ScanStep(prev: seq<BTHomeValue>, vs: seq<BTHomeValue>, j: nat)
    requires j < |vs| && !Repeats(prev, vs[j])
    ensures Duplicate(prev, vs, j + 1) == Duplicate(prev, vs, j)
    ensures Mask(prev, vs, j + 1) ==
      if vs[j].dtype == Sensor && Changed(prev, vs[j]) then Mask(prev, vs, j) | Bit(SensorsBefore(vs, j)) else Mask(prev, vs, j)
    ensures SensorsBefore(vs, j + 1) == SensorsBefore(vs, j) + if vs[j].dtype == Sensor then 1 else 0
  {
  }

  // ----- Reporting -----

  /** The subid of a value: (obj_id << 8) | index. */
  function Subid(v: BTHomeValue): (r: u32)
    ensures r / 0x100 == v.objId && r % 0x100 == v.index
  {
    v.objId * 0x100 + v.index
  }

  /** The float member of the value union; sensor values always carry one. */
  function FloatOf(p: Payload): real {
    if p.FloatVal? then p.f else 0.0
  }

  /** The record ReportData queues for value v. */
  function Record(v: BTHomeValue, sid: u32, ts: real): Data {
    Data(sid, Subid(v), ts, FloatOf(v.payload))
  }

  /**
   * Corrected Report(what) over the first n values: the sensor values
   * whose sensor position is set in `what`, in frame order.
   */
  function Items(vs: seq<BTHomeValue>, what: bv32, sid: u32, ts: real, n: nat): (r: seq<Data>)
    requires n <= |vs|
    ensures |r| <= n && Stamped(r, sid, ts)
  {
    if n == 0 then []
    else
      var v := vs[n - 1];
      var rest := Items(vs, what, sid, ts, n - 1);
      var one := Emit(v.dtype == Sensor && BitSet(what, SensorsBefore(vs, n - 1)), sid, Subid(v), ts, FloatOf(v.payload));
      StampedJoin(rest, one, sid, ts);
      rest + one
  }

  /** As written: Report tests bit n of `what` for value n, counting every value. */
  function ItemsAsWritten(vs: seq<BTHomeValue>, what: bv32, sid: u32, ts: real, n: nat): (r: seq<Data>)
    requires n <= |vs|
    ensures |r| <= n
  {
    if n == 0 then []
    else
      var v := vs[n - 1];
      ItemsAsWritten(vs, what, sid, ts, n - 1) +
      Emit(v.dtype == Sensor && BitSet(what, n - 1), sid, Subid(v), ts, FloatOf(v.payload))
  }

  /** The reference: the records of the sensor values (among the first 32) that changed. */
  function ChangedItems(prev: seq<BTHomeValue>, vs: seq<BTHomeValue>, sid: u32, ts: real, n: nat): (r: seq<Data>)
    requires n <= |vs|
  {
    if n == 0 then []
    else
      var v := vs[n - 1];
      ChangedItems(prev, vs, sid, ts, n - 1) +
      Emit(v.dtype == Sensor && Changed(prev, v) && SensorsBefore(vs, n - 1) < 32, sid, Subid(v), ts, FloatOf(v.payload))
  }

  /** Reporting the changed mask of Update sends exactly the sensor values that changed. */
  lemma {:induction false} ReportSendsChanges(prev: seq<BTHomeValue>, vs: seq<BTHomeValue>, what: bv32, sid: u32, ts: real, n: nat)
    requires n <= |vs| && MaskOf(what, Positions(prev, vs, |vs|))
    ensures Items(vs, what, sid, ts, n) == ChangedItems(prev, vs, sid, ts, n)
  {
    if n > 0 {
      ReportSendsChanges(prev, vs, what, sid, ts, n - 1);
      if vs[n - 1].dtype == Sensor {
        PositionsMean(prev, vs, |vs|, n - 1);
      }
    }
  }

  /** Where no other value precedes a sensor value, both numberings agree. */
  lemma {:induction false} AsWrittenAgreesWhenSensorsLead(vs: seq<BTHomeValue>, what: bv32, sid: u32, ts: real, n: nat)
    requires n <= |vs|
    requires forall k :: 0 <= k < |vs| && vs[k].dtype == Sensor ==> SensorsBefore(vs, k) == k
    ensures ItemsAsWritten(vs, what, sid, ts, n) == Items(vs, what, sid, ts, n)
  {
    if n > 0 {
      AsWrittenAgreesWhenSensorsLead(vs, what, sid, ts, n - 1);
    }
  }

  /**
   * A frame holding a packet id and then a temperature, seen for the first
   * time: Update flags the temperature with bit 0, its position among sensor
   * values, but Report looks for it at bit 1, its position among all values,
   * so as written the new temperature is never sent.
   */
  lemma PacketIdHidesTemperature(sid: u32, ts: real)
    ensures var vs := [BTHomeValue(PacketId, 0, Other, UnsignedVal(5)),
                       BTHomeValue(Temperature1, 0, Sensor, FloatVal(25.0))];
      && MaskOf(Bit(0), Positions([], vs, 2))
      && ItemsAsWritten(vs, Bit(0), sid, ts, 2) == []
      && Items(vs, Bit(0), sid, ts, 2) == [Data(sid, 0x0200, ts, 25.0)]
  {
    var vs := [BTHomeValue(PacketId, 0, Other, UnsignedVal(5)),
               BTHomeValue(Temperature1, 0, Sensor, FloatVal(25.0))];
    assert SensorsBefore(vs, 1) == 0;
    assert Positions([], vs, 1) == {};
    assert Previous([], vs[1]).None?;
    assert Positions([], vs, 2) == {0};
    forall b: nat
      ensures BitSet(Bit(0), b) <==> b < 32 && b in {0}
    {
      if b < 32 {
        BitsDisjoint(0, b);
      }
    }
    assert !BitSet(Bit(0), 1);
  }

  // ----- The packet id is never a sensor value -----

  /** Every packet id a frame decodes to is of type Other. */
  lemma {:induction false} RecordsPacketIdsOther(data: seq<byte>)
    ensures forall k :: 0 <= k < |Records(data).values| && Records(data).values[k].objId == PacketId
                        ==> Records(data).values[k].dtype == Other
    decreases |data|
  {
    if |data| >= 2 && ParseAndConsume(data).Ok? {
      var c := ParseAndConsume(data).value;
      RecordsPacketIdsOther(c.rest);
      if data[0] == PacketId {
        PacketIdRecord(data);
      }
      assert Records(data).values == [c.value] + Records(c.rest).values;
    }
  }

  /** A freshly parsed frame holds its packet ids as values of type Other. */
  lemma FreshPacketIdsOther(entries: seq<GapAdv.AdvDataEntry>)
    requires FreshParse(entries).Some?
    ensures forall k :: 0 <= k < |FreshParse(entries).value| && FreshParse(entries).value[k].objId == PacketId
                        ==> FreshParse(entries).value[k].dtype == Other
  {
    var sd := GapAdv.ServiceData(entries, ServiceUuid);
    RecordsPacketIdsOther(if Encrypted(sd[0]) then [] else sd[1..]);
  }

  /** As written, the duplicate test never fires on a parsed frame, whatever the stored one. */
  lemma DuplicateCheckIsDead(entries: seq<GapAdv.AdvDataEntry>, prev: seq<BTHomeValue>, n: nat)
    requires FreshParse(entries).Some? && n <= |FreshParse(entries).value|
    ensures !DuplicateAsWritten(prev, FreshParse(entries).value, n)
  {
    FreshPacketIdsOther(entries);
    NoSensorPacketIds(prev, FreshParse(entries).value, n);
  }

  /** The as-written test needs a packet id typed as a sensor, which values whose packet ids are Other never hold. */
  lemma {:induction false} NoSensorPacketIds(prev: seq<BTHomeValue>, vs: seq<BTHomeValue>, n: nat)
    requires n <= |vs| && forall k :: 0 <= k < |vs| && vs[k].objId == PacketId ==> vs[k].dtype == Other
    ensures !DuplicateAsWritten(prev, vs, n)
  {
    if n > 0 {
      NoSensorPacketIds(prev, vs, n - 1);
    }
  }

  /**
   * Corrected, the same frame received twice is a duplicate once it carries a
   * packet id (with at most 256 values of that id).
   */
  lemma RepeatedFrameIsDuplicate(vs: seq<BTHomeValue>, q: nat)
    requires Numbered(vs) && q < |vs| && vs[q].objId == PacketId
    requires CountId(vs, PacketId, |vs|) <= 0x100
    ensures Duplicate(vs, vs, |vs|)
  {
    FindOwnValue(vs, q);
    assert Repeats(vs, vs[q]);
    DuplicateMeans(vs, vs, |vs|);
  }
}
