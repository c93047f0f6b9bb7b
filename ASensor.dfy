// The accelerometer beacon adapter (BTSensorASensor.cpp): a 27-byte
// advertisement with vendor id 0x00D2, reporting motion on change and
// temperature and battery only with a full report.
module ASensor {
  import opened Wrappers
  import opened Bytes
  import opened SensorReports

  /** sizeof(AdvDataASensor). */
  const FrameLen: nat := 27
  /** The vendor id at bytes 9-10. */
  const Vendor: u16 := 0x00D2

  const MovingBit: bv32 := 0x1

  const TempSubid: u32 := 0
  const MovingSubid: u32 := 1
  const BattSubid: u32 := 2

  /** The adapter's fields: temperature and battery as int8_t, and the motion flag. */
  datatype Fields = Fields(temp: i8, battPct: i8, moving: bool)

  const Initial: Fields := Fields(0, 0, false)

  /** BTSensorASensor::Taste: exactly one frame with the vendor id. */
  predicate Taste(adv: seq<byte>)
    ensures Taste(adv) <==> |adv| == 27 && adv[9] == 0xD2 && adv[10] == 0x00
  {
    |adv| == FrameLen && Le16(adv[9], adv[10]) == Vendor
  }

  /** The motion flag as the number the firmware compares and reports. */
  function MovingValue(m: bool): (r: nat)
    ensures r <= 1 && (r == 1 <==> m)
  {
    if m then 1 else 0
  }

  /**
   * The field update of Update: temperature and battery are always stored
   * and never flagged; the motion byte is flagged whenever it differs from the
   * stored flag read as 0 or 1.
   */
  function Apply(s: Fields, adv: seq<byte>): (r: Step<Fields>)
    requires |adv| == FrameLen
    ensures r.next.temp % 0x100 == adv[18] && r.next.battPct % 0x100 == adv[25]
    ensures r.changed == 0 || r.changed == MovingBit
    ensures r.changed == MovingBit <==> adv[19] != MovingValue(s.moving)
    ensures r.next.moving == if r.changed == MovingBit then adv[19] != 0 else s.moving
  {
    var changed := MovingValue(s.moving) != adv[19];
    Step(Fields(AsI8(adv[18]), AsI8(adv[25]), if changed then adv[19] != 0 else s.moving),
         Flag(changed, MovingBit))
  }

  /** Update: a frame that does not taste right is ignored. */
  function Update(s: Fields, adv: seq<byte>): (r: Option<Step<Fields>>)
    ensures r.Some? <==> Taste(adv)
    ensures r.Some? ==> r.value == Apply(s, adv)
  {
    if Taste(adv) then Some(Apply(s, adv)) else None
  }

  /** Report(what): motion for bit 0; temperature and battery only for a full report. */
  function Items(s: Fields, what: bv32, sid: u32, ts: real): (r: seq<Data>)
    ensures Data(sid, MovingSubid, ts, MovingValue(s.moving) as real) in r <==> Flagged(what, MovingBit)
    ensures Data(sid, TempSubid, ts, s.temp as real) in r <==> what == ReportAll
    ensures Data(sid, BattSubid, ts, s.battPct as real) in r <==> what == ReportAll
    ensures |r| <= 3
    ensures Stamped(r, sid, ts)
  {
    var all := what == ReportAll;
    var a := Emit(Flagged(what, MovingBit), sid, MovingSubid, ts, MovingValue(s.moving) as real);
    var b := Emit(all, sid, TempSubid, ts, s.temp as real);
    var c := Emit(all, sid, BattSubid, ts, s.battPct as real);
    var dm := Data(sid, MovingSubid, ts, MovingValue(s.moving) as real);
    var dt := Data(sid, TempSubid, ts, s.temp as real);
    var db := Data(sid, BattSubid, ts, s.battPct as real);
    assert dm !in b && dm !in c;
    assert dt !in a && dt !in c;
    assert db !in a && db !in b;
    StampedJoin(b, c, sid, ts);
    StampedJoin(a, b + c, sid, ts);
    a + (b + c)
  }

  /** A change of the motion flag is always flagged, so it is reported on change. */
  lemma MotionChangeIsFlagged(s: Fields, adv: seq<byte>)
    requires |adv| == FrameLen && Apply(s, adv).next.moving != s.moving
    ensures Apply(s, adv).changed == MovingBit
  {
  }

  /**
   * The motion byte is compared as a number: a byte of 2 while moving is
   * flagged although the stored flag stays set. Temperature and battery
   * changes alone are never flagged.
   */
  lemma MotionByteComparedAsNumber(adv: seq<byte>)
    requires |adv| == FrameLen && adv[19] == 2
    ensures Apply(Fields(0, 0, true), adv).changed == MovingBit
    ensures Apply(Fields(0, 0, true), adv).next.moving
  {
  }

  /** A change report after an update sends at most the motion flag. */
  lemma ChangeReportIsMotionOnly(s: Fields, adv: seq<byte>, sid: u32, ts: real)
    requires |adv| == FrameLen
    ensures var r := Apply(s, adv);
      Items(r.next, r.changed, sid, ts) == if r.changed == 0 then [] else [Data(sid, MovingSubid, ts, MovingValue(r.next.moving) as real)]
  {
  }
}
