// The Xiaomi thermometer adapter for the pvvx custom firmware
// (BTSensorMiPVVX.cpp): a 19-byte service-data element carrying the
// reversed address, temperature, humidity and battery, gated by a
// measurement counter.
module MiPVVX {
  import opened Wrappers
  import opened Bytes
  import opened ShosBt
  import opened SensorReports

  /** sizeof(AdvDataMiPVVX). */
  const FrameLen: nat := 19
  /** GATT service 0x181A, Environmental Sensing. */
  const EnvSensingUuid: u16 := 0x181A

  // The bits of the changed mask.
  const TempBit: bv32 := 0x1
  const RhBit: bv32 := 0x2
  const BattBit: bv32 := 0x4

  const TempSubid: u32 := 0
  const RhSubid: u32 := 1
  const BattSubid: u32 := 2

  /** The adapter's fields: centidegrees, centipercent, millivolts, percent and the counter. */
  datatype Fields = Fields(temp: i16, rhPct: u16, battMv: u16, battPct: byte, ctr: byte)

  const Initial: Fields := Fields(0, 0, 0, 0, 0)

  /**
   * BTSensorMiPVVX::Taste: exactly one frame, the Environmental Sensing UUID
   * at bytes 2-3, and the reversed address bytes 4-9 naming the sender. The
   * size and type bytes are not looked at.
   */
  predicate Taste(addr: Addr, adv: seq<byte>)
    ensures Taste(addr, adv) <==>
      && |adv| == 19 && adv[2] == 0x1A && adv[3] == 0x18
      && |addr.addr| == 6 && forall i :: 0 <= i < 6 ==> addr.addr[i] == adv[9 - i]
  {
    |adv| == FrameLen && Le16(adv[2], adv[3]) == EnvSensingUuid &&
    SameAddr(AddrFromBytes(adv[4..10], true), addr)
  }

  /** The readings of a frame, as Update would store them. */
  function Reading(adv: seq<byte>): (r: Fields)
    requires |adv| == FrameLen
    ensures r.temp % 0x1_0000 == Le16(adv[10], adv[11])
    ensures r.rhPct == Le16(adv[12], adv[13]) && r.battMv == Le16(adv[14], adv[15])
    ensures r.battPct == adv[16] && r.ctr == adv[17]
  {
    Fields(AsI16(Le16(adv[10], adv[11])), Le16(adv[12], adv[13]), Le16(adv[14], adv[15]), adv[16], adv[17])
  }

  /**
   * The field update of Update for a frame that tastes right: nothing when
   * the counter repeats; otherwise every reading is stored, and temperature,
   * humidity and battery percentage are flagged when they differ.
   */
  function Apply(s: Fields, adv: seq<byte>): (r: Step<Fields>)
    requires |adv| == FrameLen
    ensures adv[17] == s.ctr ==> r == Step(s, 0)
    ensures adv[17] != s.ctr ==> r.next == Reading(adv)
    ensures Flagged(r.changed, TempBit) <==> r.next.temp != s.temp
    ensures Flagged(r.changed, RhBit) <==> r.next.rhPct != s.rhPct
    ensures Flagged(r.changed, BattBit) <==> r.next.battPct != s.battPct
    ensures r.changed & 0xFFFF_FFF8 == 0
  {
    var rd := Reading(adv);
    if rd.ctr == s.ctr then Step(s, 0)
    else
      var tempNew := rd.temp != s.temp;
      var rhNew := rd.rhPct != s.rhPct;
      var battNew := rd.battPct != s.battPct;
      Step(Fields(if tempNew then rd.temp else s.temp, if rhNew then rd.rhPct else s.rhPct,
                  rd.battMv, if battNew then rd.battPct else s.battPct, rd.ctr),
           Flag(tempNew, TempBit) | Flag(rhNew, RhBit) | Flag(battNew, BattBit))
  }

  /** Update: a frame that does not taste right is ignored. */
  function Update(s: Fields, addr: Addr, adv: seq<byte>): (r: Option<Step<Fields>>)
    ensures r.Some? <==> Taste(addr, adv)
    ensures r.Some? ==> r.value == Apply(s, adv)
  {
    if Taste(addr, adv) then Some(Apply(s, adv)) else None
  }

  /** Report(what): temperature and humidity in units, battery in percent, for the bits asked. */
  function Items(s: Fields, what: bv32, sid: u32, ts: real): (r: seq<Data>)
    ensures Data(sid, TempSubid, ts, s.temp as real / 100.0) in r <==> Flagged(what, TempBit)
    ensures Data(sid, RhSubid, ts, s.rhPct as real / 100.0) in r <==> Flagged(what, RhBit)
    ensures Data(sid, BattSubid, ts, s.battPct as real) in r <==> Flagged(what, BattBit)
    ensures |r| <= 3
    ensures Stamped(r, sid, ts)
  {
    var a := Emit(Flagged(what, TempBit), sid, TempSubid, ts, s.temp as real / 100.0);
    var b := Emit(Flagged(what, RhBit), sid, RhSubid, ts, s.rhPct as real / 100.0);
    var c := Emit(Flagged(what, BattBit), sid, BattSubid, ts, s.battPct as real);
    var dt := Data(sid, TempSubid, ts, s.temp as real / 100.0);
    var dr := Data(sid, RhSubid, ts, s.rhPct as real / 100.0);
    var db := Data(sid, BattSubid, ts, s.battPct as real);
    assert dt !in b && dt !in c;
    assert dr !in a && dr !in c;
    assert db !in a && db !in b;
    StampedJoin(b, c, sid, ts);
    StampedJoin(a, b + c, sid, ts);
    a + (b + c)
  }

  /** A reading with the same counter as the last one changes nothing and reports nothing. */
  lemma RepeatedCounterIsSilent(s: Fields, adv: seq<byte>, sid: u32, ts: real)
    requires |adv| == FrameLen && adv[17] == s.ctr
    ensures Apply(s, adv).next == s
    ensures Items(s, Apply(s, adv).changed, sid, ts) == []
  {
  }

  /** With a new counter, every flagged reading is reported with the value just decoded. */
  lemma NewReadingsAreReported(s: Fields, adv: seq<byte>, sid: u32, ts: real)
    requires |adv| == FrameLen && adv[17] != s.ctr
    ensures var r := Apply(s, adv);
      && (Reading(adv).temp != s.temp ==>
            Data(sid, TempSubid, ts, AsI16(Le16(adv[10], adv[11])) as real / 100.0) in Items(r.next, r.changed, sid, ts))
      && (Reading(adv).rhPct != s.rhPct ==>
            Data(sid, RhSubid, ts, Le16(adv[12], adv[13]) as real / 100.0) in Items(r.next, r.changed, sid, ts))
      && (Reading(adv).battPct != s.battPct ==>
            Data(sid, BattSubid, ts, adv[16] as real) in Items(r.next, r.changed, sid, ts))
  {
  }
}
