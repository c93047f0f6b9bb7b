// The Xiaomi thermometer adapter for the atc1441 custom firmware
// (BTSensorMiATS.cpp): a 17-byte frame carrying the address in order, a
// big-endian temperature, humidity and battery, gated by a packet counter.
module MiATS {
  import opened Wrappers
  import opened Bytes
  import opened ShosBt
  import opened SensorReports

  /** sizeof(AdvDataMiATS). */
  const FrameLen: nat := 17

  const TempBit: bv32 := 0x1
  const RhBit: bv32 := 0x2
  const BattBit: bv32 := 0x4

  const TempSubid: u32 := 0
  const RhSubid: u32 := 1
  const BattSubid: u32 := 2

  /**
   * The adapter's fields. temp and battMv hold the two bytes as a
   * little-endian CPU loads them from the frame, although the frame stores
   * them big-endian.
   */
  datatype Fields = Fields(temp: u16, rhPct: byte, battPct: byte, battMv: u16, pktCnt: byte)

  const Initial: Fields := Fields(0, 0, 0, 0, 0)

  /** BTSensorMiATS::Taste: exactly one frame whose address bytes 4-9, taken in order, name the sender. */
  predicate Taste(addr: Addr, adv: seq<byte>)
    ensures Taste(addr, adv) <==> |adv| == 17 && addr.addr == adv[4..10]
  {
    |adv| == FrameLen && SameAddr(AddrFromBytes(adv[4..10], false), addr)
  }

  /** ntohs on a little-endian CPU: the two bytes swapped. */
  function Swap16(w: u16): (r: u16)
    ensures r % 0x100 == w / 0x100 && r / 0x100 == w % 0x100
  {
    Le16(w / 0x100, w % 0x100)
  }

  /** Swapping twice gives the value back. */
  lemma SwapInvolutive(w: u16)
    ensures Swap16(Swap16(w)) == w
  {
  }

  /** The readings of a frame, as Update would store them. */
  function Reading(adv: seq<byte>): (r: Fields)
    requires |adv| == FrameLen
    ensures Swap16(r.temp) == Be16(adv[10], adv[11]) && Swap16(r.battMv) == Be16(adv[14], adv[15])
    ensures r.rhPct == adv[12] && r.battPct == adv[13] && r.pktCnt == adv[16]
  {
    Fields(Le16(adv[10], adv[11]), adv[12], adv[13], Le16(adv[14], adv[15]), adv[16])
  }

  /**
   * The field update of Update for a frame that tastes right: nothing when
   * the packet counter repeats; otherwise every reading is stored, and
   * temperature, humidity and battery percentage are flagged when they differ.
   */
  function Apply(s: Fields, adv: seq<byte>): (r: Step<Fields>)
    requires |adv| == FrameLen
    ensures adv[16] == s.pktCnt ==> r == Step(s, 0)
    ensures adv[16] != s.pktCnt ==> r.next == Reading(adv)
    ensures Flagged(r.changed, TempBit) <==> r.next.temp != s.temp
    ensures Flagged(r.changed, RhBit) <==> r.next.rhPct != s.rhPct
    ensures Flagged(r.changed, BattBit) <==> r.next.battPct != s.battPct
    ensures r.changed & 0xFFFF_FFF8 == 0
  {
    var rd := Reading(adv);
    if rd.pktCnt == s.pktCnt then Step(s, 0)
    else
      var tempNew := rd.temp != s.temp;
      var rhNew := rd.rhPct != s.rhPct;
      var battNew := rd.battPct != s.battPct;
      Step(Fields(if tempNew then rd.temp else s.temp, if rhNew then rd.rhPct else s.rhPct,
                  if battNew then rd.battPct else s.battPct, rd.battMv, rd.pktCnt),
           Flag(tempNew, TempBit) | Flag(rhNew, RhBit) | Flag(battNew, BattBit))
  }

  /** Update: a frame that does not taste right is ignored. */
  function Update(s: Fields, addr: Addr, adv: seq<byte>): (r: Option<Step<Fields>>)
    ensures r.Some? <==> Taste(addr, adv)
    ensures r.Some? ==> r.value == Apply(s, adv)
  {
    if Taste(addr, adv) then Some(Apply(s, adv)) else None
  }

  /** The temperature Report sends: the signed big-endian reading in tenths of a degree. */
  function Celsius(s: Fields): real {
    AsI16(Swap16(s.temp)) as real / 10.0
  }

  /** Report(what): temperature, humidity and battery for the bits asked. */
  function Items(s: Fields, what: bv32, sid: u32, ts: real): (r: seq<Data>)
    ensures Data(sid, TempSubid, ts, Celsius(s)) in r <==> Flagged(what, TempBit)
    ensures Data(sid, RhSubid, ts, s.rhPct as real) in r <==> Flagged(what, RhBit)
    ensures Data(sid, BattSubid, ts, s.battPct as real) in r <==> Flagged(what, BattBit)
    ensures |r| <= 3
    ensures Stamped(r, sid, ts)
  {
    var a := Emit(Flagged(what, TempBit), sid, TempSubid, ts, Celsius(s));
    var b := Emit(Flagged(what, RhBit), sid, RhSubid, ts, s.rhPct as real);
    var c := Emit(Flagged(what, BattBit), sid, BattSubid, ts, s.battPct as real);
    var dt := Data(sid, TempSubid, ts, Celsius(s));
    var dr := Data(sid, RhSubid, ts, s.rhPct as real);
    var db := Data(sid, BattSubid, ts, s.battPct as real);
    assert dt !in b && dt !in c;
    assert dr !in a && dr !in c;
    assert db !in a && db !in b;
    StampedJoin(b, c, sid, ts);
    StampedJoin(a, b + c, sid, ts);
    a + (b + c)
  }

  /**
   * The temperature reported after a new frame is the big-endian signed
   * field at bytes 10-11 in tenths of a degree: bytes 0x00 0xE7 give 23.1.
   */
  lemma {:induction false} ReportedTemperature(s: Fields, adv: seq<byte>)
    requires |adv| == FrameLen && adv[16] != s.pktCnt
    ensures Celsius(Apply(s, adv).next) == AsI16(Be16(adv[10], adv[11])) as real / 10.0
    ensures adv[10] == 0x00 && adv[11] == 0xE7 ==> Celsius(Apply(s, adv).next) == 23.1
    ensures adv[10] == 0xFF && adv[11] == 0xF6 ==> Celsius(Apply(s, adv).next) == -1.0
  {
    assert Apply(s, adv).next.temp == Le16(adv[10], adv[11]);
  }

  /** A frame with the same packet counter as the last one changes nothing and reports nothing. */
  lemma RepeatedCounterIsSilent(s: Fields, adv: seq<byte>, sid: u32, ts: real)
    requires |adv| == FrameLen && adv[16] == s.pktCnt
    ensures Apply(s, adv).next == s
    ensures Items(s, Apply(s, adv).changed, sid, ts) == []
  {
  }
}
