// The Xavax radiator thermostat adapter (BTSensorXavax.cpp). A thermostat is
// recognised by the service it advertises; its readings come in eight bytes
// of manufacturer data, and a filter drops the bogus temperatures it sends.
module Xavax {
  import opened Wrappers
  import opened Bytes
  import opened ShosBt
  import GapAdv
  import opened SensorReports

  /** kXavaxSvcUUID, 47e9ee00-47e9-11e4-8939-164230d1df67. */
  const ServiceUuid: Uuid :=
    UuidFromBigEndian([0x47, 0xE9, 0xEE, 0x00, 0x47, 0xE9, 0x11, 0xE4,
                       0x89, 0x39, 0x16, 0x42, 0x30, 0xD1, 0xDF, 0x67])

  /** sizeof(AdvDataXavax): temp, tgt_temp, batt_pct, mode, state, 0xFF and two unknown bytes. */
  const FrameLen: nat := 8

  // The bits of the changed mask (the bit-fields of union ReportData).
  const TempBit: bv32 := 0x1
  const TgtTempBit: bv32 := 0x2
  const BattBit: bv32 := 0x4
  const StateBit: bv32 := 0x8

  // Subids of the report records.
  const TempSubid: u32 := 0
  const TgtTempSubid: u32 := 1
  const BattSubid: u32 := 2
  const StateSubid: u32 := 4

  /** The adapter's fields; temperatures are in half degrees, 0 and 0xFF mean unknown. */
  datatype Fields = Fields(temp: byte, tgtTemp: byte, bogusTgtTemp: byte, battPct: byte, state: byte)

  const Initial: Fields := Fields(0, 0, 0, 0, 0)

  /** Element e is a 128-bit service list carrying the Xavax UUID at offset j. */
  predicate ListsAt(e: GapAdv.AdvDataEntry, j: int) {
    (e.Type() == GapAdv.Service128Incomplete || e.Type() == GapAdv.Service128) &&
    GapAdv.ChunkAt(e.Data(), j, ServiceUuid)
  }

  /** BTSensorXavax::Taste: the advertisement lists the Xavax service. */
  predicate Taste(adv: seq<byte>)
    ensures var es := GapAdv.SplitAd(adv).entries;
      Taste(adv) <==> exists i, j :: 0 <= i < |es| && ListsAt(es[i], j)
  {
    var es := GapAdv.SplitAd(adv).entries;
    TasteMeans(es);
    ServiceUuid in GapAdv.Services(es)
  }

  /** The Xavax UUID is among the services of `es` exactly when a 128-bit list carries its bytes. */
  lemma TasteMeans(es: seq<GapAdv.AdvDataEntry>)
    ensures ServiceUuid in GapAdv.Services(es) <==> exists i, j :: 0 <= i < |es| && ListsAt(es[i], j)
  {
    GapAdv.InServices(es, ServiceUuid);
    forall i | 0 <= i < |es|
      ensures ServiceUuid in GapAdv.EntryServices(es[i]) <==> exists j :: ListsAt(es[i], j)
    {
      EntryLists(es[i]);
    }
  }

  /** One element lists the Xavax UUID exactly when it is a 128-bit list carrying its bytes. */
  lemma EntryLists(e: GapAdv.AdvDataEntry)
    ensures ServiceUuid in GapAdv.EntryServices(e) <==> exists j :: ListsAt(e, j)
  {
    var t := e.Type();
    if t == GapAdv.Service128Incomplete || t == GapAdv.Service128 {
      assert GapAdv.EntryServices(e) == GapAdv.UuidChunks(e.Data(), 16);
      GapAdv.InChunks16(e.Data(), ServiceUuid);
      if exists j :: GapAdv.ChunkAt(e.Data(), j, ServiceUuid) {
        var j :| GapAdv.ChunkAt(e.Data(), j, ServiceUuid);
        assert ListsAt(e, j);
      }
    } else {
      assert ServiceUuid.Len() == 16;
    }
  }

  /** The manufacturer-specific data of the advertisement, empty when there is none. */
  function Frame(adv: seq<byte>): seq<byte> {
    GapAdv.DataByType(GapAdv.SplitAd(adv).entries, GapAdv.VendorSpecific)
  }

  /** ConvTemp: half degrees to degrees; 0xFF has no value (NaN). */
  function ConvTemp(t: byte): (r: Option<real>)
    ensures r.None? <==> t == 0xFF
    ensures r.Some? ==> r.value * 2.0 == t as real
  {
    if t == 0xFF then None else Some(t as real / 2.0)
  }

  function Dist(a: byte, b: byte): nat {
    if a >= b then a - b else b - a
  }

  /**
   * A reading whose temperature differs from the stored one, equals the stored
   * target and jumps by two degrees or more: the thermostat sent its target
   * as the temperature.
   */
  predicate Bogus(s: Fields, xd: seq<byte>)
    requires |xd| == FrameLen
  {
    s.temp != xd[0] && xd[0] == s.tgtTemp && Dist(xd[0], s.temp) >= 4
  }

  /**
   * The field update of Update for a well-sized frame `xd`: what is stored,
   * and which readings are flagged as changed.
   */
  function Apply(s: Fields, xd: seq<byte>): (r: Step<Fields>)
    requires |xd| == FrameLen
    // a bit is set exactly for the fields whose value changed, and no other bit is
    ensures Flagged(r.changed, TempBit) <==> r.next.temp != s.temp
    ensures Flagged(r.changed, TgtTempBit) <==> r.next.tgtTemp != s.tgtTemp
    ensures Flagged(r.changed, BattBit) <==> r.next.battPct != s.battPct
    ensures Flagged(r.changed, StateBit) <==> r.next.state != s.state
    ensures r.changed & 0xFFFF_FFF0 == 0
    // the temperature is taken unless bogus, and a bogus one records the incoming target
    ensures r.next.temp == if Bogus(s, xd) then s.temp else xd[0]
    ensures r.next.bogusTgtTemp == if Bogus(s, xd) then xd[1] else s.bogusTgtTemp
    // the target is taken unless it is the remembered bogus value
    ensures r.next.tgtTemp == if xd[1] == r.next.bogusTgtTemp then s.tgtTemp else xd[1]
    // the state is always taken, the battery only when it is a percentage
    ensures r.next.state == xd[4]
    ensures r.next.battPct == if xd[2] <= 100 then xd[2] else s.battPct
  {
    var bogus := Bogus(s, xd);
    var tempTaken := s.temp != xd[0] && !bogus;
    var bogusTgt := if bogus then xd[1] else s.bogusTgtTemp;
    var tgtTaken := s.tgtTemp != xd[1] && xd[1] != bogusTgt;
    var stateTaken := s.state != xd[4];
    var battTaken := s.battPct != xd[2] && xd[2] <= 100;
    var next := Fields(
      if tempTaken then xd[0] else s.temp,
      if tgtTaken then xd[1] else s.tgtTemp,
      bogusTgt,
      if battTaken then xd[2] else s.battPct,
      if stateTaken then xd[4] else s.state);
    Step(next, Flag(tempTaken, TempBit) | Flag(tgtTaken, TgtTempBit) |
               Flag(battTaken, BattBit) | Flag(stateTaken, StateBit))
  }

  /**
   * The readings Update takes from an advertisement: none unless the service
   * is advertised and the manufacturer data is exactly one frame.
   */
  function Update(s: Fields, adv: seq<byte>): (r: Option<Step<Fields>>)
    ensures r.Some? <==> Taste(adv) && |Frame(adv)| == FrameLen
    ensures r.Some? ==> r.value == Apply(s, Frame(adv))
  {
    if !Taste(adv) then None
    else
      var xd := Frame(adv);
      if |xd| != FrameLen then None else Some(Apply(s, xd))
  }

  /**
   * The records Report(what) queues: temperature and target when known,
   * battery when a percentage and a target is known, state whenever asked.
   */
  function Items(s: Fields, what: bv32, sid: u32, ts: real): (r: seq<Data>)
    ensures Data(sid, TempSubid, ts, s.temp as real / 2.0) in r <==>
              Flagged(what, TempBit) && s.temp != 0 && s.temp != 0xFF
    ensures Data(sid, TgtTempSubid, ts, s.tgtTemp as real / 2.0) in r <==>
              Flagged(what, TgtTempBit) && s.tgtTemp != 0 && s.tgtTemp != 0xFF
    ensures Data(sid, BattSubid, ts, s.battPct as real) in r <==>
              Flagged(what, BattBit) && s.battPct <= 100 && s.tgtTemp != 0
    ensures Data(sid, StateSubid, ts, s.state as real) in r <==> Flagged(what, StateBit)
    ensures |r| <= 4
    ensures Stamped(r, sid, ts)
  {
    var a := Emit(Flagged(what, TempBit) && s.temp != 0xFF && s.temp != 0, sid, TempSubid, ts, s.temp as real / 2.0);
    var b := Emit(Flagged(what, TgtTempBit) && s.tgtTemp != 0xFF && s.tgtTemp != 0, sid, TgtTempSubid, ts, s.tgtTemp as real / 2.0);
    var c := Emit(Flagged(what, BattBit) && s.battPct <= 100 && s.tgtTemp != 0, sid, BattSubid, ts, s.battPct as real);
    var e := Emit(Flagged(what, StateBit), sid, StateSubid, ts, s.state as real);
    var dt := Data(sid, TempSubid, ts, s.temp as real / 2.0);
    var dg := Data(sid, TgtTempSubid, ts, s.tgtTemp as real / 2.0);
    var db := Data(sid, BattSubid, ts, s.battPct as real);
    var ds := Data(sid, StateSubid, ts, s.state as real);
    assert dt !in b && dt !in c && dt !in e;
    assert dg !in a && dg !in c && dg !in e;
    assert db !in a && db !in b && db !in e;
    assert ds !in a && ds !in b && ds !in c;
    StampedJoin(c, e, sid, ts);
    StampedJoin(b, c + e, sid, ts);
    StampedJoin(a, b + (c + e), sid, ts);
    var bce := b + (c + e);
    a + bce
  }

  /** A battery percentage once valid stays valid: out-of-range readings are never stored. */
  lemma BatteryStaysPercentage(s: Fields, xd: seq<byte>)
    requires |xd| == FrameLen && s.battPct <= 100
    ensures Apply(s, xd).next.battPct <= 100
  {
  }

  /**
   * The first bogus report of the source's comment: at 22.0 degrees with
   * target 4.0, a frame claiming 4.0 degrees and target 20.5 changes nothing
   * and remembers 20.5; the later frame that repeats target 20.5 alone is
   * ignored too.
   */
  lemma BogusReportsIgnored()
    ensures var s := Fields(0x2C, 0x08, 0, 0x44, 0x00);
      var s1 := Fields(0x2C, 0x08, 0x29, 0x44, 0x00);
      && Apply(s, [0x08, 0x29, 0x44, 0x81, 0x00, 0xFF, 0x06, 0xFC]) == Step(s1, 0)
      && Apply(s1, [0x2C, 0x29, 0x44, 0x81, 0x00, 0xFF, 0xD2, 0x0D]) == Step(s1, 0)
  {
  }

  /** Whatever an update flags is reported with the value it stored, when it is known. */
  lemma ChangesAreReported(s: Fields, xd: seq<byte>, sid: u32, ts: real)
    requires |xd| == FrameLen
    ensures var r := Apply(s, xd);
      && (r.next.temp != s.temp && r.next.temp != 0 && r.next.temp != 0xFF ==>
            Data(sid, TempSubid, ts, xd[0] as real / 2.0) in Items(r.next, r.changed, sid, ts))
      && (r.next.state != s.state ==> Data(sid, StateSubid, ts, xd[4] as real) in Items(r.next, r.changed, sid, ts))
      && (r.changed == 0 ==> Items(r.next, r.changed, sid, ts) == [])
  {
  }
}
