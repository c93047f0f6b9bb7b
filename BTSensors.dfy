// The sensor object of the relay (BTSensor.cpp): its identity (address,
// type and the sid derived from both), the last-seen bookkeeping, the queue
// of report records, and the state of the adapter that decodes its
// advertisements. The virtual Update/Report of the adapter classes become a
// dispatch on the Adapter datatype; each adapter's own logic is the pure
// Update/Items of its module.
module BTSensors {
  import opened Wrappers
  import opened Bytes
  import opened ShosBt
  import opened SensorReports
  import GapAdv
  import BTHome
  import BTHomeRegistry
  import BTHomeSensor
  import Xavax
  import MiPVVX
  import MiATS
  import ASensor

  /** BTSensor::Type. The header lists no BTHome type; it is given code 4 here. */
  datatype Kind = NoKind | XavaxKind | ASensorKind | MiKind | BTHomeKind

  /** The numeric value of the type, the top byte of the sid. */
  function TypeCode(k: Kind): (c: u32)
    ensures c < 5
    ensures k == XavaxKind <==> c == 1
  {
    match k
    case NoKind => 0
    case XavaxKind => 1
    case ASensorKind => 2
    case MiKind => 3
    case BTHomeKind => 4
  }

  /** The state of the adapter subclass behind a sensor. */
  datatype Adapter =
    | XavaxState(x: Xavax.Fields)
    | ASensorState(a: ASensor.Fields)
    | MiPVVXState(p: MiPVVX.Fields)
    | MiATSState(t: MiATS.Fields)
    | BTHomeState(values: seq<BTHome.BTHomeValue>)

  /** The type each adapter passes to the BTSensor constructor; both Xiaomi adapters are kMi. */
  function KindOf(a: Adapter): Kind {
    match a
    case XavaxState(_) => XavaxKind
    case ASensorState(_) => ASensorKind
    case MiPVVXState(_) => MiKind
    case MiATSState(_) => MiKind
    case BTHomeState(_) => BTHomeKind
  }

  /** A number below base 2^8 or 2^16 stacked on top of a low part splits back into both. */
  lemma Split8(hi: int, lo: int)
    requires 0 <= lo < 0x100
    ensures (hi * 0x100 + lo) / 0x100 == hi && (hi * 0x100 + lo) % 0x100 == lo
  {
  }

  lemma Split16(hi: int, lo: int)
    requires 0 <= lo < 0x1_0000
    ensures (hi * 0x1_0000 + lo) / 0x1_0000 == hi && (hi * 0x1_0000 + lo) % 0x1_0000 == lo
  {
  }

  lemma Split24(hi: int, lo: int)
    requires 0 <= lo < 0x100_0000
    ensures (hi * 0x100_0000 + lo) / 0x100_0000 == hi && (hi * 0x100_0000 + lo) % 0x100_0000 == lo
  {
  }

  /** sid = (type << 24) | (addr[3] << 16) | (addr[4] << 8) | addr[5]. */
  function Sid(k: Kind, addr: Addr): (r: u32)
    requires |addr.addr| == 6
    ensures r / 0x100_0000 == TypeCode(k)
    ensures r / 0x1_0000 % 0x100 == addr.addr[3]
    ensures r / 0x100 % 0x100 == addr.addr[4]
    ensures r % 0x100 == addr.addr[5]
  {
    var c, b3, b4, b5 := TypeCode(k) as int, addr.addr[3] as int, addr.addr[4] as int, addr.addr[5] as int;
    var low := b4 * 0x100 + b5;
    var mid := b3 * 0x1_0000 + low;
    var r := c * 0x100_0000 + mid;
    Split8(b4, b5);
    Split16(b3, low);
    Split24(c, mid);
    assert r == (c * 0x100 + b3) * 0x1_0000 + low;
    Split16(c * 0x100 + b3, low);
    Split8(c, b3);
    assert r == ((c * 0x100 + b3) * 0x100 + b4) * 0x100 + b5;
    Split8((c * 0x100 + b3) * 0x100 + b4, b5);
    Split8(c * 0x100 + b3, b4);
    r
  }

  /**
   * Two sensors share a sid exactly when they have the same type and their
   * addresses agree in the last three bytes.
   */
  lemma SidIdentifies(k1: Kind, a1: Addr, k2: Kind, a2: Addr)
    requires |a1.addr| == 6 && |a2.addr| == 6
    ensures Sid(k1, a1) == Sid(k2, a2) <==> k1 == k2 && a1.addr[3..] == a2.addr[3..]
  {
    if k1 == k2 && a1.addr[3..] == a2.addr[3..] {
      assert a1.addr[3] == a2.addr[3] && a1.addr[4] == a2.addr[4] && a1.addr[5] == a2.addr[5] by {
        assert a1.addr[3..][0] == a1.addr[3] && a1.addr[3..][1] == a1.addr[4] && a1.addr[3..][2] == a1.addr[5];
      }
    }
    if Sid(k1, a1) == Sid(k2, a2) {
      assert TypeCode(k1) == TypeCode(k2);
      assert a1.addr[3..] == a2.addr[3..];
    }
  }

  /** The state a sensor of each adapter starts with. */
  predicate Initial(a: Adapter) {
    match a
    case XavaxState(x) => x == Xavax.Initial
    case ASensorState(s) => s == ASensor.Initial
    case MiPVVXState(p) => p == MiPVVX.Initial
    case MiATSState(t) => t == MiATS.Initial
    case BTHomeState(vs) => vs == []
  }

  /**
   * The adapter's Update on values: the next state and the changed mask, or
   * None when the advertisement is ignored (it does not taste right, does not
   * parse, or repeats the stored BTHome packet id).
   */
  function Next(a: Adapter, addr: Addr, adv: seq<byte>, entries: seq<GapAdv.AdvDataEntry>): (r: Option<Step<Adapter>>)
    ensures r.Some? ==> KindOf(r.value.next) == KindOf(a)
  {
    match a
    case XavaxState(x) =>
      var u := Xavax.Update(x, adv);
      if u.None? then None else Some(Step(XavaxState(u.value.next), u.value.changed))
    case ASensorState(s) =>
      var u := ASensor.Update(s, adv);
      if u.None? then None else Some(Step(ASensorState(u.value.next), u.value.changed))
    case MiPVVXState(p) =>
      var u := MiPVVX.Update(p, addr, adv);
      if u.None? then None else Some(Step(MiPVVXState(u.value.next), u.value.changed))
    case MiATSState(t) =>
      var u := MiATS.Update(t, addr, adv);
      if u.None? then None else Some(Step(MiATSState(u.value.next), u.value.changed))
    case BTHomeState(prev) =>
      var u := BTHomeNext(prev, entries);
      if u.None? then None else Some(Step(BTHomeState(u.value.next), u.value.changed))
  }

  /**
   * BTSensorBTHome::Update on values, corrected through Scan's duplicate
   * test: a fresh parse of the advertisement, ignored when it fails or
   * repeats the stored packet id; otherwise the new frame and its changed mask.
   */
  function BTHomeNext(prev: seq<BTHome.BTHomeValue>, entries: seq<GapAdv.AdvDataEntry>): (r: Option<Step<seq<BTHome.BTHomeValue>>>)
    ensures r.Some? <==> BTHomeSensor.Taste(entries) &&
                         !BTHomeSensor.Duplicate(prev, BTHomeSensor.FreshParse(entries).value, |BTHomeSensor.FreshParse(entries).value|)
    ensures r.Some? ==> r.value.next == BTHomeSensor.FreshParse(entries).value
  {
    var f := BTHomeSensor.FreshParse(entries);
    if f.None? then None
    else
      var vs := f.value;
      if BTHomeSensor.Duplicate(prev, vs, |vs|) then None
      else Some(Step(vs, BTHomeSensor.Mask(prev, vs, |vs|)))
  }

  /** Which advertisements each adapter ignores: exactly those its Update returns early on. */
  lemma NextIgnores(a: Adapter, addr: Addr, adv: seq<byte>, entries: seq<GapAdv.AdvDataEntry>)
    ensures var r := Next(a, addr, adv, entries);
      && (a.XavaxState? ==> (r.Some? <==> Xavax.Taste(adv) && |Xavax.Frame(adv)| == Xavax.FrameLen))
      && (a.ASensorState? ==> (r.Some? <==> ASensor.Taste(adv)))
      && (a.MiPVVXState? ==> (r.Some? <==> MiPVVX.Taste(addr, adv)))
      && (a.MiATSState? ==> (r.Some? <==> MiATS.Taste(addr, adv)))
      && (a.BTHomeState? ==> (r.Some? <==> BTHomeNext(a.values, entries).Some?))
  {
  }

  /** The adapter's Report(what): the records it queues, all stamped with the sensor's sid and time. */
  function Items(a: Adapter, what: bv32, sid: u32, ts: real): (r: seq<Data>)
    ensures Stamped(r, sid, ts)
  {
    match a
    case XavaxState(x) => Xavax.Items(x, what, sid, ts)
    case ASensorState(s) => ASensor.Items(s, what, sid, ts)
    case MiPVVXState(p) => MiPVVX.Items(p, what, sid, ts)
    case MiATSState(t) => MiATS.Items(t, what, sid, ts)
    case BTHomeState(vs) => BTHomeSensor.Items(vs, what, sid, ts, |vs|)
  }

  /** The clocks the firmware reads: mg_time() for timestamps and mgos_uptime() for ages. */
  datatype Clock = Clock(now: real, uptime: real)

  /** The mutable state of a sensor object. */
  datatype Snapshot = Snapshot(rssi: i8, lastSeenTs: real, lastSeenUts: real, lastReportedUts: real,
                               data: seq<Data>, adapter: Adapter)

  /** A sensor just constructed around an adapter. */
  function Fresh(a: Adapter): Snapshot {
    Snapshot(0, 0.0, 0.0, 0.0, [], a)
  }

  /**
   * The state after Update(adv_data, ad, rssi) on a sensor with address
   * addr and sid: unchanged when the adapter ignores the advertisement;
   * otherwise the adapter's next state, the signal strength and both
   * last-seen times, and, when report-on-change sends them, the changed
   * readings queued after what was already there.
   */
  function AfterUpdate(pre: Snapshot, addr: Addr, sid: u32, adv: seq<byte>, entries: seq<GapAdv.AdvDataEntry>,
                       r: i8, clock: Clock, reportOnChange: bool): (post: Snapshot)
    ensures Next(pre.adapter, addr, adv, entries).None? ==> post == pre
    ensures Next(pre.adapter, addr, adv, entries).Some? ==>
              post.rssi == r && post.lastSeenTs == clock.now && post.lastSeenUts == clock.uptime
    ensures KindOf(post.adapter) == KindOf(pre.adapter)
    ensures |pre.data| <= |post.data| && post.data[..|pre.data|] == pre.data
    ensures Stamped(post.data[|pre.data|..], sid, clock.now)
    ensures post.lastReportedUts != pre.lastReportedUts ==> post.lastReportedUts == clock.uptime
  {
    var st := Next(pre.adapter, addr, adv, entries);
    if st.None? then pre
    else
      var sent := st.value.changed != 0 && reportOnChange;
      var items := if sent then Items(st.value.next, st.value.changed, sid, clock.now) else [];
      assert (pre.data + items)[|pre.data|..] == items;
      Snapshot(r, clock.now, clock.uptime,
               if sent && st.value.changed == ReportAll then clock.uptime else pre.lastReportedUts,
               pre.data + items, st.value.next)
  }

  class BTSensor {
    const addr: Addr
    const kind: Kind
    const sid: u32
    var rssi: i8
    var lastSeenTs: real
    var lastSeenUts: real
    var lastReportedUts: real
    var data: seq<Data>
    var adapter: Adapter

    /** The sensor's mutable fields as a value. */
    function Snap(): Snapshot
      reads this
    {
      Snapshot(rssi, lastSeenTs, lastSeenUts, lastReportedUts, data, adapter)
    }

    /** A six-byte address, the type of the adapter, and the sid derived from both. */
    ghost predicate Valid()
      reads this
    {
      |addr.addr| == 6 && kind == KindOf(adapter) && sid == Sid(kind, addr)
    }

    /** BTSensor(addr, type) with the adapter's initial state: nothing seen, nothing queued. */
    constructor(a: Addr, initial: Adapter)
      requires |a.addr| == 6
      ensures Valid()
      ensures addr == a && Snap() == Fresh(initial)
    {
      addr := a;
      kind := KindOf(initial);
      sid := Sid(KindOf(initial), a);
      rssi := 0;
      lastSeenTs := 0.0;
      lastSeenUts := 0.0;
      lastReportedUts := 0.0;
      data := [];
      adapter := initial;
    }

    /** ReportData: one record with the sensor's sid and last-seen time appended to the queue. */
    method ReportData(subid: u32, value: real)
      modifies this
      ensures data == old(data) + [Data(sid, subid, lastSeenTs, value)]
      ensures adapter == old(adapter) && rssi == old(rssi) && lastSeenTs == old(lastSeenTs)
      ensures lastSeenUts == old(lastSeenUts) && lastReportedUts == old(lastReportedUts)
    {
      data := data + [Data(sid, subid, lastSeenTs, value)];
    }

    /**
     * BTSensorBTHome::Report's loop over the stored frame, corrected as
     * Items is: the sensor values whose sensor position is set in `what`,
     * in frame order.
     */
    method ReportValues(vs: seq<BTHome.BTHomeValue>, what: bv32)
      modifies this
      ensures data == old(data) + BTHomeSensor.Items(vs, what, sid, lastSeenTs, |vs|)
      ensures adapter == old(adapter) && rssi == old(rssi) && lastSeenTs == old(lastSeenTs)
      ensures lastSeenUts == old(lastSeenUts) && lastReportedUts == old(lastReportedUts)
    {
      var i: nat := 0;
      var k: nat := 0;
      while i < |vs|
        invariant i <= |vs| && k == BTHomeSensor.SensorsBefore(vs, i)
        invariant data == old(data) + BTHomeSensor.Items(vs, what, sid, lastSeenTs, i)
        invariant adapter == old(adapter) && rssi == old(rssi) && lastSeenTs == old(lastSeenTs)
        invariant lastSeenUts == old(lastSeenUts) && lastReportedUts == old(lastReportedUts)
      {
        var v := vs[i];
        if v.dtype == BTHomeRegistry.Sensor {
          if what & Bit(k) != 0 {
            ReportData(BTHomeSensor.Subid(v), BTHomeSensor.FloatOf(v.payload));
          }
          k := k + 1;
        }
        i := i + 1;
      }
    }

    /**
     * Report(what): the adapter's records for the readings in `what` join the
     * queue; a full report also stamps the time of the last report.
     */
    method Report(what: bv32, uptime: real)
      modifies this
      ensures data == old(data) + Items(adapter, what, sid, lastSeenTs)
      ensures lastReportedUts == if what == ReportAll then uptime else old(lastReportedUts)
      ensures adapter == old(adapter) && rssi == old(rssi)
      ensures lastSeenTs == old(lastSeenTs) && lastSeenUts == old(lastSeenUts)
    {
      match adapter {
        case XavaxState(x) =>
          data := data + Xavax.Items(x, what, sid, lastSeenTs);
        case ASensorState(s) =>
          data := data + ASensor.Items(s, what, sid, lastSeenTs);
        case MiPVVXState(p) =>
          data := data + MiPVVX.Items(p, what, sid, lastSeenTs);
        case MiATSState(t) =>
          data := data + MiATS.Items(t, what, sid, lastSeenTs);
        case BTHomeState(vs) =>
          ReportValues(vs, what);
      }
      if what == ReportAll {
        lastReportedUts := uptime;
      }
    }

    /**
     * UpdateCommon: the signal strength and both last-seen times are always
     * recorded; the changed readings are reported right away only when there
     * are some and report-on-change is configured.
     */
    method UpdateCommon(r: i8, changed: bv32, clock: Clock, reportOnChange: bool)
      modifies this
      ensures rssi == r && lastSeenTs == clock.now && lastSeenUts == clock.uptime
      ensures adapter == old(adapter)
      ensures var sent := changed != 0 && reportOnChange;
        && data == old(data) + (if sent then Items(adapter, changed, sid, clock.now) else [])
        && lastReportedUts == if sent && changed == ReportAll then clock.uptime else old(lastReportedUts)
    {
      rssi := r;
      lastSeenTs := clock.now;
      lastSeenUts := clock.uptime;
      if changed != 0 && reportOnChange {
        Report(changed, clock.uptime);
      }
    }

    /**
     * Update(adv_data, ad, rssi): the adapter decodes the advertisement; an
     * ignored one changes nothing at all, an accepted one replaces the
     * adapter state and goes through UpdateCommon with its changed mask.
     */
    method Update(adv: seq<byte>, ad: GapAdv.AdvData, r: i8, clock: Clock, reportOnChange: bool)
      requires Valid()
      modifies this
      ensures Valid()
      ensures Snap() == AfterUpdate(old(Snap()), addr, sid, adv, ad.entries, r, clock, reportOnChange)
    {
      var st := Decode(adv, ad);
      if st.None? {
        return;
      }
      adapter := st.value.next;
      UpdateCommon(r, st.value.changed, clock, reportOnChange);
    }

    /**
     * The adapter half of Update(adv_data, ad, rssi): what the adapter
     * subclass computes before it calls UpdateCommon, or None where it
     * returns early.
     */
    method Decode(adv: seq<byte>, ad: GapAdv.AdvData) returns (st: Option<Step<Adapter>>)
      ensures st == Next(adapter, addr, adv, ad.entries)
    {
      match adapter {
        case XavaxState(x) =>
          var u := Xavax.Update(x, adv);
          if u.None? {
            return None;
          }
          st := Some(Step(XavaxState(u.value.next), u.value.changed));
        case ASensorState(s) =>
          var u := ASensor.Update(s, adv);
          if u.None? {
            return None;
          }
          st := Some(Step(ASensorState(u.value.next), u.value.changed));
        case MiPVVXState(p) =>
          var u := MiPVVX.Update(p, addr, adv);
          if u.None? {
            return None;
          }
          st := Some(Step(MiPVVXState(u.value.next), u.value.changed));
        case MiATSState(t) =>
          var u := MiATS.Update(t, addr, adv);
          if u.None? {
            return None;
          }
          st := Some(Step(MiATSState(u.value.next), u.value.changed));
        case BTHomeState(prev) =>
          var u := DecodeBTHome(prev, ad);
          if u.None? {
            return None;
          }
          st := Some(Step(BTHomeState(u.value.next), u.value.changed));
      }
    }

    /**
     * BTSensorBTHome::Update up to UpdateCommon: parse into a fresh
     * BTHomeData, return on failure, scan the new values against the stored
     * frame with the corrected Scan, return on a duplicate.
     */
    method DecodeBTHome(prev: seq<BTHome.BTHomeValue>, ad: GapAdv.AdvData) returns (st: Option<Step<seq<BTHome.BTHomeValue>>>)
      ensures st == BTHomeNext(prev, ad.entries)
    {
      var bthd := new BTHome.BTHomeData();
      var parsed := bthd.ParseAdv(addr, ad, []);
      FreshParseIsParse(ad.entries, bthd.bthomeData, bthd.values, parsed);
      if parsed.Err? {
        return None;
      }
      var dup, changed := BTHomeSensor.Scan(prev, bthd.values);
      if dup {
        return None;
      }
      st := Some(Step(bthd.values, changed));
    }
  }

  /**
   * What ParseAdv leaves in a fresh BTHomeData is what FreshParse describes:
   * the parse succeeds exactly when FreshParse gives values, and then holds them.
   */
  lemma FreshParseIsParse(entries: seq<GapAdv.AdvDataEntry>, payload: seq<byte>, values: seq<BTHome.BTHomeValue>, st: Result<()>)
    requires var sd := GapAdv.ServiceData(entries, BTHome.ServiceUuid);
      && (|sd| == 0 ==> st == Err(NotFound))
      && (|sd| > 0 && !BTHome.Accepts(sd, []) ==> st.Err?)
      && (BTHome.Accepts(sd, []) ==>
            && payload == (if BTHome.Encrypted(sd[0]) then [] else sd[1..])
            && values == [] + BTHome.Number([], BTHome.Records(payload).values)
            && st == if BTHome.Records(payload).ok then Ok(()) else Err(Code(BTHome.ParseFailed)))
    ensures st.Ok? <==> BTHomeSensor.FreshParse(entries).Some?
    ensures st.Ok? ==> values == BTHomeSensor.FreshParse(entries).value
  {
    var sd := GapAdv.ServiceData(entries, BTHome.ServiceUuid);
    if BTHome.Accepts(sd, []) {
      assert [] + BTHome.Number([], BTHome.Records(payload).values) == BTHome.Number([], BTHome.Records(payload).values);
    }
  }

  /** The order CreateBTSensor tries the adapters in. */
  function Rank(a: Adapter): nat {
    match a
    case ASensorState(_) => 0
    case XavaxState(_) => 1
    case MiATSState(_) => 2
    case MiPVVXState(_) => 3
    case BTHomeState(_) => 4
  }

  /** Whether the adapter tried at position `rank` accepts the advertisement. */
  predicate TastesAt(rank: nat, addr: Addr, adv: seq<byte>) {
    if rank == 0 then ASensor.Taste(adv)
    else if rank == 1 then Xavax.Taste(adv)
    else if rank == 2 then MiATS.Taste(addr, adv)
    else if rank == 3 then MiPVVX.Taste(addr, adv)
    else false
  }

  /**
   * The adapter CreateBTSensor picks: the first in the order ASensor, Xavax,
   * MiATS, MiPVVX that tastes the advertisement, in its initial state; none
   * if none does. BTHome is not among them.
   */
  function Choose(addr: Addr, adv: seq<byte>): (r: Option<Adapter>)
    ensures r.None? <==> !TastesAt(0, addr, adv) && !TastesAt(1, addr, adv) && !TastesAt(2, addr, adv) && !TastesAt(3, addr, adv)
    ensures r.Some? ==> Initial(r.value) && TastesAt(Rank(r.value), addr, adv)
    ensures r.Some? ==> forall k: nat :: k < Rank(r.value) ==> !TastesAt(k, addr, adv)
  {
    if ASensor.Taste(adv) then Some(ASensorState(ASensor.Initial))
    else if Xavax.Taste(adv) then Some(XavaxState(Xavax.Initial))
    else if MiATS.Taste(addr, adv) then Some(MiATSState(MiATS.Initial))
    else if MiPVVX.Taste(addr, adv) then Some(MiPVVXState(MiPVVX.Initial))
    else None
  }

  /** CreateBTSensor: a new sensor of the chosen adapter, or null when no adapter tastes the advertisement. */
  method CreateBTSensor(addr: Addr, adv: seq<byte>) returns (s: BTSensor?)
    requires |addr.addr| == 6
    ensures s == null <==> Choose(addr, adv).None?
    ensures s != null ==> fresh(s) && s.Valid() && s.addr == addr && s.Snap() == Fresh(Choose(addr, adv).value)
  {
    var c := Choose(addr, adv);
    if c.None? {
      return null;
    }
    s := new BTSensor(addr, c.value);
  }

  /** A sensor created by CreateBTSensor is never a BTHome sensor. */
  lemma NoBTHomeFromScan(addr: Addr, adv: seq<byte>)
    requires Choose(addr, adv).Some?
    ensures !Choose(addr, adv).value.BTHomeState?
  {
  }
}
