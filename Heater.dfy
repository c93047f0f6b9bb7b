// firmware/hub/src/hub_heater.c: the hub's first heater controller. Ten
// configured limits each apply the min/max hysteresis to one sensor
// channel, and the heater is on while any of them asks for it, unless a
// manual request holds it until a deadline. A one-second timer clears an
// expired request, evaluates and drives the relay; RPC handlers read the
// status, make manual requests and list and edit the limits.
module HubHeater {
  import opened Wrappers
  import opened Thresholds
  import opened HubPoint

  /** NUM_LIMITS: the limits are hub.heater.limits, limits1, ..., limits9. */
  const NumLimits: nat := 10

  /** Evaluations are at least this many seconds apart. */
  const EvalInterval: real := 60.0

  /** One mgos_config_hub_heater_limits: a sensor channel, an enable flag and the thresholds. */
  datatype LimitConf = LimitConf(sid: int, subid: int, enable: bool, min: real, max: real)

  /** A heater state report, report_to_server(hub.ctl_sid, HEATER_SUBID, ts, on). */
  datatype HeaterReport = HeaterReport(ts: real, on: bool)

  /**
   * check_thresh: a missing or disabled limit, or one without fresh data,
   * does not want the heater; otherwise it applies the same hysteresis as
   * the hub's control limits.
   */
  function CheckThresh(heaterIsOn: bool, ls: Option<LimitConf>, data: map<(int, int), Reading>, now: real): (w: bool)
    ensures w <==> (ls.Some? &&
      Wants(ls.value.enable, Lookup(data, ls.value.sid, ls.value.subid), now, heaterIsOn, ls.value.min, ls.value.max))
  {
    if ls.None? || !ls.value.enable then false
    else
      var sd := Lookup(data, ls.value.sid, ls.value.subid);
      if sd.None? then false
      else if now - sd.value.ts > 300.0 then false
      else if !heaterIsOn && sd.value.value < ls.value.min then true
      else if heaterIsOn && sd.value.value < ls.value.max then true
      else false
  }

  /** Whether one of the first n limits asks for the heater. */
  predicate AnyWants(ls: seq<LimitConf>, on: bool, data: map<(int, int), Reading>, now: real, n: nat)
    requires n <= |ls|
  {
    n > 0 && (AnyWants(ls, on, data, now, n - 1) || CheckThresh(on, Some(ls[n - 1]), data, now))
  }

  /** The heater is wanted exactly when some limit wants it. */
  lemma {:induction false} AnyWantsMeans(ls: seq<LimitConf>, on: bool, data: map<(int, int), Reading>, now: real, n: nat)
    requires n <= |ls|
    ensures AnyWants(ls, on, data, now, n) <==> exists i :: 0 <= i < n && CheckThresh(on, Some(ls[i]), data, now)
  {
    if n > 0 {
      AnyWantsMeans(ls, on, data, now, n - 1);
      if CheckThresh(on, Some(ls[n - 1]), data, now) {
        assert 0 <= n - 1 < n;
      }
    }
  }

  /** The globals of the controller, the ten limit configurations, the reports sent and the relay writes. */
  datatype HeaterState = HeaterState(heaterOn: bool, deadline: real, lastEval: real, lastActionTs: real,
                                     limits: seq<LimitConf>, reports: seq<HeaterReport>, relay: seq<bool>)

  /** Whether hub_heater_eval returns at once: under a manual deadline, or within the interval of the last evaluation. */
  predicate Held(c: HeaterState, now: real) {
    c.deadline != 0.0 || now - c.lastEval < EvalInterval
  }

  /** hub_heater_eval on a state: the heater follows the limits, and a change is timed and reported. */
  function EvalSpec(c: HeaterState, now: real, data: map<(int, int), Reading>): HeaterState {
    if Held(c, now) then c
    else
      var want := AnyWants(c.limits, c.heaterOn, data, now, |c.limits|);
      var c1 := if want != c.heaterOn then c.(heaterOn := want, lastActionTs := now, reports := c.reports + [HeaterReport(now, want)])
                else c;
      c1.(lastEval := now)
  }

  /**
   * An evaluation that is not held switches the heater on exactly when some
   * limit wants it, and reports exactly the changes; a held one does nothing.
   * Limits are never changed.
   */
  lemma EvalMeans(c: HeaterState, now: real, data: map<(int, int), Reading>)
    ensures var r := EvalSpec(c, now, data);
      && r.limits == c.limits && r.deadline == c.deadline && r.relay == c.relay
      && (Held(c, now) ==> r == c)
      && (!Held(c, now) ==>
            && (r.heaterOn <==> exists i :: 0 <= i < |c.limits| && CheckThresh(c.heaterOn, Some(c.limits[i]), data, now))
            && r.lastEval == now
            && r.reports == c.reports + (if r.heaterOn != c.heaterOn then [HeaterReport(now, r.heaterOn)] else [])
            && r.lastActionTs == (if r.heaterOn != c.heaterOn then now else c.lastActionTs))
  {
    AnyWantsMeans(c.limits, c.heaterOn, data, now, |c.limits|);
  }

  /** The start of heater_timer_cb: an expired deadline turns the heater off and is cleared. */
  function Expired(c: HeaterState, now: real): HeaterState {
    if c.deadline > 0.0 && c.deadline < now then c.(heaterOn := false, deadline := 0.0) else c
  }

  /** heater_timer_cb on a state: clear an expired deadline, evaluate, write the relay. */
  function TimerSpec(c: HeaterState, now: real, data: map<(int, int), Reading>): HeaterState {
    var c1 := EvalSpec(Expired(c, now), now, data);
    c1.(relay := c1.relay + [c1.heaterOn])
  }

  /**
   * After a tick the relay is at the heater's state; a pending deadline
   * holds the heater as it was, and an expired one lets the limits decide
   * from off, or leaves the heater off until the next evaluation is due.
   */
  lemma TimerMeans(c: HeaterState, now: real, data: map<(int, int), Reading>)
    ensures var r := TimerSpec(c, now, data);
      && r.relay == c.relay + [r.heaterOn]
      && (c.deadline != 0.0 && !(c.deadline > 0.0 && c.deadline < now) ==> r.heaterOn == c.heaterOn && r.deadline == c.deadline)
      && (c.deadline > 0.0 && c.deadline < now ==>
            && r.deadline == 0.0
            && (now - c.lastEval < EvalInterval ==> !r.heaterOn)
            && (now - c.lastEval >= EvalInterval ==>
                  (r.heaterOn <==> exists i :: 0 <= i < |c.limits| && CheckThresh(false, Some(c.limits[i]), data, now))))
  {
    EvalMeans(Expired(c, now), now, data);
  }

  /** The reply of Hub.Heater.Set: an error code, or the heater flag and the deadline. */
  datatype SetReply = SetFailed(code: int) | SetDone(heaterOn: bool, deadline: real)

  /** The manual request itself: the flag (a change is reported), the deadline and the time of the action. */
  function Requested(c: HeaterState, on: bool, duration: int, now: real): HeaterState {
    var c1 := if on != c.heaterOn then c.(heaterOn := on, reports := c.reports + [HeaterReport(now, on)]) else c;
    c1.(deadline := now + HeaterDuration(duration) as real, lastActionTs := now)
  }

  /** Hub.Heater.Set with heater_on required: a request without it is error -1. */
  function SetSpec(c: HeaterState, heaterOn: Option<bool>, duration: int, now: real,
                   data: map<(int, int), Reading>): (SetReply, HeaterState)
  {
    if heaterOn.None? then (SetFailed(-1), c)
    else
      var c2 := EvalSpec(Requested(c, heaterOn.value, duration, now), now, data);
      (SetDone(c2.heaterOn, c2.deadline), c2)
  }

  /** C's conversions between bool and int. */
  function BoolOfInt(x: int): bool {
    x != 0
  }

  function IntOfBool(b: bool): int {
    if b then 1 else 0
  }

  /**
   * hub_heater_set_handler as written: heater_on is a bool initialised to
   * -1, which converts to true, so the test heater_on < 0 never holds and a
   * request without heater_on switches the heater on.
   */
  function SetAsWritten(c: HeaterState, heaterOn: Option<bool>, duration: int, now: real,
                        data: map<(int, int), Reading>): (SetReply, HeaterState)
  {
    var on := if heaterOn.Some? then heaterOn.value else BoolOfInt(-1);
    if IntOfBool(on) < 0 then (SetFailed(-1), c)
    else
      var c2 := EvalSpec(Requested(c, on, duration, now), now, data);
      (SetDone(c2.heaterOn, c2.deadline), c2)
  }

  /** As written, a request without heater_on is not refused: it acts as heater_on = true. */
  lemma SetAsWrittenAcceptsMissing(c: HeaterState, duration: int, now: real, data: map<(int, int), Reading>)
    ensures SetAsWritten(c, None, duration, now, data) == SetSpec(c, Some(true), duration, now, data)
    ensures SetAsWritten(c, None, duration, now, data).0.SetDone?
    ensures SetSpec(c, None, duration, now, data) == (SetFailed(-1), c)
  {
  }

  /** With heater_on given both agree. */
  lemma SetAsWrittenAgrees(c: HeaterState, on: bool, duration: int, now: real, data: map<(int, int), Reading>)
    ensures SetAsWritten(c, Some(on), duration, now, data) == SetSpec(c, Some(on), duration, now, data)
  {
  }

  /**
   * A manual request at a non-negative time holds: the heater is as
   * requested until the deadline `duration` seconds ahead (a default for
   * none), the evaluation after it does nothing, and the status reports the
   * requested duration.
   */
  lemma SetHolds(c: HeaterState, on: bool, duration: int, now: real, data: map<(int, int), Reading>)
    requires now >= 0.0
    ensures var r := SetSpec(c, Some(on), duration, now, data);
      && r.0 == SetDone(on, now + HeaterDuration(duration) as real)
      && r.1 == Requested(c, on, duration, now)
      && r.1.heaterOn == on && r.1.lastActionTs == now && r.1.limits == c.limits
      && Remaining(r.1.deadline, now) == HeaterDuration(duration)
      && r.1.reports == c.reports + (if on != c.heaterOn then [HeaterReport(now, on)] else [])
  {
    RemainingAfter(now, HeaterDuration(duration));
  }

  /** The settings a Hub.Heater.SetLimits request writes: the fields given, and sid -1, subid -1, off, 0 and 0 for the rest. */
  function NewLimit(sid: Option<int>, subid: Option<int>, enable: Option<bool>, min: Option<real>, max: Option<real>): LimitConf {
    LimitConf(sid.GetOr(-1), subid.GetOr(-1), enable.GetOr(false), min.GetOr(0.0), max.GetOr(0.0))
  }

  /** The three searches of the set-limits handler: the limit on the channel, an unused limit (sid < 0), a disabled one. */
  datatype Fit = Same(sid: int, subid: int) | Unused | Disabled

  predicate Fits(l: LimitConf, f: Fit) {
    match f
    case Same(sid, subid) => l.sid == sid && l.subid == subid
    case Unused => l.sid < 0
    case Disabled => !l.enable
  }

  /** The first limit that fits, or the number of limits. */
  function FirstFit(ls: seq<LimitConf>, f: Fit): (j: nat)
    ensures j <= |ls|
    ensures j < |ls| ==> Fits(ls[j], f)
    ensures forall k :: 0 <= k < j ==> !Fits(ls[k], f)
  {
    if ls == [] then 0 else if Fits(ls[0], f) then 0 else 1 + FirstFit(ls[1..], f)
  }

  /** The slot the handler writes: on the channel, else unused, else disabled; |ls| for none. */
  function Slot(ls: seq<LimitConf>, sid: int, subid: int): nat {
    var a := FirstFit(ls, Same(sid, subid));
    if a < |ls| then a
    else
      var b := FirstFit(ls, Unused);
      if b < |ls| then b else FirstFit(ls, Disabled)
  }

  /**
   * Hub.Heater.SetLimits on a state: a negative sid or subid is error -1,
   * no slot is error -2; otherwise the request replaces the slot, a failed
   * save is error -1 (the new settings stay) and a successful one is
   * followed by an evaluation.
   */
  function SetLimitsSpec(c: HeaterState, nls: LimitConf, saved: bool, now: real,
                         data: map<(int, int), Reading>): (Reply, HeaterState)
  {
    if nls.sid < 0 || nls.subid < 0 then (Failed(-1), c)
    else
      var j := Slot(c.limits, nls.sid, nls.subid);
      if j >= |c.limits| then (Failed(-2), c)
      else
        var c1 := c.(limits := c.limits[j := nls]);
        if !saved then (Failed(-1), c1) else (Done, EvalSpec(c1, now, data))
  }

  /** No two limits with a sensor on the same channel. */
  ghost predicate OnePerChannel(ls: seq<LimitConf>) {
    forall a, b :: 0 <= a < b < |ls| && ls[a].sid >= 0 && ls[b].sid >= 0 ==>
      !(ls[a].sid == ls[b].sid && ls[a].subid == ls[b].subid)
  }

  /** The handler finds no slot exactly when every limit has a sensor, is enabled and is on another channel. */
  lemma SlotNone(ls: seq<LimitConf>, sid: int, subid: int)
    ensures Slot(ls, sid, subid) >= |ls| <==>
      forall k :: 0 <= k < |ls| ==> ls[k].sid >= 0 && ls[k].enable && !(ls[k].sid == sid && ls[k].subid == subid)
  {
    if exists k :: 0 <= k < |ls| && (Fits(ls[k], Same(sid, subid)) || ls[k].sid < 0 || !ls[k].enable) {
      var k :| 0 <= k < |ls| && (Fits(ls[k], Same(sid, subid)) || ls[k].sid < 0 || !ls[k].enable);
      assert Fits(ls[k], Same(sid, subid)) || Fits(ls[k], Unused) || Fits(ls[k], Disabled);
    }
  }

  /** A request with a sensor channel is refused with -2 exactly when there is no slot for it. */
  lemma SetLimitsNoSlot(c: HeaterState, nls: LimitConf, saved: bool, now: real, data: map<(int, int), Reading>)
    ensures SetLimitsSpec(c, nls, saved, now, data).0 == Failed(-2) <==>
      (nls.sid >= 0 && nls.subid >= 0 &&
       forall k :: 0 <= k < |c.limits| ==>
         c.limits[k].sid >= 0 && c.limits[k].enable && !(c.limits[k].sid == nls.sid && c.limits[k].subid == nls.subid))
  {
    SlotNone(c.limits, nls.sid, nls.subid);
  }

  /** A request that succeeds replaces exactly its slot, and the other limits are untouched. */
  lemma SetLimitsWrites(c: HeaterState, nls: LimitConf, saved: bool, now: real, data: map<(int, int), Reading>)
    requires SetLimitsSpec(c, nls, saved, now, data).0 == Done
    ensures var j := Slot(c.limits, nls.sid, nls.subid);
      j < |c.limits| && SetLimitsSpec(c, nls, saved, now, data).1.limits == c.limits[j := nls]
  {
    var j := Slot(c.limits, nls.sid, nls.subid);
    EvalMeans(c.(limits := c.limits[j := nls]), now, data);
  }

  /** The slot is the limit on the channel if there is one, so an edit never puts a second limit on a channel. */
  lemma {:induction false} SlotKeepsOnePerChannel(ls: seq<LimitConf>, nls: LimitConf)
    requires OnePerChannel(ls) && Slot(ls, nls.sid, nls.subid) < |ls|
    ensures OnePerChannel(ls[Slot(ls, nls.sid, nls.subid) := nls])
  {
    var j := Slot(ls, nls.sid, nls.subid);
    var a := FirstFit(ls, Same(nls.sid, nls.subid));
    var ts := ls[j := nls];
    forall x, y | 0 <= x < y < |ts| && ts[x].sid >= 0 && ts[y].sid >= 0
      ensures !(ts[x].sid == ts[y].sid && ts[x].subid == ts[y].subid)
    {
      if x == j || y == j {
        var o := if x == j then y else x;
        assert ts[o] == ls[o];
        if a < |ls| {
          assert j == a;
        } else {
          assert !Fits(ls[o], Same(nls.sid, nls.subid));
        }
      }
    }
  }

  /** The set-limits handler never puts a second limit on a channel. */
  lemma SetLimitsOnePerChannel(c: HeaterState, nls: LimitConf, saved: bool, now: real, data: map<(int, int), Reading>)
    requires OnePerChannel(c.limits)
    ensures OnePerChannel(SetLimitsSpec(c, nls, saved, now, data).1.limits)
  {
    if nls.sid >= 0 && nls.subid >= 0 && Slot(c.limits, nls.sid, nls.subid) < |c.limits| {
      var j := Slot(c.limits, nls.sid, nls.subid);
      SlotKeepsOnePerChannel(c.limits, nls);
      EvalMeans(c.(limits := c.limits[j := nls]), now, data);
    }
  }

  /** Whether the get-limits handler lists a limit: it has a sensor, and matches both sid and subid when a sid is given. */
  predicate Listed(l: LimitConf, sid: int, subid: int) {
    l.sid >= 0 && (sid < 0 || (l.sid == sid && l.subid == subid))
  }

  /** The listed ones of the first n limits, in order. */
  function ListedUpTo(ls: seq<LimitConf>, sid: int, subid: int, n: nat): seq<LimitConf>
    requires n <= |ls|
  {
    if n == 0 then [] else ListedUpTo(ls, sid, subid, n - 1) + (if Listed(ls[n - 1], sid, subid) then [ls[n - 1]] else [])
  }

  /** The listing holds exactly the limits that match. */
  lemma {:induction false} ListedUpToMeans(ls: seq<LimitConf>, sid: int, subid: int, n: nat)
    requires n <= |ls|
    ensures forall l :: l in ListedUpTo(ls, sid, subid, n) <==> Listed(l, sid, subid) && exists k :: 0 <= k < n && ls[k] == l
  {
    if n > 0 {
      ListedUpToMeans(ls, sid, subid, n - 1);
      assert 0 <= n - 1 < n;
    }
  }

  /** The points a Sensor.ReportTemp request hands to the data table. */
  datatype DataPoint = DataPoint(sid: int, subid: int, ts: real, value: real, name: Option<string>)

  /** snprintf(buf, 100, "%s<suffix>", name): the label, cut to the 99 characters that fit. */
  function Label(name: string, suffix: string): (l: string)
    ensures |l| <= 99
    ensures |name + suffix| <= 99 ==> l == name + suffix
    ensures |name + suffix| > 99 ==> l == (name + suffix)[..99]
  {
    var full := name + suffix;
    if |full| <= 99 then full else full[..99]
  }

  /**
   * sensor_report_temp_handler, with ts, temp and rh at their defaults -1,
   * -1000 and -1000 when absent: for a valid sid, a temperature above -300
   * is stored as subid 0 and a humidity of at least 0 as subid 1, each
   * named after the sensor when it has a name.
   */
  function ReportTemp(sid: int, name: Option<string>, ts: real, temp: real, rh: real): (ps: seq<DataPoint>)
    ensures forall p :: p in ps ==> p.sid == sid && p.ts == ts && (p.subid == 0 || p.subid == 1)
    ensures (exists p :: p in ps && p.subid == 0) <==> sid >= 0 && temp > -300.0
    ensures (exists p :: p in ps && p.subid == 1) <==> sid >= 0 && rh >= 0.0
    ensures forall p :: p in ps && p.subid == 0 ==> p.value == temp
    ensures forall p :: p in ps && p.subid == 1 ==> p.value == rh
    ensures forall p :: p in ps ==> (p.name.Some? <==> name.Some?)
    ensures forall p :: p in ps && name.Some? ==> |p.name.value| <= 99
  {
    if sid < 0 then []
    else
      var t := if temp > -300.0 then [DataPoint(sid, 0, ts, temp, if name.Some? then Some(Label(name.value, " Temp")) else None)]
               else [];
      var h := if rh >= 0.0 then [DataPoint(sid, 1, ts, rh, if name.Some? then Some(Label(name.value, " RH")) else None)]
               else [];
      t + h
  }

  class Heater {
    /** s_enabled: whether hub.heater.enable was set at start. */
    var enabled: bool
    /** s_heater_on, s_deadline (0 for none), s_last_eval and s_last_action_ts. */
    var heaterOn: bool
    var deadline: real
    var lastEval: real
    var lastActionTs: real
    /** The ten limit configurations, overwritten in place by Hub.Heater.SetLimits. */
    var limits: seq<LimitConf>
    /** The state reports sent and the values written to the relay pin, oldest first. */
    var reports: seq<HeaterReport>
    var relay: seq<bool>

    ghost predicate Valid()
      reads this
    {
      |limits| == NumLimits
    }

    function State(): HeaterState
      reads this
    {
      HeaterState(heaterOn, deadline, lastEval, lastActionTs, limits, reports, relay)
    }

    /** hub_heater_init for a configured heater: off, with no deadline, nothing evaluated yet. */
    constructor(enabled: bool, limits: seq<LimitConf>)
      requires |limits| == NumLimits
      ensures Valid()
      ensures this.enabled == enabled
      ensures State() == HeaterState(false, 0.0, 0.0, 0.0, limits, [], [])
    {
      this.enabled := enabled;
      heaterOn, deadline, lastEval, lastActionTs := false, 0.0, 0.0, 0.0;
      this.limits := limits;
      reports, relay := [], [];
    }

    /** get_limits: the configuration of limit idx, and none past the last one. */
    function GetLimits(idx: int): Option<LimitConf>
      reads this
    {
      if 0 <= idx < |limits| then Some(limits[idx]) else None
    }

    /** hub_heater_eval, with the time and the data table as parameters. */
    method Eval(now: real, data: map<(int, int), Reading>)
      requires Valid()
      modifies this
      ensures Valid()
      ensures State() == EvalSpec(old(State()), now, data)
    {
      var want := false;
      if deadline != 0.0 {
        return;
      }
      if now - lastEval < 60.0 {
        return;
      }
      var i := 0;
      while i < NumLimits
        invariant i <= NumLimits
        invariant want == AnyWants(limits, heaterOn, data, now, i)
      {
        want := want || CheckThresh(heaterOn, GetLimits(i), data, now);
        i := i + 1;
      }
      if heaterOn != want {
        heaterOn := want;
        lastActionTs := now;
        reports := reports + [HeaterReport(now, heaterOn)];
      }
      lastEval := now;
    }

    /** heater_timer_cb. */
    method Timer(now: real, data: map<(int, int), Reading>)
      requires Valid()
      modifies this
      ensures Valid()
      ensures State() == TimerSpec(old(State()), now, data)
    {
      if deadline > 0.0 && deadline < now {
        if heaterOn {
          heaterOn := false;
        }
        deadline := 0.0;
      }
      Eval(now, data);
      relay := relay + [heaterOn];
    }

    /** hub_heater_get_status_handler: the heater flag and the seconds left of a manual request. */
    method GetStatus(now: real) returns (on: bool, duration: int)
      ensures on == heaterOn && duration == Remaining(deadline, now)
    {
      duration := RemainingSeconds(deadline, now);
      on := heaterOn;
    }

    /** hub_heater_set_handler with heater_on required; a missing duration is -1. */
    method Set(heaterOn: Option<bool>, duration: int, now: real, data: map<(int, int), Reading>) returns (r: SetReply)
      requires Valid()
      modifies this
      ensures Valid()
      ensures (r, State()) == SetSpec(old(State()), heaterOn, duration, now, data)
    {
      if heaterOn.None? {
        return SetFailed(-1);
      }
      var d := duration;
      if d <= 0 {
        d := 12 * 3600;
      }
      if heaterOn.value != this.heaterOn {
        this.heaterOn := heaterOn.value;
        reports := reports + [HeaterReport(now, this.heaterOn)];
      }
      deadline := now + d as real;
      lastActionTs := now;
      Eval(now, data);
      r := SetDone(this.heaterOn, deadline);
    }

    /** One of the handler's searches, over get_limits(0) to get_limits(NumLimits), the last of which is none. */
    method FindFit(f: Fit) returns (j: nat)
      requires Valid()
      ensures j == FirstFit(limits, f)
    {
      var ls: Option<LimitConf> := None;
      var i := 0;
      j := NumLimits;
      while i < NumLimits + 1
        invariant i <= NumLimits + 1
        invariant forall k :: 0 <= k < i && k < NumLimits ==> !Fits(limits[k], f)
        invariant j == NumLimits
      {
        ls := GetLimits(i);
        if ls.Some? && Fits(ls.value, f) {
          j := i;
          break;
        }
        i := i + 1;
      }
      FirstFitAt(limits, f, j);
    }

    /**
     * hub_heater_set_limits_handler, with absent request fields as None and
     * the outcome of saving the configuration as a parameter.
     */
    method SetLimits(sid: Option<int>, subid: Option<int>, enable: Option<bool>, min: Option<real>, max: Option<real>,
                     saved: bool, now: real, data: map<(int, int), Reading>) returns (r: Reply)
      requires Valid()
      modifies this
      ensures Valid()
      ensures (r, State()) == SetLimitsSpec(old(State()), NewLimit(sid, subid, enable, min, max), saved, now, data)
    {
      var nls := NewLimit(sid, subid, enable, min, max);
      if nls.sid < 0 || nls.subid < 0 {
        return Failed(-1);
      }
      var j := FindSlot(nls.sid, nls.subid);
      if j == NumLimits {
        return Failed(-2);
      }
      r := Store(j, nls, saved, now, data);
    }

    /** The handler's three searches in turn. */
    method FindSlot(sid: int, subid: int) returns (j: nat)
      requires Valid()
      ensures j == Slot(limits, sid, subid)
    {
      j := FindFit(Same(sid, subid));
      if j == NumLimits {
        j := FindFit(Unused);
        if j == NumLimits {
          j := FindFit(Disabled);
        }
      }
    }

    /** The end of the handler: overwrite the slot, then save and evaluate. */
    method Store(j: nat, nls: LimitConf, saved: bool, now: real, data: map<(int, int), Reading>) returns (r: Reply)
      requires Valid() && j < NumLimits
      modifies this
      ensures Valid()
      ensures var c1 := old(State()).(limits := old(limits)[j := nls]);
        (r, State()) == (if !saved then (Failed(-1), c1) else (Done, EvalSpec(c1, now, data)))
    {
      limits := limits[j := nls];
      if !saved {
        return Failed(-1);
      }
      Eval(now, data);
      r := Done;
    }

    /** hub_heater_get_limits_handler: the limits it lists, in order. */
    method GetLimitsHandler(sid: int, subid: int) returns (rows: seq<LimitConf>)
      requires Valid()
      ensures rows == ListedUpTo(limits, sid, subid, NumLimits)
    {
      rows := [];
      var i := 0;
      while i < NumLimits
        invariant i <= NumLimits
        invariant rows == ListedUpTo(limits, sid, subid, i)
      {
        var ls := GetLimits(i);
        if ls.Some? && ls.value.sid >= 0 && (sid < 0 || (ls.value.sid == sid && ls.value.subid == subid)) {
          rows := rows + [ls.value];
        }
        i := i + 1;
      }
    }

    /** heater_crontab_cb: a manual request for 12 hours. */
    method Cron(on: bool, now: real)
      modifies this
      ensures State() == old(State()).(heaterOn := on, deadline := now + DefaultDuration as real, lastActionTs := now)
      ensures now >= 0.0 ==> Held(State(), now) && Remaining(deadline, now) == DefaultDuration
    {
      deadline := now + 12.0 * 3600.0;
      lastActionTs := now;
      heaterOn := on;
      RemainingAfter(now, DefaultDuration);
    }
  }

  /** The searches stop at the first limit that fits. */
  lemma {:induction false} FirstFitAt(ls: seq<LimitConf>, f: Fit, j: nat)
    requires j <= |ls| && (j < |ls| ==> Fits(ls[j], f))
    requires forall k :: 0 <= k < j ==> !Fits(ls[k], f)
    ensures j == FirstFit(ls, f)
  {
    if ls != [] && j > 0 {
      FirstFitAt(ls[1..], f, j - 1);
    }
  }
}
