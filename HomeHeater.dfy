// home_devs/hub/src/hub_heater.c: the home hub's heater controller. It
// keeps the last temperature of sensor 0 and the last hot-water-switch
// reading of sensor 1; the heater is wanted while the room is below the
// configured threshold or the hot water is cold, on fresh data only, and
// it is switched at most once every five minutes. A manual request holds
// the heater until its deadline, and the deadline's expiry flips it back.
module HomeHeater {
  import opened Wrappers
  import opened Thresholds

  /** Evaluations are at least a minute apart, heater switches five minutes, and data is fresh for five minutes. */
  const EvalInterval: real := 60.0
  const ActionInterval: real := 300.0
  const Freshness: real := 300.0

  /** The shortest manual request, in seconds. */
  const MinDuration: int := 30

  /** The globals of the controller and the values written to the relay pin, oldest first. */
  datatype HomeState = HomeState(heaterOn: bool, deadline: real, tempTs: real, temp: real,
                                 hwsTs: real, waterIsHot: bool, lastEval: real, lastActionTs: real,
                                 relay: seq<bool>)

  /** The globals at start: all zero. */
  const Initial: HomeState := HomeState(false, 0.0, 0.0, 0.0, 0.0, false, 0.0, 0.0, [])

  /** Whether hub_heater_eval returns at once: under manual control, too soon after an evaluation or after a switch. */
  predicate Held(c: HomeState, now: real) {
    c.deadline != 0.0 || now - c.lastEval < EvalInterval || now - c.lastActionTs < ActionInterval
  }

  /** What the evaluation wants: the room colder than a positive threshold, or the hot water cold, each on fresh data. */
  predicate Demand(c: HomeState, s0Thresh: real, now: real) {
    (s0Thresh > 0.0 && now - c.tempTs < Freshness && c.temp < s0Thresh) ||
    (now - c.hwsTs < Freshness && !c.waterIsHot)
  }

  /** hub_heater_eval on a state, with hub.heater.s0_thresh as a parameter. */
  function EvalSpec(c: HomeState, s0Thresh: real, now: real): HomeState {
    if Held(c, now) then c
    else
      var want := Demand(c, s0Thresh, now);
      var c1 := if want != c.heaterOn then c.(heaterOn := want, lastActionTs := now) else c;
      c1.(lastEval := now)
  }

  /**
   * An evaluation that is not held puts the heater at the demand, times a
   * switch, and touches nothing else; a held one does nothing.
   */
  lemma EvalMeans(c: HomeState, s0Thresh: real, now: real)
    ensures var r := EvalSpec(c, s0Thresh, now);
      && (Held(c, now) ==> r == c)
      && (!Held(c, now) ==>
            && r.heaterOn == Demand(c, s0Thresh, now)
            && r.lastEval == now
            && r.lastActionTs == (if r.heaterOn != c.heaterOn then now else c.lastActionTs)
            && r.(heaterOn := c.heaterOn, lastEval := c.lastEval, lastActionTs := c.lastActionTs) == c)
  {
  }

  /** Anti-flapping: after an evaluation switches the heater, no evaluation in the next five minutes switches it again. */
  lemma NoFlap(c: HomeState, s0Thresh: real, now: real, s0Later: real, later: real)
    requires EvalSpec(c, s0Thresh, now).heaterOn != c.heaterOn
    requires later - now < ActionInterval
    ensures var r := EvalSpec(c, s0Thresh, now);
      EvalSpec(r, s0Later, later) == r
  {
  }

  /** An evaluation whose demand is met changes only the time of the last evaluation. */
  lemma EvalIdle(c: HomeState, s0Thresh: real, now: real)
    requires Demand(c, s0Thresh, now) == c.heaterOn
    ensures EvalSpec(c, s0Thresh, now).heaterOn == c.heaterOn
    ensures EvalSpec(c, s0Thresh, now).lastActionTs == c.lastActionTs
  {
  }

  /** The start of heater_timer_cb: an expired deadline flips the heater back and is cleared. */
  function Expired(c: HomeState, now: real): HomeState {
    if c.deadline > 0.0 && c.deadline < now then c.(heaterOn := !c.heaterOn, deadline := 0.0) else c
  }

  /** heater_timer_cb on a state: clear an expired deadline, evaluate, write the relay. */
  function TimerSpec(c: HomeState, s0Thresh: real, now: real): HomeState {
    var c1 := EvalSpec(Expired(c, now), s0Thresh, now);
    c1.(relay := c1.relay + [c1.heaterOn])
  }

  /**
   * After a tick the relay is at the heater's state; a pending deadline
   * holds the heater; an expired one is cleared and flips the heater, which
   * then stays flipped unless an evaluation is due.
   */
  lemma TimerMeans(c: HomeState, s0Thresh: real, now: real)
    ensures var r := TimerSpec(c, s0Thresh, now);
      && r.relay == c.relay + [r.heaterOn]
      && (c.deadline != 0.0 && !(c.deadline > 0.0 && c.deadline < now) ==> r.heaterOn == c.heaterOn && r.deadline == c.deadline)
      && (c.deadline > 0.0 && c.deadline < now ==>
            && r.deadline == 0.0
            && (Held(c.(deadline := 0.0), now) ==> r.heaterOn == !c.heaterOn)
            && (!Held(c.(deadline := 0.0), now) ==> r.heaterOn == Demand(c, s0Thresh, now)))
  {
  }

  /** The length of a manual request: at least 30 seconds, and 12 hours when none is given. */
  function SetDuration(duration: int): (d: int)
    ensures d >= MinDuration
    ensures duration >= MinDuration ==> d == duration
    ensures 0 < duration < MinDuration ==> d == MinDuration
    ensures duration <= 0 ==> d == DefaultDuration
  {
    if duration > 0 then (if duration < 30 then 30 else duration) else 12 * 3600
  }

  /** The reply of Hub.Heater.Set: an error code, or the heater flag and the deadline. */
  datatype SetReply = SetFailed(code: int) | SetDone(heaterOn: bool, deadline: real)

  /**
   * Hub.Heater.Set on a state, heater_on and duration being -1 when absent:
   * a negative heater_on is error -1; otherwise any non-zero value turns the
   * heater on, until the deadline, without an evaluation.
   */
  function SetSpec(c: HomeState, heaterOn: int, duration: int, now: real): (SetReply, HomeState) {
    if heaterOn < 0 then (SetFailed(-1), c)
    else
      var c1 := c.(heaterOn := heaterOn != 0, deadline := now + SetDuration(duration) as real, lastActionTs := now);
      (SetDone(c1.heaterOn, c1.deadline), c1)
  }

  /**
   * A manual request at a non-negative time puts the heater as asked for
   * at least 30 seconds: no evaluation moves it before the deadline, and
   * the status reports the seconds requested.
   */
  lemma SetHolds(c: HomeState, heaterOn: int, duration: int, now: real, s0Thresh: real, later: real)
    requires heaterOn >= 0 && now >= 0.0
    ensures var r := SetSpec(c, heaterOn, duration, now);
      && r.0 == SetDone(heaterOn != 0, now + SetDuration(duration) as real)
      && Remaining(r.1.deadline, now) == SetDuration(duration) >= MinDuration
      && EvalSpec(r.1, s0Thresh, later) == r.1
      && r.1.(heaterOn := c.heaterOn, deadline := c.deadline, lastActionTs := c.lastActionTs) == c
  {
    RemainingAfter(now, SetDuration(duration));
  }

  /** A negative heater_on is refused and changes nothing. */
  lemma SetRefused(c: HomeState, heaterOn: int, duration: int, now: real)
    requires heaterOn < 0
    ensures SetSpec(c, heaterOn, duration, now) == (SetFailed(-1), c)
  {
  }

  /** Sensor.ReportTemp on a state: a newer temperature of sensor 0 is kept; a missing one (-1000) is ignored. */
  function ReportTempSpec(c: HomeState, sid: int, ts: real, temp: real): HomeState {
    if sid < 0 || temp == -1000.0 then c
    else if sid == 0 && ts > c.tempTs then c.(tempTs := ts, temp := temp)
    else c
  }

  /** Sensor.ReportHWS on a state: a newer reading of sensor 1 is kept. */
  function ReportHwsSpec(c: HomeState, sid: int, ts: real, hws: bool): HomeState {
    if sid < 0 then c
    else if sid == 1 && ts > c.hwsTs then c.(hwsTs := ts, waterIsHot := hws)
    else c
  }

  /**
   * A report changes only its sensor's reading, only to a newer one, so the
   * readings' timestamps never go back; and the reading kept is the report's.
   */
  lemma ReportTempMeans(c: HomeState, sid: int, ts: real, temp: real)
    ensures var r := ReportTempSpec(c, sid, ts, temp);
      && r.tempTs >= c.tempTs
      && r.(tempTs := c.tempTs, temp := c.temp) == c
      && (r != c <==> sid == 0 && temp != -1000.0 && ts > c.tempTs)
      && (r != c ==> r.tempTs == ts && r.temp == temp)
  {
  }

  lemma ReportHwsMeans(c: HomeState, sid: int, ts: real, hws: bool)
    ensures var r := ReportHwsSpec(c, sid, ts, hws);
      && r.hwsTs >= c.hwsTs
      && r.(hwsTs := c.hwsTs, waterIsHot := c.waterIsHot) == c
      && (r.hwsTs != c.hwsTs <==> sid == 1 && ts > c.hwsTs)
      && (r.hwsTs != c.hwsTs ==> r.hwsTs == ts && r.waterIsHot == hws)
  {
  }

  /** A fresh report that the hot water is cold makes the heater wanted, whatever the room. */
  lemma ColdWaterWanted(c: HomeState, ts: real, s0Thresh: real, now: real)
    requires ts > c.hwsTs && now - ts < Freshness
    ensures Demand(ReportHwsSpec(c, 1, ts, false), s0Thresh, now)
  {
  }

  class Heater {
    /** s_heater_on, s_deadline (0 for none), s_tsd[0], s_hwsd, s_last_eval and s_last_action_ts. */
    var heaterOn: bool
    var deadline: real
    var tempTs: real
    var temp: real
    var hwsTs: real
    var waterIsHot: bool
    var lastEval: real
    var lastActionTs: real
    /** The values written to the relay pin, oldest first. */
    var relay: seq<bool>

    function State(): HomeState
      reads this
    {
      HomeState(heaterOn, deadline, tempTs, temp, hwsTs, waterIsHot, lastEval, lastActionTs, relay)
    }

    /** The controller at start. */
    constructor()
      ensures State() == Initial
    {
      heaterOn, deadline := false, 0.0;
      tempTs, temp, hwsTs, waterIsHot := 0.0, 0.0, 0.0, false;
      lastEval, lastActionTs := 0.0, 0.0;
      relay := [];
    }

    /** hub_heater_eval. */
    method Eval(s0Thresh: real, now: real)
      modifies this
      ensures State() == EvalSpec(old(State()), s0Thresh, now)
    {
      var want := false;
      if deadline != 0.0 {
        return;
      }
      if now - lastEval < 60.0 {
        return;
      }
      if now - lastActionTs < 300.0 {
        return;
      }
      var s0Valid := now - tempTs < 300.0;
      if s0Thresh > 0.0 {
        if s0Valid {
          if temp < s0Thresh {
            want := true;
          }
        }
      }
      if now - hwsTs < 300.0 {
        if !waterIsHot {
          want := true;
        }
      }
      if heaterOn != want {
        heaterOn := want;
        lastActionTs := now;
      }
      lastEval := now;
    }

    /** heater_timer_cb. */
    method Timer(s0Thresh: real, now: real)
      modifies this
      ensures State() == TimerSpec(old(State()), s0Thresh, now)
    {
      if deadline > 0.0 && deadline < now {
        heaterOn := !heaterOn;
        deadline := 0.0;
      }
      Eval(s0Thresh, now);
      relay := relay + [heaterOn];
    }

    /** hub_heater_get_status_handler: the heater flag and the seconds left of a manual request. */
    method GetStatus(now: real) returns (on: bool, duration: int)
      ensures on == heaterOn && duration == Remaining(deadline, now)
    {
      duration := RemainingSeconds(deadline, now);
      on := heaterOn;
    }

    /** hub_heater_set_handler. */
    method Set(heaterOn: int, duration: int, now: real) returns (r: SetReply)
      modifies this
      ensures (r, State()) == SetSpec(old(State()), heaterOn, duration, now)
    {
      if heaterOn < 0 {
        return SetFailed(-1);
      }
      var d := duration;
      if d > 0 {
        if d < 30 {
          d := 30;
        }
      } else {
        d := 12 * 3600;
      }
      if (heaterOn != 0) != this.heaterOn {
        this.heaterOn := heaterOn != 0;
      }
      deadline := now + d as real;
      lastActionTs := now;
      r := SetDone(this.heaterOn, deadline);
    }

    /** sensor_report_temp_handler, with temp at -1000 when absent. */
    method ReportTemp(sid: int, ts: real, temp: real)
      modifies this
      ensures State() == ReportTempSpec(old(State()), sid, ts, temp)
    {
      if sid < 0 || temp == -1000.0 {
        return;
      }
      if sid == 0 && ts > tempTs {
        tempTs := ts;
        this.temp := temp;
      }
    }

    /** sensor_report_hws_handler, with hws false when absent. */
    method ReportHws(sid: int, ts: real, hws: bool)
      modifies this
      ensures State() == ReportHwsSpec(old(State()), sid, ts, hws)
    {
      if sid < 0 {
        return;
      }
      if sid == 1 && ts > hwsTs {
        hwsTs := ts;
        waterIsHot := hws;
      }
    }
  }
}
