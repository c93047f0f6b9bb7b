// What the hub's heating code shares: the latest reading of a sensor as
// the data table hands it out, the min/max hysteresis that both
// Limit::Eval (hub_control_limit.cpp) and check_thresh (hub_heater.c)
// apply to it, and the manual heater deadline of the Hub.Heater RPCs.
module Thresholds {
  import opened Wrappers

  /** The timestamp and value of the last data point of one sensor channel. */
  datatype Reading = Reading(ts: real, value: real)

  /** Readings older than this many seconds are stale and never switch anything on. */
  const MaxAge: real := 300.0

  /** hub_get_data: the last reading stored for (sid, subid), if any. */
  function Lookup(data: map<(int, int), Reading>, sid: int, subid: int): (r: Option<Reading>)
    ensures r.Some? <==> (sid, subid) in data
    ensures r.Some? ==> r.value == data[(sid, subid)]
  {
    if (sid, subid) in data then Some(data[(sid, subid)]) else None
  }

  /**
   * The decision of one limit: off unless enabled and holding a reading at
   * most MaxAge seconds old; then a limit that is off switches on below
   * `min`, and one that is on stays on below `max`.
   */
  function Wants(enabled: bool, data: Option<Reading>, now: real, on: bool, min: real, max: real): (w: bool)
    ensures w ==> enabled && data.Some? && now - data.value.ts <= MaxAge
    ensures w ==> data.value.value < (if on then max else min)
    ensures enabled && data.Some? && now - data.value.ts <= MaxAge && data.value.value < (if on then max else min) ==> w
  {
    if !enabled then false
    else if data.None? then false
    else if now - data.value.ts > MaxAge then false
    else if !on && data.value.value < min then true
    else if on && data.value.value < max then true
    else false
  }

  /**
   * With min <= max the decision is a dead band: below min it is on, at or
   * above max it is off, and in between it keeps the previous state.
   */
  lemma DeadBand(data: Reading, now: real, on: bool, min: real, max: real)
    requires min <= max && now - data.ts <= MaxAge
    ensures data.value < min ==> Wants(true, Some(data), now, on, min, max)
    ensures data.value >= max ==> !Wants(true, Some(data), now, on, min, max)
    ensures min <= data.value < max ==> Wants(true, Some(data), now, on, min, max) == on
  {
  }

  /** A decision once taken holds again for the same reading: re-evaluating does not flap. */
  lemma Settles(enabled: bool, data: Option<Reading>, now: real, on: bool, min: real, max: real)
    requires min <= max
    ensures var w := Wants(enabled, data, now, on, min, max);
      Wants(enabled, data, now, w, min, max) == w
  {
  }

  /** A manual heater request without a positive duration lasts 12 hours. */
  const DefaultDuration: int := 12 * 3600

  /** The duration of a manual request: as given when positive, DefaultDuration otherwise. */
  function HeaterDuration(duration: int): (d: int)
    ensures d > 0
    ensures duration > 0 ==> d == duration
    ensures duration <= 0 ==> d == DefaultDuration
  {
    if duration <= 0 then DefaultDuration else duration
  }

  /**
   * The duration Hub.Heater.GetStatus reports: the whole seconds left to
   * the deadline ((int) truncates, which for a non-negative value is the
   * floor), or -1 once the deadline has passed.
   */
  function Remaining(deadline: real, now: real): (d: int)
    ensures deadline >= now ==> 0 <= d && d as real <= deadline - now < d as real + 1.0
    ensures deadline < now ==> d == -1
  {
    if deadline >= now then (deadline - now).Floor else -1
  }

  /** A deadline set d whole seconds ahead reports d seconds left. */
  lemma RemainingAfter(now: real, d: nat)
    ensures Remaining(now + d as real, now) == d
  {
  }

  /** The computation of the status handlers of both Hub.Heater implementations. */
  method RemainingSeconds(deadline: real, now: real) returns (duration: int)
    ensures duration == Remaining(deadline, now)
  {
    duration := -1;
    if deadline >= now {
      duration := (deadline - now).Floor;
    }
  }
}
