// The data points the hub accepts over RPC (Sensor.Data, Sensor.DataMulti):
// the validation parse_data_point applies before a point reaches the
// latest-value table. hub_data.cpp and hub.c validate in the same way.
module HubPoint {
  import opened Wrappers
  import opened Bytes

  /**
   * A data point as json_scanf leaves it: sid is -1 and subid 0 when the
   * request omits them, and a ts or value left at NaN is None.
   */
  datatype Point = Point(sid: i32, subid: i32, name: Option<string>, ts: Option<real>, value: Option<real>)

  /** A validated data point, with its timestamp filled in. */
  datatype Sample = Sample(sid: i32, subid: i32, name: Option<string>, ts: real, value: real)

  /** The outcome of parse_data_point: an RPC error code, or the point to store. */
  datatype Parsed = Rejected(code: int) | Accepted(sample: Sample)

  /** The RPC reply: success, or the error code sent. */
  datatype Reply = Done | Failed(code: int)

  /**
   * parse_data_point: a point needs a non-negative sid (else error -1) and a
   * value (else error -2); a missing timestamp becomes the batch timestamp
   * when that is positive, and the current time otherwise.
   */
  function ParsePoint(p: Point, defaultTs: real, now: real): (r: Parsed)
    ensures r.Rejected? <==> p.sid < 0 || p.value.None?
    ensures r.Rejected? ==> r.code == (if p.sid < 0 then -1 else -2)
    ensures r.Accepted? ==>
      && r.sample.sid == p.sid && r.sample.subid == p.subid && r.sample.name == p.name
      && Some(r.sample.value) == p.value
    ensures r.Accepted? && p.ts.Some? ==> r.sample.ts == p.ts.value
    ensures r.Accepted? && p.ts.None? && defaultTs > 0.0 ==> r.sample.ts == defaultTs
    ensures r.Accepted? && p.ts.None? && defaultTs <= 0.0 ==> r.sample.ts == now
  {
    if p.sid < 0 then Rejected(-1)
    else if p.value.None? then Rejected(-2)
    else
      var ts := if p.ts.Some? then p.ts.value else if defaultTs > 0.0 then defaultTs else now;
      Accepted(Sample(p.sid, p.subid, p.name, ts, p.value.value))
  }

  /** The reply of the single-point handler: success exactly when the point is accepted. */
  function ReplyOf(r: Parsed): (y: Reply)
    ensures y.Done? <==> r.Accepted?
    ensures r.Rejected? ==> y == Failed(r.code)
  {
    if r.Accepted? then Done else Failed(r.code)
  }

  /** The index of the first point of a batch that is rejected, or the batch length. */
  function FirstBad(ps: seq<Point>, defaultTs: real, now: real): (n: nat)
    ensures n <= |ps|
    ensures forall i :: 0 <= i < n ==> ParsePoint(ps[i], defaultTs, now).Accepted?
    ensures n < |ps| ==> ParsePoint(ps[n], defaultTs, now).Rejected?
  {
    if ps == [] then 0
    else if ParsePoint(ps[0], defaultTs, now).Rejected? then 0
    else 1 + FirstBad(ps[1..], defaultTs, now)
  }

  /** The samples of the accepted points of a batch, in order. */
  function Samples(ps: seq<Point>, defaultTs: real, now: real): (ss: seq<Sample>)
    ensures |ss| <= |ps|
  {
    if ps == [] then []
    else
      var r := ParsePoint(ps[|ps| - 1], defaultTs, now);
      Samples(ps[..|ps| - 1], defaultTs, now) + (if r.Accepted? then [r.sample] else [])
  }

  /** Before the first bad point every point is accepted, so each contributes its sample. */
  lemma {:induction false} SamplesOfGood(ps: seq<Point>, defaultTs: real, now: real)
    requires forall i :: 0 <= i < |ps| ==> ParsePoint(ps[i], defaultTs, now).Accepted?
    ensures |Samples(ps, defaultTs, now)| == |ps|
    ensures forall i :: 0 <= i < |ps| ==> Samples(ps, defaultTs, now)[i] == ParsePoint(ps[i], defaultTs, now).sample
  {
    if ps != [] {
      var init := ps[..|ps| - 1];
      assert forall i :: 0 <= i < |init| ==> init[i] == ps[i];
      SamplesOfGood(init, defaultTs, now);
    }
  }

  /** The reply of the batch handler: -3 without an array, else the first bad point's error, else success. */
  function MultiReply(points: Option<seq<Point>>, defaultTs: real, now: real): (y: Reply)
    ensures points.None? ==> y == Failed(-3)
    ensures points.Some? ==>
      var n := FirstBad(points.value, defaultTs, now);
      y == if n < |points.value| then Failed(ParsePoint(points.value[n], defaultTs, now).code) else Done
  {
    if points.None? then Failed(-3)
    else
      var ps := points.value;
      var n := FirstBad(ps, defaultTs, now);
      if n < |ps| then ReplyOf(ParsePoint(ps[n], defaultTs, now)) else Done
  }
}
