// What one evaluation of the hub's control loop (Control::Eval in
// hub_control.cpp) guarantees, stated on its value model EvalSpec: when it
// does nothing, which outputs it switches on, what it leaves alone, and
// that a second evaluation on the same data changes no output.
module ControlProps {
  import opened Thresholds
  import opened ControlLimit
  import opened ControlOutput
  import opened HubControl

  /** The settings of a limit that only the configuration changes. */
  function Config(s: LimitState): (int, int, bool, string) {
    (s.sid, s.subid, s.enable, s.out)
  }

  /** Every limit's thresholds are in order, min <= max. */
  ghost predicate Ordered(ss: seq<LimitState>) {
    forall j :: 0 <= j < |ss| ==> ss[j].min <= ss[j].max
  }

  /** An evaluation changes no limit's channel, enable flag or outputs, and keeps the thresholds in order. */
  lemma EvalKeepsConfig(c: Snap, os: seq<Output>, interval: real, force: bool,
                        now: real, hour: int, data: map<(int, int), Reading>)
    requires |os| == |c.outs|
    ensures var r := EvalSpec(c, os, interval, force, now, hour, data);
      forall k :: 0 <= k < |c.limits| ==> Config(r.limits[k]) == Config(c.limits[k])
    ensures Ordered(c.limits) ==> Ordered(EvalSpec(c, os, interval, force, now, hour, data).limits)
  {
    var r := EvalSpec(c, os, interval, force, now, hour, data);
    StepUpToAt(c.limits, |c.limits|, data, now, hour);
    forall k | 0 <= k < |c.limits|
      ensures Config(r.limits[k]) == Config(c.limits[k])
      ensures c.limits[k].min <= c.limits[k].max ==> r.limits[k].min <= r.limits[k].max
    {
      RetargetMeans(c.limits[k], data);
      StepMeans(c.limits[k], data, now, hour);
    }
  }

  /** While a manual deadline is pending, an evaluation changes nothing. */
  lemma EvalWaitsForDeadline(c: Snap, os: seq<Output>, interval: real, force: bool,
                             now: real, hour: int, data: map<(int, int), Reading>)
    requires |os| == |c.outs|
    requires c.enable && c.deadline != 0.0 && now <= c.deadline
    ensures EvalSpec(c, os, interval, force, now, hour, data) == c
  {
  }

  /** Once the deadline has passed, an evaluation drops the manual request, and runs unless throttled. */
  lemma EvalAfterDeadline(c: Snap, os: seq<Output>, interval: real, force: bool,
                          now: real, hour: int, data: map<(int, int), Reading>)
    requires |os| == |c.outs|
    requires c.enable && 0.0 < c.deadline < now
    ensures var r := EvalSpec(c, os, interval, force, now, hour, data);
      && !r.heaterOn && r.deadline == 0.0
      && (force || now - c.lastEval >= interval ==> r.lastEval == now)
      && (!force && now - c.lastEval < interval ==> r == c.(heaterOn := false, deadline := 0.0))
  {
  }

  /** An unforced evaluation sooner than the interval after the last one does nothing. */
  lemma EvalThrottled(c: Snap, os: seq<Output>, interval: real, now: real, hour: int, data: map<(int, int), Reading>)
    requires |os| == |c.outs|
    requires c.enable && c.deadline == 0.0 && now - c.lastEval < interval
    ensures EvalSpec(c, os, interval, false, now, hour, data) == c
  {
  }

  /**
   * An evaluation that runs switches a valid output on exactly when control
   * is enabled and some limit asks for it, and leaves an invalid output
   * alone; an enabled run evaluates every limit.
   */
  lemma {:induction false} EvalSwitches(c: Snap, os: seq<Output>, interval: real, force: bool,
                                        now: real, hour: int, data: map<(int, int), Reading>, i: nat)
    requires |os| == |c.outs| && i < |os|
    requires !Suspended(Cleared(c, now), interval, force, now)
    ensures var r := EvalSpec(c, os, interval, force, now, hour, data);
      && (os[i].IsValid() ==>
            (r.outs[i].on <==> c.enable && exists j :: 0 <= j < |c.limits| && Asks(os, c.limits[j], data, now, hour, i)))
      && (!os[i].IsValid() ==> r.outs[i] == c.outs[i])
      && r.lastEval == now
  {
    var c1 := Cleared(c, now);
    var w := WantedOf(c1, os, data, now, hour);
    ApplyUpToAt(os, c1.outs, w, now, |os|);
    if c.enable {
      WantedMeans(os, c.limits, |c.limits|, data, now, hour, i);
    }
  }

  /** A run while control is enabled steps every limit and reports each valid, enabled one. */
  lemma {:induction false} EvalSteps(c: Snap, os: seq<Output>, interval: real, force: bool,
                                     now: real, hour: int, data: map<(int, int), Reading>)
    requires |os| == |c.outs|
    requires c.enable && !Suspended(Cleared(c, now), interval, force, now)
    ensures var r := EvalSpec(c, os, interval, force, now, hour, data);
      && (forall j :: 0 <= j < |c.limits| ==> r.limits[j] == Step(c.limits[j], data, now, hour))
      && r.limitReports == c.limitReports + LimitReports(c.limits, |c.limits|, data, now, hour)
  {
    StepUpToAt(c.limits, |c.limits|, data, now, hour);
  }

  /** While control is disabled no limit is evaluated, nothing is reported for them, and every valid output is off. */
  lemma {:induction false} EvalDisabled(c: Snap, os: seq<Output>, interval: real, force: bool,
                                        now: real, hour: int, data: map<(int, int), Reading>)
    requires |os| == |c.outs| && !c.enable
    ensures var r := EvalSpec(c, os, interval, force, now, hour, data);
      && r.limits == c.limits && r.limitReports == c.limitReports
      && r.heaterOn == c.heaterOn && r.deadline == c.deadline
      && forall i :: 0 <= i < |os| && os[i].IsValid() ==> !r.outs[i].on
  {
    ApplyUpToAt(os, c.outs, {}, now, |os|);
  }

  /** With its thresholds in order, a limit evaluated twice on the same data decides the same and stays put. */
  lemma StepTwice(s: LimitState, data: map<(int, int), Reading>, now: real, hour: int)
    requires s.min <= s.max
    ensures var t := Step(s, data, now, hour);
      Step(t, data, now, hour) == t && t.out == s.out &&
      Decide(Retarget(t, data), data, now, hour) == Decide(Retarget(s, data), data, now, hour)
  {
    var r := Retarget(s, data);
    RetargetMeans(s, data);
    Settles(Effective(r.enable, r.sid, data, hour), Lookup(data, r.sid, r.subid), now, r.on, r.min, r.max);
  }

  /** Limits that decide alike and name the same outputs want the same outputs. */
  lemma {:induction false} WantedAlike(os: seq<Output>, ss: seq<LimitState>, tt: seq<LimitState>, n: nat,
                                       data: map<(int, int), Reading>, now: real, hour: int)
    requires n <= |ss| && n <= |tt|
    requires forall j :: 0 <= j < n ==> tt[j].out == ss[j].out
    requires forall j :: 0 <= j < n ==>
      Decide(Retarget(tt[j], data), data, now, hour) == Decide(Retarget(ss[j], data), data, now, hour)
    ensures Wanted(os, tt, n, data, now, hour) == Wanted(os, ss, n, data, now, hour)
  {
    if n > 0 {
      WantedAlike(os, ss, tt, n - 1, data, now, hour);
    }
  }

  /** Applying the same wishes a second time changes no output. */
  lemma {:induction false} ApplyTwice(os: seq<Output>, ss: seq<OutState>, wanted: set<nat>, now: real, later: real)
    requires |os| == |ss|
    ensures var tt := ApplyUpTo(os, ss, wanted, now, |os|);
      ApplyUpTo(os, tt, wanted, later, |os|) == tt && !Changes(os, tt, wanted, |os|)
  {
    var tt := ApplyUpTo(os, ss, wanted, now, |os|);
    ApplyUpToAt(os, ss, wanted, now, |os|);
    ApplyUpToAt(os, tt, wanted, later, |os|);
    ChangesMeans(os, tt, wanted, |os|);
  }

  /**
   * With every limit's thresholds in order, a second forced evaluation at
   * the same time and on the same data switches no output and moves no
   * limit: the control loop does not flap.
   */
  lemma {:induction false} EvalSettles(c: Snap, os: seq<Output>, interval: real,
                                       now: real, hour: int, data: map<(int, int), Reading>)
    requires |os| == |c.outs|
    requires Ordered(c.limits)
    ensures var c1 := EvalSpec(c, os, interval, true, now, hour, data);
      var c2 := EvalSpec(c1, os, interval, true, now, hour, data);
      c2.outs == c1.outs && c2.limits == c1.limits && c2.lastActionTs == c1.lastActionTs
  {
    var c0 := Cleared(c, now);
    var c1 := EvalSpec(c, os, interval, true, now, hour, data);
    if !Suspended(c0, interval, true, now) {
      assert c1 == Ran(c0, os, now, hour, data);
      assert Cleared(c1, now) == c1;
      var ss := c0.limits;
      var tt := c1.limits;
      if c0.enable {
        StepUpToAt(ss, |ss|, data, now, hour);
        forall j | 0 <= j < |ss|
          ensures Step(tt[j], data, now, hour) == tt[j] && tt[j].out == ss[j].out
          ensures Decide(Retarget(tt[j], data), data, now, hour) == Decide(Retarget(ss[j], data), data, now, hour)
        {
          StepTwice(ss[j], data, now, hour);
        }
        WantedAlike(os, ss, tt, |ss|, data, now, hour);
        StepUpToAt(tt, |tt|, data, now, hour);
      }
      ApplyTwice(os, c0.outs, WantedOf(c0, os, data, now, hour), now, now);
    }
  }
}
