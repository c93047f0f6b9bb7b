// hub_control.cpp: the hub's control loop. Every evaluation lets each of
// the 20 limits decide, switches on exactly the outputs that some deciding
// limit names, and switches the others off; a manual deadline set over RPC
// suspends the loop, and SetLimit picks and fills a limit slot.
module HubControl {
  import opened Wrappers
  import opened Thresholds
  import opened ControlLimit
  import opened ControlOutput

  /** NUM_LIMITS and NUM_OUTPUTS. */
  const NumLimits: nat := 20
  const NumOutputs: nat := 10

  // ---------------------------------------------------------------------
  // Decimal ids (std::to_string).

  function DigitChar(d: nat): char
    requires d < 10
  {
    "0123456789"[d]
  }

  /** The decimal digits of n, most significant first, without leading zeros. */
  function Digits(n: nat): (s: string)
    ensures |s| > 0
    ensures forall k :: 0 <= k < |s| ==> '0' <= s[k] <= '9'
  {
    if n < 10 then [DigitChar(n)] else Digits(n / 10) + [DigitChar(n % 10)]
  }

  /** std::to_string of an int. */
  function Decimal(n: int): string {
    if n < 0 then "-" + Digits(-n) else Digits(n)
  }

  /** The value of a string of decimal digits. */
  function DigitsValue(s: string): nat
    requires forall k :: 0 <= k < |s| ==> '0' <= s[k] <= '9'
  {
    if s == [] then 0 else 10 * DigitsValue(s[..|s| - 1]) + (s[|s| - 1] - '0') as nat
  }

  /** Reading back the digits of n gives n. */
  lemma {:induction false} DigitsRoundTrip(n: nat)
    ensures DigitsValue(Digits(n)) == n
  {
    if n >= 10 {
      DigitsRoundTrip(n / 10);
      var s := Digits(n);
      assert s[..|s| - 1] == Digits(n / 10);
    }
  }

  /** Distinct non-negative ids have distinct decimal strings. */
  lemma DecimalInjective(a: nat, b: nat)
    requires Decimal(a) == Decimal(b)
    ensures a == b
  {
    DigitsRoundTrip(a);
    DigitsRoundTrip(b);
  }

  // ---------------------------------------------------------------------
  // Finding an output by name or id.

  /** Whether an output answers to a name or decimal id: it must be valid. */
  predicate Answers(o: Output, e: string) {
    o.IsValid() && (o.name == Some(e) || Decimal(o.id) == e)
  }

  /** The index of the first output answering to e, or the number of outputs. */
  function FirstOutput(os: seq<Output>, e: string): (i: nat)
    ensures i <= |os|
    ensures i < |os| ==> Answers(os[i], e)
    ensures forall k :: 0 <= k < i ==> !Answers(os[k], e)
  {
    if os == [] then 0 else if Answers(os[0], e) then 0 else 1 + FirstOutput(os[1..], e)
  }

  /** The outputs a set of names and ids resolves to; names that resolve to nothing are dropped. */
  function Resolve(os: seq<Output>, names: set<string>): (r: set<nat>)
    ensures forall k :: k in r ==> k < |os| && os[k].IsValid()
    ensures forall k :: k in r <==> exists e :: e in names && FirstOutput(os, e) == k < |os|
  {
    set e | e in names && FirstOutput(os, e) < |os| :: FirstOutput(os, e)
  }

  lemma ResolveAdd(os: seq<Output>, names: set<string>, e: string)
    ensures Resolve(os, names + {e}) == Resolve(os, names) + (if FirstOutput(os, e) < |os| then {FirstOutput(os, e)} else {})
  {
  }

  // ---------------------------------------------------------------------
  // What one evaluation does to a limit.

  /** The fields of a limit, with its last decision and its time. */
  datatype LimitState = LimitState(sid: int, subid: int, enable: bool, min: real, max: real, out: string,
                                   on: bool, lastChange: real)

  function StateOf(l: Limit): LimitState
    reads l
  {
    LimitState(l.sid, l.subid, l.enable, l.min, l.max, l.out, l.on, l.lastChange)
  }

  ghost function States(ls: seq<Limit>): (r: seq<LimitState>)
    reads set l | l in ls
    ensures |r| == |ls|
  {
    if ls == [] then [] else [StateOf(ls[0])] + States(ls[1..])
  }

  lemma {:induction false} StatesAt(ls: seq<Limit>)
    ensures forall j :: 0 <= j < |ls| ==> States(ls)[j] == StateOf(ls[j])
  {
    if ls != [] {
      StatesAt(ls[1..]);
    }
  }

  /** uint8_t(sid >> 24): the sensor type in a sid's top byte (>> on int floors, as Dafny's / does). */
  function SensorType(sid: int): (t: int)
    ensures 0 <= t < 0x100
  {
    (sid / 0x100_0000) % 0x100
  }

  /** Of the 32-bit sids, exactly those in [2^24, 2^25) are Xavax (type 1) sensors. */
  lemma XavaxSids(sid: int)
    requires -0x8000_0000 <= sid < 0x8000_0000
    ensures SensorType(sid) == 1 <==> 0x100_0000 <= sid < 0x200_0000
  {
    var q := sid / 0x100_0000;
    assert q * 0x100_0000 <= sid < q * 0x100_0000 + 0x100_0000;
    assert -0x80 <= q < 0x80;
  }

  /** A Xavax limit with a target temperature in the table follows it: min and max are the target -/+ 0.5. */
  function Retarget(s: LimitState, data: map<(int, int), Reading>): LimitState {
    if SensorType(s.sid) == 1 && (s.sid, 1) in data then
      var v := data[(s.sid, 1)].value;
      s.(min := v - 0.5, max := v + 0.5)
    else s
  }

  /** Retargeting moves only the thresholds, and only of a Xavax limit whose target is known. */
  lemma RetargetMeans(s: LimitState, data: map<(int, int), Reading>)
    ensures Retarget(s, data).(min := s.min, max := s.max) == s
    ensures SensorType(s.sid) == 1 && (s.sid, 1) in data ==>
      Retarget(s, data).min == data[(s.sid, 1)].value - 0.5 && Retarget(s, data).max == data[(s.sid, 1)].value + 0.5
    ensures !(SensorType(s.sid) == 1 && (s.sid, 1) in data) ==> Retarget(s, data) == s
  {
  }

  /** Limit::IsValid on a state. */
  predicate ValidLimit(s: LimitState) {
    s.sid >= 0 && s.subid >= 0 && s.out != []
  }

  /** What Limit::Eval answers for a state. */
  function Decide(s: LimitState, data: map<(int, int), Reading>, now: real, hour: int): (w: bool)
    ensures w ==> ValidLimit(s)
  {
    ValidLimit(s) && Wants(Effective(s.enable, s.sid, data, hour), Lookup(data, s.sid, s.subid), now, s.on, s.min, s.max)
  }

  /** A limit's state after one evaluation: retargeted, then its decision recorded when it changed. */
  function Step(s: LimitState, data: map<(int, int), Reading>, now: real, hour: int): LimitState {
    var t := Retarget(s, data);
    var d := Decide(t, data, now, hour);
    if ValidLimit(t) && d != t.on then t.(on := d, lastChange := now) else t
  }

  /**
   * An evaluation changes only the thresholds (by retargeting), the
   * decision and its time; a valid limit ends up in the decided state, and
   * the change time moves exactly when the decision changes.
   */
  lemma StepMeans(s: LimitState, data: map<(int, int), Reading>, now: real, hour: int)
    ensures Step(s, data, now, hour).(on := s.on, lastChange := s.lastChange) == Retarget(s, data)
    ensures var t := Retarget(s, data);
      ValidLimit(t) ==> Step(s, data, now, hour).on == Decide(t, data, now, hour)
    ensures !ValidLimit(Retarget(s, data)) ==> Step(s, data, now, hour) == Retarget(s, data)
    ensures Step(s, data, now, hour).on != s.on ==> Step(s, data, now, hour).lastChange == now
    ensures Step(s, data, now, hour).on == s.on ==> Step(s, data, now, hour).lastChange == s.lastChange
  {
  }

  /** Whether a limit in state s, evaluated, asks for output k: it decides on and one of its entries resolves to k. */
  predicate Asks(os: seq<Output>, s: LimitState, data: map<(int, int), Reading>, now: real, hour: int, k: nat) {
    Decide(Retarget(s, data), data, now, hour) && k in Resolve(os, Outputs(s.out))
  }

  /** A limit asks for an output exactly when it decides on and lists an entry whose first answering output it is. */
  lemma AsksMeans(os: seq<Output>, s: LimitState, data: map<(int, int), Reading>, now: real, hour: int, k: nat)
    ensures Asks(os, s, data, now, hour, k) <==>
      Decide(Retarget(s, data), data, now, hour) && exists e :: e in Outputs(s.out) && FirstOutput(os, e) == k < |os|
  {
    assert Retarget(s, data).out == s.out;
  }

  /** The outputs the first n limits ask for, given their states before the evaluation. */
  function Wanted(os: seq<Output>, ss: seq<LimitState>, n: nat, data: map<(int, int), Reading>, now: real, hour: int): set<nat>
    requires n <= |ss|
  {
    if n == 0 then {}
    else
      var s := ss[n - 1];
      Wanted(os, ss, n - 1, data, now, hour) + (if Decide(Retarget(s, data), data, now, hour) then Resolve(os, Outputs(s.out)) else {})
  }

  /** An output is wanted exactly when one of the limits asks for it. */
  lemma {:induction false} WantedMeans(os: seq<Output>, ss: seq<LimitState>, n: nat, data: map<(int, int), Reading>,
                                       now: real, hour: int, k: nat)
    requires n <= |ss|
    ensures k in Wanted(os, ss, n, data, now, hour) <==> exists j :: 0 <= j < n && Asks(os, ss[j], data, now, hour, k)
  {
    if n > 0 {
      WantedMeans(os, ss, n - 1, data, now, hour, k);
      if Asks(os, ss[n - 1], data, now, hour, k) {
        assert 0 <= n - 1 < n;
      }
    }
  }

  // ---------------------------------------------------------------------
  // What one evaluation does to an output.

  datatype OutState = OutState(on: bool, lastChange: real, levels: seq<int>, reports: seq<Sent>)

  function OutOf(o: Output): OutState
    reads o
  {
    OutState(o.on, o.lastChange, o.levels, o.reports)
  }

  ghost function OutStates(os: seq<Output>): (r: seq<OutState>)
    reads set o | o in os
    ensures |r| == |os|
  {
    if os == [] then [] else [OutOf(os[0])] + OutStates(os[1..])
  }

  lemma {:induction false} OutStatesAt(os: seq<Output>)
    ensures forall i :: 0 <= i < |os| ==> OutStates(os)[i] == OutOf(os[i])
  {
    if os != [] {
      OutStatesAt(os[1..]);
    }
  }

  /** Output::SetState on a state: a valid output that changes drives its pin and reports; nothing else happens. */
  function Applied(o: Output, s: OutState, want: bool, now: real): (r: OutState)
    ensures !o.IsValid() || want == s.on ==> r == s
    ensures o.IsValid() ==> r.on == want
  {
    if !o.IsValid() || want == s.on then s
    else OutState(want, now, s.levels + [Level(o.act, want)], s.reports + [Sent(o.id, now, want)])
  }

  /** Whether applying `wanted` changes one of the first n outputs. */
  predicate Changes(os: seq<Output>, ss: seq<OutState>, wanted: set<nat>, n: nat)
    requires n <= |os| == |ss|
  {
    n > 0 && (Changes(os, ss, wanted, n - 1) || (os[n - 1].IsValid() && ((n - 1) in wanted) != ss[n - 1].on))
  }

  /** The first n outputs' states after applying `wanted` to them. */
  function ApplyUpTo(os: seq<Output>, ss: seq<OutState>, wanted: set<nat>, now: real, n: nat): (r: seq<OutState>)
    requires n <= |os| == |ss|
    ensures |r| == n
  {
    if n == 0 then [] else ApplyUpTo(os, ss, wanted, now, n - 1) + [Applied(os[n - 1], ss[n - 1], (n - 1) in wanted, now)]
  }

  /** A change happens exactly when some valid output is not yet in the wanted state. */
  lemma {:induction false} ChangesMeans(os: seq<Output>, ss: seq<OutState>, wanted: set<nat>, n: nat)
    requires n <= |os| == |ss|
    ensures Changes(os, ss, wanted, n) <==> exists k :: 0 <= k < n && os[k].IsValid() && (k in wanted) != ss[k].on
  {
    if n > 0 {
      ChangesMeans(os, ss, wanted, n - 1);
    }
  }

  /** Each output is applied on its own. */
  lemma {:induction false} ApplyUpToAt(os: seq<Output>, ss: seq<OutState>, wanted: set<nat>, now: real, n: nat)
    requires n <= |os| == |ss|
    ensures forall k :: 0 <= k < n ==> ApplyUpTo(os, ss, wanted, now, n)[k] == Applied(os[k], ss[k], k in wanted, now)
  {
    if n > 0 {
      ApplyUpToAt(os, ss, wanted, now, n - 1);
    }
  }

  /** The first n limits' states after one evaluation of them. */
  function StepUpTo(ss: seq<LimitState>, n: nat, data: map<(int, int), Reading>, now: real, hour: int): (r: seq<LimitState>)
    requires n <= |ss|
    ensures |r| == n
  {
    if n == 0 then [] else StepUpTo(ss, n - 1, data, now, hour) + [Step(ss[n - 1], data, now, hour)]
  }

  /** Each limit is evaluated on its own. */
  lemma {:induction false} StepUpToAt(ss: seq<LimitState>, n: nat, data: map<(int, int), Reading>, now: real, hour: int)
    requires n <= |ss|
    ensures forall k :: 0 <= k < n ==> StepUpTo(ss, n, data, now, hour)[k] == Step(ss[k], data, now, hour)
  {
    if n > 0 {
      StepUpToAt(ss, n - 1, data, now, hour);
    }
  }

  /** Output::Report on a state: a valid output reports its current state, and nothing else changes. */
  function Reported(o: Output, s: OutState, now: real): (r: OutState)
    ensures r.on == s.on && r.lastChange == s.lastChange && r.levels == s.levels
    ensures !o.IsValid() ==> r == s
    ensures o.IsValid() ==> |r.reports| == |s.reports| + 1 && r.reports[..|s.reports|] == s.reports
    ensures o.IsValid() ==> r.reports[|s.reports|] == Sent(o.id, now, s.on)
  {
    if o.IsValid() then s.(reports := s.reports + [Sent(o.id, now, s.on)]) else s
  }

  /** The first n outputs' states after each reported. */
  function ReportUpTo(os: seq<Output>, ss: seq<OutState>, now: real, n: nat): (r: seq<OutState>)
    requires n <= |os| == |ss|
    ensures |r| == n
  {
    if n == 0 then [] else ReportUpTo(os, ss, now, n - 1) + [Reported(os[n - 1], ss[n - 1], now)]
  }

  /** Each output reports on its own. */
  lemma {:induction false} ReportUpToAt(os: seq<Output>, ss: seq<OutState>, now: real, n: nat)
    requires n <= |os| == |ss|
    ensures forall k :: 0 <= k < n ==> ReportUpTo(os, ss, now, n)[k] == Reported(os[k], ss[k], now)
  {
    if n > 0 {
      ReportUpToAt(os, ss, now, n - 1);
    }
  }

  /** The decisions the first n limits report: one for each valid, enabled limit, in slot order. */
  function LimitReports(ss: seq<LimitState>, n: nat, data: map<(int, int), Reading>, now: real, hour: int): seq<Sent>
    requires n <= |ss|
  {
    if n == 0 then []
    else
      var s := ss[n - 1];
      LimitReports(ss, n - 1, data, now, hour) +
        (if ValidLimit(s) && s.enable then [Sent(n - 1, now, Decide(Retarget(s, data), data, now, hour))] else [])
  }

  /** The state of the control loop: its flags and times, the reports sent, and every limit and output. */
  datatype Snap = Snap(enable: bool, lastEval: real, lastActionTs: real, heaterOn: bool, deadline: real,
                       limitReports: seq<Sent>, limits: seq<LimitState>, outs: seq<OutState>)

  /** The start of Control::Eval while control is enabled: an expired deadline is cleared and the heater flag dropped. */
  function Cleared(c: Snap, now: real): (r: Snap)
    ensures r.(heaterOn := c.heaterOn, deadline := c.deadline) == c
  {
    if c.enable && c.deadline > 0.0 && c.deadline < now then c.(heaterOn := false, deadline := 0.0) else c
  }

  /** Whether Control::Eval returns early: under manual control, or unforced within the evaluation interval. */
  predicate Suspended(c: Snap, interval: real, force: bool, now: real) {
    c.enable && (c.deadline != 0.0 || (now - c.lastEval < interval && !force))
  }

  /** The limit loop of Control::Eval: while control is enabled every limit is evaluated and reports its decision. */
  function LimitsDone(c: Snap, data: map<(int, int), Reading>, now: real, hour: int): Snap {
    if c.enable then
      c.(limits := StepUpTo(c.limits, |c.limits|, data, now, hour),
         limitReports := c.limitReports + LimitReports(c.limits, |c.limits|, data, now, hour))
    else c
  }

  /** The outputs the limit loop switches on: none while control is disabled. */
  function WantedOf(c: Snap, os: seq<Output>, data: map<(int, int), Reading>, now: real, hour: int): set<nat> {
    if c.enable then Wanted(os, c.limits, |c.limits|, data, now, hour) else {}
  }

  /** The output loop of Control::Eval: the wanted outputs on, the others off, and the time of this evaluation. */
  function OutputsDone(c: Snap, os: seq<Output>, wanted: set<nat>, now: real): Snap
    requires |os| == |c.outs|
  {
    c.(outs := ApplyUpTo(os, c.outs, wanted, now, |os|),
       lastActionTs := if Changes(os, c.outs, wanted, |os|) then now else c.lastActionTs,
       lastEval := now)
  }

  /**
   * The rest of Control::Eval: while control is enabled every limit is
   * evaluated and the outputs some deciding limit names are switched on,
   * the others off; while it is disabled every output is switched off.
   */
  function Ran(c: Snap, os: seq<Output>, now: real, hour: int, data: map<(int, int), Reading>): Snap
    requires |os| == |c.outs|
  {
    OutputsDone(LimitsDone(c, data, now, hour), os, WantedOf(c, os, data, now, hour), now)
  }

  /** Control::Eval on a state. */
  function EvalSpec(c: Snap, os: seq<Output>, interval: real, force: bool,
                    now: real, hour: int, data: map<(int, int), Reading>): (r: Snap)
    requires |os| == |c.outs|
    ensures |r.outs| == |os| && |r.limits| == |c.limits|
  {
    var c1 := Cleared(c, now);
    if Suspended(c1, interval, force, now) then c1 else Ran(c1, os, now, hour, data)
  }

  class Control {
    /** limits_ and outputs_, built once from the configuration. */
    const limits: seq<Limit>
    const outputs: seq<Output>

    /** cfg_->enable, cfg_->eval_interval and hub.lim_sid. */
    var enable: bool
    const evalInterval: real
    /** last_eval_ and last_action_ts_. */
    var lastEval: real
    var lastActionTs: real
    /** The globals s_heater_on and s_deadline; a deadline of 0 means none. */
    var heaterOn: bool
    var deadline: real
    /** The limit decisions reported, report_to_server(hub.lim_sid, limit id, now, decision). */
    var limitReports: seq<Sent>

    /** There are NUM_LIMITS limits, each in the slot of its id. */
    predicate Numbered() {
      |limits| == NumLimits && forall j :: 0 <= j < |limits| ==> limits[j].id == j
    }

    /** The limits are numbered, and the outputs are distinct and keep their pins in step. */
    ghost predicate Valid()
      reads set o | o in outputs
    {
      && Numbered() && |outputs| == NumOutputs
      && (forall a, b :: 0 <= a < b < |outputs| ==> outputs[a] != outputs[b])
      && (forall i :: 0 <= i < |outputs| ==> outputs[i].Valid())
    }

    /** Control::Control: one limit per slot, numbered by slot, and the configured outputs, all off. */
    constructor(enable: bool, evalInterval: real, limits: seq<Limit>, outputs: seq<Output>)
      requires |limits| == NumLimits && |outputs| == NumOutputs
      requires forall j :: 0 <= j < |limits| ==> limits[j].id == j
      requires forall a, b :: 0 <= a < b < |outputs| ==> outputs[a] != outputs[b]
      requires forall i :: 0 <= i < |outputs| ==> outputs[i].Valid()
      ensures Valid()
      ensures this.limits == limits && this.outputs == outputs
      ensures this.enable == enable && this.evalInterval == evalInterval
      ensures lastEval == 0.0 && lastActionTs == 0.0 && !heaterOn && deadline == 0.0 && limitReports == []
    {
      this.limits, this.outputs := limits, outputs;
      this.enable, this.evalInterval := enable, evalInterval;
      lastEval, lastActionTs, heaterOn, deadline, limitReports := 0.0, 0.0, false, 0.0, [];
    }

    /** Control::GetOutputByNameOrID: the first valid output answering to the name or id, or |outputs| for none. */
    method GetOutputByNameOrID(e: string) returns (i: nat)
      ensures i == FirstOutput(outputs, e)
    {
      i := 0;
      while i < |outputs| && !Answers(outputs[i], e)
        invariant i <= |outputs|
        invariant forall k :: 0 <= k < i ==> !Answers(outputs[k], e)
      {
        i := i + 1;
      }
      FirstOutputAt(outputs, e, i);
    }

    /** The loop over l->outputs() in Control::Eval: the outputs the names resolve to. */
    method ResolveNames(names: set<string>) returns (ks: set<nat>)
      ensures ks == Resolve(outputs, names)
    {
      ks := {};
      var rest := names;
      while rest != {}
        invariant rest <= names
        invariant ks == Resolve(outputs, names - rest)
        decreases |rest|
      {
        var e :| e in rest;
        var k := GetOutputByNameOrID(e);
        ResolveAdd(outputs, names - rest, e);
        if k < |outputs| {
          ks := ks + {k};
        }
        assert (names - rest) + {e} == names - (rest - {e});
        rest := rest - {e};
      }
      assert names - rest == names;
    }

    /** For a Xavax sensor with a known target temperature, the thresholds follow the target. */
    static method RetargetLimit(l: Limit, data: map<(int, int), Reading>)
      modifies l
      ensures StateOf(l) == Retarget(old(StateOf(l)), data)
    {
      if SensorType(l.sid) == 1 && (l.sid, 1) in data {
        var v := data[(l.sid, 1)].value;
        if l.min != v - 0.5 || l.max != v + 0.5 {
          l.min := v - 0.5;
          l.max := v + 0.5;
        }
      }
    }

    /** One pass of the limit loop: retarget a Xavax limit, let it decide, and report a valid enabled one. */
    method EvalLimit(j: nat, ghost s: LimitState, now: real, hour: int, data: map<(int, int), Reading>)
      returns (want: bool, ks: set<nat>)
      requires Numbered() && j < |limits| && StateOf(limits[j]) == s
      modifies limits[j], this`limitReports
      ensures StateOf(limits[j]) == Step(s, data, now, hour)
      ensures want == Decide(Retarget(s, data), data, now, hour)
      ensures ks == if want then Resolve(outputs, Outputs(s.out)) else {}
      ensures limitReports == old(limitReports) + (if ValidLimit(s) && s.enable then [Sent(j, now, want)] else [])
    {
      var l := limits[j];
      RetargetLimit(l, data);
      ghost var t := Retarget(s, data);
      l.IsValidMeans();
      want := l.Eval(data, now, hour);
      assert want == Decide(t, data, now, hour);
      assert StateOf(l) == Step(s, data, now, hour);
      ks := {};
      if want {
        var names := ParseOutputsStr(l.out);
        ks := ResolveNames(names);
      }
      if l.IsValid() && l.enable {
        limitReports := limitReports + [Sent(l.id, now, want)];
      }
    }

    /** The whole state, as a value. */
    ghost function Snapshot(): Snap
      requires Valid()
      reads this, set l | l in limits, set o | o in outputs
    {
      Snap(enable, lastEval, lastActionTs, heaterOn, deadline, limitReports, States(limits), OutStates(outputs))
    }

    /** The limit loop of Control::Eval: every limit is evaluated in slot order, and the outputs they ask for collected. */
    method EvalLimits(now: real, hour: int, data: map<(int, int), Reading>) returns (wanted: set<nat>)
      requires Numbered()
      modifies set l | l in limits, this`limitReports
      ensures States(limits) == StepUpTo(old(States(limits)), |limits|, data, now, hour)
      ensures wanted == Wanted(outputs, old(States(limits)), |limits|, data, now, hour)
      ensures limitReports == old(limitReports) + LimitReports(old(States(limits)), |limits|, data, now, hour)
    {
      ghost var ss := States(limits);
      StatesAt(limits);
      ghost var done: seq<LimitState> := [];
      wanted := {};
      var j := 0;
      while j < |limits|
        invariant EvaluatedThrough(ss, j, data, now, hour, done, wanted, old(limitReports))
      {
        done, wanted := EvalStep(j, ss, now, hour, data, done, wanted, old(limitReports));
        j := j + 1;
      }
      StatesAt(limits);
      assert States(limits) == done;
    }

    /** After j passes of the limit loop: Evaluated holds, the first j limits are stepped and the rest untouched. */
    ghost predicate EvaluatedThrough(ss: seq<LimitState>, j: nat, data: map<(int, int), Reading>, now: real, hour: int,
                                     done: seq<LimitState>, wanted: set<nat>, reports0: seq<Sent>)
      reads this, set l | l in limits
    {
      && j <= |limits| == |ss|
      && Evaluated(outputs, ss, j, data, now, hour, done, wanted, reports0, limitReports)
      && (forall k :: 0 <= k < |limits| ==> StateOf(limits[k]) == if k < j then done[k] else ss[k])
    }

    /** One pass of the limit loop extends the progress by one limit. */
    method EvalStep(j: nat, ghost ss: seq<LimitState>, now: real, hour: int, data: map<(int, int), Reading>,
                    ghost done0: seq<LimitState>, wanted0: set<nat>, ghost reports0: seq<Sent>)
      returns (ghost done: seq<LimitState>, wanted: set<nat>)
      requires Numbered() && j < |limits| && EvaluatedThrough(ss, j, data, now, hour, done0, wanted0, reports0)
      modifies limits[j], this`limitReports
      ensures EvaluatedThrough(ss, j + 1, data, now, hour, done, wanted, reports0)
    {
      ghost var reports := limitReports;
      var want, ks := EvalLimit(j, ss[j], now, hour, data);
      EvaluatedStep(outputs, ss, j, data, now, hour, done0, wanted0, reports0, reports, want, ks, StateOf(limits[j]));
      done := done0 + [StateOf(limits[j])];
      wanted := wanted0 + ks;
    }

    /** The output loop of Control::Eval: each valid output is set to whether it is wanted. */
    method ApplyOutputs(wanted: set<nat>, now: real)
      requires Valid()
      modifies set o | o in outputs, this`lastActionTs
      ensures Valid()
      ensures OutStates(outputs) == ApplyUpTo(outputs, old(OutStates(outputs)), wanted, now, |outputs|)
      ensures lastActionTs == if Changes(outputs, old(OutStates(outputs)), wanted, |outputs|) then now else old(lastActionTs)
    {
      ghost var os0 := OutStates(outputs);
      OutStatesAt(outputs);
      ghost var done: seq<OutState> := [];
      var i := 0;
      while i < |outputs|
        invariant Valid()
        invariant AppliedThrough(os0, wanted, now, old(lastActionTs), i, done)
      {
        done := ApplyStep(i, wanted, now, os0, old(lastActionTs), done);
        i := i + 1;
      }
      OutStatesAt(outputs);
      assert OutStates(outputs) == done;
    }

    /** After i passes of the output loop: the first i outputs applied, the rest untouched, and a change noted. */
    ghost predicate AppliedThrough(os0: seq<OutState>, wanted: set<nat>, now: real, ts0: real, i: nat, done: seq<OutState>)
      reads this, set o | o in outputs
    {
      && i <= |outputs| == |os0|
      && done == ApplyUpTo(outputs, os0, wanted, now, i)
      && (forall k :: 0 <= k < |outputs| ==> OutOf(outputs[k]) == if k < i then done[k] else os0[k])
      && lastActionTs == if Changes(outputs, os0, wanted, i) then now else ts0
    }

    /** One pass of the output loop extends the progress by one output. */
    method ApplyStep(i: nat, wanted: set<nat>, now: real, ghost os0: seq<OutState>, ghost ts0: real, ghost done0: seq<OutState>)
      returns (ghost done: seq<OutState>)
      requires Valid() && i < |outputs| && AppliedThrough(os0, wanted, now, ts0, i, done0)
      modifies outputs[i], this`lastActionTs
      ensures Valid() && AppliedThrough(os0, wanted, now, ts0, i + 1, done)
    {
      ApplyOne(i, i in wanted, now);
      done := done0 + [OutOf(outputs[i])];
    }

    /** One pass of the output loop: a valid output is set to `want`, and a change is the time of the last action. */
    method ApplyOne(i: nat, want: bool, now: real)
      requires Valid() && i < |outputs|
      modifies outputs[i], this`lastActionTs
      ensures Valid()
      ensures OutOf(outputs[i]) == Applied(outputs[i], old(OutOf(outputs[i])), want, now)
      ensures lastActionTs == if outputs[i].IsValid() && want != old(outputs[i].on) then now else old(lastActionTs)
    {
      var o := outputs[i];
      if o.IsValid() {
        if want != o.GetState() {
          lastActionTs := now;
        }
        o.SetState(want, now);
      }
      assert forall k :: 0 <= k < |outputs| && k != i ==> outputs[k] != o;
    }

    /** The start of Control::Eval while control is enabled. */
    method ClearDeadline(now: real)
      requires Valid()
      modifies this`heaterOn, this`deadline
      ensures Snapshot() == Cleared(old(Snapshot()), now)
    {
      if enable && deadline > 0.0 && deadline < now {
        if heaterOn {
          heaterOn := false;
        }
        deadline := 0.0;
      }
    }

    /** The limit loop of Control::Eval, when control is enabled. */
    method RunLimits(now: real, hour: int, data: map<(int, int), Reading>) returns (wanted: set<nat>)
      requires Valid()
      modifies this`limitReports, set l | l in limits
      ensures Valid()
      ensures wanted == WantedOf(old(Snapshot()), outputs, data, now, hour)
      ensures Snapshot() == LimitsDone(old(Snapshot()), data, now, hour)
    {
      wanted := {};
      if enable {
        wanted := EvalLimits(now, hour, data);
      }
    }

    /** The output loop of Control::Eval, and the time of this evaluation. */
    method RunOutputs(wanted: set<nat>, now: real)
      requires Valid()
      modifies this`lastActionTs, this`lastEval, set o | o in outputs
      ensures Valid()
      ensures Snapshot() == OutputsDone(old(Snapshot()), outputs, wanted, now)
    {
      ApplyOutputs(wanted, now);
      lastEval := now;
    }

    /** The limit and output loops of Control::Eval. */
    method Run(now: real, hour: int, data: map<(int, int), Reading>)
      requires Valid()
      modifies this`limitReports, this`lastActionTs, this`lastEval, set l | l in limits, set o | o in outputs
      ensures Valid()
      ensures Snapshot() == Ran(old(Snapshot()), outputs, now, hour, data)
    {
      var wanted := RunLimits(now, hour, data);
      RunOutputs(wanted, now);
    }

    /** Control::Eval, with the time, the local hour and the data table as parameters. */
    method Eval(force: bool, now: real, hour: int, data: map<(int, int), Reading>)
      requires Valid()
      modifies this, set l | l in limits, set o | o in outputs
      ensures Valid()
      ensures Snapshot() == EvalSpec(old(Snapshot()), outputs, evalInterval, force, now, hour, data)
    {
      ClearDeadline(now);
      if enable && (deadline != 0.0 || (now - lastEval < evalInterval && !force)) {
        return;
      }
      Run(now, hour, data);
    }

    /** Control::SetEnabled: a change of the flag forces an evaluation; setting it to its value does nothing. */
    method SetEnabled(v: bool, now: real, hour: int, data: map<(int, int), Reading>)
      requires Valid()
      modifies this, set l | l in limits, set o | o in outputs
      ensures Valid()
      ensures Snapshot() == if v == old(enable) then old(Snapshot())
                            else EvalSpec(old(Snapshot()).(enable := v), outputs, evalInterval, true, now, hour, data)
    {
      if v == enable {
        return;
      }
      enable := v;
      Eval(true, now, hour, data);
    }

    /** Control::GetOutputStatus: the state and last change of the output answering to e, when there is one. */
    method GetOutputStatus(e: string) returns (r: Option<(bool, real)>)
      ensures r.Some? <==> exists i :: 0 <= i < |outputs| && Answers(outputs[i], e)
      ensures r.Some? ==> var o := outputs[FirstOutput(outputs, e)]; r.value == (o.on, o.lastChange)
    {
      var i := GetOutputByNameOrID(e);
      if i == |outputs| || !outputs[i].IsValid() {
        return None;
      }
      var st := outputs[i].GetStateWithTimestamp();
      r := Some(st);
    }

    /** Control::ReportOutputs: every valid output reports its state again. */
    method ReportOutputs(now: real)
      requires Valid()
      modifies set o | o in outputs
      ensures Valid()
      ensures Snapshot() == old(Snapshot()).(outs := ReportUpTo(outputs, old(Snapshot()).outs, now, |outputs|))
    {
      ghost var os0 := OutStates(outputs);
      OutStatesAt(outputs);
      ghost var done: seq<OutState> := [];
      var i := 0;
      while i < |outputs|
        invariant i <= |outputs|
        invariant Valid()
        invariant done == ReportUpTo(outputs, os0, now, i)
        invariant forall k :: 0 <= k < |outputs| ==> OutOf(outputs[k]) == if k < i then done[k] else os0[k]
      {
        ReportOne(i, now);
        done := done + [OutOf(outputs[i])];
        i := i + 1;
      }
      OutStatesAt(outputs);
      assert OutStates(outputs) == done;
    }

    /** One pass of the report loop. */
    method ReportOne(i: nat, now: real)
      requires Valid() && i < |outputs|
      modifies outputs[i]
      ensures Valid()
      ensures OutOf(outputs[i]) == Reported(outputs[i], old(OutOf(outputs[i])), now)
    {
      var o := outputs[i];
      o.Report(now);
      assert forall k :: 0 <= k < |outputs| && k != i ==> outputs[k] != o;
    }
  }

  /** After j passes of the limit loop: the first j limits stepped, their wishes collected and their decisions reported. */
  ghost predicate Evaluated(os: seq<Output>, ss: seq<LimitState>, j: nat, data: map<(int, int), Reading>, now: real, hour: int,
                            done: seq<LimitState>, wanted: set<nat>, reports0: seq<Sent>, reports: seq<Sent>)
  {
    && j <= |ss|
    && done == StepUpTo(ss, j, data, now, hour)
    && wanted == Wanted(os, ss, j, data, now, hour)
    && reports == reports0 + LimitReports(ss, j, data, now, hour)
  }

  /** One more pass of the limit loop, as EvalLimit describes it, extends the progress by one limit. */
  lemma EvaluatedStep(os: seq<Output>, ss: seq<LimitState>, j: nat, data: map<(int, int), Reading>, now: real, hour: int,
                      done: seq<LimitState>, wanted: set<nat>, reports0: seq<Sent>, reports: seq<Sent>,
                      want: bool, ks: set<nat>, next: LimitState)
    requires Evaluated(os, ss, j, data, now, hour, done, wanted, reports0, reports) && j < |ss|
    requires next == Step(ss[j], data, now, hour)
    requires want == Decide(Retarget(ss[j], data), data, now, hour)
    requires ks == if want then Resolve(os, Outputs(ss[j].out)) else {}
    ensures Evaluated(os, ss, j + 1, data, now, hour, done + [next], wanted + ks, reports0,
                      reports + (if ValidLimit(ss[j]) && ss[j].enable then [Sent(j, now, want)] else []))
  {
  }

  /** The search of GetOutputByNameOrID stops at the first output answering. */
  lemma {:induction false} FirstOutputAt(os: seq<Output>, e: string, i: nat)
    requires i <= |os| && (i < |os| ==> Answers(os[i], e))
    requires forall k :: 0 <= k < i ==> !Answers(os[k], e)
    ensures i == FirstOutput(os, e)
  {
    if os != [] && i > 0 {
      FirstOutputAt(os[1..], e, i - 1);
    }
  }
}
