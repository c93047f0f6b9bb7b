// The RPC handlers of hub_control.cpp: Hub.Control.GetLimits and SetLimit,
// Hub.Control.GetOutputs, Hub.Heater.GetStatus and Set, and the ctl_on /
// ctl_off cron action. Each works on the control object; the time, the
// local hour, the data table and whether saving the configuration succeeds
// are parameters.
module ControlRpc {
  import opened Wrappers
  import opened Thresholds
  import opened ControlLimit
  import opened ControlOutput
  import opened HubPoint
  import opened HubControl
  import opened ControlProps

  // ---------------------------------------------------------------------
  // Hub.Control.GetLimits

  /** Whether GetLimits lists a limit: it has a channel, and matches each of the sid and subid filters that is not negative. */
  predicate Listed(s: LimitState, sid: int, subid: int) {
    s.sid >= 0 && s.subid >= 0 && (sid < 0 || s.sid == sid) && (subid < 0 || s.subid == subid)
  }

  /** The slots of the first n limits that GetLimits lists, in slot order. */
  function ListedUpTo(ss: seq<LimitState>, sid: int, subid: int, n: nat): seq<nat>
    requires n <= |ss|
  {
    if n == 0 then [] else ListedUpTo(ss, sid, subid, n - 1) + (if Listed(ss[n - 1], sid, subid) then [n - 1] else [])
  }

  /** The listed slots are exactly the matching ones, in increasing order, so each appears once. */
  lemma {:induction false} ListedUpToMeans(ss: seq<LimitState>, sid: int, subid: int, n: nat)
    requires n <= |ss|
    ensures forall k: nat :: k in ListedUpTo(ss, sid, subid, n) <==> k < n && Listed(ss[k], sid, subid)
    ensures forall a, b :: 0 <= a < b < |ListedUpTo(ss, sid, subid, n)| ==>
      ListedUpTo(ss, sid, subid, n)[a] < ListedUpTo(ss, sid, subid, n)[b]
  {
    if n > 0 {
      ListedUpToMeans(ss, sid, subid, n - 1);
      var p := ListedUpTo(ss, sid, subid, n - 1);
      assert forall k :: k in p ==> k < n - 1;
      IncreasingSnoc(p, n - 1);
    }
  }

  /** Extending an increasing sequence by a larger element keeps it increasing. */
  lemma IncreasingSnoc(p: seq<nat>, x: nat)
    requires forall a, b :: 0 <= a < b < |p| ==> p[a] < p[b]
    requires forall k :: k in p ==> k < x
    ensures forall a, b :: 0 <= a < b < |p + [x]| ==> (p + [x])[a] < (p + [x])[b]
  {
    forall a, b | 0 <= a < b < |p + [x]|
      ensures (p + [x])[a] < (p + [x])[b]
    {
      if b == |p| {
        assert p[a] in p;
      }
    }
  }

  /** Hub.Control.GetLimits: the ids of the listed limits in slot order; the reply prints each one's settings. */
  method GetLimits(ctl: Control, sid: int, subid: int) returns (ids: seq<nat>)
    requires ctl.Numbered()
    ensures ids == ListedUpTo(States(ctl.limits), sid, subid, |ctl.limits|)
  {
    ghost var ss := States(ctl.limits);
    StatesAt(ctl.limits);
    ids := [];
    var j := 0;
    while j < |ctl.limits|
      invariant j <= |ctl.limits|
      invariant ids == ListedUpTo(ss, sid, subid, j)
    {
      var l := ctl.limits[j];
      if l.sid >= 0 && l.subid >= 0 && (sid < 0 || l.sid == sid) && (subid < 0 || l.subid == subid) {
        ids := ids + [l.id];
      }
      j := j + 1;
    }
  }

  // ---------------------------------------------------------------------
  // Hub.Control.GetOutputs

  /** Whether GetOutputs lists an output: it is valid and matches the id filter unless negative, and the name unless empty. */
  predicate Shown(o: Output, id: int, name: string) {
    o.IsValid() && (id < 0 || o.id == id) && (|name| == 0 || o.name == Some(name))
  }

  /** The indices of the first n outputs that GetOutputs lists, in order. */
  function ShownUpTo(os: seq<Output>, id: int, name: string, n: nat): seq<nat>
    requires n <= |os|
  {
    if n == 0 then [] else ShownUpTo(os, id, name, n - 1) + (if Shown(os[n - 1], id, name) then [n - 1] else [])
  }

  /** The listed outputs are exactly the matching ones, in increasing order. */
  lemma {:induction false} ShownUpToMeans(os: seq<Output>, id: int, name: string, n: nat)
    requires n <= |os|
    ensures forall k: nat :: k in ShownUpTo(os, id, name, n) <==> k < n && Shown(os[k], id, name)
    ensures forall a, b :: 0 <= a < b < |ShownUpTo(os, id, name, n)| ==>
      ShownUpTo(os, id, name, n)[a] < ShownUpTo(os, id, name, n)[b]
  {
    if n > 0 {
      ShownUpToMeans(os, id, name, n - 1);
      var p := ShownUpTo(os, id, name, n - 1);
      assert forall k :: k in p ==> k < n - 1;
      IncreasingSnoc(p, n - 1);
    }
  }

  /** Hub.Control.GetOutputs, with a missing name as the empty string: the indices of the listed outputs. */
  method GetOutputs(ctl: Control, id: int, name: string) returns (idx: seq<nat>)
    ensures idx == ShownUpTo(ctl.outputs, id, name, |ctl.outputs|)
  {
    idx := [];
    var i := 0;
    while i < |ctl.outputs|
      invariant i <= |ctl.outputs|
      invariant idx == ShownUpTo(ctl.outputs, id, name, i)
    {
      var o := ctl.outputs[i];
      if o.IsValid() && (id < 0 || o.id == id) && (|name| == 0 || o.name == Some(name)) {
        idx := idx + [i];
      }
      i := i + 1;
    }
  }

  // ---------------------------------------------------------------------
  // Hub.Control.SetLimit

  /** The three searches SetLimit makes, in turn: the limit on the channel, an unused limit, a disabled limit. */
  datatype Fit = Same(sid: int, subid: int) | Unused | Disabled

  predicate Fits(s: LimitState, f: Fit) {
    match f
    case Same(sid, subid) => s.sid == sid && s.subid == subid
    case Unused => !ValidLimit(s)
    case Disabled => !s.enable
  }

  /** The first slot that fits, or the number of slots. */
  function FirstFit(ss: seq<LimitState>, f: Fit): (j: nat)
    ensures j <= |ss|
    ensures j < |ss| ==> Fits(ss[j], f)
    ensures forall k :: 0 <= k < j ==> !Fits(ss[k], f)
  {
    if ss == [] then 0 else if Fits(ss[0], f) then 0 else 1 + FirstFit(ss[1..], f)
  }

  /** The slot SetLimit fills: the first on the channel, else the first unused, else the first disabled; |ss| for none. */
  function Slot(ss: seq<LimitState>, sid: int, subid: int): nat {
    var a := FirstFit(ss, Same(sid, subid));
    if a < |ss| then a
    else
      var b := FirstFit(ss, Unused);
      if b < |ss| then b else FirstFit(ss, Disabled)
  }

  /**
   * A slot is found exactly when some limit is on the channel, unused or
   * disabled; a limit already on the channel keeps it (the first such), and
   * a slot given a new channel is taken only when no limit had that channel.
   */
  lemma SlotMeans(ss: seq<LimitState>, sid: int, subid: int)
    ensures Slot(ss, sid, subid) <= |ss|
    ensures Slot(ss, sid, subid) < |ss| <==>
      exists k :: 0 <= k < |ss| && (Fits(ss[k], Same(sid, subid)) || !ValidLimit(ss[k]) || !ss[k].enable)
    ensures var j := Slot(ss, sid, subid);
      (exists k :: 0 <= k < |ss| && Fits(ss[k], Same(sid, subid))) ==>
        j < |ss| && Fits(ss[j], Same(sid, subid)) && forall k :: 0 <= k < j ==> !Fits(ss[k], Same(sid, subid))
    ensures var j := Slot(ss, sid, subid);
      j < |ss| && !Fits(ss[j], Same(sid, subid)) ==> forall k :: 0 <= k < |ss| ==> !Fits(ss[k], Same(sid, subid))
  {
    var a := FirstFit(ss, Same(sid, subid));
    var b := FirstFit(ss, Unused);
    var d := FirstFit(ss, Disabled);
    if exists k :: 0 <= k < |ss| && (Fits(ss[k], Same(sid, subid)) || !ValidLimit(ss[k]) || !ss[k].enable) {
      var k :| 0 <= k < |ss| && (Fits(ss[k], Same(sid, subid)) || !ValidLimit(ss[k]) || !ss[k].enable);
      assert Fits(ss[k], Same(sid, subid)) || Fits(ss[k], Unused) || Fits(ss[k], Disabled);
    }
  }

  /** Every name resolves to an output. */
  predicate AllResolve(os: seq<Output>, names: set<string>) {
    forall e :: e in names ==> FirstOutput(os, e) < |os|
  }

  /** The settings SetLimit writes into a slot: the channel, and each of out, enable, min and max the request gives. */
  function Edited(s: LimitState, sid: int, subid: int, enable: Option<bool>, min: Option<real>, max: Option<real>,
                  out: Option<string>): LimitState
  {
    s.(out := out.GetOr(s.out), sid := sid, subid := subid, enable := enable.GetOr(s.enable),
       min := min.GetOr(s.min), max := max.GetOr(s.max))
  }

  /**
   * Hub.Control.SetLimit on a state: a negative sid is error -1, no slot is
   * error -2, an output name that resolves to nothing is error -1; otherwise
   * the slot is edited, and then a failed save is error -1 (the edit stays)
   * and a successful one is followed by a forced evaluation.
   */
  function SetLimitSpec(c: Snap, os: seq<Output>, interval: real, sid: int, subid: int, enable: Option<bool>,
                        min: Option<real>, max: Option<real>, out: Option<string>, saved: bool,
                        now: real, hour: int, data: map<(int, int), Reading>): (Reply, Snap)
    requires |os| == |c.outs|
  {
    if sid < 0 then (Failed(-1), c)
    else
      var j := Slot(c.limits, sid, subid);
      if j >= |c.limits| then (Failed(-2), c)
      else if out.Some? && !AllResolve(os, Outputs(out.value)) then (Failed(-1), c)
      else Commit(EditedAt(c, j, sid, subid, enable, min, max, out), os, interval, saved, now, hour, data)
  }

  /** The state with slot j edited as the request says. */
  function EditedAt(c: Snap, j: nat, sid: int, subid: int, enable: Option<bool>, min: Option<real>, max: Option<real>,
                    out: Option<string>): Snap
    requires j < |c.limits|
  {
    c.(limits := c.limits[j := Edited(c.limits[j], sid, subid, enable, min, max, out)])
  }

  /** The end of SetLimit: a failed save is error -1 and keeps the edit; otherwise a forced evaluation follows. */
  function Commit(c: Snap, os: seq<Output>, interval: real, saved: bool,
                  now: real, hour: int, data: map<(int, int), Reading>): (Reply, Snap)
    requires |os| == |c.outs|
  {
    if !saved then (Failed(-1), c) else (Done, EvalSpec(c, os, interval, true, now, hour, data))
  }

  /**
   * The errors of SetLimit: -2 exactly when the sid is valid and every limit
   * is valid, enabled and on another channel; -1 for a negative sid, an
   * unknown output or a failed save; a request refused before the edit
   * changes nothing.
   */
  lemma SetLimitErrors(c: Snap, os: seq<Output>, interval: real, sid: int, subid: int, enable: Option<bool>,
                       min: Option<real>, max: Option<real>, out: Option<string>, saved: bool,
                       now: real, hour: int, data: map<(int, int), Reading>)
    requires |os| == |c.outs|
    ensures var r := SetLimitSpec(c, os, interval, sid, subid, enable, min, max, out, saved, now, hour, data);
      r.0 == Failed(-2) <==>
        sid >= 0 && forall k :: 0 <= k < |c.limits| ==>
          ValidLimit(c.limits[k]) && c.limits[k].enable && !(c.limits[k].sid == sid && c.limits[k].subid == subid)
    ensures var r := SetLimitSpec(c, os, interval, sid, subid, enable, min, max, out, saved, now, hour, data);
      var found := Slot(c.limits, sid, subid) < |c.limits|;
      var named := out.None? || AllResolve(os, Outputs(out.value));
      && (r.0 == Failed(-1) <==> sid < 0 || (found && (!named || !saved)))
      && (r.0 == Done <==> sid >= 0 && found && named && saved)
      && (sid < 0 || !found || !named ==> r.1 == c)
  {
    SlotMeans(c.limits, sid, subid);
  }

  /** No two limits on the same channel, among those with a sensor. */
  ghost predicate OnePerChannel(ss: seq<LimitState>) {
    forall a, b :: 0 <= a < b < |ss| && ss[a].sid >= 0 && ss[b].sid >= 0 ==>
      !(ss[a].sid == ss[b].sid && ss[a].subid == ss[b].subid)
  }

  /** A successful SetLimit leaves the chosen slot on the requested channel with the requested settings. */
  lemma SetLimitWrites(c: Snap, os: seq<Output>, interval: real, sid: int, subid: int,
                       enable: Option<bool>, min: Option<real>, max: Option<real>,
                       out: Option<string>, saved: bool,
                       now: real, hour: int, data: map<(int, int), Reading>)
    requires |os| == |c.outs|
    requires SetLimitSpec(c, os, interval, sid, subid, enable, min, max, out, saved, now, hour, data).0 == Done
    ensures var r := SetLimitSpec(c, os, interval, sid, subid, enable, min, max, out, saved, now, hour, data);
      var j := Slot(c.limits, sid, subid);
      j < |c.limits| == |r.1.limits| &&
      Config(r.1.limits[j]) == (sid, subid, enable.GetOr(c.limits[j].enable), out.GetOr(c.limits[j].out))
  {
    var j := Slot(c.limits, sid, subid);
    var c1 := EditedAt(c, j, sid, subid, enable, min, max, out);
    EvalKeepsConfig(c1, os, interval, true, now, hour, data);
  }

  /** A successful SetLimit leaves the settings of every other slot as they were. */
  lemma SetLimitKeepsOthers(c: Snap, os: seq<Output>, interval: real, sid: int, subid: int,
                            enable: Option<bool>, min: Option<real>, max: Option<real>,
                            out: Option<string>, saved: bool,
                            now: real, hour: int, data: map<(int, int), Reading>)
    requires |os| == |c.outs|
    requires SetLimitSpec(c, os, interval, sid, subid, enable, min, max, out, saved, now, hour, data).0 == Done
    ensures var r := SetLimitSpec(c, os, interval, sid, subid, enable, min, max, out, saved, now, hour, data);
      |r.1.limits| == |c.limits| &&
      forall k :: 0 <= k < |c.limits| && k != Slot(c.limits, sid, subid) ==> Config(r.1.limits[k]) == Config(c.limits[k])
  {
    var j := Slot(c.limits, sid, subid);
    var c1 := EditedAt(c, j, sid, subid, enable, min, max, out);
    EvalKeepsConfig(c1, os, interval, true, now, hour, data);
  }

  /** Limits with the same channels as limits on distinct channels are on distinct channels too. */
  lemma SameChannels(ss: seq<LimitState>, tt: seq<LimitState>)
    requires |ss| == |tt| && OnePerChannel(ss)
    requires forall k :: 0 <= k < |ss| ==> Config(tt[k]) == Config(ss[k])
    ensures OnePerChannel(tt)
  {
    forall a, b | 0 <= a < b < |tt| && tt[a].sid >= 0 && tt[b].sid >= 0
      ensures !(tt[a].sid == tt[b].sid && tt[a].subid == tt[b].subid)
    {
      assert Config(tt[a]) == Config(ss[a]) && Config(tt[b]) == Config(ss[b]);
    }
  }

  /** Writing a channel into the slot SetLimit picks keeps the channels distinct. */
  lemma EditKeepsChannels(c: Snap, sid: int, subid: int, enable: Option<bool>, min: Option<real>, max: Option<real>,
                          out: Option<string>)
    requires OnePerChannel(c.limits) && Slot(c.limits, sid, subid) < |c.limits|
    ensures OnePerChannel(EditedAt(c, Slot(c.limits, sid, subid), sid, subid, enable, min, max, out).limits)
  {
    SlotMeans(c.limits, sid, subid);
  }

  /** SetLimit, whatever its outcome, never puts a second limit with a sensor on a channel. */
  lemma SetLimitOnePerChannel(c: Snap, os: seq<Output>, interval: real, sid: int, subid: int,
                              enable: Option<bool>, min: Option<real>, max: Option<real>,
                              out: Option<string>, saved: bool,
                              now: real, hour: int, data: map<(int, int), Reading>)
    requires |os| == |c.outs|
    requires OnePerChannel(c.limits)
    ensures OnePerChannel(SetLimitSpec(c, os, interval, sid, subid, enable, min, max, out, saved, now, hour, data).1.limits)
  {
    var j := Slot(c.limits, sid, subid);
    if sid >= 0 && j < |c.limits| && (out.None? || AllResolve(os, Outputs(out.value))) {
      var c1 := EditedAt(c, j, sid, subid, enable, min, max, out);
      EditKeepsChannels(c, sid, subid, enable, min, max, out);
      if saved {
        EvalKeepsConfig(c1, os, interval, true, now, hour, data);
        SameChannels(c1.limits, EvalSpec(c1, os, interval, true, now, hour, data).limits);
      }
    }
  }

  /** Whether one limit fits a search, as SetLimit's loops test it. */
  method Matches(l: Limit, f: Fit) returns (b: bool)
    ensures b == Fits(StateOf(l), f)
  {
    match f
    case Same(sid, subid) =>
      b := l.sid == sid && l.subid == subid;
    case Unused =>
      l.IsValidMeans();
      b := !l.IsValid();
    case Disabled =>
      b := !l.enable;
  }

  /** One of SetLimit's searches: the first slot that fits. */
  method FindFit(ctl: Control, f: Fit) returns (j: nat)
    ensures j == FirstFit(States(ctl.limits), f)
  {
    ghost var ss := States(ctl.limits);
    StatesAt(ctl.limits);
    j := 0;
    while j < |ctl.limits|
      invariant j <= |ctl.limits|
      invariant forall k :: 0 <= k < j ==> !Fits(ss[k], f)
    {
      var b := Matches(ctl.limits[j], f);
      if b {
        break;
      }
      j := j + 1;
    }
    FirstFitAt(ss, f, j);
  }

  /** SetLimit's three searches in turn. */
  method FindSlot(ctl: Control, sid: int, subid: int) returns (j: nat)
    ensures j == Slot(States(ctl.limits), sid, subid)
  {
    j := FindFit(ctl, Same(sid, subid));
    if j == |ctl.limits| {
      j := FindFit(ctl, Unused);
      if j == |ctl.limits| {
        j := FindFit(ctl, Disabled);
      }
    }
  }

  /** The check of the requested output list: every entry must name an output. */
  method CheckNames(ctl: Control, out: string) returns (ok: bool)
    ensures ok == AllResolve(ctl.outputs, Outputs(out))
  {
    var names := ParseOutputsStr(out);
    var rest := names;
    ok := true;
    while rest != {} && ok
      invariant rest <= names
      invariant ok == AllResolve(ctl.outputs, names - rest)
      decreases |rest|
    {
      var e :| e in rest;
      var i := ctl.GetOutputByNameOrID(e);
      if i == |ctl.outputs| {
        ok := false;
      }
      assert (names - rest) + {e} == names - (rest - {e});
      rest := rest - {e};
    }
    if !ok {
      assert !AllResolve(ctl.outputs, names - rest);
      var e :| e in names - rest && FirstOutput(ctl.outputs, e) >= |ctl.outputs|;
      assert e in names;
    }
  }

  /** The setters SetLimit calls on the chosen limit. */
  method EditLimit(l: Limit, sid: int, subid: int, enable: Option<bool>, min: Option<real>, max: Option<real>,
                   out: Option<string>)
    modifies l
    ensures StateOf(l) == Edited(old(StateOf(l)), sid, subid, enable, min, max, out)
  {
    if out.Some? {
      l.out := out.value;
    }
    l.sid := sid;
    l.subid := subid;
    if enable.Some? {
      l.enable := enable.value;
    }
    if min.Some? {
      l.min := min.value;
    }
    if max.Some? {
      l.max := max.value;
    }
  }

  /** Editing slot j of the control object. */
  method EditSlot(ctl: Control, j: nat, sid: int, subid: int, enable: Option<bool>, min: Option<real>,
                  max: Option<real>, out: Option<string>)
    requires ctl.Valid() && j < |ctl.limits|
    modifies ctl.limits[j]
    ensures ctl.Valid()
    ensures ctl.Snapshot() == EditedAt(old(ctl.Snapshot()), j, sid, subid, enable, min, max, out)
  {
    ghost var ss := States(ctl.limits);
    StatesAt(ctl.limits);
    EditLimit(ctl.limits[j], sid, subid, enable, min, max, out);
    assert forall k :: 0 <= k < |ctl.limits| && k != j ==> ctl.limits[k] != ctl.limits[j] by {
      assert forall k :: 0 <= k < |ctl.limits| ==> ctl.limits[k].id == k;
    }
    StatesAt(ctl.limits);
    assert States(ctl.limits) == ss[j := Edited(ss[j], sid, subid, enable, min, max, out)];
  }

  /**
   * Hub.Control.SetLimit (also registered as Hub.Heater.SetLimits), with
   * absent request fields as None and the outcome of saving the
   * configuration as a parameter.
   */
  method SetLimit(ctl: Control, sid: int, subid: int, enable: Option<bool>, min: Option<real>, max: Option<real>,
                  out: Option<string>, saved: bool, now: real, hour: int, data: map<(int, int), Reading>)
    returns (r: Reply)
    requires ctl.Valid()
    modifies ctl, set l | l in ctl.limits, set o | o in ctl.outputs
    ensures ctl.Valid()
    ensures (r, ctl.Snapshot()) ==
      SetLimitSpec(old(ctl.Snapshot()), ctl.outputs, ctl.evalInterval, sid, subid, enable, min, max, out, saved,
                   now, hour, data)
  {
    ghost var c := ctl.Snapshot();
    if sid < 0 {
      return Failed(-1);
    }
    var j := FindSlot(ctl, sid, subid);
    assert j == Slot(c.limits, sid, subid);
    if j == |ctl.limits| {
      return Failed(-2);
    }
    r := CheckAndSave(ctl, j, sid, subid, enable, min, max, out, saved, now, hour, data);
  }

  /** The rest of SetLimit once a slot is found: the output names are checked, then the slot saved. */
  method CheckAndSave(ctl: Control, j: nat, sid: int, subid: int, enable: Option<bool>, min: Option<real>,
                      max: Option<real>, out: Option<string>, saved: bool, now: real, hour: int,
                      data: map<(int, int), Reading>)
    returns (r: Reply)
    requires ctl.Valid() && j < |ctl.limits|
    modifies ctl, set l | l in ctl.limits, set o | o in ctl.outputs
    ensures ctl.Valid()
    ensures (r, ctl.Snapshot()) ==
      if out.Some? && !AllResolve(ctl.outputs, Outputs(out.value)) then (Failed(-1), old(ctl.Snapshot()))
      else Commit(EditedAt(old(ctl.Snapshot()), j, sid, subid, enable, min, max, out), ctl.outputs, ctl.evalInterval,
                  saved, now, hour, data)
  {
    if out.Some? {
      var ok := CheckNames(ctl, out.value);
      if !ok {
        return Failed(-1);
      }
    }
    r := Save(ctl, j, sid, subid, enable, min, max, out, saved, now, hour, data);
  }

  /** The end of SetLimit: edit the slot, save the configuration, and evaluate. */
  method Save(ctl: Control, j: nat, sid: int, subid: int, enable: Option<bool>, min: Option<real>, max: Option<real>,
              out: Option<string>, saved: bool, now: real, hour: int, data: map<(int, int), Reading>)
    returns (r: Reply)
    requires ctl.Valid() && j < |ctl.limits|
    modifies ctl, set l | l in ctl.limits, set o | o in ctl.outputs
    ensures ctl.Valid()
    ensures (r, ctl.Snapshot()) ==
      Commit(EditedAt(old(ctl.Snapshot()), j, sid, subid, enable, min, max, out), ctl.outputs, ctl.evalInterval,
             saved, now, hour, data)
  {
    EditSlot(ctl, j, sid, subid, enable, min, max, out);
    if !saved {
      return Failed(-1);
    }
    ctl.Eval(true, now, hour, data);
    r := Done;
  }

  // ---------------------------------------------------------------------
  // Hub.Heater.GetStatus and Hub.Heater.Set

  /** Hub.Heater.GetStatus: the heater flag, and the whole seconds left to the deadline, or -1 once it has passed. */
  function HeaterStatus(c: Snap, now: real): (r: (bool, int))
    ensures r.0 == c.heaterOn
    ensures c.deadline >= now ==> 0 <= r.1 && r.1 as real <= c.deadline - now < r.1 as real + 1.0
    ensures c.deadline < now ==> r.1 == -1
  {
    (c.heaterOn, Remaining(c.deadline, now))
  }

  /** The handler of Hub.Heater.GetStatus. */
  method GetHeaterStatus(ctl: Control, now: real) returns (on: bool, duration: int)
    requires ctl.Valid()
    ensures (on, duration) == HeaterStatus(ctl.Snapshot(), now)
  {
    duration := RemainingSeconds(ctl.deadline, now);
    on := ctl.heaterOn;
  }

  /** The reply of Hub.Heater.Set: an error code, or the control flag, the heater flag and the deadline. */
  datatype HeaterReply = HeaterFailed(code: int) | HeaterDone(ctlOn: bool, heaterOn: bool, deadline: real)

  /** The ctl_on part of Hub.Heater.Set: SetEnabled. */
  function ControlRequested(c: Snap, os: seq<Output>, interval: real, ctlOn: Option<bool>,
                            now: real, hour: int, data: map<(int, int), Reading>): (r: Snap)
    requires |os| == |c.outs|
    ensures |r.outs| == |os|
  {
    if ctlOn.Some? && ctlOn.value != c.enable then EvalSpec(c.(enable := ctlOn.value), os, interval, true, now, hour, data)
    else c
  }

  /** The state Hub.Heater.Set replies with: after ctl_on, and with heater_on and a deadline `duration` seconds ahead. */
  function HeaterRequested(c: Snap, os: seq<Output>, interval: real, ctlOn: Option<bool>, heaterOn: Option<bool>,
                           duration: int, now: real, hour: int, data: map<(int, int), Reading>): (r: Snap)
    requires |os| == |c.outs|
    ensures |r.outs| == |os|
  {
    var c1 := ControlRequested(c, os, interval, ctlOn, now, hour, data);
    if heaterOn.Some? then c1.(heaterOn := heaterOn.value, deadline := now + HeaterDuration(duration) as real) else c1
  }

  /**
   * Hub.Heater.Set on a state: at least one of ctl_on and heater_on is
   * required (else error -1); the reply carries the flags and the deadline
   * of the requested state, and a forced evaluation follows it.
   */
  function HeaterSetSpec(c: Snap, os: seq<Output>, interval: real, ctlOn: Option<bool>, heaterOn: Option<bool>,
                         duration: int, now: real, hour: int, data: map<(int, int), Reading>): (HeaterReply, Snap)
    requires |os| == |c.outs|
  {
    if ctlOn.None? && heaterOn.None? then (HeaterFailed(-1), c)
    else
      var c2 := HeaterRequested(c, os, interval, ctlOn, heaterOn, duration, now, hour, data);
      (HeaterDone(c2.enable, c2.heaterOn, c2.deadline), EvalSpec(c2, os, interval, true, now, hour, data))
  }

  /** A heater request without either flag is refused with error -1 and changes nothing; any other is answered. */
  lemma HeaterSetRefused(c: Snap, os: seq<Output>, interval: real, ctlOn: Option<bool>, heaterOn: Option<bool>,
                         duration: int, now: real, hour: int, data: map<(int, int), Reading>)
    requires |os| == |c.outs|
    ensures var r := HeaterSetSpec(c, os, interval, ctlOn, heaterOn, duration, now, hour, data);
      (r.0.HeaterFailed? <==> ctlOn.None? && heaterOn.None?) && (r.0.HeaterFailed? ==> r.0.code == -1 && r.1 == c)
  {
  }

  /** With ctl_on given, control ends up in the requested state, as the reply says. */
  lemma HeaterSetControl(c: Snap, os: seq<Output>, interval: real, ctlOn: Option<bool>, heaterOn: Option<bool>,
                         duration: int, now: real, hour: int, data: map<(int, int), Reading>)
    requires |os| == |c.outs| && ctlOn.Some?
    ensures var r := HeaterSetSpec(c, os, interval, ctlOn, heaterOn, duration, now, hour, data);
      r.1.enable == ctlOn.value && r.0.HeaterDone? && r.0.ctlOn == ctlOn.value
  {
  }

  /**
   * With heater_on given at a non-negative time, the flag is as requested,
   * the status reports the requested duration (a default for none), and
   * while control is enabled the evaluation after the reply changes nothing.
   */
  lemma HeaterSetHeater(c: Snap, os: seq<Output>, interval: real, ctlOn: Option<bool>, heaterOn: Option<bool>,
                        duration: int, now: real, hour: int, data: map<(int, int), Reading>)
    requires |os| == |c.outs| && heaterOn.Some? && now >= 0.0
    ensures var r := HeaterSetSpec(c, os, interval, ctlOn, heaterOn, duration, now, hour, data);
      && r.0 == HeaterDone(r.1.enable, heaterOn.value, now + HeaterDuration(duration) as real)
      && HeaterStatus(r.1, now) == (heaterOn.value, HeaterDuration(duration))
      && (r.1.enable ==> r.1 == HeaterRequested(c, os, interval, ctlOn, heaterOn, duration, now, hour, data))
  {
    var c2 := HeaterRequested(c, os, interval, ctlOn, heaterOn, duration, now, hour, data);
    if c2.enable {
      EvalWaitsForDeadline(c2, os, interval, true, now, hour, data);
    }
  }

  /** Setting the manual heater flag and its deadline. */
  method SetHeater(ctl: Control, on: bool, deadline: real)
    requires ctl.Valid()
    modifies ctl`heaterOn, ctl`deadline
    ensures ctl.Valid()
    ensures ctl.Snapshot() == old(ctl.Snapshot()).(heaterOn := on, deadline := deadline)
  {
    if on != ctl.heaterOn {
      ctl.heaterOn := on;
    }
    ctl.deadline := deadline;
  }

  /** The ctl_on part of Hub.Heater.Set. */
  method RequestControl(ctl: Control, ctlOn: Option<bool>, now: real, hour: int, data: map<(int, int), Reading>)
    requires ctl.Valid()
    modifies ctl, set l | l in ctl.limits, set o | o in ctl.outputs
    ensures ctl.Valid()
    ensures ctl.Snapshot() == ControlRequested(old(ctl.Snapshot()), ctl.outputs, ctl.evalInterval, ctlOn, now, hour, data)
  {
    if ctlOn.Some? {
      ctl.SetEnabled(ctlOn.value, now, hour, data);
    }
  }

  /** Hub.Heater.Set up to its reply. */
  method Request(ctl: Control, ctlOn: Option<bool>, heaterOn: Option<bool>, duration: int,
                 now: real, hour: int, data: map<(int, int), Reading>)
    requires ctl.Valid()
    modifies ctl, set l | l in ctl.limits, set o | o in ctl.outputs
    ensures ctl.Valid()
    ensures ctl.Snapshot() ==
      HeaterRequested(old(ctl.Snapshot()), ctl.outputs, ctl.evalInterval, ctlOn, heaterOn, duration, now, hour, data)
  {
    RequestControl(ctl, ctlOn, now, hour, data);
    if heaterOn.Some? {
      var d := duration;
      if d <= 0 {
        d := 12 * 3600;
      }
      SetHeater(ctl, heaterOn.value, now + d as real);
    }
  }

  /** The handler of Hub.Heater.Set, with a missing duration as -1. */
  method HeaterSet(ctl: Control, ctlOn: Option<bool>, heaterOn: Option<bool>, duration: int,
                   now: real, hour: int, data: map<(int, int), Reading>) returns (r: HeaterReply)
    requires ctl.Valid()
    modifies ctl, set l | l in ctl.limits, set o | o in ctl.outputs
    ensures ctl.Valid()
    ensures (r, ctl.Snapshot()) ==
      HeaterSetSpec(old(ctl.Snapshot()), ctl.outputs, ctl.evalInterval, ctlOn, heaterOn, duration, now, hour, data)
  {
    if ctlOn.None? && heaterOn.None? {
      return HeaterFailed(-1);
    }
    Request(ctl, ctlOn, heaterOn, duration, now, hour, data);
    r := HeaterDone(ctl.enable, ctl.heaterOn, ctl.deadline);
    ctl.Eval(true, now, hour, data);
  }

  /** The ctl_on / ctl_off cron action: nothing when control is already in that state, SetEnabled otherwise. */
  method ControlCron(ctl: Control, on: bool, now: real, hour: int, data: map<(int, int), Reading>)
    requires ctl.Valid()
    modifies ctl, set l | l in ctl.limits, set o | o in ctl.outputs
    ensures ctl.Valid()
    ensures ctl.Snapshot() == if on == old(ctl.enable) then old(ctl.Snapshot())
                              else EvalSpec(old(ctl.Snapshot()).(enable := on), ctl.outputs, ctl.evalInterval, true,
                                            now, hour, data)
  {
    if ctl.enable == on {
      return;
    }
    ctl.SetEnabled(on, now, hour, data);
  }

  /** HubControlGetHeaterStatus: the state of the output named "Heater". */
  method HeaterOutputStatus(ctl: Control) returns (r: Option<(bool, real)>)
    ensures r.Some? <==> exists i :: 0 <= i < |ctl.outputs| && Answers(ctl.outputs[i], "Heater")
    ensures r.Some? ==> var o := ctl.outputs[FirstOutput(ctl.outputs, "Heater")]; r.value == (o.on, o.lastChange)
  {
    r := ctl.GetOutputStatus("Heater");
  }

  /** The searches of SetLimit stop at the first slot that fits. */
  lemma {:induction false} FirstFitAt(ss: seq<LimitState>, f: Fit, j: nat)
    requires j <= |ss| && (j < |ss| ==> Fits(ss[j], f))
    requires forall k :: 0 <= k < j ==> !Fits(ss[k], f)
    ensures j == FirstFit(ss, f)
  {
    if ss != [] && j > 0 {
      FirstFitAt(ss[1..], f, j - 1);
    }
  }
}
