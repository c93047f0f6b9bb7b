// hub_control_output.cpp: one relay output of the hub's control loop, a
// GPIO pin driven at level `act` when on, together with the reports it sends
// to the data server when its state changes.
module ControlOutput {
  import opened Wrappers

  /** The level written to the pin: `act` when on and its logical negation !act when off. */
  function Level(act: int, on: bool): (l: int)
    ensures on ==> l == act
    ensures !on ==> (l == 1 <==> act == 0) && (l == 0 <==> act != 0)
  {
    if on then act else if act == 0 then 1 else 0
  }

  /** A state report report_to_server(hub.ctl_sid, id, ts, on ? 1 : 0) of an output. */
  datatype Sent = Sent(id: int, ts: real, on: bool)

  class Output {
    /** The configuration the output was built from: o_->id, o_->pin, o_->name (null as None) and o_->act. */
    const id: int
    const pin: int
    const name: Option<string>
    const act: int

    var on: bool
    var lastChange: real
    /** The levels written to the pin, oldest first. */
    var levels: seq<int>
    /** The state reports sent, oldest first. */
    var reports: seq<Sent>

    /** Output::IsValid: a pin, an id and a name are configured. */
    predicate IsValid() {
      pin >= 0 && id >= 0 && name.Some?
    }

    /** The pin of a valid output is always at the level of its state. */
    ghost predicate Valid()
      reads this
    {
      IsValid() ==> levels != [] && levels[|levels| - 1] == Level(act, on)
    }

    /** Output::Output: the output starts off, and a valid one has its pin set up at !act. */
    constructor(id: int, pin: int, name: Option<string>, act: int)
      ensures this.id == id && this.pin == pin && this.name == name && this.act == act
      ensures !on && lastChange == 0.0 && reports == []
      ensures levels == if pin >= 0 && id >= 0 && name.Some? then [Level(act, false)] else []
      ensures Valid()
    {
      this.id, this.pin, this.name, this.act := id, pin, name, act;
      on, lastChange, reports := false, 0.0, [];
      if pin >= 0 && id >= 0 && name.Some? {
        levels := [Level(act, false)];
      } else {
        levels := [];
      }
    }

    /** Output::GetState: an invalid output always reads as off. */
    function GetState(): (r: bool)
      reads this
      ensures r ==> IsValid()
      ensures IsValid() ==> r == on
    {
      if !IsValid() then false else on
    }

    /**
     * Output::SetState: nothing happens for an invalid output or one already
     * in the requested state; otherwise the pin is driven, the change time
     * and state recorded and the new state reported. Afterwards a valid
     * output is in the requested state, so a second identical call changes
     * nothing.
     */
    method SetState(v: bool, now: real)
      requires Valid()
      modifies this
      ensures Valid()
      ensures GetState() == (IsValid() && v)
      ensures !IsValid() || v == old(on) ==> unchanged(this)
      ensures IsValid() && v != old(on) ==>
        && on == v && lastChange == now
        && levels == old(levels) + [Level(act, v)]
        && reports == old(reports) + [Sent(id, now, v)]
    {
      if !IsValid() {
        return;
      }
      var old_state := GetState();
      if v == old_state {
        return;
      }
      levels := levels + [Level(act, v)];
      lastChange := now;
      on := v;
      Report(now);
    }

    /** Output::Report: a valid output reports its current state. */
    method Report(now: real)
      modifies this
      ensures on == old(on) && lastChange == old(lastChange) && levels == old(levels)
      ensures reports == old(reports) + (if IsValid() then [Sent(id, now, on)] else [])
    {
      if IsValid() {
        reports := reports + [Sent(id, now, GetState())];
      }
    }

    /** Output::GetStateWithTimestamp: the state and the time of the last change, or off at time 0. */
    function GetStateWithTimestamp(): (r: (bool, real))
      reads this
      ensures r.0 == GetState()
      ensures r.1 == if IsValid() then lastChange else 0.0
    {
      if !IsValid() then (false, 0.0) else (GetState(), lastChange)
    }
  }
}
