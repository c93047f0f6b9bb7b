// hub_control_limit.cpp: one heating limit of the hub's control loop. A
// limit watches one sensor channel (sid, subid), switches on below `min`
// and off at `max`, and names the outputs it drives in a comma-separated
// string.
module ControlLimit {
  import opened Wrappers
  import opened Thresholds

  /** The index of the first comma at or after i, or |s| when there is none. */
  function CommaFrom(s: string, i: nat): (r: nat)
    requires i <= |s|
    ensures i <= r <= |s|
    ensures r < |s| ==> s[r] == ','
    ensures forall k :: i <= k < r ==> s[k] != ','
    decreases |s| - i
  {
    if i == |s| || s[i] == ',' then i else CommaFrom(s, i + 1)
  }

  /**
   * The entries mg_next_comma_list_entry yields for s[p..]: the pieces
   * between commas, where an empty string yields none and a trailing comma
   * ends the list without an empty last entry.
   */
  function EntriesFrom(s: string, p: nat): seq<string>
    requires p <= |s|
    decreases |s| - p
  {
    if p == |s| then []
    else
      var i := CommaFrom(s, p);
      if i == |s| then [s[p..]] else [s[p..i]] + EntriesFrom(s, i + 1)
  }

  /** The entries of a whole string. */
  function Entries(s: string): seq<string> {
    EntriesFrom(s, 0)
  }

  /** The entries joined back with commas. */
  function Join(es: seq<string>): string {
    if es == [] then [] else if |es| == 1 then es[0] else es[0] + [','] + Join(es[1..])
  }

  /** No entry contains a comma. */
  lemma {:induction false} EntriesHaveNoComma(s: string, p: nat)
    requires p <= |s|
    ensures forall e, k :: e in EntriesFrom(s, p) && 0 <= k < |e| ==> e[k] != ','
    decreases |s| - p
  {
    if p < |s| {
      var i := CommaFrom(s, p);
      if i < |s| {
        EntriesHaveNoComma(s, i + 1);
      }
    }
  }

  /** Joining the entries gives the string back, unless it ended in a comma that the split drops. */
  lemma {:induction false} JoinEntries(s: string, p: nat)
    requires p <= |s|
    requires s == [] || s[|s| - 1] != ','
    ensures Join(EntriesFrom(s, p)) == s[p..]
    decreases |s| - p
  {
    if p < |s| {
      var i := CommaFrom(s, p);
      if i < |s| {
        JoinEntries(s, i + 1);
        var es := EntriesFrom(s, i + 1);
        assert i + 1 < |s|;
        assert es != [];
        assert EntriesFrom(s, p) == [s[p..i]] + es;
        assert Join(EntriesFrom(s, p)) == s[p..i] + [','] + Join(es);
        assert s[p..] == s[p..i] + [','] + s[i + 1..];
      }
    }
  }

  /** A string has entries exactly when it is not empty: even "," names one, empty, output. */
  lemma EntriesPresent(s: string)
    ensures Entries(s) != [] <==> s != []
  {
  }

  /** The set of a list of entries. */
  function Elements(es: seq<string>): (r: set<string>)
    ensures forall e :: e in r <==> e in es
  {
    set e | e in es
  }

  /** Limit::ParseOutputsStr: the set of entries, duplicates collapsed. */
  function Outputs(s: string): set<string> {
    Elements(Entries(s))
  }

  /** Limit::ParseOutputsStr as written: walk the list entry by entry, inserting into a set. */
  method ParseOutputsStr(out: string) returns (outputs: set<string>)
    ensures outputs == Outputs(out)
    ensures forall e :: e in outputs <==> e in Entries(out)
  {
    outputs := {};
    var p := 0;
    while p < |out|
      invariant p <= |out|
      invariant outputs + Elements(EntriesFrom(out, p)) == Outputs(out)
      decreases |out| - p
    {
      var i := CommaFrom(out, p);
      var e := out[p..i];
      if i < |out| {
        ElementsCons(e, EntriesFrom(out, i + 1));
        outputs := outputs + {e};
        p := i + 1;
      } else {
        assert e == out[p..];
        assert EntriesFrom(out, p) == [e];
        outputs := outputs + {e};
        p := |out|;
      }
    }
  }

  lemma ElementsCons(e: string, es: seq<string>)
    ensures Elements([e] + es) == {e} + Elements(es)
  {
  }

  /** "warm outside": sensor 2/0 reads above 11.0 between 11:00 and 17:59 local time. */
  predicate Warm(data: map<(int, int), Reading>, hour: int) {
    var out := Lookup(data, 2, 0);
    out.Some? && 10 < hour < 18 && out.value.value > 11.0
  }

  /** A limit on sid 0 (the hall) is treated as disabled while it is warm outside. */
  predicate Effective(enable: bool, sid: int, data: map<(int, int), Reading>, hour: int) {
    enable && !(sid == 0 && Warm(data, hour))
  }

  class Limit {
    /** The slot number of the limit. */
    const id: int
    /** The mgos_config_hub_control_limit behind the limit. */
    var sid: int
    var subid: int
    var enable: bool
    var min: real
    var max: real
    var out: string
    /** The last decision and when it last changed. */
    var on: bool
    var lastChange: real

    /** Limit::Limit: a limit starts off. */
    constructor(id: int, sid: int, subid: int, enable: bool, min: real, max: real, out: string)
      ensures this.id == id && this.sid == sid && this.subid == subid && this.enable == enable
      ensures this.min == min && this.max == max && this.out == out
      ensures !on && lastChange == 0.0
    {
      this.id, this.sid, this.subid, this.enable := id, sid, subid, enable;
      this.min, this.max, this.out := min, max, out;
      on, lastChange := false, 0.0;
    }

    /** Limit::IsValid: a sensor channel and at least one output are configured. */
    predicate IsValid()
      reads this
    {
      sid >= 0 && subid >= 0 && |Outputs(out)| > 0
    }

    /** A limit is valid exactly when its channel is non-negative and its output string is not empty. */
    lemma IsValidMeans()
      ensures IsValid() <==> sid >= 0 && subid >= 0 && out != []
    {
      EntriesPresent(out);
      if out != [] {
        assert Entries(out)[0] in Outputs(out);
      } else {
        assert Outputs(out) == {};
      }
    }

    /**
     * Limit::Eval, with the data table, the time and the local hour as
     * parameters. An invalid limit answers off and keeps its state; a valid
     * one applies the hysteresis to its sensor's reading, and on_ and
     * last_change_ move only when the decision changes.
     */
    method Eval(data: map<(int, int), Reading>, now: real, hour: int) returns (wantOn: bool)
      modifies this
      ensures sid == old(sid) && subid == old(subid) && enable == old(enable)
      ensures min == old(min) && max == old(max) && out == old(out)
      ensures !IsValid() ==> !wantOn && on == old(on) && lastChange == old(lastChange)
      ensures IsValid() ==>
        wantOn == Wants(Effective(enable, sid, data, hour), Lookup(data, sid, subid), now, old(on), min, max)
      ensures IsValid() ==> on == wantOn
      ensures lastChange == if IsValid() && wantOn != old(on) then now else old(lastChange)
    {
      if !IsValid() {
        return false;
      }
      var enabled := enable;
      if enabled && sid == 0 {
        var outside := Lookup(data, 2, 0);
        if outside.Some? && hour > 10 && hour < 18 && outside.value.value > 11.0 {
          enabled := false;
        }
      }
      var sd := Lookup(data, sid, subid);
      if !enabled {
        wantOn := false;
      } else if sd.None? {
        wantOn := false;
      } else if now - sd.value.ts > MaxAge {
        wantOn := false;
      } else if !on && sd.value.value < min {
        wantOn := true;
      } else if on && sd.value.value < max {
        wantOn := true;
      } else {
        wantOn := false;
      }
      if wantOn != on {
        on := wantOn;
        lastChange := now;
      }
    }
  }
}
