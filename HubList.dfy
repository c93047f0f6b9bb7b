// hub.c: the C hub's table of the latest value of every sensor channel, a
// singly linked list searched front to back, with new channels inserted at
// the head and existing entries overwritten in place. Storing a record
// reports it to the data server through report_to_server_sd, which re-enters
// hub_add_data; the re-entry finds the record already stored and returns,
// so the recursion ends.
module HubList {
  import opened Wrappers
  import opened Bytes
  import opened HubPoint

  /** Whether an entry belongs to the channel (sid, subid). */
  predicate Matches(e: Sample, sid: i32, subid: i32) {
    e.sid == sid && e.subid == subid
  }

  /** The position of the first entry of the channel, or the list length when there is none. */
  function IndexOf(es: seq<Sample>, sid: i32, subid: i32): (i: nat)
    ensures i <= |es|
    ensures i < |es| ==> Matches(es[i], sid, subid)
    ensures forall j :: 0 <= j < i ==> !Matches(es[j], sid, subid)
  {
    if es == [] then 0 else if Matches(es[0], sid, subid) then 0 else 1 + IndexOf(es[1..], sid, subid)
  }

  /** Whether hub_add_data_internal stores sd: a positive ts, a non-negative sid, and a new channel or newer data. */
  predicate Changes(es: seq<Sample>, sd: Sample) {
    var i := IndexOf(es, sd.sid, sd.subid);
    sd.ts > 0.0 && sd.sid >= 0 && (i < |es| ==> es[i].ts < sd.ts)
  }

  /**
   * The list after hub_add_data_internal: unchanged unless sd is stored; a
   * new channel goes to the head, and a known one is overwritten in place,
   * name included.
   */
  function Put(es: seq<Sample>, sd: Sample): (r: seq<Sample>)
    ensures !Changes(es, sd) ==> r == es
    ensures Changes(es, sd) && IndexOf(es, sd.sid, sd.subid) == |es| ==> r == [sd] + es
    ensures Changes(es, sd) && IndexOf(es, sd.sid, sd.subid) < |es| ==>
      r == es[IndexOf(es, sd.sid, sd.subid) := sd]
  {
    if !Changes(es, sd) then es
    else
      var i := IndexOf(es, sd.sid, sd.subid);
      if i == |es| then [sd] + es else es[i := sd]
  }

  /** No two entries belong to the same channel, and every entry has a non-negative sid and a positive ts. */
  ghost predicate Unique(es: seq<Sample>) {
    && (forall i :: 0 <= i < |es| ==> es[i].sid >= 0 && es[i].ts > 0.0)
    && (forall i, j :: 0 <= i < j < |es| ==> !Matches(es[j], es[i].sid, es[i].subid))
  }

  /** In a list with one entry per channel, every entry is the one the search finds. */
  lemma UniqueFind(es: seq<Sample>, j: nat)
    requires Unique(es) && j < |es|
    ensures IndexOf(es, es[j].sid, es[j].subid) == j
  {
  }

  /** Storing keeps the list at most one entry per channel. */
  lemma PutUnique(es: seq<Sample>, sd: Sample)
    requires Unique(es)
    ensures Unique(Put(es, sd))
  {
    if Changes(es, sd) {
      var i := IndexOf(es, sd.sid, sd.subid);
      var r := Put(es, sd);
      if i == |es| {
        forall a, b | 0 <= a < b < |r|
          ensures !Matches(r[b], r[a].sid, r[a].subid)
        {
          if a == 0 {
            assert r[b] == es[b - 1];
          } else {
            assert r[a] == es[a - 1] && r[b] == es[b - 1];
          }
        }
      }
    }
  }

  /** After storing, the channel's entry is found and is at least as new as sd; a second identical add changes nothing. */
  lemma PutFinds(es: seq<Sample>, sd: Sample)
    requires sd.ts > 0.0 && sd.sid >= 0
    ensures IndexOf(Put(es, sd), sd.sid, sd.subid) < |Put(es, sd)|
    ensures Put(es, sd)[IndexOf(Put(es, sd), sd.sid, sd.subid)].ts >= sd.ts
    ensures Changes(es, sd) ==> Put(es, sd)[IndexOf(Put(es, sd), sd.sid, sd.subid)] == sd
    ensures !Changes(Put(es, sd), sd)
  {
    var i := IndexOf(es, sd.sid, sd.subid);
    var r := Put(es, sd);
    if Changes(es, sd) {
      if i == |es| {
        assert Matches(r[0], sd.sid, sd.subid);
        assert IndexOf(r, sd.sid, sd.subid) == 0;
      } else {
        assert Matches(r[i], sd.sid, sd.subid);
        assert forall j :: 0 <= j < i ==> r[j] == es[j];
        assert IndexOf(r, sd.sid, sd.subid) == i;
      }
    }
  }

  /** Storing leaves every other channel's entry as it was. */
  lemma PutOthers(es: seq<Sample>, sd: Sample, sid: i32, subid: i32)
    requires Unique(es) && !(sid == sd.sid && subid == sd.subid)
    ensures var r := Put(es, sd);
      var i, j := IndexOf(es, sid, subid), IndexOf(r, sid, subid);
      (i < |es| <==> j < |r|) && (i < |es| ==> r[j] == es[i])
  {
    var r := Put(es, sd);
    var i := IndexOf(es, sid, subid);
    if Changes(es, sd) {
      var k := IndexOf(es, sd.sid, sd.subid);
      if k == |es| {
        assert !Matches(r[0], sid, subid);
        assert r[1..] == es;
        assert IndexOf(r, sid, subid) == 1 + i;
      } else {
        assert forall j :: 0 <= j < |es| && j != k ==> r[j] == es[j];
        assert i != k;
        IndexOfSame(es, r, sid, subid, k);
      }
    }
  }

  /** Changing an entry of another channel does not move the channel's first entry. */
  lemma {:induction false} IndexOfSame(es: seq<Sample>, r: seq<Sample>, sid: i32, subid: i32, k: nat)
    requires |r| == |es| && k < |es| && !Matches(es[k], sid, subid) && !Matches(r[k], sid, subid)
    requires forall j :: 0 <= j < |es| && j != k ==> r[j] == es[j]
    ensures IndexOf(r, sid, subid) == IndexOf(es, sid, subid)
  {
    if es != [] && !Matches(es[0], sid, subid) {
      if k > 0 {
        IndexOfSame(es[1..], r[1..], sid, subid, k - 1);
      } else {
        assert r[1..] == es[1..];
      }
    }
  }

  /** What report_to_server_sd sends, as written: the re-entrant add's report when it stores sd, then sd itself. */
  function SdSends(es: seq<Sample>, sd: Sample, server: bool): (r: seq<Sample>)
    ensures sd.sid < 0 || !server ==> r == []
  {
    if sd.sid < 0 then []
    else (if server && Changes(es, sd) then [sd] else []) + (if server then [sd] else [])
  }

  /** A new data point passed to report_to_server reaches the data server twice. */
  lemma SentTwice(es: seq<Sample>, sd: Sample)
    requires Changes(es, sd)
    ensures SdSends(es, sd, true) == [sd, sd]
  {
  }

  /** For instance the first reading of sensor 1 on an empty list is sent twice. */
  lemma SentTwiceExample()
    ensures SdSends([], Sample(1, 0, None, 1.0, 20.0), true) == [Sample(1, 0, None, 1.0, 20.0), Sample(1, 0, None, 1.0, 20.0)]
  {
    SentTwice([], Sample(1, 0, None, 1.0, 20.0));
  }

  class Store {
    /** s_data, head first. */
    var entries: seq<Sample>
    /** The Sensor.Data calls sent to the data server, oldest first. */
    var sent: seq<Sample>
    /** Whether hub.data.server_addr is configured. */
    const server: bool

    ghost predicate Valid()
      reads this
    {
      Unique(entries)
    }

    /** SLIST_HEAD_INITIALIZER: an empty list. */
    constructor(server: bool)
      ensures this.server == server && entries == [] && sent == []
      ensures Valid()
    {
      this.server := server;
      entries, sent := [], [];
    }

    /** 1 while sd is still to be stored, 0 once it is: the measure that ends the re-entry. */
    ghost function Pending(sd: Sample): nat
      reads this
    {
      if Changes(entries, sd) then 1 else 0
    }

    /** SLIST_FOREACH with the match test: the first entry of the channel, or the list length. */
    method Find(sid: i32, subid: i32) returns (i: nat)
      ensures i == IndexOf(entries, sid, subid)
    {
      i := 0;
      while i < |entries| && !Matches(entries[i], sid, subid)
        invariant i <= |entries|
        invariant forall j :: 0 <= j < i ==> !Matches(entries[j], sid, subid)
      {
        i := i + 1;
      }
      FirstMatch(entries, sid, subid, i);
    }

    /**
     * hub_add_data_internal. The entry is overwritten before the report, so
     * the add that report_to_server_sd makes finds sd stored and returns.
     */
    method AddInternal(sd: Sample, report: bool)
      requires Valid()
      modifies this
      ensures Valid()
      ensures entries == Put(old(entries), sd)
      ensures sent == old(sent) + (if report && server && Changes(old(entries), sd) then [sd] else [])
      decreases Pending(sd), 0
    {
      PutUnique(entries, sd);
      if sd.ts <= 0.0 || sd.sid < 0 {
        return;
      }
      var i := Find(sd.sid, sd.subid);
      if i == |entries| {
        entries := [sd] + entries;
      } else if sd.ts <= entries[i].ts {
        return;
      } else {
        entries := entries[i := sd];
      }
      if report {
        PutFinds(old(entries), sd);
        ReportSd(sd);
      }
    }

    /** hub_add_data. */
    method AddData(sd: Sample)
      requires Valid()
      modifies this
      ensures Valid()
      ensures entries == Put(old(entries), sd)
      ensures sent == old(sent) + (if server && Changes(old(entries), sd) then [sd] else [])
      decreases Pending(sd), 1
    {
      AddInternal(sd, true);
    }

    /** report_to_server_sd: a record with a non-negative sid is added, then sent when a server is configured. */
    method ReportSd(sd: Sample)
      requires Valid()
      modifies this
      ensures Valid()
      ensures entries == Put(old(entries), sd)
      ensures sent == old(sent) + SdSends(old(entries), sd, server)
      decreases Pending(sd), 2
    {
      if sd.sid < 0 {
        return;
      }
      AddData(sd);
      if !server {
        return;
      }
      sent := sent + [sd];
    }

    /** report_to_server as written: a new point is stored and sent twice. */
    method ReportToServer(sid: i32, subid: i32, ts: real, value: real)
      requires Valid()
      modifies this
      ensures Valid()
      ensures entries == Put(old(entries), Sample(sid, subid, None, ts, value))
      ensures sent == old(sent) + SdSends(old(entries), Sample(sid, subid, None, ts, value), server)
    {
      ReportSd(Sample(sid, subid, None, ts, value));
    }

    /**
     * report_to_server_sd as evidently intended: store without reporting,
     * then forward once, as the outer call of report_to_server_sd does.
     */
    method ReportSdOnce(sd: Sample)
      requires Valid()
      modifies this
      ensures Valid()
      ensures entries == Put(old(entries), sd)
      ensures sent == old(sent) + (if sd.sid >= 0 && server then [sd] else [])
    {
      if sd.sid < 0 {
        return;
      }
      AddInternal(sd, false);
      if !server {
        return;
      }
      sent := sent + [sd];
    }

    /** report_to_server with the intended report_to_server_sd: every point with a non-negative sid is sent exactly once. */
    method ReportToServerOnce(sid: i32, subid: i32, ts: real, value: real)
      requires Valid()
      modifies this
      ensures Valid()
      ensures entries == Put(old(entries), Sample(sid, subid, None, ts, value))
      ensures sent == old(sent) + (if sid >= 0 && server then [Sample(sid, subid, None, ts, value)] else [])
    {
      ReportSdOnce(Sample(sid, subid, None, ts, value));
    }

    /** hub_get_data: the channel's entry, if the list holds one. */
    method Get(sid: i32, subid: i32) returns (r: Option<Sample>)
      ensures r.Some? <==> exists j :: 0 <= j < |entries| && Matches(entries[j], sid, subid)
      ensures r.Some? ==> r.value == entries[IndexOf(entries, sid, subid)] && Matches(r.value, sid, subid)
    {
      var i := Find(sid, subid);
      if i == |entries| {
        return None;
      }
      return Some(entries[i]);
    }

    /** parse_data_point: validate a point and add it. */
    method AddPoint(p: Point, defaultTs: real, now: real) returns (reply: Reply)
      requires Valid()
      modifies this
      ensures Valid()
      ensures reply == ReplyOf(ParsePoint(p, defaultTs, now))
      ensures var r := ParsePoint(p, defaultTs, now);
        && (r.Rejected? ==> entries == old(entries) && sent == old(sent))
        && (r.Accepted? ==> entries == Put(old(entries), r.sample)
                            && sent == old(sent) + (if server && Changes(old(entries), r.sample) then [r.sample] else []))
    {
      var r := ParsePoint(p, defaultTs, now);
      if r.Rejected? {
        return Failed(r.code);
      }
      AddData(r.sample);
      return Done;
    }

    /**
     * sensor_report_temp_handler: for a non-negative sid, a temperature above
     * -300 is added as subid 0 named "<name> Temp", and a humidity of at
     * least 0 as subid 1 named "<name> RH", each name cut to 99 characters.
     */
    method ReportTemp(sid: i32, name: Option<string>, ts: real, temp: real, rh: real)
      requires Valid()
      modifies this
      ensures Valid()
      ensures sid < 0 ==> entries == old(entries) && sent == old(sent)
      ensures sid >= 0 ==>
        var t := Sample(sid, 0, Labelled(name, " Temp"), ts, temp);
        var h := Sample(sid, 1, Labelled(name, " RH"), ts, rh);
        var mid := if temp > -300.0 then Put(old(entries), t) else old(entries);
        && entries == (if rh >= 0.0 then Put(mid, h) else mid)
        && sent == old(sent)
           + (if temp > -300.0 && server && Changes(old(entries), t) then [t] else [])
           + (if rh >= 0.0 && server && Changes(mid, h) then [h] else [])
    {
      if sid < 0 {
        return;
      }
      ghost var sent0 := sent;
      if temp > -300.0 {
        AddData(Sample(sid, 0, Labelled(name, " Temp"), ts, temp));
      }
      ghost var sent1 := sent;
      if rh >= 0.0 {
        AddData(Sample(sid, 1, Labelled(name, " RH"), ts, rh));
      }
      assert sent == sent0 + (sent1[|sent0|..]) + (sent[|sent1|..]);
    }
  }

  /** snprintf(buf, 100, "%s<suffix>", name): the label cut to 99 characters, or NULL without a name. */
  function Labelled(name: Option<string>, suffix: string): (r: Option<string>)
    ensures r.Some? <==> name.Some?
    ensures r.Some? ==> |r.value| <= 99 && r.value <= name.value + suffix
    ensures r.Some? && |name.value + suffix| <= 99 ==> r.value == name.value + suffix
    ensures r.Some? && |name.value + suffix| > 99 ==> |r.value| == 99
  {
    if name.None? then None
    else
      var s := name.value + suffix;
      Some(if |s| <= 99 then s else s[..99])
  }

  /** The loop of Find stops at the first match. */
  lemma {:induction false} FirstMatch(es: seq<Sample>, sid: i32, subid: i32, i: nat)
    requires i <= |es| && (i < |es| ==> Matches(es[i], sid, subid))
    requires forall j :: 0 <= j < i ==> !Matches(es[j], sid, subid)
    ensures i == IndexOf(es, sid, subid)
  {
    if es != [] && i > 0 {
      FirstMatch(es[1..], sid, subid, i - 1);
    }
  }
}
