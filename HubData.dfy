// hub_data.cpp: the hub's table of the latest value of every sensor channel,
// a std::map from a 64-bit key of (sid, subid) to the last record stored,
// which accepts only strictly newer data and forwards what it stores to the
// data server.
module HubData {
  import opened Wrappers
  import opened Bytes
  import opened HubPoint

  /** A stored record; an absent name is the empty std::string. */
  datatype SensorData = SensorData(sid: i32, subid: i32, ts: real, value: real, name: string)

  /** The record of an accepted data point. */
  function Record(s: Sample): (r: SensorData)
    ensures r.sid == s.sid && r.subid == s.subid && r.ts == s.ts && r.value == s.value
    ensures r.name == if s.name.Some? then s.name.value else []
  {
    SensorData(s.sid, s.subid, s.ts, s.value, if s.name.Some? then s.name.value else [])
  }

  const Half: nat := 0x1_0000_0000

  /** SensorData::MakeKey: (uint64_t(sid) << 32) | subid, a 64-bit key. */
  function MakeKey(sid: i32, subid: i32): (k: nat)
    ensures k < Half * Half
  {
    if subid >= 0 then ToU32(sid) * Half + subid else Half * Half + subid
  }

  /**
   * The low word of a key holds subid's 32 bits; the high word holds sid's,
   * except that a negative subid sign-extends to all ones and hides sid.
   */
  lemma KeyWords(sid: i32, subid: i32)
    ensures MakeKey(sid, subid) % Half == ToU32(subid)
    ensures MakeKey(sid, subid) / Half == if subid >= 0 then ToU32(sid) else Half - 1
  {
  }

  /** Channels with non-negative ids get distinct keys. */
  lemma KeyInjective(sid: i32, subid: i32, sid': i32, subid': i32)
    requires sid >= 0 && subid >= 0 && sid' >= 0 && subid' >= 0
    requires MakeKey(sid, subid) == MakeKey(sid', subid')
    ensures sid == sid' && subid == subid'
  {
    KeyWords(sid, subid);
    KeyWords(sid', subid');
  }

  /** A negative subid makes the key independent of sid: all sensors share it. */
  lemma KeyIgnoresSid(sid: i32, sid': i32, subid: i32)
    requires subid < 0
    ensures MakeKey(sid, subid) == MakeKey(sid', subid)
  {
  }

  /** A key with a negative subid never equals one with a non-negative subid, nor one with a negative sid. */
  lemma KeyNegativeApart(sid: i32, subid: i32, sid': i32, subid': i32)
    requires subid < 0 <= subid' || (subid >= 0 && subid' >= 0 && sid < 0 <= sid')
    ensures MakeKey(sid, subid) != MakeKey(sid', subid')
  {
    KeyWords(sid, subid);
    KeyWords(sid', subid');
  }

  /** The key of a record, SensorData::GetKey. */
  function KeyOf(r: SensorData): nat {
    MakeKey(r.sid, r.subid)
  }

  /** Whether hub_add_data_internal stores a record: a positive ts, a non-negative sid, and newer than what the key holds. */
  predicate Stores(data: map<nat, SensorData>, sd: SensorData) {
    sd.ts > 0.0 && sd.sid >= 0 && (KeyOf(sd) in data ==> data[KeyOf(sd)].ts < sd.ts)
  }

  /**
   * The table after hub_add_data_internal: an invalid record is ignored, a
   * new key is always stored, and an existing key is overwritten, name and
   * all, only by a strictly newer record.
   */
  function Merge(data: map<nat, SensorData>, sd: SensorData): (r: map<nat, SensorData>)
    ensures sd.ts <= 0.0 || sd.sid < 0 ==> r == data
    ensures sd.ts > 0.0 && sd.sid >= 0 && KeyOf(sd) !in data ==> r == data[KeyOf(sd) := sd]
    ensures KeyOf(sd) in data ==> r.Keys == data.Keys
    ensures KeyOf(sd) in data && sd.sid >= 0 && sd.ts > 0.0 ==>
      r[KeyOf(sd)] == if sd.ts > data[KeyOf(sd)].ts then sd else data[KeyOf(sd)]
    ensures forall k :: k in data && k != KeyOf(sd) ==> k in r && r[k] == data[k]
  {
    if Stores(data, sd) then data[KeyOf(sd) := sd] else data
  }

  /** Adding the same record twice is the same as adding it once. */
  lemma MergeIdempotent(data: map<nat, SensorData>, sd: SensorData)
    ensures Merge(Merge(data, sd), sd) == Merge(data, sd)
    ensures !Stores(Merge(data, sd), sd)
  {
  }

  /** Adding never loses a key and never makes a stored timestamp older. */
  lemma MergeMonotone(data: map<nat, SensorData>, sd: SensorData)
    ensures forall k :: k in data ==> k in Merge(data, sd) && Merge(data, sd)[k].ts >= data[k].ts
  {
  }

  /** The table after a sequence of adds, in order. */
  function MergeAll(data: map<nat, SensorData>, sds: seq<SensorData>): map<nat, SensorData> {
    if sds == [] then data else Merge(MergeAll(data, sds[..|sds| - 1]), sds[|sds| - 1])
  }

  /** The report one add sends: the record, when it is stored and a server is configured. */
  function Reported(data: map<nat, SensorData>, sd: SensorData, server: bool): (r: seq<SensorData>)
    ensures r == [] || r == [sd]
    ensures r != [] <==> server && Stores(data, sd)
  {
    if server && Stores(data, sd) then [sd] else []
  }

  /** The reports sent to the data server by a sequence of adds. */
  function ReportAll(data: map<nat, SensorData>, sds: seq<SensorData>, server: bool): seq<SensorData> {
    if sds == [] then []
    else
      var init := sds[..|sds| - 1];
      ReportAll(data, init, server) + Reported(MergeAll(data, init), sds[|sds| - 1], server)
  }

  /** A table and report log that are the folds of sds, after one more add, are the folds of sds + [sd]. */
  lemma FoldStep(data0: map<nat, SensorData>, sent0: seq<SensorData>, sds: seq<SensorData>, sd: SensorData, server: bool,
                 data1: map<nat, SensorData>, sent1: seq<SensorData>, data2: map<nat, SensorData>, sent2: seq<SensorData>)
    requires data1 == MergeAll(data0, sds) && sent1 == sent0 + ReportAll(data0, sds, server)
    requires data2 == Merge(data1, sd) && sent2 == sent1 + Reported(data1, sd, server)
    ensures data2 == MergeAll(data0, sds + [sd]) && sent2 == sent0 + ReportAll(data0, sds + [sd], server)
  {
    MergeAllSnoc(data0, sds, sd, server);
  }

  /** One more add extends both folds by one step. */
  lemma MergeAllSnoc(data: map<nat, SensorData>, sds: seq<SensorData>, sd: SensorData, server: bool)
    ensures MergeAll(data, sds + [sd]) == Merge(MergeAll(data, sds), sd)
    ensures ReportAll(data, sds + [sd], server) == ReportAll(data, sds, server) + Reported(MergeAll(data, sds), sd, server)
  {
    assert (sds + [sd])[..|sds|] == sds;
  }

  /** The records of the accepted points of a batch, in order. */
  function Added(ps: seq<Point>, defaultTs: real, now: real): (rs: seq<SensorData>)
    ensures |rs| <= |ps|
  {
    if ps == [] then []
    else
      var r := ParsePoint(ps[|ps| - 1], defaultTs, now);
      Added(ps[..|ps| - 1], defaultTs, now) + (if r.Accepted? then [Record(r.sample)] else [])
  }

  /** The records of a batch's first i + 1 points extend those of its first i by the i-th one's, if accepted. */
  lemma AddedSnoc(ps: seq<Point>, i: nat, defaultTs: real, now: real)
    requires i < |ps|
    ensures var r := ParsePoint(ps[i], defaultTs, now);
      Added(ps[..i + 1], defaultTs, now) == Added(ps[..i], defaultTs, now) + (if r.Accepted? then [Record(r.sample)] else [])
  {
    assert ps[..i + 1][..i] == ps[..i];
  }

  /**
   * After a sequence of adds every key stored before is still there with a
   * timestamp at least as new, and every storable record's key is present
   * with a timestamp at least as new as the record's.
   */
  lemma {:induction false} MergeAllKeeps(data: map<nat, SensorData>, sds: seq<SensorData>, i: nat)
    requires i < |sds| && sds[i].ts > 0.0 && sds[i].sid >= 0
    ensures KeyOf(sds[i]) in MergeAll(data, sds)
    ensures MergeAll(data, sds)[KeyOf(sds[i])].ts >= sds[i].ts
  {
    var init := sds[..|sds| - 1];
    if i < |sds| - 1 {
      assert init[i] == sds[i];
      MergeAllKeeps(data, init, i);
      MergeMonotone(MergeAll(data, init), sds[|sds| - 1]);
    }
  }

  /** A sequence of adds never loses a key and never makes a stored timestamp older. */
  lemma {:induction false} MergeAllMonotone(data: map<nat, SensorData>, sds: seq<SensorData>)
    ensures forall k :: k in data ==> k in MergeAll(data, sds) && MergeAll(data, sds)[k].ts >= data[k].ts
  {
    if sds != [] {
      var init := sds[..|sds| - 1];
      MergeAllMonotone(data, init);
      MergeMonotone(MergeAll(data, init), sds[|sds| - 1]);
    }
  }

  /** Each key of the table holds a record with that key, a non-negative sid and a positive ts. */
  ghost predicate Keyed(data: map<nat, SensorData>) {
    forall k :: k in data ==> data[k].sid >= 0 && data[k].ts > 0.0 && k == KeyOf(data[k])
  }

  /** Adding keeps the table keyed. */
  lemma MergeKeyed(data: map<nat, SensorData>, sd: SensorData)
    requires Keyed(data)
    ensures Keyed(Merge(data, sd))
  {
  }

  class Store {
    /** s_data. */
    var data: map<nat, SensorData>
    /** The Sensor.Data calls sent to the data server, oldest first. */
    var sent: seq<SensorData>
    /** Whether hub.data.server_addr is configured. */
    const server: bool

    ghost predicate Valid()
      reads this
    {
      Keyed(data)
    }

    /** An empty table. */
    constructor(server: bool)
      ensures this.server == server && data == map[] && sent == []
      ensures Valid()
    {
      this.server := server;
      data, sent := map[], [];
    }

    /** report_to_server_sd: a record with a non-negative sid is sent when a server is configured. */
    method ReportSd(sd: SensorData)
      modifies this
      ensures data == old(data)
      ensures sent == old(sent) + (if sd.sid >= 0 && server then [sd] else [])
    {
      if sd.sid < 0 {
        return;
      }
      if !server {
        return;
      }
      sent := sent + [sd];
    }

    /**
     * hub_add_data_internal. s_data[key] default-constructs a missing entry
     * with ts 0, which any storable record outbids, so a new key is never
     * left holding the default.
     */
    method AddInternal(sd: SensorData, report: bool)
      requires Valid()
      modifies this
      ensures Valid()
      ensures data == Merge(old(data), sd)
      ensures sent == old(sent) + (if report then Reported(old(data), sd, server) else [])
    {
      MergeKeyed(data, sd);
      if sd.ts > 0.0 && sd.sid >= 0 {
        var key := MakeKey(sd.sid, sd.subid);
        var sde := if key in data then data[key] else SensorData(-1, -1, 0.0, 0.0, []);
        assert key == KeyOf(sd);
        data := data[key := sde];
        if sd.ts > sde.ts {
          assert Stores(old(data), sd);
          data := data[key := sd];
          if report {
            ReportSd(sd);
          }
        }
      }
    }

    /** hub_add_data: add and report. */
    method Add(sd: SensorData)
      requires Valid()
      modifies this
      ensures Valid()
      ensures data == Merge(old(data), sd)
      ensures sent == old(sent) + Reported(old(data), sd, server)
    {
      AddInternal(sd, true);
    }

    /** report_to_server: add a record without a name, and report it if stored. */
    method ReportToServer(sid: i32, subid: i32, ts: real, value: real)
      requires Valid()
      modifies this
      ensures Valid()
      ensures data == Merge(old(data), SensorData(sid, subid, ts, value, []))
      ensures sent == old(sent) + Reported(old(data), SensorData(sid, subid, ts, value, []), server)
    {
      Add(SensorData(sid, subid, ts, value, []));
    }

    /** hub_get_data: the record stored under the channel's key, if any. */
    function Get(sid: i32, subid: i32): (r: Option<SensorData>)
      reads this
      ensures r.Some? <==> MakeKey(sid, subid) in data
      ensures r.Some? ==> r.value == data[MakeKey(sid, subid)]
    {
      var key := MakeKey(sid, subid);
      if key in data then Some(data[key]) else None
    }

    /** In a valid table a lookup by non-negative ids finds a record of exactly that channel. */
    lemma GetMatches(sid: i32, subid: i32)
      requires Valid() && sid >= 0 && subid >= 0
      ensures Get(sid, subid).Some? ==> Get(sid, subid).value.sid == sid && Get(sid, subid).value.subid == subid
    {
      var r := Get(sid, subid);
      if r.Some? {
        assert MakeKey(sid, subid) == KeyOf(r.value);
        KeyInjective(sid, subid, r.value.sid, r.value.subid);
      }
    }

    /** In a valid table a lookup with a negative sid and a non-negative subid finds nothing. */
    lemma GetNegativeSid(sid: i32, subid: i32)
      requires Valid() && sid < 0 && subid >= 0
      ensures Get(sid, subid).None?
    {
      var key := MakeKey(sid, subid);
      if key in data {
        var r := data[key];
        KeyWords(sid, subid);
        KeyWords(r.sid, r.subid);
        assert false;
      }
    }

    /**
     * hub_data_reset_handler: with both ids negative the table is cleared;
     * otherwise exactly the channel's key is erased, or the reply is 404 and
     * the table is untouched.
     */
    method Reset(sid: i32, subid: i32) returns (reply: Reply)
      requires Valid()
      modifies this
      ensures Valid() && sent == old(sent)
      ensures sid < 0 && subid < 0 ==> data == map[] && reply == Done
      ensures !(sid < 0 && subid < 0) && MakeKey(sid, subid) in old(data) ==>
        data == old(data) - {MakeKey(sid, subid)} && reply == Done
      ensures !(sid < 0 && subid < 0) && MakeKey(sid, subid) !in old(data) ==>
        data == old(data) && reply == Failed(404)
    {
      if sid < 0 && subid < 0 {
        data := map[];
        return Done;
      }
      var key := MakeKey(sid, subid);
      if key !in data {
        return Failed(404);
      }
      data := data - {key};
      return Done;
    }

    /** parse_data_point: validate a point and add the record of an accepted one. */
    method AddPoint(p: Point, defaultTs: real, now: real) returns (reply: Reply)
      requires Valid()
      modifies this
      ensures Valid()
      ensures reply == ReplyOf(ParsePoint(p, defaultTs, now))
      ensures var r := ParsePoint(p, defaultTs, now);
        && (r.Rejected? ==> data == old(data) && sent == old(sent))
        && (r.Accepted? ==> data == Merge(old(data), Record(r.sample))
                            && sent == old(sent) + Reported(old(data), Record(r.sample), server))
    {
      var r := ParsePoint(p, defaultTs, now);
      if r.Rejected? {
        return Failed(r.code);
      }
      Add(Record(r.sample));
      return Done;
    }

    /** hub_sensor_data_handler: one point, with no batch timestamp. */
    method DataHandler(p: Point, now: real) returns (reply: Reply)
      requires Valid()
      modifies this
      ensures Valid()
      ensures reply == ReplyOf(ParsePoint(p, 0.0, now))
      ensures data == MergeAll(old(data), Added([p], 0.0, now))
      ensures sent == old(sent) + ReportAll(old(data), Added([p], 0.0, now), server)
    {
      reply := AddPoint(p, 0.0, now);
      AddedSnoc([p], 0, 0.0, now);
      assert [p][..0] == [] && [p][..1] == [p];
    }

    /**
     * hub_sensor_data_multi_handler: without an array the reply is -3 and
     * nothing changes; otherwise the points are added in order up to the
     * first bad one, whose error is the reply, and the points before it stay
     * added.
     */
    method MultiHandler(points: Option<seq<Point>>, defaultTs: real, now: real) returns (reply: Reply)
      requires Valid()
      modifies this
      ensures Valid()
      ensures reply == MultiReply(points, defaultTs, now)
      ensures points.None? ==> data == old(data) && sent == old(sent)
      ensures points.Some? ==>
        Folded(old(data), old(sent), Added(points.value[..FirstBad(points.value, defaultTs, now)], defaultTs, now))
    {
      if points.None? {
        return Failed(-3);
      }
      var ps := points.value;
      ghost var added: seq<SensorData> := [];
      var i := 0;
      var failed := false;
      reply := Done;
      while i < |ps| && !failed
        invariant Valid()
        invariant i <= |ps|
        invariant GoodUntil(ps, i, defaultTs, now)
        invariant failed ==> i < |ps| && reply == ParsedReply(ps[i], defaultTs, now) && reply.Failed?
        invariant !failed ==> reply == Done
        invariant added == Added(ps[..i], defaultTs, now)
        invariant Folded(old(data), old(sent), added)
        decreases |ps| - i, if failed then 0 else 1
      {
        var r;
        r, added := MultiStep(ps, i, defaultTs, now, old(data), old(sent), added);
        if r.Done? {
          i := i + 1;
        } else {
          failed := true;
          reply := r;
        }
      }
      FirstBadAt(ps, i, defaultTs, now);
    }

    /** One pass of the batch loop: an accepted point extends the adds by its record; a rejected one changes nothing. */
    method MultiStep(ps: seq<Point>, i: nat, defaultTs: real, now: real, ghost data0: map<nat, SensorData>,
                     ghost sent0: seq<SensorData>, ghost added0: seq<SensorData>)
      returns (r: Reply, ghost added: seq<SensorData>)
      requires Valid() && i < |ps| && GoodUntil(ps, i, defaultTs, now)
      requires added0 == Added(ps[..i], defaultTs, now) && Folded(data0, sent0, added0)
      modifies this
      ensures Valid() && r == ParsedReply(ps[i], defaultTs, now)
      ensures r.Done? ==> GoodUntil(ps, i + 1, defaultTs, now) && added == Added(ps[..i + 1], defaultTs, now)
      ensures r.Done? ==> Folded(data0, sent0, added)
      ensures !r.Done? ==> r.Failed? && added == added0 && Folded(data0, sent0, added0)
    {
      ghost var before, sentBefore := data, sent;
      r := AddPoint(ps[i], defaultTs, now);
      added := added0;
      if r.Done? {
        ghost var rec := Record(ParsePoint(ps[i], defaultTs, now).sample);
        FoldStep(data0, sent0, added0, rec, server, before, sentBefore, data, sent);
        AddedSnoc(ps, i, defaultTs, now);
        GoodUntilStep(ps, i, defaultTs, now);
        added := added0 + [rec];
      }
    }

    /** The table and the reports are those of a sequence of adds starting from data0 and sent0. */
    ghost predicate Folded(data0: map<nat, SensorData>, sent0: seq<SensorData>, sds: seq<SensorData>)
      reads this
    {
      data == MergeAll(data0, sds) && sent == sent0 + ReportAll(data0, sds, server)
    }
  }

  /** The reply parse_data_point's outcome gives. */
  function ParsedReply(p: Point, defaultTs: real, now: real): Reply {
    ReplyOf(ParsePoint(p, defaultTs, now))
  }

  /** The first i points of a batch are all accepted. */
  ghost predicate GoodUntil(ps: seq<Point>, i: nat, defaultTs: real, now: real)
    requires i <= |ps|
  {
    forall j :: 0 <= j < i ==> ParsePoint(ps[j], defaultTs, now).Accepted?
  }

  lemma GoodUntilStep(ps: seq<Point>, i: nat, defaultTs: real, now: real)
    requires i < |ps| && GoodUntil(ps, i, defaultTs, now) && ParsePoint(ps[i], defaultTs, now).Accepted?
    ensures GoodUntil(ps, i + 1, defaultTs, now)
  {
  }

  /** Where the batch loop stops is the first bad point, and its reply is the batch's. */
  lemma FirstBadAt(ps: seq<Point>, i: nat, defaultTs: real, now: real)
    requires i <= |ps| && GoodUntil(ps, i, defaultTs, now)
    requires i < |ps| ==> ParsePoint(ps[i], defaultTs, now).Rejected?
    ensures FirstBad(ps, defaultTs, now) == i
    ensures MultiReply(Some(ps), defaultTs, now) == if i < |ps| then ParsedReply(ps[i], defaultTs, now) else Done
  {
  }
}
