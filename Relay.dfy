// The relay's main loop (Main.cpp): a table of sensors keyed by address
// that scan results are dispatched to, and the periodic CheckSensors that
// evicts stale sensors, asks quiet ones for a full report, and drains the
// report queues, front first, into a bounded number of size-bounded packets.
module BTRelay {
  import opened Bytes
  import opened ShosBt
  import opened SensorReports
  import opened BTSensors
  import GapAdv

  /** The configuration CheckSensors reads: max_packets, max_packet_size, ttl and report_interval. */
  datatype Config = Config(maxPackets: nat, maxPacketSize: nat, ttl: real, reportInterval: real)

  /** Seconds of scanning before anything is reported or evicted. */
  const SettleTime: real := 30.0

  /** The length of ", " that joins the records of a packet. */
  const SepLen: nat := 2

  /**
   * The length of a packet's text: the JSON of its records joined with
   * ", ". jsonLen stands for the length of Data::ToJSON.
   */
  function TextLen(p: seq<Data>, jsonLen: Data -> nat): (n: nat)
    ensures |p| > 0 ==> n >= jsonLen(p[|p| - 1])
  {
    if |p| == 0 then 0
    else if |p| == 1 then jsonLen(p[0])
    else TextLen(p[..|p| - 1], jsonLen) + SepLen + jsonLen(p[|p| - 1])
  }

  /** The records of the packets, in order. */
  function Flatten(ps: seq<seq<Data>>): seq<Data> {
    if |ps| == 0 then [] else Flatten(ps[..|ps| - 1]) + ps[|ps| - 1]
  }

  /** The packets sent so far, the open packet, and the length of its text. */
  datatype Outbox = Outbox(sent: seq<seq<Data>>, packet: seq<Data>, size: nat)

  /** Nothing sent and nothing open, as CheckSensors starts. */
  const EmptyOutbox: Outbox := Outbox([], [], 0)

  /** Every record sent or waiting in the open packet, in order. */
  function Out(b: Outbox): seq<Data> {
    Flatten(b.sent) + b.packet
  }

  /**
   * The size check let the last record of the packet in: the text before it
   * and the record's own JSON fit the cap (a first record always goes in).
   */
  predicate Fits(p: seq<Data>, cap: nat, jsonLen: Data -> nat) {
    |p| >= 2 ==> TextLen(p[..|p| - 1], jsonLen) + jsonLen(p[|p| - 1]) <= cap
  }

  /** Record d does not fit behind the text of packet p: the packet is sent first. */
  predicate Overflows(p: seq<Data>, d: Data, cap: nat, jsonLen: Data -> nat) {
    TextLen(p, jsonLen) + jsonLen(d) > cap
  }

  /**
   * The packets sent so far: none empty, each record admitted by the size
   * check, and a packet closed only for a record that did not fit behind it.
   */
  ghost predicate SentOk(sent: seq<seq<Data>>, cfg: Config, jsonLen: Data -> nat) {
    && (forall j :: 0 <= j < |sent| ==> sent[j] != [] && Fits(sent[j], cfg.maxPacketSize, jsonLen))
    && (forall j, k :: 0 <= j < k < |sent| && k == j + 1 ==> Overflows(sent[j], sent[k][0], cfg.maxPacketSize, jsonLen))
  }

  /** Sending one more packet that the last one was closed for keeps SentOk. */
  lemma SentSnoc(sent: seq<seq<Data>>, p: seq<Data>, cfg: Config, jsonLen: Data -> nat)
    requires SentOk(sent, cfg, jsonLen) && p != [] && Fits(p, cfg.maxPacketSize, jsonLen)
    requires sent != [] ==> Overflows(sent[|sent| - 1], p[0], cfg.maxPacketSize, jsonLen)
    ensures SentOk(sent + [p], cfg, jsonLen)
  {
    var s2 := sent + [p];
    assert forall j :: 0 <= j < |sent| ==> s2[j] == sent[j];
  }

  /** Sending one more packet appends its records. */
  lemma FlattenSnoc(sent: seq<seq<Data>>, p: seq<Data>)
    ensures Flatten(sent + [p]) == Flatten(sent) + p
  {
    assert (sent + [p])[..|sent|] == sent;
  }

  /**
   * What the batching keeps true of an outbox: the size is the open packet's
   * text length; the count of packets is within the limit; the sent packets
   * are SentOk; the open one's records were admitted by the size check, its
   * first one did not fit behind the last packet sent; and no packet is left
   * open once the last one allowed has been sent.
   */
  ghost predicate Batched(b: Outbox, cfg: Config, jsonLen: Data -> nat) {
    && b.size == TextLen(b.packet, jsonLen)
    && |b.sent| <= cfg.maxPackets
    && (b.packet != [] ==> |b.sent| < cfg.maxPackets)
    && (b.packet == [] && b.sent != [] ==> |b.sent| == cfg.maxPackets)
    && SentOk(b.sent, cfg, jsonLen)
    && Fits(b.packet, cfg.maxPacketSize, jsonLen)
    && (b.packet != [] && b.sent != [] ==> Overflows(b.sent[|b.sent| - 1], b.packet[0], cfg.maxPacketSize, jsonLen))
  }

  /** Sending the open packet moves its records to the sent ones, in order. */
  lemma FlushOut(b: Outbox, d: Data, jsonLen: Data -> nat)
    ensures Out(Outbox(b.sent + [b.packet], [], 0)) == Out(b)
    ensures Out(Outbox(b.sent + [b.packet], [d], jsonLen(d))) == Out(b) + [d]
  {
    FlattenSnoc(b.sent, b.packet);
    assert Flatten(b.sent + [b.packet]) + [] == Flatten(b.sent) + b.packet;
  }

  /** Sending the open packet keeps SentOk. */
  lemma FlushSent(b: Outbox, cfg: Config, jsonLen: Data -> nat)
    requires Batched(b, cfg, jsonLen) && b.packet != []
    ensures SentOk(b.sent + [b.packet], cfg, jsonLen)
  {
    SentSnoc(b.sent, b.packet, cfg, jsonLen);
  }

  /** Sending the open packet because record d does not fit behind it. */
  lemma FlushStep(b: Outbox, d: Data, cfg: Config, jsonLen: Data -> nat)
    requires Batched(b, cfg, jsonLen) && b.packet != []
    requires Overflows(b.packet, d, cfg.maxPacketSize, jsonLen)
    ensures Out(Outbox(b.sent + [b.packet], [], 0)) == Out(b)
    ensures Out(Outbox(b.sent + [b.packet], [d], jsonLen(d))) == Out(b) + [d]
    ensures |b.sent| + 1 == cfg.maxPackets ==> Batched(Outbox(b.sent + [b.packet], [], 0), cfg, jsonLen)
    ensures |b.sent| + 1 < cfg.maxPackets ==> Batched(Outbox(b.sent + [b.packet], [d], jsonLen(d)), cfg, jsonLen)
  {
    FlushOut(b, d, jsonLen);
    FlushSent(b, cfg, jsonLen);
    var sent := b.sent + [b.packet];
    assert sent[|sent| - 1] == b.packet;
  }

  /** Opening a packet with record d when nothing has been sent yet. */
  lemma StartStep(b: Outbox, d: Data, cfg: Config, jsonLen: Data -> nat)
    requires Batched(b, cfg, jsonLen) && b.packet == [] && |b.sent| < cfg.maxPackets
    ensures b.sent == [] && Batched(Outbox(b.sent, [d], jsonLen(d)), cfg, jsonLen)
    ensures Out(Outbox(b.sent, [d], jsonLen(d))) == Out(b) + [d]
  {
  }

  /** Appending record d to the open packet, which it fits behind. */
  lemma AppendStep(b: Outbox, d: Data, cfg: Config, jsonLen: Data -> nat)
    requires Batched(b, cfg, jsonLen) && b.packet != []
    requires !Overflows(b.packet, d, cfg.maxPacketSize, jsonLen)
    ensures Batched(Outbox(b.sent, b.packet + [d], b.size + SepLen + jsonLen(d)), cfg, jsonLen)
    ensures Out(Outbox(b.sent, b.packet + [d], b.size + SepLen + jsonLen(d))) == Out(b) + [d]
  {
    assert (b.packet + [d])[..|b.packet|] == b.packet;
  }

  /** The outcome of one pass of the drain loop: the outbox, and whether the record was taken. */
  datatype Pushed = Pushed(box: Outbox, took: bool)

  /**
   * One pass of the drain loop for record d, with packets still left: a
   * record that does not fit behind a non-empty packet sends that packet
   * first; if that was the last packet allowed, d is not taken.
   */
  function Push(b: Outbox, d: Data, cfg: Config, jsonLen: Data -> nat): Pushed {
    var len := jsonLen(d);
    if b.size + len > cfg.maxPacketSize && b.packet != [] then
      var sent := b.sent + [b.packet];
      if |sent| >= cfg.maxPackets then Pushed(Outbox(sent, [], 0), false)
      else Pushed(Outbox(sent, [d], len), true)
    else if b.packet != [] then Pushed(Outbox(b.sent, b.packet + [d], b.size + SepLen + len), true)
    else Pushed(Outbox(b.sent, [d], len), true)
  }

  /**
   * What a pass guarantees: it keeps the batching invariant, never un-sends
   * a packet, and either appends d to the records or leaves them as they
   * were with every packet sent.
   */
  ghost predicate PushOk(b: Outbox, d: Data, r: Pushed, cfg: Config, jsonLen: Data -> nat) {
    && Batched(r.box, cfg, jsonLen)
    && |b.sent| <= |r.box.sent|
    && (r.took ==> Out(r.box) == Out(b) + [d])
    && (!r.took ==> Out(r.box) == Out(b) && |r.box.sent| == cfg.maxPackets)
  }

  /** A pass that sends the open packet. */
  lemma PushFlushes(b: Outbox, d: Data, cfg: Config, jsonLen: Data -> nat)
    requires Batched(b, cfg, jsonLen) && |b.sent| < cfg.maxPackets
    requires b.size + jsonLen(d) > cfg.maxPacketSize && b.packet != []
    ensures PushOk(b, d, Push(b, d, cfg, jsonLen), cfg, jsonLen)
  {
    FlushStep(b, d, cfg, jsonLen);
  }

  /** A pass that appends to the open packet. */
  lemma PushAppends(b: Outbox, d: Data, cfg: Config, jsonLen: Data -> nat)
    requires Batched(b, cfg, jsonLen) && |b.sent| < cfg.maxPackets
    requires b.size + jsonLen(d) <= cfg.maxPacketSize && b.packet != []
    ensures PushOk(b, d, Push(b, d, cfg, jsonLen), cfg, jsonLen)
  {
    AppendStep(b, d, cfg, jsonLen);
  }

  /** A pass that opens the first packet. */
  lemma PushStarts(b: Outbox, d: Data, cfg: Config, jsonLen: Data -> nat)
    requires Batched(b, cfg, jsonLen) && |b.sent| < cfg.maxPackets && b.packet == []
    ensures PushOk(b, d, Push(b, d, cfg, jsonLen), cfg, jsonLen)
  {
    StartStep(b, d, cfg, jsonLen);
  }

  /** Every pass with packets left is a PushOk pass. */
  lemma PushKeeps(b: Outbox, d: Data, cfg: Config, jsonLen: Data -> nat)
    requires Batched(b, cfg, jsonLen) && |b.sent| < cfg.maxPackets
    ensures PushOk(b, d, Push(b, d, cfg, jsonLen), cfg, jsonLen)
  {
    if b.packet == [] {
      PushStarts(b, d, cfg, jsonLen);
    } else if b.size + jsonLen(d) > cfg.maxPacketSize {
      PushFlushes(b, d, cfg, jsonLen);
    } else {
      PushAppends(b, d, cfg, jsonLen);
    }
  }

  /**
   * The drain loop run on queue q from position k while packets remain: the
   * outbox it leaves and the position of the first record it did not take.
   */
  function DrainFrom(q: seq<Data>, k: nat, b: Outbox, cfg: Config, jsonLen: Data -> nat): (r: (Outbox, nat))
    requires k <= |q|
    ensures k <= r.1 <= |q|
    decreases |q| - k
  {
    if |b.sent| >= cfg.maxPackets || k == |q| then (b, k)
    else
      var p := Push(b, q[k], cfg, jsonLen);
      if p.took then DrainFrom(q, k + 1, p.box, cfg, jsonLen) else (p.box, k)
  }

  /**
   * What draining q from position k guarantees: it keeps the batching
   * invariant, never un-sends a packet, moves exactly the records q[k..end]
   * into the packets, in order, and leaves a record queued only once every
   * packet has been sent.
   */
  ghost predicate DrainOk(q: seq<Data>, k: nat, b: Outbox, r: (Outbox, nat), cfg: Config, jsonLen: Data -> nat) {
    && k <= r.1 <= |q|
    && Batched(r.0, cfg, jsonLen) && |b.sent| <= |r.0.sent|
    && Out(r.0) == Out(b) + q[k..r.1]
    && (r.1 < |q| ==> |r.0.sent| == cfg.maxPackets)
  }

  /** Nothing is drained once every packet is sent or the queue is empty. */
  lemma DrainIdle(q: seq<Data>, k: nat, b: Outbox, cfg: Config, jsonLen: Data -> nat)
    requires k <= |q| && Batched(b, cfg, jsonLen)
    requires |b.sent| >= cfg.maxPackets || k == |q|
    ensures DrainOk(q, k, b, (b, k), cfg, jsonLen)
  {
    assert q[k..k] == [];
  }

  /** A pass that takes q[k], followed by the drain from k + 1. */
  lemma DrainTakes(q: seq<Data>, k: nat, b: Outbox, p: Pushed, r: (Outbox, nat), cfg: Config, jsonLen: Data -> nat)
    requires k < |q| && PushOk(b, q[k], p, cfg, jsonLen) && p.took
    requires DrainOk(q, k + 1, p.box, r, cfg, jsonLen)
    ensures DrainOk(q, k, b, r, cfg, jsonLen)
  {
    assert q[k..r.1] == [q[k]] + q[k + 1..r.1];
  }

  /** A pass that sends the last packet and leaves q[k] queued. */
  lemma DrainStops(q: seq<Data>, k: nat, b: Outbox, p: Pushed, cfg: Config, jsonLen: Data -> nat)
    requires k < |q| && PushOk(b, q[k], p, cfg, jsonLen) && !p.took
    ensures DrainOk(q, k, b, (p.box, k), cfg, jsonLen)
  {
    assert q[k..k] == [];
  }

  /** Every drain is a DrainOk drain. */
  lemma {:induction false} DrainKeeps(q: seq<Data>, k: nat, b: Outbox, cfg: Config, jsonLen: Data -> nat)
    requires k <= |q| && Batched(b, cfg, jsonLen)
    ensures DrainOk(q, k, b, DrainFrom(q, k, b, cfg, jsonLen), cfg, jsonLen)
    decreases |q| - k
  {
    if |b.sent| >= cfg.maxPackets || k == |q| {
      DrainIdle(q, k, b, cfg, jsonLen);
    } else {
      var p := Push(b, q[k], cfg, jsonLen);
      PushKeeps(b, q[k], cfg, jsonLen);
      if p.took {
        DrainKeeps(q, k + 1, p.box, cfg, jsonLen);
        DrainTakes(q, k, b, p, DrainFrom(q, k + 1, p.box, cfg, jsonLen), cfg, jsonLen);
      } else {
        DrainStops(q, k, b, p, cfg, jsonLen);
      }
    }
  }

  /** The drain loop of CheckSensors for one sensor's queue q. */
  method Drain(q: seq<Data>, box0: Outbox, cfg: Config, jsonLen: Data -> nat) returns (box: Outbox, taken: nat)
    ensures taken <= |q| && (box, taken) == DrainFrom(q, 0, box0, cfg, jsonLen)
  {
    box, taken := box0, 0;
    while |box.sent| < cfg.maxPackets && taken < |q|
      invariant taken <= |q|
      invariant DrainFrom(q, taken, box, cfg, jsonLen) == DrainFrom(q, 0, box0, cfg, jsonLen)
      decreases |q| - taken, cfg.maxPackets - |box.sent|
    {
      var p := Push(box, q[taken], cfg, jsonLen);
      box := p.box;
      if p.took {
        taken := taken + 1;
      }
    }
  }

  /** The final send_packet: the open packet, if any, is sent too. */
  function Final(b: Outbox): seq<seq<Data>> {
    if b.packet != [] then b.sent + [b.packet] else b.sent
  }

  /** What is sent in the end: within the count, none empty, each admitted by the size check, every record once. */
  lemma FinalKeeps(b: Outbox, cfg: Config, jsonLen: Data -> nat)
    requires Batched(b, cfg, jsonLen)
    ensures var sent := Final(b);
      && |sent| <= cfg.maxPackets
      && SentOk(sent, cfg, jsonLen)
      && Flatten(sent) == Out(b)
      && (|b.sent| == cfg.maxPackets ==> sent == b.sent)
  {
    if b.packet != [] {
      SentSnoc(b.sent, b.packet, cfg, jsonLen);
      FlattenSnoc(b.sent, b.packet);
    }
  }

  /** A packet of two or more records is at most the cap plus one separator long. */
  lemma FitsBound(p: seq<Data>, cap: nat, jsonLen: Data -> nat)
    requires |p| >= 2 && Fits(p, cap, jsonLen)
    ensures TextLen(p, jsonLen) <= cap + SepLen
  {
  }

  /**
   * The size check leaves out the separator: with a cap of 10 and records of
   * 5 characters, the second record is let in and the packet is 12 long.
   */
  lemma SeparatorOvershoot(d: Data)
    ensures var jsonLen := (x: Data) => 5;
      && !Overflows([d], d, 10, jsonLen)
      && Fits([d, d], 10, jsonLen)
      && TextLen([d, d], jsonLen) == 10 + SepLen
  {
    var jsonLen := (x: Data) => 5;
    assert [d, d][..1] == [d];
  }

  /** The position of the sensor with the given address, or |ss| if there is none (s_sensors.find). */
  function FindIndex(ss: seq<BTSensor>, addr: Addr): (i: nat)
    ensures i <= |ss|
    ensures i < |ss| ==> SameAddr(ss[i].addr, addr)
    ensures forall j :: 0 <= j < i ==> !SameAddr(ss[j].addr, addr)
  {
    if |ss| == 0 then 0
    else if SameAddr(ss[0].addr, addr) then 0
    else 1 + FindIndex(ss[1..], addr)
  }

  /** The sensor is removed: nothing queued and not seen for longer than the TTL. */
  predicate Stale(p: Snapshot, now: real, ttl: real) {
    p.data == [] && now - p.lastSeenUts > ttl
  }

  /** The sensor is asked for a full report: nothing queued and none reported for longer than the interval. */
  predicate Due(p: Snapshot, now: real, interval: real) {
    p.data == [] && now - p.lastReportedUts > interval
  }

  /** The queue of a kept sensor once the full report, if due, has been queued. */
  function Refill(p: Snapshot, sid: u32, now: real, interval: real): (q: seq<Data>)
    ensures Due(p, now, interval) ==> q == Items(p.adapter, ReportAll, sid, p.lastSeenTs)
    ensures !Due(p, now, interval) ==> q == p.data
  {
    if Due(p, now, interval) then Items(p.adapter, ReportAll, sid, p.lastSeenTs) else p.data
  }

  /**
   * A kept sensor after its visit: the first `took` records of its refilled
   * queue q are gone, and a full report marks it reported at `now`.
   */
  function Visited(p: Snapshot, q: seq<Data>, took: nat, now: real, interval: real): (v: Snapshot)
    requires took <= |q|
    ensures v.data == q[took..]
    ensures v.lastReportedUts == if Due(p, now, interval) then now else p.lastReportedUts
    ensures v.rssi == p.rssi && v.adapter == p.adapter
    ensures v.lastSeenTs == p.lastSeenTs && v.lastSeenUts == p.lastSeenUts
  {
    p.(data := q[took..], lastReportedUts := if Due(p, now, interval) then now else p.lastReportedUts)
  }

  /** The sensors' mutable state, in table order. */
  function Snaps(ss: seq<BTSensor>): (r: seq<Snapshot>)
    reads set s | s in ss
    ensures |r| == |ss| && forall j :: 0 <= j < |ss| ==> r[j] == ss[j].Snap()
  {
    if ss == [] then [] else Snaps(ss[..|ss| - 1]) + [ss[|ss| - 1].Snap()]
  }

  /** The positions of the sensors CheckSensors keeps, in table order. */
  function KeptIdx(pre: seq<Snapshot>, now: real, ttl: real): (r: seq<nat>)
    ensures forall t :: 0 <= t < |r| ==> r[t] < |pre| && !Stale(pre[r[t]], now, ttl)
    ensures forall a, b :: 0 <= a < b < |r| ==> r[a] < r[b]
    ensures forall j :: 0 <= j < |pre| && !Stale(pre[j], now, ttl) ==> j in r
  {
    if pre == [] then []
    else
      var n := |pre| - 1;
      var r := KeptIdx(pre[..n], now, ttl);
      if Stale(pre[n], now, ttl) then r else r + [n]
  }

  /** The records taken from the front of each queue, queue after queue. */
  function Drained(queues: seq<seq<Data>>, taken: seq<nat>): seq<Data>
    requires |taken| == |queues|
    requires forall i :: 0 <= i < |queues| ==> taken[i] <= |queues[i]|
  {
    if |queues| == 0 then []
    else
      var n := |queues| - 1;
      Drained(queues[..n], taken[..n]) + queues[n][..taken[n]]
  }

  /** Draining one more queue appends what was taken from its front. */
  lemma DrainedSnoc(queues: seq<seq<Data>>, taken: seq<nat>, q: seq<Data>, t: nat)
    requires |taken| == |queues| && t <= |q|
    requires forall i :: 0 <= i < |queues| ==> taken[i] <= |queues[i]|
    ensures Drained(queues + [q], taken + [t]) == Drained(queues, taken) + q[..t]
  {
    assert (queues + [q])[..|queues|] == queues;
    assert (taken + [t])[..|taken|] == taken;
  }

  /** The sids of the sensors, in table order. */
  function Sids(ss: seq<BTSensor>): (r: seq<u32>)
    ensures |r| == |ss| && forall j :: 0 <= j < |ss| ==> r[j] == ss[j].sid
  {
    if ss == [] then [] else Sids(ss[..|ss| - 1]) + [ss[|ss| - 1].sid]
  }

  /**
   * The outcome of CheckSensors' pass over the table: the positions of the
   * kept sensors, their new state, their queues after the full report and
   * how many records of each were sent, and the outbox.
   */
  datatype Pass = Pass(kept: seq<nat>, posts: seq<Snapshot>, queues: seq<seq<Data>>, taken: seq<nat>, box: Outbox)

  /**
   * The pass over sensors in state `pre` with sids `sids`, in table order: a
   * stale sensor is dropped; a kept one has its queue refilled if due, then
   * drained into the outbox.
   */
  function CheckPass(pre: seq<Snapshot>, sids: seq<u32>, now: real, cfg: Config, jsonLen: Data -> nat): (r: Pass)
    requires |sids| == |pre|
    ensures |r.kept| == |r.posts| == |r.queues| == |r.taken|
    ensures forall t :: 0 <= t < |r.kept| ==> r.kept[t] < |pre| && r.taken[t] <= |r.queues[t]|
    ensures forall a, b :: 0 <= a < b < |r.kept| ==> r.kept[a] < r.kept[b]
  {
    if pre == [] then Pass([], [], [], [], EmptyOutbox)
    else
      var n := |pre| - 1;
      var r := CheckPass(pre[..n], sids[..n], now, cfg, jsonLen);
      if Stale(pre[n], now, cfg.ttl) then r
      else
        var q := Refill(pre[n], sids[n], now, cfg.reportInterval);
        var d := DrainFrom(q, 0, r.box, cfg, jsonLen);
        Pass(r.kept + [n], r.posts + [Visited(pre[n], q, d.1, now, cfg.reportInterval)],
             r.queues + [q], r.taken + [d.1], d.0)
  }

  /** The pass over one more sensor, a stale one, is the pass over the ones before it. */
  lemma PassSkips(pre: seq<Snapshot>, sids: seq<u32>, i: nat, now: real, cfg: Config, jsonLen: Data -> nat)
    requires |sids| == |pre| && i < |pre| && Stale(pre[i], now, cfg.ttl)
    ensures CheckPass(pre[..i + 1], sids[..i + 1], now, cfg, jsonLen) == CheckPass(pre[..i], sids[..i], now, cfg, jsonLen)
  {
    assert pre[..i + 1][..i] == pre[..i] && sids[..i + 1][..i] == sids[..i];
  }

  /** The pass over one more sensor, a kept one, extends the pass over the ones before it by its visit. */
  lemma PassAdds(pre: seq<Snapshot>, sids: seq<u32>, i: nat, now: real, cfg: Config, jsonLen: Data -> nat,
                 r: Pass, q: seq<Data>, took: nat, box: Outbox)
    requires |sids| == |pre| && i < |pre| && !Stale(pre[i], now, cfg.ttl)
    requires CheckPass(pre[..i], sids[..i], now, cfg, jsonLen) == r
    requires q == Refill(pre[i], sids[i], now, cfg.reportInterval) && (box, took) == DrainFrom(q, 0, r.box, cfg, jsonLen)
    ensures took <= |q|
    ensures CheckPass(pre[..i + 1], sids[..i + 1], now, cfg, jsonLen) ==
      Pass(r.kept + [i], r.posts + [Visited(pre[i], q, took, now, cfg.reportInterval)], r.queues + [q], r.taken + [took], box)
  {
    var p, s := pre[..i + 1], sids[..i + 1];
    assert |p| - 1 == i && p[i] == pre[i] && s[i] == sids[i];
    assert p[..i] == pre[..i] && s[..i] == sids[..i];
  }

  /** The pass keeps exactly the sensors that are not stale, in table order. */
  lemma {:induction false} PassKeepsFresh(pre: seq<Snapshot>, sids: seq<u32>, now: real, cfg: Config, jsonLen: Data -> nat)
    requires |sids| == |pre|
    ensures CheckPass(pre, sids, now, cfg, jsonLen).kept == KeptIdx(pre, now, cfg.ttl)
  {
    if pre != [] {
      var n := |pre| - 1;
      PassKeepsFresh(pre[..n], sids[..n], now, cfg, jsonLen);
    }
  }

  /** Each kept sensor's queue is its refill, and its new state what its visit left. */
  ghost predicate VisitsOk(pre: seq<Snapshot>, sids: seq<u32>, r: Pass, now: real, cfg: Config) {
    && |r.kept| == |r.posts| == |r.queues| == |r.taken| && |sids| == |pre|
    && forall t :: 0 <= t < |r.kept| ==>
      && r.kept[t] < |pre| && r.taken[t] <= |r.queues[t]|
      && r.queues[t] == Refill(pre[r.kept[t]], sids[r.kept[t]], now, cfg.reportInterval)
      && r.posts[t] == Visited(pre[r.kept[t]], r.queues[t], r.taken[t], now, cfg.reportInterval)
  }

  /** VisitsOk over a prefix holds over the whole table when the last sensor is dropped. */
  lemma VisitsSkip(pre: seq<Snapshot>, sids: seq<u32>, r: Pass, now: real, cfg: Config)
    requires |sids| == |pre| > 0 && VisitsOk(pre[..|pre| - 1], sids[..|pre| - 1], r, now, cfg)
    ensures VisitsOk(pre, sids, r, now, cfg)
  {
    var n := |pre| - 1;
    forall t | 0 <= t < |r.kept|
      ensures pre[..n][r.kept[t]] == pre[r.kept[t]] && sids[..n][r.kept[t]] == sids[r.kept[t]]
    {
    }
  }

  /** VisitsOk over a prefix extends to the whole table by the visit of the last sensor. */
  lemma VisitsAdd(pre: seq<Snapshot>, sids: seq<u32>, r: Pass, q: seq<Data>, took: nat, box: Outbox, now: real, cfg: Config)
    requires |sids| == |pre| > 0 && VisitsOk(pre[..|pre| - 1], sids[..|pre| - 1], r, now, cfg)
    requires q == Refill(pre[|pre| - 1], sids[|pre| - 1], now, cfg.reportInterval) && took <= |q|
    ensures VisitsOk(pre, sids, Pass(r.kept + [|pre| - 1], r.posts + [Visited(pre[|pre| - 1], q, took, now, cfg.reportInterval)],
                                     r.queues + [q], r.taken + [took], box), now, cfg)
  {
    VisitsSkip(pre, sids, r, now, cfg);
  }

  /** Every pass is a VisitsOk pass. */
  lemma {:induction false} PassVisits(pre: seq<Snapshot>, sids: seq<u32>, now: real, cfg: Config, jsonLen: Data -> nat)
    requires |sids| == |pre|
    ensures VisitsOk(pre, sids, CheckPass(pre, sids, now, cfg, jsonLen), now, cfg)
  {
    if pre != [] {
      var n := |pre| - 1;
      PassVisits(pre[..n], sids[..n], now, cfg, jsonLen);
      var r := CheckPass(pre[..n], sids[..n], now, cfg, jsonLen);
      if Stale(pre[n], now, cfg.ttl) {
        VisitsSkip(pre, sids, r, now, cfg);
      } else {
        var q := Refill(pre[n], sids[n], now, cfg.reportInterval);
        var d := DrainFrom(q, 0, r.box, cfg, jsonLen);
        VisitsAdd(pre, sids, r, q, d.1, d.0, now, cfg);
      }
    }
  }

  /**
   * The packets hold the front of each kept sensor's queue, queue after
   * queue, and a queue is only partly drained once every packet has been sent.
   */
  ghost predicate BatchesOk(r: Pass, cfg: Config, jsonLen: Data -> nat) {
    && |r.kept| == |r.posts| == |r.queues| == |r.taken|
    && (forall t :: 0 <= t < |r.kept| ==> r.taken[t] <= |r.queues[t]|)
    && Batched(r.box, cfg, jsonLen)
    && Out(r.box) == Drained(r.queues, r.taken)
    && (forall t :: 0 <= t < |r.kept| ==> r.taken[t] < |r.queues[t]| ==> |r.box.sent| == cfg.maxPackets)
  }

  /** BatchesOk extends by the drain of one more queue. */
  lemma BatchesAdd(r: Pass, k: nat, v: Snapshot, q: seq<Data>, d: (Outbox, nat), cfg: Config, jsonLen: Data -> nat)
    requires BatchesOk(r, cfg, jsonLen) && DrainOk(q, 0, r.box, d, cfg, jsonLen)
    ensures BatchesOk(Pass(r.kept + [k], r.posts + [v], r.queues + [q], r.taken + [d.1], d.0), cfg, jsonLen)
  {
    DrainedSnoc(r.queues, r.taken, q, d.1);
    assert q[0..d.1] == q[..d.1];
  }

  /** Every pass is a BatchesOk pass. */
  lemma {:induction false} PassBatches(pre: seq<Snapshot>, sids: seq<u32>, now: real, cfg: Config, jsonLen: Data -> nat)
    requires |sids| == |pre|
    ensures BatchesOk(CheckPass(pre, sids, now, cfg, jsonLen), cfg, jsonLen)
  {
    if pre != [] {
      var n := |pre| - 1;
      PassBatches(pre[..n], sids[..n], now, cfg, jsonLen);
      var r := CheckPass(pre[..n], sids[..n], now, cfg, jsonLen);
      if !Stale(pre[n], now, cfg.ttl) {
        var q := Refill(pre[n], sids[n], now, cfg.reportInterval);
        DrainKeeps(q, 0, r.box, cfg, jsonLen);
        var d := DrainFrom(q, 0, r.box, cfg, jsonLen);
        BatchesAdd(r, n, Visited(pre[n], q, d.1, now, cfg.reportInterval), q, d, cfg, jsonLen);
      }
    }
  }

  /**
   * What CheckSensors sends: at most max_packets packets, none empty, each
   * record admitted by the size check, a packet closed only for a record that
   * did not fit, and, in order, the front of each kept sensor's queue; a
   * queue keeps records back only when every packet has been used.
   */
  lemma CheckPassSends(pre: seq<Snapshot>, sids: seq<u32>, now: real, cfg: Config, jsonLen: Data -> nat)
    requires |sids| == |pre|
    ensures var r := CheckPass(pre, sids, now, cfg, jsonLen); var sent := Final(r.box);
      && |sent| <= cfg.maxPackets
      && (forall j :: 0 <= j < |sent| ==> sent[j] != [] && Fits(sent[j], cfg.maxPacketSize, jsonLen))
      && (forall j, k :: 0 <= j < k < |sent| && k == j + 1 ==> Overflows(sent[j], sent[k][0], cfg.maxPacketSize, jsonLen))
      && Flatten(sent) == Drained(r.queues, r.taken)
      && (forall t :: 0 <= t < |r.kept| ==> r.taken[t] < |r.queues[t]| ==> |sent| == cfg.maxPackets)
  {
    PassBatches(pre, sids, now, cfg, jsonLen);
    FinalKeeps(CheckPass(pre, sids, now, cfg, jsonLen).box, cfg, jsonLen);
  }

  /**
   * CheckSensors' visit of a sensor it keeps: one with nothing queued and
   * no report for longer than the interval is asked for a full report, then
   * its queue is drained into the outbox.
   */
  method Visit(ss: BTSensor, now: real, cfg: Config, jsonLen: Data -> nat, box0: Outbox)
    returns (box: Outbox, ghost q: seq<Data>, ghost took: nat)
    requires ss.Valid()
    modifies ss
    ensures ss.Valid()
    ensures q == Refill(old(ss.Snap()), ss.sid, now, cfg.reportInterval)
    ensures (box, took) == DrainFrom(q, 0, box0, cfg, jsonLen)
    ensures ss.Snap() == Visited(old(ss.Snap()), q, took, now, cfg.reportInterval)
  {
    if ss.data == [] && now - ss.lastReportedUts > cfg.reportInterval {
      ss.Report(ReportAll, now);
    }
    var queue := ss.data;
    var t;
    box, t := Drain(queue, box0, cfg, jsonLen);
    ss.data := queue[t..];
    q, took := queue, t;
  }

  /** Distinct, valid sensor objects with distinct addresses. */
  ghost predicate Family(ss: seq<BTSensor>)
    reads set s | s in ss
  {
    && (forall i :: 0 <= i < |ss| ==> ss[i].Valid())
    && (forall i, j :: 0 <= i < j < |ss| ==> ss[i] != ss[j])
    && (forall i, j :: 0 <= i < j < |ss| ==> !SameAddr(ss[i].addr, ss[j].addr))
  }

  /** The sensors at strictly increasing positions of a family form a family. */
  lemma KeepFamily(all: seq<BTSensor>, idx: seq<nat>, kept: seq<BTSensor>)
    requires Family(all) && |kept| == |idx|
    requires forall t :: 0 <= t < |idx| ==> idx[t] < |all| && kept[t] == all[idx[t]]
    requires forall a, b :: 0 <= a < b < |idx| ==> idx[a] < idx[b]
    ensures Family(kept)
  {
  }

  /** Snaps of sensors whose snapshots are known one by one. */
  lemma SnapsAre(ss: seq<BTSensor>, ps: seq<Snapshot>)
    requires |ss| == |ps| && forall t :: 0 <= t < |ss| ==> ss[t].Snap() == ps[t]
    ensures Snaps(ss) == ps
  {
  }

  /**
   * The sweep's bookkeeping after i sensors: the sensors from i on still
   * hold their snapshots in pre; kept lists the sensors at positions idx,
   * all before i, whose snapshots are now posts.
   */
  ghost predicate Tracks(ss: seq<BTSensor>, pre: seq<Snapshot>, i: nat, cur: seq<Snapshot>,
                         kept: seq<BTSensor>, idx: seq<nat>, posts: seq<Snapshot>) {
    && i <= |ss| == |pre| == |cur| && |kept| == |idx| == |posts|
    && (forall j :: i <= j < |cur| ==> cur[j] == pre[j])
    && (forall t :: 0 <= t < |idx| ==> idx[t] < i && kept[t] == ss[idx[t]] && cur[idx[t]] == posts[t])
  }

  /** A dropped sensor leaves the bookkeeping as it was, one position on. */
  lemma TracksSkip(ss: seq<BTSensor>, pre: seq<Snapshot>, i: nat, cur: seq<Snapshot>,
                   kept: seq<BTSensor>, idx: seq<nat>, posts: seq<Snapshot>)
    requires Tracks(ss, pre, i, cur, kept, idx, posts) && i < |ss|
    ensures Tracks(ss, pre, i + 1, cur, kept, idx, posts)
  {
  }

  /** A visited sensor is kept with its new snapshot v. */
  lemma TracksVisit(ss: seq<BTSensor>, pre: seq<Snapshot>, i: nat, cur: seq<Snapshot>,
                    kept: seq<BTSensor>, idx: seq<nat>, posts: seq<Snapshot>, v: Snapshot)
    requires Tracks(ss, pre, i, cur, kept, idx, posts) && i < |ss|
    ensures Tracks(ss, pre, i + 1, cur[i := v], kept + [ss[i]], idx + [i], posts + [v])
  {
  }

  /** The kept sensors hold the snapshots the bookkeeping says. */
  lemma KeptSnaps(ss: seq<BTSensor>, pre: seq<Snapshot>, i: nat, cur: seq<Snapshot>,
                  kept: seq<BTSensor>, idx: seq<nat>, posts: seq<Snapshot>)
    requires Tracks(ss, pre, i, cur, kept, idx, posts) && Snaps(ss) == cur
    ensures Snaps(kept) == posts
  {
    SnapsAre(kept, posts);
  }

  /**
   * The sweep after i of the sensors ss, whose snapshots were pre and whose
   * sids are sids: the sensors hold cur, the bookkeeping Tracks them, and
   * the outbox and the kept positions, new snapshots, queues and counts
   * taken are those of the pass over the first i.
   */
  ghost predicate Swept(ss: seq<BTSensor>, pre: seq<Snapshot>, sids: seq<u32>, i: nat, cur: seq<Snapshot>,
                        kept: seq<BTSensor>, idx: seq<nat>, posts: seq<Snapshot>, queues: seq<seq<Data>>,
                        taken: seq<nat>, box: Outbox, now: real, cfg: Config, jsonLen: Data -> nat)
    reads set s | s in ss
  {
    && i <= |ss| == |pre| == |sids| == |cur|
    && Snaps(ss) == cur
    && CheckPass(pre[..i], sids[..i], now, cfg, jsonLen) == Pass(idx, posts, queues, taken, box)
    && Tracks(ss, pre, i, cur, kept, idx, posts)
  }

  /** Before the first sensor nothing has been swept. */
  lemma SweepStarts(ss: seq<BTSensor>, pre: seq<Snapshot>, sids: seq<u32>, now: real, cfg: Config, jsonLen: Data -> nat)
    requires Snaps(ss) == pre && sids == Sids(ss)
    ensures Swept(ss, pre, sids, 0, pre, [], [], [], [], [], EmptyOutbox, now, cfg, jsonLen)
  {
    assert pre[..0] == [] && sids[..0] == [];
  }

  /** A stale sensor is passed over. */
  lemma SweepSkips(ss: seq<BTSensor>, pre: seq<Snapshot>, sids: seq<u32>, i: nat, cur: seq<Snapshot>,
                   kept: seq<BTSensor>, idx: seq<nat>, posts: seq<Snapshot>, queues: seq<seq<Data>>,
                   taken: seq<nat>, box: Outbox, now: real, cfg: Config, jsonLen: Data -> nat)
    requires Swept(ss, pre, sids, i, cur, kept, idx, posts, queues, taken, box, now, cfg, jsonLen) && i < |ss|
    requires ss[i].data == [] && now - ss[i].lastSeenUts > cfg.ttl
    ensures Swept(ss, pre, sids, i + 1, cur, kept, idx, posts, queues, taken, box, now, cfg, jsonLen)
  {
    assert ss[i].Snap() == pre[i];
    PassSkips(pre, sids, i, now, cfg, jsonLen);
    TracksSkip(ss, pre, i, cur, kept, idx, posts);
  }

  /** At the end of the table the sweep has done the whole pass. */
  lemma SweepEnds(ss: seq<BTSensor>, pre: seq<Snapshot>, sids: seq<u32>, cur: seq<Snapshot>,
                  kept: seq<BTSensor>, idx: seq<nat>, posts: seq<Snapshot>, queues: seq<seq<Data>>,
                  taken: seq<nat>, box: Outbox, now: real, cfg: Config, jsonLen: Data -> nat)
    requires Swept(ss, pre, sids, |ss|, cur, kept, idx, posts, queues, taken, box, now, cfg, jsonLen)
    ensures var r := CheckPass(pre, sids, now, cfg, jsonLen);
      && box == r.box && |kept| == |r.kept|
      && (forall t :: 0 <= t < |kept| ==> kept[t] == ss[r.kept[t]])
      && Snaps(kept) == r.posts
  {
    assert pre[..|ss|] == pre && sids[..|ss|] == sids;
    KeptSnaps(ss, pre, |ss|, cur, kept, idx, posts);
  }

  /**
   * Visit of the sensor at position i, a kept one, by the sweep: it holds
   * its visit's snapshot afterwards, every other sensor is left alone, and
   * the pass extends by the visit.
   */
  method VisitAt(ss: seq<BTSensor>, i: nat, now: real, cfg: Config, jsonLen: Data -> nat, box0: Outbox,
                 ghost pre: seq<Snapshot>, ghost sids: seq<u32>, ghost cur: seq<Snapshot>, kept: seq<BTSensor>,
                 ghost idx: seq<nat>, ghost posts: seq<Snapshot>, ghost queues: seq<seq<Data>>, ghost taken: seq<nat>)
    returns (box: Outbox, ghost q: seq<Data>, ghost took: nat)
    requires Family(ss) && i < |ss| && Sids(ss) == sids
    requires Swept(ss, pre, sids, i, cur, kept, idx, posts, queues, taken, box0, now, cfg, jsonLen)
    requires !(ss[i].data == [] && now - ss[i].lastSeenUts > cfg.ttl)
    modifies ss[i]
    ensures Family(ss) && took <= |q|
    ensures var v := Visited(pre[i], q, took, now, cfg.reportInterval);
      Swept(ss, pre, sids, i + 1, cur[i := v], kept + [ss[i]], idx + [i], posts + [v], queues + [q], taken + [took],
            box, now, cfg, jsonLen)
  {
    assert ss[i].Snap() == pre[i] && ss[i].sid == sids[i];
    box, q, took := Visit(ss[i], now, cfg, jsonLen, box0);
    PassAdds(pre, sids, i, now, cfg, jsonLen, Pass(idx, posts, queues, taken, box0), q, took, box);
    ghost var v := Visited(pre[i], q, took, now, cfg.reportInterval);
    TracksVisit(ss, pre, i, cur, kept, idx, posts, v);
    SnapsAre(ss, cur[i := v]);
  }

  /** One pass of the sweep's loop: sensor i is dropped when stale and visited otherwise. */
  method SweepStep(ss: seq<BTSensor>, i: nat, now: real, cfg: Config, jsonLen: Data -> nat, box0: Outbox,
                   ghost pre: seq<Snapshot>, ghost sids: seq<u32>, ghost cur0: seq<Snapshot>, kept0: seq<BTSensor>,
                   ghost idx0: seq<nat>, ghost posts0: seq<Snapshot>, ghost queues0: seq<seq<Data>>,
                   ghost taken0: seq<nat>)
    returns (box: Outbox, kept: seq<BTSensor>, ghost cur: seq<Snapshot>, ghost idx: seq<nat>,
             ghost posts: seq<Snapshot>, ghost queues: seq<seq<Data>>, ghost taken: seq<nat>)
    requires Family(ss) && i < |ss| && Sids(ss) == sids
    requires Swept(ss, pre, sids, i, cur0, kept0, idx0, posts0, queues0, taken0, box0, now, cfg, jsonLen)
    modifies ss[i]
    ensures Family(ss)
    ensures Swept(ss, pre, sids, i + 1, cur, kept, idx, posts, queues, taken, box, now, cfg, jsonLen)
  {
    if ss[i].data == [] && now - ss[i].lastSeenUts > cfg.ttl {
      SweepSkips(ss, pre, sids, i, cur0, kept0, idx0, posts0, queues0, taken0, box0, now, cfg, jsonLen);
      box, kept, cur, idx, posts, queues, taken := box0, kept0, cur0, idx0, posts0, queues0, taken0;
    } else {
      ghost var q, took;
      box, q, took := VisitAt(ss, i, now, cfg, jsonLen, box0, pre, sids, cur0, kept0, idx0, posts0, queues0, taken0);
      ghost var v := Visited(pre[i], q, took, now, cfg.reportInterval);
      kept, idx, posts, cur := kept0 + [ss[i]], idx0 + [i], posts0 + [v], cur0[i := v];
      queues, taken := queues0 + [q], taken0 + [took];
    }
  }

  /**
   * The sweep of CheckSensors over the table: each sensor, in table order,
   * is dropped when stale and visited otherwise; the kept sensors are
   * returned (CheckPass).
   */
  method Sweep(ss: seq<BTSensor>, ghost pre: seq<Snapshot>, now: real, cfg: Config, jsonLen: Data -> nat)
    returns (box: Outbox, kept: seq<BTSensor>)
    requires Family(ss) && Snaps(ss) == pre
    modifies set s | s in ss
    ensures Family(ss)
    ensures var r := CheckPass(pre, Sids(ss), now, cfg, jsonLen);
      && box == r.box && |kept| == |r.kept|
      && (forall t :: 0 <= t < |kept| ==> kept[t] == ss[r.kept[t]])
      && Snaps(kept) == r.posts
  {
    ghost var sids := Sids(ss);
    box := EmptyOutbox;
    kept := [];
    ghost var cur, idx: seq<nat>, posts: seq<Snapshot> := pre, [], [];
    ghost var queues: seq<seq<Data>>, taken: seq<nat> := [], [];
    SweepStarts(ss, pre, sids, now, cfg, jsonLen);
    var i := 0;
    while i < |ss|
      invariant Family(ss)
      invariant Swept(ss, pre, sids, i, cur, kept, idx, posts, queues, taken, box, now, cfg, jsonLen)
    {
      box, kept, cur, idx, posts, queues, taken :=
        SweepStep(ss, i, now, cfg, jsonLen, box, pre, sids, cur, kept, idx, posts, queues, taken);
      i := i + 1;
    }
    SweepEnds(ss, pre, sids, cur, kept, idx, posts, queues, taken, box, now, cfg, jsonLen);
  }

  /** A valid sensor that is not in the family and shares no address with it joins it. */
  lemma FamilySnoc(ss: seq<BTSensor>, s: BTSensor)
    requires Family(ss) && s.Valid() && s !in ss
    requires forall j :: 0 <= j < |ss| ==> !SameAddr(ss[j].addr, s.addr)
    ensures Family(ss + [s])
  {
  }

  /** Snaps of one more sensor. */
  lemma SnapsSnoc(ss: seq<BTSensor>, s: BTSensor)
    ensures Snaps(ss + [s]) == Snaps(ss) + [s.Snap()]
  {
    assert (ss + [s])[..|ss|] == ss;
  }

  /** The sensor at position k takes the scan result; every other sensor is left alone. */
  method UpdateIn(ss: seq<BTSensor>, k: nat, adv: seq<byte>, ad: GapAdv.AdvData, r: i8, clock: Clock, reportOnChange: bool)
    requires Family(ss) && k < |ss|
    modifies ss[k]
    ensures Family(ss)
    ensures Snaps(ss) == old(Snaps(ss))[k :=
      AfterUpdate(old(ss[k].Snap()), ss[k].addr, ss[k].sid, adv, ad.entries, r, clock, reportOnChange)]
  {
    ghost var before := Snaps(ss);
    ss[k].Update(adv, ad, r, clock, reportOnChange);
    SnapsAre(ss, before[k := ss[k].Snap()]);
  }

  /**
   * The scan result of an address the table lacks: CreateBTSensor picks an
   * adapter, if any, and the new sensor takes the advertisement that
   * created it.
   */
  method Arrive(addr: Addr, adv: seq<byte>, ad: GapAdv.AdvData, r: i8, clock: Clock, reportOnChange: bool)
    returns (s: BTSensor?)
    requires |addr.addr| == 6
    ensures s == null <==> Choose(addr, adv).None?
    ensures s != null ==> fresh(s) && s.Valid() && s.addr == addr
    ensures s != null ==>
      s.Snap() == AfterUpdate(Fresh(Choose(addr, adv).value), addr, s.sid, adv, ad.entries, r, clock, reportOnChange)
  {
    s := CreateBTSensor(addr, adv);
    if s != null {
      s.Update(adv, ad, r, clock, reportOnChange);
    }
  }

  /**
   * The table ss, whose sensors held `before`, becomes ss', holding `after`,
   * on the scan result of an address it lacks: unchanged when no adapter
   * tastes the advertisement; otherwise one sensor more, at the end, with
   * that address and the snapshot of a fresh sensor of the chosen adapter
   * after its first Update.
   */
  ghost predicate Admits(ss: seq<BTSensor>, before: seq<Snapshot>, ss': seq<BTSensor>, after: seq<Snapshot>,
                         addr: Addr, adv: seq<byte>, entries: seq<GapAdv.AdvDataEntry>, r: i8, clock: Clock,
                         reportOnChange: bool) {
    if Choose(addr, adv).None? then
      ss' == ss && after == before
    else
      && |ss'| == |ss| + 1 && ss'[..|ss|] == ss && ss'[|ss|].addr == addr
      && after == before + [AfterUpdate(Fresh(Choose(addr, adv).value), addr, ss'[|ss|].sid, adv, entries, r, clock, reportOnChange)]
  }

  /**
   * The sensors ss after the scan result of an address none of them has:
   * the sensor Arrive makes, if any, goes in at the end.
   */
  method AddNew(ss: seq<BTSensor>, addr: Addr, adv: seq<byte>, ad: GapAdv.AdvData, r: i8, clock: Clock, reportOnChange: bool)
    returns (ss': seq<BTSensor>)
    requires Family(ss) && |addr.addr| == 6
    requires forall j :: 0 <= j < |ss| ==> !SameAddr(ss[j].addr, addr)
    ensures Family(ss')
    ensures Admits(ss, old(Snaps(ss)), ss', Snaps(ss'), addr, adv, ad.entries, r, clock, reportOnChange)
    ensures |ss'| > |ss| ==> fresh(ss'[|ss|])
  {
    var s := Arrive(addr, adv, ad, r, clock, reportOnChange);
    if s == null {
      return ss;
    }
    FamilySnoc(ss, s);
    SnapsSnoc(ss, s);
    ss' := ss + [s];
    assert ss'[..|ss|] == ss;
  }

  class Relay {
    var sensors: seq<BTSensor>
    /** s_scanning_since: the uptime scanning started at, 0 while not scanning. */
    var scanningSince: real

    /** The sensor table is a Family. */
    ghost predicate Valid()
      reads this, set s | s in sensors
    {
      Family(sensors)
    }

    /** Scanning has gone on long enough for the results to be trusted. */
    predicate Settled(now: real)
      reads this
    {
      scanningSince != 0.0 && now - scanningSince >= SettleTime
    }

    /** The table becomes the given family of sensors; what they hold is untouched. */
    method Retain(kept: seq<BTSensor>)
      requires Family(kept)
      modifies this
      ensures Valid() && sensors == kept && scanningSince == old(scanningSince)
      ensures Snaps(sensors) == old(Snaps(kept))
    {
      sensors := kept;
    }

    /**
     * GAPHandler for a scan result: the sensor with this address is updated;
     * failing that, CreateBTSensor's sensor, if any, is added and updated.
     */
    method GAPHandler(addr: Addr, adv: seq<byte>, ad: GapAdv.AdvData, r: i8, clock: Clock, reportOnChange: bool)
      requires Valid() && |addr.addr| == 6
      modifies this, set s | s in sensors
      ensures Valid() && scanningSince == old(scanningSince)
      ensures var k := FindIndex(old(sensors), addr);
        if k < |old(sensors)| then
          && sensors == old(sensors)
          && Snaps(sensors) == old(Snaps(sensors))[k :=
               AfterUpdate(old(sensors[k].Snap()), sensors[k].addr, sensors[k].sid, adv, ad.entries, r, clock, reportOnChange)]
        else
          && Admits(old(sensors), old(Snaps(sensors)), sensors, Snaps(sensors), addr, adv, ad.entries, r, clock, reportOnChange)
          && (|sensors| > |old(sensors)| ==> fresh(sensors[|old(sensors)|]))
    {
      var k := FindIndex(sensors, addr);
      if k < |sensors| {
        UpdateIn(sensors, k, adv, ad, r, clock, reportOnChange);
      } else {
        Create(addr, adv, ad, r, clock, reportOnChange);
      }
    }

    /** The scan result of an address not in the table: CreateBTSensor's sensor, if any, is added and updated. */
    method Create(addr: Addr, adv: seq<byte>, ad: GapAdv.AdvData, r: i8, clock: Clock, reportOnChange: bool)
      requires Valid() && |addr.addr| == 6
      requires forall j :: 0 <= j < |sensors| ==> !SameAddr(sensors[j].addr, addr)
      modifies this
      ensures Valid() && scanningSince == old(scanningSince)
      ensures Admits(old(sensors), old(Snaps(sensors)), sensors, Snaps(sensors), addr, adv, ad.entries, r, clock, reportOnChange)
      ensures |sensors| > |old(sensors)| ==> fresh(sensors[|old(sensors)|])
    {
      var ss := AddNew(sensors, addr, adv, ad, r, clock, reportOnChange);
      Retain(ss);
    }

    /**
     * CheckSensors at uptime `now`. Before scanning has settled nothing
     * happens. Afterwards every sensor is visited in table order: a stale one
     * is removed; a quiet one is asked for a full report; then its queue is
     * drained from the front into packets while packets remain, and the open
     * packet is sent at the end (CheckPass, whose properties CheckPassSends,
     * PassKeepsFresh and PassVisits state).
     */
    method CheckSensors(now: real, cfg: Config, jsonLen: Data -> nat) returns (sent: seq<seq<Data>>)
      requires Valid()
      modifies this, set s | s in sensors
      ensures Valid() && scanningSince == old(scanningSince)
      ensures !old(Settled(now)) ==> sent == [] && sensors == old(sensors) && Snaps(sensors) == old(Snaps(sensors))
      ensures old(Settled(now)) ==>
        var r := CheckPass(old(Snaps(sensors)), Sids(old(sensors)), now, cfg, jsonLen);
        && |sensors| == |r.kept|
        && (forall t :: 0 <= t < |sensors| ==> sensors[t] == old(sensors)[r.kept[t]])
        && Snaps(sensors) == r.posts
        && sent == Final(r.box)
    {
      if scanningSince == 0.0 || now - scanningSince < SettleTime {
        return [];
      }
      var box, kept := Sweep(sensors, Snaps(sensors), now, cfg, jsonLen);
      ghost var r := CheckPass(old(Snaps(sensors)), Sids(sensors), now, cfg, jsonLen);
      KeepFamily(sensors, r.kept, kept);
      sent := Final(box);
      Retain(kept);
    }
  }
}
