// What every sensor adapter shares: the report record it queues
// (BTSensor::Data), the 32-bit "changed" masks that say which readings to
// report, and the result of one adapter update.
module SensorReports {
  import opened Bytes
  import opened ShosBt

  /** BTSensor::Data: one queued reading of one sensor, identified by sid and subid. */
  datatype Data = Data(sid: u32, subid: u32, ts: real, value: real)

  /** BTSensor::kReportAll: every bit set. */
  const ReportAll: bv32 := 0xFFFF_FFFF

  /**
   * 1 << i, as the uint32_t masks of the adapters hold it. A shift by 32 or
   * more is undefined in C; the model takes such a bit to be absent.
   */
  function Bit(i: nat): (b: bv32)
    ensures i < 32 ==> b != 0
    ensures i >= 32 ==> b == 0
  {
    if i < 32 then (1 as bv32) << i else 0
  }

  /** The given mask when `cond` holds, no bit otherwise. */
  function Flag(cond: bool, mask: bv32): (b: bv32)
    ensures cond ==> b == mask
    ensures !cond ==> b == 0
  {
    if cond then mask else 0
  }

  /** Whether the mask has any bit of `flag` set (a bit-field test of union ReportData). */
  predicate Flagged(m: bv32, flag: bv32) {
    m & flag != 0
  }

  /** Whether bit i of the mask is set. */
  predicate BitSet(m: bv32, i: nat) {
    m & Bit(i) != 0
  }

  /** Distinct positions have disjoint bits. */
  lemma BitsDisjoint(i: nat, j: nat)
    requires i < 32 && j < 32
    ensures BitSet(Bit(i), j) <==> i == j
  {
  }

  /** Setting bit i of a mask changes no other bit and sets that one. */
  lemma SetBit(m: bv32, i: nat, j: nat)
    ensures BitSet(m | Bit(i), j) <==> BitSet(m, j) || (i == j && i < 32)
  {
    if i < 32 && j < 32 {
      assert (m | Bit(i)) & Bit(j) == (m & Bit(j)) | (Bit(i) & Bit(j));
      BitsDisjoint(i, j);
    }
  }

  /** kReportAll has every bit below 32 set. */
  lemma ReportAllBits(i: nat)
    requires i < 32
    ensures BitSet(ReportAll, i)
  {
  }

  /** The next state of an adapter after one advertisement, and the readings it flagged. */
  datatype Step<T> = Step(next: T, changed: bv32)

  /** One report record when `cond` holds, none otherwise. */
  function Emit(cond: bool, sid: u32, subid: u32, ts: real, value: real): (r: seq<Data>)
    ensures |r| == if cond then 1 else 0
    ensures cond ==> r[0] == Data(sid, subid, ts, value)
    ensures forall d :: d in r <==> cond && d == Data(sid, subid, ts, value)
    ensures Stamped(r, sid, ts)
  {
    if cond then [Data(sid, subid, ts, value)] else []
  }

  /** Every record of the queue belongs to sensor `sid` and carries timestamp `ts`. */
  predicate Stamped(r: seq<Data>, sid: u32, ts: real) {
    forall d :: d in r ==> d.sid == sid && d.ts == ts
  }

  /** Joining two stamped batches gives a stamped batch. */
  lemma StampedJoin(a: seq<Data>, b: seq<Data>, sid: u32, ts: real)
    requires Stamped(a, sid, ts) && Stamped(b, sid, ts)
    ensures Stamped(a + b, sid, ts)
  {
  }

  /** mgos_bt_addr_cmp(a, b) == 0: the six address bytes agree. */
  predicate SameAddr(a: Addr, b: Addr) {
    a.addr == b.addr
  }
}
