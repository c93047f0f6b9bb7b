// The SHT3x temperature/humidity sensor driver of the temp node: the CRC-8
// that guards every 16-bit word on the I2C bus, the big-endian decoding of
// the measurement frame, and the probing of the two possible bus addresses.
module Sht3x {
  import opened Bytes
  import opened Wrappers

  /** The CRC polynomial x^8 + x^5 + x^4 + 1, without its top term. */
  const Poly: bv8 := 0x31
  /** The register value before the first byte. */
  const Init: bv8 := 0xFF

  /** The two bus addresses the sensor can be strapped to, in probing order. */
  const AddrA := 0x44
  const AddrB := 0x45

  /** One step of the inner loop: shift left, folding the polynomial in when the top bit falls out. */
  function Shift(c: bv8): (r: bv8)
    ensures r & 1 == (c >> 7)
  {
    if c & 0x80 != 0 then (c << 1) ^ Poly else c << 1
  }

  /** n steps of the inner loop. */
  function Rounds(c: bv8, n: nat): bv8 {
    if n == 0 then c else Shift(Rounds(c, n - 1))
  }

  /** The number of bits of a byte, one shift each. */
  const Width: nat := 8

  /** One iteration of the outer loop: xor the byte in, then a shift per bit. */
  function Absorb(c: bv8, b: bv8): bv8 {
    Rounds(c ^ b, Width)
  }

  /** The register after feeding the bytes of d, most-significant bit first, starting from c. */
  function Feed(c: bv8, d: seq<bv8>): bv8 {
    if d == [] then c else Absorb(Feed(c, d[..|d| - 1]), d[|d| - 1])
  }

  /** calc_crc8: no input reflection, no output reflection, no final xor. */
  function Crc8(d: seq<bv8>): bv8 {
    Feed(Init, d)
  }

  /** calc_crc8 as written: an outer loop over the bytes and an inner loop over the bits. */
  method CalcCrc8(data: seq<bv8>) returns (crc: bv8)
    ensures crc == Crc8(data)
  {
    var c: bv8 := Init;
    var i := 0;
    while i < |data|
      invariant i <= |data|
      invariant c == Feed(Init, data[..i])
    {
      c := c ^ data[i];
      ghost var c0 := c;
      var j := 0;
      while j < Width
        invariant j <= Width
        invariant c == Rounds(c0, j)
      {
        if c & 0x80 != 0 {
          c := (c << 1) ^ Poly;
        } else {
          c := c << 1;
        }
        j := j + 1;
      }
      assert data[..i + 1][..i] == data[..i];
      i := i + 1;
    }
    assert data[..i] == data;
    crc := c;
  }

  /** The register starts at 0xFF: the CRC of no bytes is 0xFF. */
  lemma Crc8Empty()
    ensures Crc8([]) == 0xFF
  {
  }

  lemma {:induction false} RoundsZero(n: nat)
    ensures Rounds(0, n) == 0
  {
    if n > 0 {
      RoundsZero(n - 1);
    }
  }

  /** Appending the CRC of a message to it gives a message whose CRC is zero. */
  lemma Crc8Residue(d: seq<bv8>)
    ensures Crc8(d + [Crc8(d)]) == 0
  {
    var e := d + [Crc8(d)];
    assert e[..|e| - 1] == d;
    FeedLast(Init, e);
    AbsorbSelf(Crc8(d));
  }

  /** Absorbing the register's own value clears it. */
  lemma AbsorbSelf(c: bv8)
    ensures Absorb(c, c) == 0
  {
    assert c ^ c == 0;
    RoundsZero(Width);
  }

  /** Feeding a concatenation is feeding its parts one after the other. */
  lemma {:induction false} FeedAppend(c: bv8, a: seq<bv8>, b: seq<bv8>)
    ensures Feed(c, a + b) == Feed(Feed(c, a), b)
    decreases |b|
  {
    if b != [] {
      var ab := a + b;
      assert ab[..|ab| - 1] == a + b[..|b| - 1];
      FeedAppend(c, a, b[..|b| - 1]);
    } else {
      assert a + b == a;
    }
  }

  /** The top bit discarded by a shift can be read back from the low bit, so a shift loses nothing. */
  lemma ShiftInjective(a: bv8, b: bv8)
    ensures Shift(a) == Shift(b) ==> a == b
  {
  }

  lemma {:induction false} RoundsInjective(a: bv8, b: bv8, n: nat)
    ensures Rounds(a, n) == Rounds(b, n) ==> a == b
  {
    if n > 0 {
      ShiftInjective(Rounds(a, n - 1), Rounds(b, n - 1));
      RoundsInjective(a, b, n - 1);
    }
  }

  /** Distinct registers stay distinct whatever bytes follow. */
  lemma {:induction false} FeedInjective(a: bv8, b: bv8, d: seq<bv8>)
    ensures Feed(a, d) == Feed(b, d) ==> a == b
    decreases |d|
  {
    if d != [] {
      var d0 := d[..|d| - 1];
      FeedLast(a, d);
      FeedLast(b, d);
      AbsorbInjective(Feed(a, d0), Feed(b, d0), d[|d| - 1]);
      FeedInjective(a, b, d0);
    }
  }

  lemma FeedLast(c: bv8, d: seq<bv8>)
    requires d != []
    ensures Feed(c, d) == Absorb(Feed(c, d[..|d| - 1]), d[|d| - 1])
  {
  }

  /** Distinct registers stay distinct after absorbing the same byte. */
  lemma AbsorbInjective(a: bv8, b: bv8, k: bv8)
    ensures Absorb(a, k) == Absorb(b, k) ==> a == b
  {
    RoundsInjective(a ^ k, b ^ k, Width);
    if a ^ k == b ^ k {
      XorCancel(a, b, k);
    }
  }

  lemma XorCancel(a: bv8, b: bv8, k: bv8)
    requires a ^ k == b ^ k
    ensures a == b
  {
  }

  /** Any corruption confined to one byte of a message changes its CRC. */
  lemma ByteErrorDetected(pre: seq<bv8>, x: bv8, y: bv8, post: seq<bv8>)
    requires x != y
    ensures Crc8(pre + [x] + post) != Crc8(pre + [y] + post)
  {
    var p := Feed(Init, pre);
    assert (pre + [x])[..|pre|] == pre;
    assert (pre + [y])[..|pre|] == pre;
    assert Feed(Init, pre + [x]) == Absorb(p, x);
    assert Feed(Init, pre + [y]) == Absorb(p, y);
    XorDistinct(p, x, y);
    RoundsInjective(p ^ x, p ^ y, Width);
    FeedInjective(Absorb(p, x), Absorb(p, y), post);
    FeedAppend(Init, pre + [x], post);
    FeedAppend(Init, pre + [y], post);
  }

  lemma XorDistinct(p: bv8, x: bv8, y: bv8)
    requires x != y
    ensures p ^ x != p ^ y
  {
  }

  /** A 16-bit word is sent most-significant byte first, followed by the CRC of those two bytes. */
  function Frame(hi: bv8, lo: bv8): (f: seq<bv8>)
    ensures |f| == 3
  {
    [hi, lo, Crc8([hi, lo])]
  }

  /** The word carried by three received bytes, when the third is the CRC of the first two. */
  function Word(f: seq<bv8>): (r: Option<u16>)
    requires |f| == 3
    ensures r.Some? <==> Crc8(f[..2]) == f[2]
  {
    assert f[..2] == [f[0], f[1]];
    if Crc8([f[0], f[1]]) == f[2] then Some(Be16(f[0] as int, f[1] as int)) else None
  }

  /** A frame the sensor sends intact is decoded to the big-endian word it carries. */
  lemma WordFrame(hi: bv8, lo: bv8)
    ensures Word(Frame(hi, lo)) == Some(hi as int * 0x100 + lo as int)
  {
    assert Frame(hi, lo)[..2] == [hi, lo];
  }

  /** A frame with any one of its three bytes corrupted is rejected. */
  lemma WordRejectsCorruption(hi: bv8, lo: bv8, k: nat, b: bv8)
    requires k < 3 && b != Frame(hi, lo)[k]
    ensures Word(Frame(hi, lo)[k := b]).None?
  {
    var g := Frame(hi, lo)[k := b];
    if k == 0 {
      ByteErrorDetected([], b, hi, [lo]);
      assert [] + [b] + [lo] == g[..2];
      assert [] + [hi] + [lo] == [hi, lo];
    } else if k == 1 {
      ByteErrorDetected([hi], b, lo, []);
      assert [hi] + [b] + [] == g[..2];
      assert [hi] + [lo] + [] == [hi, lo];
    } else {
      assert g[..2] == [hi, lo];
    }
  }

  /** What one sht3x_read obtains: raw temperature and humidity words, absent when not valid. */
  datatype Reading = Reading(temp: Option<u16>, rh: Option<u16>)

  /** One of the two CRC-guarded words of the reply. */
  method ReadWord(f: seq<bv8>) returns (r: Option<u16>)
    requires |f| == 3
    ensures r == Word(f)
  {
    var c := CalcCrc8(f[..2]);
    if c == f[2] {
      r := Some(Be16(f[0] as int, f[1] as int));
    } else {
      r := None;
    }
  }

  /**
   * sht3x_read, with the bus transfer as a parameter: None when the command
   * write failed or no reply came within the timeout, otherwise the six reply
   * bytes. Each word is accepted on its own CRC; an absent word stands for
   * SHT31_INVALID_VALUE.
   */
  method Read(resp: Option<seq<bv8>>) returns (r: Reading)
    requires resp.Some? ==> |resp.value| == 6
    ensures resp.None? ==> r == Reading(None, None)
    ensures resp.Some? ==> r == Reading(Word(resp.value[..3]), Word(resp.value[3..]))
  {
    if resp.None? {
      return Reading(None, None);
    }
    var temp := ReadWord(resp.value[..3]);
    var rh := ReadWord(resp.value[3..]);
    r := Reading(temp, rh);
  }

  /** An intact measurement reply yields both words. */
  lemma ReadFrames(t0: bv8, t1: bv8, h0: bv8, h1: bv8)
    ensures var f := Frame(t0, t1) + Frame(h0, h1);
      && Word(f[..3]) == Some(t0 as int * 0x100 + t1 as int)
      && Word(f[3..]) == Some(h0 as int * 0x100 + h1 as int)
  {
    var f := Frame(t0, t1) + Frame(h0, h1);
    assert f[..3] == Frame(t0, t1) && f[3..] == Frame(h0, h1);
    WordFrame(t0, t1);
    WordFrame(h0, h1);
  }

  /**
   * The bus transfers of one sht3x_probe_addr: whether the status command
   * could be written, the three status bytes if they could be read, and
   * whether the clear-status command could be written afterwards.
   */
  datatype Transfer = Transfer(written: bool, status: Option<seq<bv8>>, cleared: bool)

  /** sht3x_probe_addr: every transfer succeeds and the status word passes its CRC. */
  predicate Answers(bus: bool, t: Transfer) {
    && bus && t.written && t.status.Some? && |t.status.value| == 3
    && Crc8(t.status.value[..2]) == t.status.value[2] && t.cleared
  }

  /** sht3x_probe: the first of the two addresses whose probe passes. */
  function Probe(bus: bool, a: Transfer, b: Transfer): (r: Option<int>)
    ensures r == Some(AddrA) <==> Answers(bus, a)
    ensures r == Some(AddrB) <==> !Answers(bus, a) && Answers(bus, b)
    ensures r.None? <==> !Answers(bus, a) && !Answers(bus, b)
  {
    if Answers(bus, a) then Some(AddrA) else if Answers(bus, b) then Some(AddrB) else None
  }

  /** A sensor that replies at the first address with an intact status word is found there. */
  lemma ProbeFindsIntact(hi: bv8, lo: bv8, a: Transfer, b: Transfer)
    requires a.written && a.cleared && a.status == Some(Frame(hi, lo))
    ensures Probe(true, a, b) == Some(AddrA)
  {
    assert Frame(hi, lo)[..2] == [hi, lo];
  }

  /** A sensor whose status reply at the first address is corrupted in one byte is looked for at the second. */
  lemma ProbeSkipsCorrupt(hi: bv8, lo: bv8, k: nat, x: bv8, a: Transfer, b: Transfer)
    requires k < 3 && x != Frame(hi, lo)[k] && a.status == Some(Frame(hi, lo)[k := x])
    ensures Probe(true, a, b) == if Answers(true, b) then Some(AddrB) else None
  {
    WordRejectsCorruption(hi, lo, k, x);
  }
}
