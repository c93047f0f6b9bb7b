// shos::Str — a pointer+length byte view and the operations the relay builds on:
// consumption, comparison, search, splitting, hex coding, checked integer
// parsing and glob matching.
//
// A view is identified with the bytes it covers (`seq<byte>`); pointer identity,
// and the null versus empty distinction, are not part of the model.
module ShosStr {
  import opened Wrappers
  import opened Bytes

  type Str = seq<byte>

  // Character codes the algorithms below single out.
  const Zero: byte := 0x30      // '0'
  const Nine: byte := 0x39      // '9'
  const LowerA: byte := 0x61    // 'a'
  const LowerF: byte := 0x66    // 'f'
  const UpperA: byte := 0x41    // 'A'
  const UpperF: byte := 0x46    // 'F'
  const Minus: byte := 0x2D     // '-'
  const Star: byte := 0x2A      // '*'
  const Quest: byte := 0x3F     // '?'
  const Comma: byte := 0x2C     // ','

  // ---------------------------------------------------------------------------
  // Consumption

  /** ChopLeft has no bounds check of its own: callers must keep n within the view. */
  function ChopLeft(s: Str, n: nat): (r: Str)
    requires n <= |s|
    ensures |r| == |s| - n
    ensures s == s[..n] + r
  {
    s[n..]
  }

  /** ChopRight (shos_str.hpp): drops n bytes from the end, again without a bounds check. */
  function ChopRight(s: Str, n: nat): (r: Str)
    requires n <= |s|
    ensures |r| == |s| - n
    ensures s == r + s[|s| - n..]
  {
    s[..|s| - n]
  }

  /** substr(from, count): empty when from is past the end, otherwise clipped to the view. */
  function Substr(s: Str, from: nat, count: nat): (r: Str)
    ensures from >= |s| ==> r == []
    ensures from < |s| ==> |r| == Min(|s| - from, count)
    ensures from < |s| ==> forall i :: 0 <= i < |r| ==> r[i] == s[from + i]
  {
    if from >= |s| then [] else s[from..from + Min(|s| - from, count)]
  }

  function Min(a: nat, b: nat): nat { if a < b then a else b }

  /** A substring inside the view is what chopping `from` bytes on the left and the excess on the right leaves. */
  lemma SubstrIsChops(s: Str, from: nat, count: nat)
    requires from < |s|
    ensures Substr(s, from, count) == ChopRight(ChopLeft(s, from), |s| - from - Min(|s| - from, count))
  {
  }

  // ---------------------------------------------------------------------------
  // Comparison

  /** operator==: equal lengths, and then (unless both are empty) equal bytes. */
  predicate Equal(a: Str, b: Str)
    ensures Equal(a, b) <==> a == b
  {
    |a| == |b| && (|a| == 0 || forall i :: 0 <= i < |a| ==> a[i] == b[i])
  }

  /**
   * Cmp: unsigned bytewise comparison over the common prefix (memcmp), then the
   * shorter view first.
   */
  function Cmp(a: Str, b: Str): (r: int)
    ensures r == -1 || r == 0 || r == 1
    ensures r == 0 <==> a == b
    decreases |a|
  {
    if |a| == 0 || |b| == 0 then
      (if |a| == |b| then 0 else if |a| < |b| then -1 else 1)
    else if a[0] != b[0] then
      (if a[0] > b[0] then 1 else -1)
    else
      var r := Cmp(a[1..], b[1..]);
      assert r == 0 ==> a == [a[0]] + a[1..] == [b[0]] + b[1..] == b;
      r
  }

  /** Swapping the operands negates the comparison. */
  lemma {:induction false} CmpAntisymmetric(a: Str, b: Str)
    ensures Cmp(a, b) == -Cmp(b, a)
    decreases |a|
  {
    if |a| > 0 && |b| > 0 && a[0] == b[0] {
      CmpAntisymmetric(a[1..], b[1..]);
    }
  }

  /** A proper prefix sorts before every extension of it. */
  lemma {:induction false} CmpPrefix(a: Str, rest: Str)
    requires |rest| > 0
    ensures Cmp(a, a + rest) == -1
    decreases |a|
  {
    if |a| > 0 {
      assert (a + rest)[1..] == a[1..] + rest;
      CmpPrefix(a[1..], rest);
    }
  }

  /** std::tolower on the ASCII letters; other bytes are unchanged. */
  function ToLower(c: byte): (r: byte)
    ensures UpperA <= c <= 0x5A ==> r == c + 0x20
    ensures !(UpperA <= c <= 0x5A) ==> r == c
  {
    if UpperA <= c <= 0x5A then c + 0x20 else c
  }

  function LowerAll(s: Str): (r: Str)
    ensures |r| == |s| && forall i :: 0 <= i < |s| ==> r[i] == ToLower(s[i])
  {
    seq(|s|, i requires 0 <= i < |s| => ToLower(s[i]))
  }

  /** CaseCmp: the loop of the source, proved equal to Cmp of the lower-cased views. */
  method CaseCmp(a: Str, b: Str) returns (r: int)
    ensures r == Cmp(LowerAll(a), LowerAll(b))
  {
    var minLen := Min(|a|, |b|);
    var i := 0;
    while i < minLen
      invariant 0 <= i <= minLen
      invariant Cmp(LowerAll(a), LowerAll(b)) == Cmp(LowerAll(a)[i..], LowerAll(b)[i..])
    {
      var c := ToLower(a[i]);
      var otherC := ToLower(b[i]);
      if c < otherC { return -1; }
      if c > otherC { return 1; }
      assert LowerAll(a)[i..][1..] == LowerAll(a)[i + 1..];
      assert LowerAll(b)[i..][1..] == LowerAll(b)[i + 1..];
      i := i + 1;
    }
    if |a| == |b| { return 0; }
    return if |a| < |b| then -1 else 1;
  }

  /** StartsWith: the view begins with the prefix. */
  predicate StartsWith(s: Str, prefix: Str)
    ensures StartsWith(s, prefix) <==> |prefix| <= |s| && s[..|prefix|] == prefix
  {
    |s| >= |prefix| && forall i :: 0 <= i < |prefix| ==> s[i] == prefix[i]
  }

  /** StartsWith holds exactly of the views that extend the prefix. */
  lemma StartsWithExtends(s: Str, prefix: Str)
    ensures StartsWith(s, prefix) <==> exists rest :: s == prefix + rest
  {
    if StartsWith(s, prefix) {
      assert s == prefix + s[|prefix|..];
    }
  }

  // ---------------------------------------------------------------------------
  // Search

  /** The least index at or after pos holding ch; None stands for npos. */
  function IndexOf(s: Str, ch: byte, pos: nat): (r: Option<nat>)
    ensures r.None? <==> forall i :: pos <= i < |s| ==> s[i] != ch
    ensures r.Some? ==> pos <= r.value < |s| && s[r.value] == ch
    ensures r.Some? ==> forall i :: pos <= i < r.value ==> s[i] != ch
    decreases |s| - pos
  {
    if pos >= |s| then None
    else if s[pos] == ch then Some(pos)
    else IndexOf(s, ch, pos + 1)
  }

  /** find(ch, pos): the scan loop of the source. */
  method Find(s: Str, ch: byte, pos: nat) returns (r: Option<nat>)
    ensures r == IndexOf(s, ch, pos)
  {
    var i := pos;
    while i < |s|
      invariant pos <= i
      invariant IndexOf(s, ch, i) == IndexOf(s, ch, pos)
      decreases |s| - i
    {
      if s[i] == ch { return Some(i); }
      i := i + 1;
    }
    return None;
  }

  /** The first index at or after pos where sub occurs. */
  function IndexOfSub(s: Str, sub: Str, pos: nat): (r: Option<nat>)
    ensures r.Some? ==> pos <= r.value && r.value + |sub| <= |s|
    ensures r.Some? ==> StartsWith(s[r.value..], sub)
    ensures r.Some? ==> forall i :: pos <= i < r.value ==> !StartsWith(s[i..], sub)
    ensures r.None? ==> forall i :: pos <= i <= |s| ==> !StartsWith(s[i..], sub)
    decreases |s| - pos
  {
    if pos + |sub| > |s| then None
    else if StartsWith(s[pos..], sub) then Some(pos)
    else IndexOfSub(s, sub, pos + 1)
  }

  /** The search stops at j when sub starts there. */
  lemma SubFoundAt(s: Str, sub: Str, j: nat)
    requires j <= |s| && StartsWith(s[j..], sub)
    ensures IndexOfSub(s, sub, j) == Some(j)
  {
  }

  /** The search moves past j when sub does not start there. */
  lemma SubNotAt(s: Str, sub: Str, j: nat)
    requires j + |sub| <= |s| && !StartsWith(s[j..], sub)
    ensures j < |s| && IndexOfSub(s, sub, j) == IndexOfSub(s, sub, j + 1) && s[j..][1..] == s[j + 1..]
  {
  }

  /** The search fails once fewer bytes than sub remain. */
  lemma SubPastEnd(s: Str, sub: Str, j: nat)
    requires j <= |s| && |s[j..]| < |sub|
    ensures IndexOfSub(s, sub, j) == None
  {
  }

  /** find(Str, pos): chops a copy one byte at a time and tests StartsWith. */
  method FindStr(s: Str, sub: Str, pos: nat) returns (r: Option<nat>)
    ensures r == IndexOfSub(s, sub, pos)
  {
    if pos <= |s| {
      var t := s;
      if pos > 0 { t := ChopLeft(t, pos); }
      ghost var j := pos;
      while |t| >= |sub|
        invariant pos <= j <= |s| && t == s[j..] && |t| == |s| - j
        invariant IndexOfSub(s, sub, j) == IndexOfSub(s, sub, pos)
        decreases |t|
      {
        if StartsWith(t, sub) {
          SubFoundAt(s, sub, j);
          return Some(|s| - |t|);
        }
        SubNotAt(s, sub, j);
        t := ChopLeft(t, 1);
        j := j + 1;
      }
      SubPastEnd(s, sub, j);
    }
    return None;
  }

  datatype Split = Split(found: bool, before: Str, after: Str)

  /** SplitOn(sep, before, after): cut at the first separator. */
  function SplitOn(s: Str, sep: byte): (r: Split)
    ensures !r.found ==> r.before == s && r.after == [] && sep !in s
    ensures r.found ==> r.before + [sep] + r.after == s && sep !in r.before
  {
    match IndexOf(s, sep, 0)
    case None => Split(false, s, [])
    case Some(i) =>
      var before := Substr(s, 0, i);
      var after := Substr(s, i + 1, |s| - i - 1);
      assert before == s[..i];
      assert after == s[i + 1..];
      assert s == s[..i] + [sep] + s[i + 1..];
      Split(true, before, after)
  }

  /** The comma-separated fields MatchesPatterns visits, as SplitOn yields them. */
  function Fields(s: Str): (r: seq<Str>)
    ensures |r| >= 1
    decreases |s|
  {
    var sp := SplitOn(s, Comma);
    if sp.found then
      assert |sp.after| < |s| by { assert |sp.before + [Comma] + sp.after| == |s|; }
      [sp.before] + Fields(sp.after)
    else [s]
  }

  // ---------------------------------------------------------------------------
  // Hex encoding

  /** hexc: one nibble as a hex digit character. */
  function HexChar(n: nat, upper: bool): (r: byte)
    requires n < 16
  {
    if n < 10 then Zero + n else (if upper then UpperA else LowerA) + (n - 10)
  }

  /** The text HexEncode writes: two digits per byte, high nibble first. */
  function HexEncoding(s: Str, upper: bool): (r: Str)
    ensures |r| == 2 * |s|
  {
    seq(2 * |s|, k requires 0 <= k < 2 * |s| =>
      HexChar(if k % 2 == 0 then s[k / 2] / 16 else s[k / 2] % 16, upper))
  }

  /** HexDigit: either case is accepted. */
  function HexDigit(c: byte): (r: Option<nat>)
    ensures r.Some? ==> r.value < 16
  {
    if Zero <= c <= Nine then Some(c - Zero)
    else if LowerA <= c <= LowerF then Some(10 + (c - LowerA))
    else if UpperA <= c <= UpperF then Some(10 + (c - UpperA))
    else None
  }

  predicate AllHex(s: Str) {
    forall i :: 0 <= i < |s| ==> HexDigit(s[i]).Some?
  }

  /** What HexDecode produces: None for odd length or a non-hex digit. */
  function HexDecoding(s: Str): (r: Option<Str>)
    ensures r.Some? <==> |s| % 2 == 0 && AllHex(s)
    ensures r.Some? ==> |r.value| == |s| / 2
  {
    if |s| % 2 != 0 || !AllHex(s) then None
    else Some(seq(|s| / 2, i requires 0 <= i < |s| / 2 =>
      HexDigit(s[2 * i]).value * 16 + HexDigit(s[2 * i + 1]).value))
  }

  lemma HexDigitOfHexChar(n: nat, upper: bool)
    requires n < 16
    ensures HexDigit(HexChar(n, upper)) == Some(n)
  {
  }

  /** Decoding what was encoded, in either case, gives back the bytes. */
  lemma {:induction false} HexRoundTrip(s: Str, upper: bool)
    ensures HexDecoding(HexEncoding(s, upper)) == Some(s)
  {
    var e := HexEncoding(s, upper);
    assert AllHex(e) by {
      forall k | 0 <= k < |e|
        ensures HexDigit(e[k]).Some?
      {
        HexDigitOfHexChar(if k % 2 == 0 then s[k / 2] / 16 else s[k / 2] % 16, upper);
      }
    }
    var d := HexDecoding(e).value;
    assert |d| == |s|;
    forall i | 0 <= i < |s|
      ensures d[i] == s[i]
    {
      assert (2 * i) / 2 == i && (2 * i) % 2 == 0;
      assert (2 * i + 1) / 2 == i && (2 * i + 1) % 2 == 1;
      assert e[2 * i] == HexChar(s[i] / 16, upper);
      assert e[2 * i + 1] == HexChar(s[i] % 16, upper);
      HexDigitOfHexChar(s[i] / 16, upper);
      HexDigitOfHexChar(s[i] % 16, upper);
    }
    assert d == s;
  }

  /**
   * HexEncode(out, out_size, upper): fails when out_size < 2*len; otherwise
   * writes the encoding into the first 2*len slots and sets out_size.
   */
  method HexEncode(s: Str, out: array<byte>, outSize: nat, upper: bool)
      returns (ok: bool, newSize: nat)
    requires outSize <= out.Length
    modifies out
    ensures ok <==> outSize >= 2 * |s|
    ensures !ok ==> newSize == outSize && out[..] == old(out[..])
    ensures ok ==> newSize == 2 * |s|
    ensures ok ==> out[..newSize] == HexEncoding(s, upper)
    ensures ok ==> out[newSize..] == old(out[newSize..])
  {
    if outSize < 2 * |s| { return false, outSize; }
    var i := 0;
    while i < |s|
      invariant 0 <= i <= |s|
      invariant out[..2 * i] == HexEncoding(s, upper)[..2 * i]
      invariant out[2 * i..] == old(out[2 * i..])
    {
      var c := s[i];
      out[2 * i] := HexChar(c / 16, upper);
      out[2 * i + 1] := HexChar(c % 16, upper);
      i := i + 1;
    }
    return true, 2 * |s|;
  }

  /**
   * HexDecode(out, out_size): rejects odd length, then an undersized buffer,
   * then any non-hex digit (leaving the pairs before it written).
   */
  method HexDecode(s: Str, out: array<byte>, outSize: nat) returns (ok: bool, newSize: nat)
    requires outSize <= out.Length
    modifies out
    ensures ok <==> HexDecoding(s).Some? && outSize >= |s| / 2
    ensures ok ==> newSize == |s| / 2 && out[..newSize] == HexDecoding(s).value
    ensures ok ==> out[newSize..] == old(out[newSize..])
    ensures !ok ==> newSize == outSize
    ensures !ok && (|s| % 2 != 0 || outSize < |s| / 2) ==> out[..] == old(out[..])
    ensures forall k :: |s| / 2 <= k < out.Length ==> out[k] == old(out[k])
  {
    if |s| % 2 != 0 { return false, outSize; }
    if outSize < |s| / 2 { return false, outSize; }
    var i := 0;
    while i < |s| / 2
      invariant 0 <= i <= |s| / 2
      invariant forall j :: 0 <= j < 2 * i ==> HexDigit(s[j]).Some?
      invariant forall j :: 0 <= j < i ==>
        out[j] == HexDigit(s[2 * j]).value * 16 + HexDigit(s[2 * j + 1]).value
      invariant forall k :: i <= k < out.Length ==> out[k] == old(out[k])
    {
      var v1 := HexDigit(s[2 * i]);
      if v1.None? { return false, outSize; }
      var v2 := HexDigit(s[2 * i + 1]);
      if v2.None? { return false, outSize; }
      out[i] := v1.value * 16 + v2.value;
      i := i + 1;
    }
    assert AllHex(s) by {
      forall j | 0 <= j < |s| ensures HexDigit(s[j]).Some? {
        assert j < 2 * i;
      }
    }
    return true, |s| / 2;
  }

  // ---------------------------------------------------------------------------
  // Checked unsigned and signed integer parsing

  /** The integer type ToUInt<T> is instantiated with: width 0..3 is 8, 16, 32, 64 bits. */
  function Modulus(width: nat): nat
    requires width < 4
  {
    [0x100, 0x1_0000, 0x1_0000_0000, 0x1_0000_0000_0000_0000][width]
  }

  /** kMaxUIntLens: the most digits an in-range value can have, by base and width. */
  function MaxDigits(base: int, width: nat): Option<nat>
    requires width < 4
  {
    if base == 2 then Some([8, 16, 32, 64][width])
    else if base == 8 then Some([3, 6, 11, 22][width])
    else if base == 10 then Some([3, 5, 10, 20][width])
    else if base == 16 then Some([2, 4, 8, 16][width])
    else None
  }

  /** GetVal: a digit's value in its base, or −1. */
  function DigitValue(c: byte, base: int): (r: int)
    ensures -1 <= r && (base > 0 ==> r < base)
  {
    if (base == 2 || base == 8 || base == 10 || base == 16) && Zero <= c <= Nine && c - Zero < base
    then c - Zero
    else if base == 16 && LowerA <= c <= LowerF then 10 + (c - LowerA)
    else if base == 16 && UpperA <= c <= UpperF then 10 + (c - UpperA)
    else -1
  }

  predicate AllDigits(d: Str, base: int) {
    forall i :: 0 <= i < |d| ==> DigitValue(d[i], base) >= 0
  }

  /** The value of a digit string, most significant digit first. */
  function Value(d: Str, base: nat): nat
    requires AllDigits(d, base)
  {
    if |d| == 0 then 0 else DigitValue(d[0], base) * Pow(base, |d| - 1) + Value(d[1..], base)
  }

  /** The base ToUInt settles on and the digits left after any prefix. */
  function SelectBase(s: Str, base: int): (int, Str)
  {
    if base != 0 then (base, s)
    else if |s| > 2 && s[1] == 0x62 then (2, s[2..])     // 'b'
    else if |s| > 2 && s[1] == 0x6F then (8, s[2..])     // 'o'
    else if |s| > 2 && s[1] == 0x78 then (16, s[2..])    // 'x'
    else (10, s)
  }

  function StripZeros(s: Str): (r: Str)
    ensures |r| == 0 || r[0] != Zero
    ensures exists k :: 0 <= k <= |s| && r == s[k..] && forall j :: 0 <= j < k ==> s[j] == Zero
  {
    if |s| > 0 && s[0] == Zero then
      var r := StripZeros(s[1..]);
      ghost var k :| 0 <= k <= |s[1..]| && r == s[1..][k..] && forall j :: 0 <= j < k ==> s[1..][j] == Zero;
      assert r == s[k + 1..];
      r
    else
      assert s == s[0..];
      s
  }

  /**
   * The value ToUInt<T>(s, base, width, max) returns: an error for an empty
   * view, an unsupported base, too many significant digits, an invalid digit
   * or a value above max.
   */
  function UIntValue(s: Str, base: int, width: nat, max: nat): (r: Result<nat>)
    requires width < 4
    ensures r.Ok? ==> r.value <= max
  {
    if |s| == 0 then Err(InvalidArgument)
    else
      var (b, digits) := SelectBase(s, base);
      var d := StripZeros(digits);
      match MaxDigits(b, width)
      case None => Err(InvalidArgument)
      case Some(maxLen) =>
        if |d| > maxLen || !AllDigits(d, b) then Err(InvalidArgument)
        else if Value(d, b) > max then Err(InvalidArgument)
        else Ok(Value(d, b))
  }

  lemma {:induction false} PowMonotonic(b: nat, e1: nat, e2: nat)
    requires b > 0 && e1 <= e2
    ensures Pow(b, e1) <= Pow(b, e2)
    decreases e2
  {
    if e1 < e2 {
      PowMonotonic(b, e1, e2 - 1);
    }
  }

  lemma MulAssoc(x: nat, y: nat, z: nat)
    ensures x * (y * z) == (x * y) * z
  {
  }

  lemma {:induction false} PowAdd(b: nat, m: nat, n: nat)
    ensures Pow(b, m + n) == Pow(b, m) * Pow(b, n)
    decreases m
  {
    if m > 0 {
      PowAdd(b, m - 1, n);
      calc {
        Pow(b, m + n);
        b * Pow(b, m - 1 + n);
        b * (Pow(b, m - 1) * Pow(b, n));
        { MulAssoc(b, Pow(b, m - 1), Pow(b, n)); }
        Pow(b, m) * Pow(b, n);
      }
    }
  }

  /** The highest binary place value for each width fits in that width. */
  lemma BinaryPlaces(width: nat)
    requires width < 4
    ensures Pow(2, MaxDigits(2, width).value - 1) < Modulus(width)
  {
    if width == 0 {
      assert Pow(2, 3) == 0x8;
      assert Pow(2, 4) == 0x10;
      PowAdd(2, 3, 4);
      assert Pow(2, 7) == 0x80;
    } else if width == 1 {
      assert Pow(2, 3) == 0x8;
      assert Pow(2, 4) == 0x10;
      PowAdd(2, 3, 4);
      assert Pow(2, 7) == 0x80;
      PowAdd(2, 4, 4);
      assert Pow(2, 8) == 0x100;
      PowAdd(2, 7, 8);
      assert Pow(2, 15) == 0x8000;
    } else if width == 2 {
      assert Pow(2, 3) == 0x8;
      assert Pow(2, 4) == 0x10;
      PowAdd(2, 3, 4);
      assert Pow(2, 7) == 0x80;
      PowAdd(2, 4, 4);
      assert Pow(2, 8) == 0x100;
      PowAdd(2, 7, 8);
      assert Pow(2, 15) == 0x8000;
      PowAdd(2, 8, 8);
      assert Pow(2, 16) == 0x1_0000;
      PowAdd(2, 15, 16);
      assert Pow(2, 31) == 0x8000_0000;
    } else {
      assert Pow(2, 3) == 0x8;
      assert Pow(2, 4) == 0x10;
      PowAdd(2, 3, 4);
      assert Pow(2, 7) == 0x80;
      PowAdd(2, 4, 4);
      assert Pow(2, 8) == 0x100;
      PowAdd(2, 7, 8);
      assert Pow(2, 15) == 0x8000;
      PowAdd(2, 8, 8);
      assert Pow(2, 16) == 0x1_0000;
      PowAdd(2, 15, 16);
      assert Pow(2, 31) == 0x8000_0000;
      PowAdd(2, 16, 16);
      assert Pow(2, 32) == 0x1_0000_0000;
      PowAdd(2, 31, 32);
      assert Pow(2, 63) == 0x8000_0000_0000_0000;
    }
  }

  /** The highest octal place value for each width fits in that width. */
  lemma OctalPlaces(width: nat)
    requires width < 4
    ensures Pow(8, MaxDigits(8, width).value - 1) < Modulus(width)
  {
    if width == 0 {
      assert Pow(8, 2) == 0x40;
    } else if width == 1 {
      assert Pow(8, 5) == 0x8000;
    } else if width == 2 {
      assert Pow(8, 5) == 0x8000;
      PowAdd(8, 5, 5);
      assert Pow(8, 10) == 0x4000_0000;
    } else {
      assert Pow(8, 5) == 0x8000;
      PowAdd(8, 5, 5);
      assert Pow(8, 10) == 0x4000_0000;
      assert Pow(8, 3) == 0x200;
      PowAdd(8, 3, 3);
      assert Pow(8, 6) == 0x4_0000;
      PowAdd(8, 5, 6);
      assert Pow(8, 11) == 0x2_0000_0000;
      PowAdd(8, 10, 11);
      assert Pow(8, 21) == 0x8000_0000_0000_0000;
    }
  }

  /** The highest decimal place value for each width fits in that width. */
  lemma DecimalPlaces(width: nat)
    requires width < 4
    ensures Pow(10, MaxDigits(10, width).value - 1) < Modulus(width)
  {
    if width == 0 {
      assert Pow(10, 2) == 0x64;
    } else if width == 1 {
      assert Pow(10, 4) == 0x2710;
    } else if width == 2 {
      assert Pow(10, 4) == 0x2710;
      assert Pow(10, 5) == 0x1_86A0;
      PowAdd(10, 4, 5);
      assert Pow(10, 9) == 0x3B9A_CA00;
    } else {
      assert Pow(10, 4) == 0x2710;
      assert Pow(10, 5) == 0x1_86A0;
      PowAdd(10, 4, 5);
      assert Pow(10, 9) == 0x3B9A_CA00;
      PowAdd(10, 5, 5);
      assert Pow(10, 10) == 0x2_540B_E400;
      PowAdd(10, 9, 10);
      assert Pow(10, 19) == 0x8AC7_2304_89E8_0000;
    }
  }

  /** The highest hexadecimal place value for each width fits in that width. */
  lemma HexPlaces(width: nat)
    requires width < 4
    ensures Pow(16, MaxDigits(16, width).value - 1) < Modulus(width)
  {
    if width == 0 {
      assert Pow(16, 1) == 0x10;
    } else if width == 1 {
      assert Pow(16, 3) == 0x1000;
    } else if width == 2 {
      assert Pow(16, 3) == 0x1000;
      assert Pow(16, 4) == 0x1_0000;
      PowAdd(16, 3, 4);
      assert Pow(16, 7) == 0x1000_0000;
    } else {
      assert Pow(16, 3) == 0x1000;
      assert Pow(16, 4) == 0x1_0000;
      PowAdd(16, 3, 4);
      assert Pow(16, 7) == 0x1000_0000;
      PowAdd(16, 4, 4);
      assert Pow(16, 8) == 0x1_0000_0000;
      PowAdd(16, 7, 8);
      assert Pow(16, 15) == 0x1000_0000_0000_0000;
    }
  }

  /** The digit limits are chosen so that the place value of every digit fits in T. */
  lemma PlaceValuesFit(base: int, width: nat)
    requires width < 4 && MaxDigits(base, width).Some?
    ensures base > 0 && Pow(base, MaxDigits(base, width).value - 1) < Modulus(width)
  {
    assert width == 0 || width == 1 || width == 2 || width == 3;
    if base == 2 {
      BinaryPlaces(width);
    } else if base == 8 {
      OctalPlaces(width);
    } else if base == 10 {
      DecimalPlaces(width);
    } else {
      HexPlaces(width);
    }
  }

  lemma {:induction false} ValueOfSuffix(d: Str, base: nat, i: nat)
    requires AllDigits(d, base) && i <= |d|
    ensures AllDigits(d[i..], base) && Value(d[i..], base) <= Value(d, base)
    decreases i
  {
    if i > 0 {
      ValueOfSuffix(d[1..], base, i - 1);
      assert d[1..][i - 1..] == d[i..];
    }
  }

  /**
   * The inner loop of ToUInt: add mult to res val times in arithmetic modulo m,
   * stopping at the first wrap-around or value above max.
   */
  method AddPlace(res0: nat, mult: nat, val: nat, m: nat, max: nat) returns (ok: bool, res: nat)
    requires res0 <= max < m && mult < m
    ensures ok <==> res0 + val * mult <= max
    ensures ok ==> res == res0 + val * mult
  {
    res := res0;
    var k := 0;
    while k < val
      invariant 0 <= k <= val
      invariant res == res0 + k * mult <= max
      decreases val - k
    {
      var oldRes := res;
      res := (res + mult) % m;
      PlaceStep(res0, oldRes, mult, k, val, m);
      if res < oldRes || res > max {
        return false, res;
      }
      k := k + 1;
    }
    return true, res;
  }

  /**
   * One addition of AddPlace: the sum modulo m falls below the old value
   * exactly when it wrapped, and otherwise is the sum itself.
   */
  lemma PlaceStep(res0: nat, res: nat, mult: nat, k: nat, val: nat, m: nat)
    requires res == res0 + k * mult < m && mult < m && k < val
    ensures (res + mult) % m < res <==> res + mult >= m
    ensures res + mult < m ==> (res + mult) % m == res + mult
    ensures res + mult == res0 + (k + 1) * mult <= res0 + val * mult
  {
    assert (k + 1) * mult == k * mult + mult;
    assert (k + 1) * mult <= val * mult by { MulLe(k + 1, val, mult); }
    if res + mult >= m {
      assert (res + mult) % m == res + mult - m;
    }
  }

  lemma MulLe(a: nat, b: nat, c: nat)
    requires a <= b
    ensures a * c <= b * c
  {
  }

  /**
   * ToUInt<T>: the source's right-to-left loop, adding the place value one unit
   * at a time in T's arithmetic (wrapping modulo 2^bits) and failing on wrap or
   * on exceeding max.
   */
  method ToUInt(s: Str, base: int, width: nat, max: nat) returns (r: Result<nat>)
    requires width < 4 && max < Modulus(width)
    ensures r == UIntValue(s, base, width, max)
  {
    if |s| == 0 { return Err(InvalidArgument); }
    var b, t := SignificantDigits(s, base);
    var maxLen := MaxDigits(b, width);
    if maxLen.None? { return Err(InvalidArgument); }
    if |t| > maxLen.value { return Err(InvalidArgument); }
    r := SumDigits(t, b, width, max);
  }

  /** The base selection and leading-zero loop at the start of ToUInt. */
  method SignificantDigits(s: Str, base: int) returns (b: int, t: Str)
    ensures (b, t) == (SelectBase(s, base).0, StripZeros(SelectBase(s, base).1))
  {
    b := base;
    t := s;
    if b == 0 {
      b := 10;
      if |t| > 2 {
        if t[1] == 0x62 { b := 2; t := ChopLeft(t, 2); }
        else if t[1] == 0x6F { b := 8; t := ChopLeft(t, 2); }
        else if t[1] == 0x78 { b := 16; t := ChopLeft(t, 2); }
      }
    }
    ghost var digits := t;
    while |t| > 0 && t[0] == Zero
      invariant StripZeros(t) == StripZeros(digits)
      decreases |t|
    {
      t := ChopLeft(t, 1);
    }
  }

  /** The digit loop of ToUInt, right to left with a growing place value. */
  method SumDigits(t: Str, b: int, width: nat, max: nat) returns (r: Result<nat>)
    requires width < 4 && max < Modulus(width)
    requires MaxDigits(b, width).Some? && |t| <= MaxDigits(b, width).value
    ensures r == if AllDigits(t, b) && Value(t, b) <= max then Ok(Value(t, b)) else Err(InvalidArgument)
  {
    PlaceValuesFit(b, width);
    var res: nat := 0;
    var mult: nat := 1;
    var i: int := |t| - 1;
    while i >= 0
      invariant -1 <= i < |t|
      invariant AllDigits(t[i + 1..], b)
      invariant res == Value(t[i + 1..], b) <= max
      invariant mult == Pow(b, |t| - 1 - i)
      decreases i
    {
      var val := DigitValue(t[i], b);
      if val < 0 { return Err(InvalidArgument); }
      assert AllDigits(t[i..], b);
      assert t[i..][1..] == t[i + 1..];
      PowMonotonic(b, |t| - 1 - i, MaxDigits(b, width).value - 1);
      var ok;
      ok, res := AddPlace(res, mult, val, Modulus(width), max);
      if !ok {
        if AllDigits(t, b) { ValueOfSuffix(t, b, i); }
        return Err(InvalidArgument);
      }
      i := i - 1;
      mult := mult * b;
    }
    assert t[0..] == t;
    return Ok(res);
  }

  /** The sign test of ToInt<T>: a leading '-'. */
  predicate Negative(s: Str) {
    |s| > 0 && s[0] == Minus
  }

  /** The digits ToInt<T> hands to ToUInt<T>: the view after an optional '-'. */
  function Digits(s: Str): Str {
    if Negative(s) then s[1..] else s
  }

  /**
   * ToInt<T>: an optional '-', then ToUInt in base 10 against 2^(bits−1).
   * The value is the unsigned parse of the digits, negated after a '-'; it is
   * accepted exactly when that parse is, is not zero after a '-' and is below
   * max without one.
   */
  function ToInt(s: Str, width: nat, max: nat): (r: Result<int>)
    requires width < 4 && 0 < max < Modulus(width)
    ensures r.Ok? ==> -(max as int) <= r.value < max
    ensures r.Ok? && Negative(s) ==> r.value < 0
    ensures var u := UIntValue(Digits(s), 10, width, max);
      r.Ok? <==> u.Ok? && (if Negative(s) then u.value > 0 else u.value < max)
    ensures var u := UIntValue(Digits(s), 10, width, max);
      r.Ok? ==> r.value == if Negative(s) then -(u.value as int) else u.value as int
  {
    var neg := Negative(s);
    match UIntValue(Digits(s), 10, width, max)
    case Err(e) => Result<int>.Err(e)
    case Ok(uv) =>
      var m: int := max;
      var v: int := uv;
      if v == 0 && neg then Err(InvalidArgument)
      else if v == m then (if neg then Ok(-m) else Err(InvalidArgument))
      else Ok(if neg then -v else v)
  }

  /** ToUInt8 accepts "255". */
  lemma UInt8Max()
    ensures UIntValue([0x32, 0x35, 0x35], 10, 0, 0xff) == Ok(255)
  {
    var d: Str := [0x32, 0x35, 0x35];
    assert StripZeros(d) == d;
    assert d[1..] == [0x35, 0x35] && d[1..][1..] == [0x35];
    assert Value([0x35], 10) == 5;
    assert Value([0x35, 0x35], 10) == 55;
    assert Value(d, 10) == 255;
  }

  /** ToUInt8 rejects "256". */
  lemma UInt8Over()
    ensures UIntValue([0x32, 0x35, 0x36], 10, 0, 0xff).Err?
  {
    var d: Str := [0x32, 0x35, 0x36];
    assert StripZeros(d) == d;
    assert d[1..] == [0x35, 0x36] && d[1..][1..] == [0x36];
    assert Value([0x36], 10) == 6;
    assert Value([0x35, 0x36], 10) == 56;
    assert Value(d, 10) == 256;
  }

  /** In base 0 a leading "0x" selects hexadecimal. */
  lemma HexPrefix()
    ensures UIntValue([0x30, 0x78, 0x66, 0x66], 0, 0, 0xff) == Ok(255)
  {
    var ff: Str := [0x66, 0x66];
    assert SelectBase([0x30, 0x78, 0x66, 0x66], 0) == (16, ff);
    assert StripZeros(ff) == ff;
    assert ff[1..] == [0x66];
    assert Value([0x66], 16) == 15;
    assert Value(ff, 16) == 255;
  }

  /** Leading zeros do not count towards the digit limit or the value. */
  lemma LeadingZeros()
    ensures UIntValue([0x30, 0x30, 0x37], 10, 0, 0xff) == Ok(7)
  {
    var z: Str := [0x30, 0x30, 0x37];
    var z1: Str := [0x30, 0x37];
    var z2: Str := [0x37];
    assert z[1..] == z1 && z1[1..] == z2;
    assert StripZeros(z2) == z2;
    assert StripZeros(z1) == z2;
    assert StripZeros(z) == z2;
    assert Value(z2, 10) == 7;
  }

  /** "-0" is rejected. */
  lemma NegativeZero()
    ensures ToInt([Minus, Zero], 0, 0x80).Err?
  {
    assert [Minus, Zero][1..] == [Zero];
    assert StripZeros([Zero]) == [] by { assert [Zero][1..] == []; }
  }

  /** The int8 range reaches down to −128 … */
  lemma Int8Min()
    ensures ToInt([Minus, 0x31, 0x32, 0x38], 0, 0x80) == Ok(-128)
  {
    var d: Str := [0x31, 0x32, 0x38];
    assert [Minus, 0x31, 0x32, 0x38][1..] == d;
    assert StripZeros(d) == d;
    assert d[1..] == [0x32, 0x38] && d[1..][1..] == [0x38];
    assert Value([0x38], 10) == 8;
    assert Value([0x32, 0x38], 10) == 28;
    assert Value(d, 10) == 128;
  }

  /** … but not up to 128 … */
  lemma Int8Over()
    ensures ToInt([0x31, 0x32, 0x38], 0, 0x80).Err?
  {
    var d: Str := [0x31, 0x32, 0x38];
    assert StripZeros(d) == d;
    assert d[1..] == [0x32, 0x38] && d[1..][1..] == [0x38];
    assert Value([0x38], 10) == 8;
    assert Value([0x32, 0x38], 10) == 28;
    assert Value(d, 10) == 128;
  }

  /** … only up to 127. */
  lemma Int8Max()
    ensures ToInt([0x31, 0x32, 0x37], 0, 0x80) == Ok(127)
  {
    var d: Str := [0x31, 0x32, 0x37];
    assert StripZeros(d) == d;
    assert d[1..] == [0x32, 0x37] && d[1..][1..] == [0x37];
    assert Value([0x37], 10) == 7;
    assert Value([0x32, 0x37], 10) == 27;
    assert Value(d, 10) == 127;
  }

  // ---------------------------------------------------------------------------
  // Glob matching

  /** get_ch: a character, lower-cased when matching ignores case. */
  function Fold(c: byte, ignoreCase: bool): byte {
    if ignoreCase then ToLower(c) else c
  }

  /**
   * StrMatchesPattern(s, p, ignore_case, depth) as a recursive definition over
   * the remaining text and pattern: Walk is the main loop, Scan the loop after a
   * '*' that retries the rest of the pattern at every position whose character
   * equals the one following the '*'.
   */
  predicate Matches(s: Str, p: Str, ic: bool, depth: int)
    decreases |p|, |s|, 2
  {
    if depth > 10 then false else Walk(s, p, ic, depth)
  }

  predicate Walk(s: Str, p: Str, ic: bool, depth: int)
    decreases |p|, |s|, 1
  {
    if |s| == 0 || |p| == 0 then |s| == 0 && (|p| == 0 || p == [Star])
    else if Fold(p[0], ic) == Quest then Walk(s[1..], p[1..], ic, depth)
    else if Fold(p[0], ic) == Star then |p| == 1 || Scan(s, p[1..], ic, depth)
    else Fold(s[0], ic) == Fold(p[0], ic) && Walk(s[1..], p[1..], ic, depth)
  }

  predicate Scan(s: Str, q: Str, ic: bool, depth: int)
    requires |q| > 0
    decreases |q| + 1, |s|, 0
  {
    |s| > 0 &&
      ((Fold(s[0], ic) == Fold(q[0], ic) && Matches(s, q, ic, depth + 1)) || Scan(s[1..], q, ic, depth))
  }

  /** The source's recursive matcher with its two loops. */
  method StrMatchesPattern(s: Str, p: Str, ic: bool, depth: int) returns (m: bool)
    ensures m == Matches(s, p, ic, depth)
    decreases |p|
  {
    if depth > 10 { return false; }
    var si, pi := 0, 0;
    while si < |s| && pi < |p|
      invariant 0 <= si <= |s| && 0 <= pi <= |p|
      invariant Walk(s[si..], p[pi..], ic, depth) == Walk(s, p, ic, depth)
      decreases |s| - si
    {
      var sc := Fold(s[si], ic);
      var pc := Fold(p[pi], ic);
      assert s[si..][1..] == s[si + 1..];
      assert p[pi..][1..] == p[pi + 1..];
      if pc == Quest {
      } else if pc == Star {
        pi := pi + 1;
        if pi == |p| { return true; }
        var npc := Fold(p[pi], ic);
        var subPattern := p[pi..];
        while si < |s|
          invariant 0 <= si <= |s|
          invariant Scan(s[si..], subPattern, ic, depth) == Walk(s, p, ic, depth)
          decreases |s| - si
        {
          var nc := Fold(s[si], ic);
          assert s[si..][1..] == s[si + 1..];
          if nc == npc {
            var sub := StrMatchesPattern(s[si..], subPattern, ic, depth + 1);
            if sub { return true; }
          }
          si := si + 1;
        }
        return false;
      } else if sc != pc {
        return false;
      }
      si := si + 1;
      pi := pi + 1;
    }
    return si == |s| && (pi == |p| || p[pi..] == [Star]);
  }

  /** MatchesPattern: matching starts at depth 0. */
  method MatchesPattern(s: Str, pattern: Str, ic: bool) returns (m: bool)
    ensures m == Matches(s, pattern, ic, 0)
  {
    m := StrMatchesPattern(s, pattern, ic, 0);
  }

  lemma FieldsStep(s: Str)
    ensures SplitOn(s, Comma).found ==>
      |SplitOn(s, Comma).after| < |s| && Fields(s) == [SplitOn(s, Comma).before] + Fields(SplitOn(s, Comma).after)
    ensures !SplitOn(s, Comma).found ==> Fields(s) == [s]
  {
    var sp := SplitOn(s, Comma);
    if sp.found {
      assert |sp.before + [Comma] + sp.after| == |s|;
    }
  }

  /** Some field of the list matches at depth 0. */
  predicate AnyMatches(s: Str, fields: seq<Str>, ic: bool) {
    exists i :: 0 <= i < |fields| && Matches(s, fields[i], ic, 0)
  }

  lemma AnyMatchesCons(s: Str, f: Str, fields: seq<Str>, ic: bool)
    ensures AnyMatches(s, [f] + fields, ic) <==> Matches(s, f, ic, 0) || AnyMatches(s, fields, ic)
  {
    if AnyMatches(s, [f] + fields, ic) && !Matches(s, f, ic, 0) {
      var i :| 0 <= i < |[f] + fields| && Matches(s, ([f] + fields)[i], ic, 0);
      assert i > 0 && ([f] + fields)[i] == fields[i - 1];
    }
    if Matches(s, f, ic, 0) {
      assert ([f] + fields)[0] == f;
    }
    if AnyMatches(s, fields, ic) {
      var i :| 0 <= i < |fields| && Matches(s, fields[i], ic, 0);
      assert ([f] + fields)[i + 1] == fields[i];
    }
  }

  /** MatchesPatterns: true iff some comma-separated field of the list matches. */
  method MatchesPatterns(s: Str, patterns: Str, ic: bool) returns (m: bool)
    ensures m == AnyMatches(s, Fields(patterns), ic)
  {
    var rest := patterns;
    while true
      invariant AnyMatches(s, Fields(patterns), ic) == AnyMatches(s, Fields(rest), ic)
      decreases |rest|
    {
      var sp := SplitOn(rest, Comma);
      FieldsStep(rest);
      var hit := MatchesPattern(s, sp.before, ic);
      if sp.found {
        AnyMatchesCons(s, sp.before, Fields(sp.after), ic);
      } else {
        AnyMatchesCons(s, sp.before, [], ic);
        assert [sp.before] + [] == [sp.before];
      }
      if hit { return true; }
      if !sp.found { return false; }
      rest := sp.after;
    }
  }

  /** In a pattern without '*' or '?', only the pattern itself matches (case-sensitively). */
  predicate Literal(p: Str) {
    forall i :: 0 <= i < |p| ==> p[i] != Star && p[i] != Quest
  }

  lemma {:induction false} LiteralPatternMatchesOnlyItself(s: Str, p: Str, depth: int)
    requires Literal(p) && depth <= 10
    ensures Matches(s, p, false, depth) <==> s == p
  {
    WalkLiteral(s, p, depth);
  }

  lemma {:induction false} WalkLiteral(s: Str, p: Str, depth: int)
    requires Literal(p)
    ensures Walk(s, p, false, depth) <==> s == p
    decreases |p|
  {
    if |s| > 0 && |p| > 0 {
      WalkLiteral(s[1..], p[1..], depth);
      assert s == [s[0]] + s[1..] && p == [p[0]] + p[1..];
    } else if |p| > 0 {
      assert p[0] != Star;
    }
  }

  /** '?' matches any single character, and only a single character. */
  lemma QuestionMatchesOneChar(s: Str, depth: int)
    requires depth <= 10
    ensures Matches(s, [Quest], false, depth) <==> |s| == 1
  {
    if |s| > 0 {
      assert Walk(s, [Quest], false, depth) == Walk(s[1..], [], false, depth);
    }
  }

  /** A pattern ending in '*' matches every extension of its literal head. */
  lemma {:induction false} TrailingStarMatchesAnyRest(head: Str, rest: Str, depth: int)
    requires Literal(head) && depth <= 10
    ensures Matches(head + rest, head + [Star], false, depth)
  {
    WalkTrailingStar(head, rest, depth);
  }

  lemma {:induction false} WalkTrailingStar(head: Str, rest: Str, depth: int)
    requires Literal(head)
    ensures Walk(head + rest, head + [Star], false, depth)
    decreases |head|
  {
    if |head| > 0 {
      assert (head + rest)[1..] == head[1..] + rest;
      assert (head + [Star])[1..] == head[1..] + [Star];
      WalkTrailingStar(head[1..], rest, depth);
    }
  }

  /** Recursion deeper than 10 always fails. */
  lemma DepthLimit(s: Str, p: Str, ic: bool, depth: int)
    requires depth > 10
    ensures !Matches(s, p, ic, depth)
  {
  }
}
