// BLE advertising data (AD structures): the parser that splits a blob into
// length-prefixed [len][type][data] elements, the typed lookups over the
// parsed elements, and the builder that assembles a blob under a size cap
// (shos::bt::gap::AdvData, AdvDataEntry and AdvDataBuilder).
module GapAdv {
  import opened Wrappers
  import opened Bytes
  import opened ShosStr
  import opened ShosBt

  /** Default cap of the builder: a legacy advertising payload. */
  const MaxAdvDataLen: nat := 31

  // AD type codes (Core Specification Supplement, Part A, section 1).
  const Invalid: byte := 0x00
  const Flags: byte := 0x01
  const Service16Incomplete: byte := 0x02
  const Service16: byte := 0x03
  const Service32Incomplete: byte := 0x04
  const Service32: byte := 0x05
  const Service128Incomplete: byte := 0x06
  const Service128: byte := 0x07
  const ShortName: byte := 0x08
  const FullName: byte := 0x09
  const PowerLevel: byte := 0x0A
  const ServiceData16: byte := 0x16
  const Appearance: byte := 0x19
  const ServiceData32: byte := 0x20
  const ServiceData128: byte := 0x21
  const VendorSpecific: byte := 0xFF

  // Bits of the Flags element.
  const FlagDiscoveryLimited: byte := 0x01
  const FlagDiscoveryGeneral: byte := 0x02
  const FlagBREDRNotSupported: byte := 0x04
  const FlagBREDRController: byte := 0x08
  const FlagBREDRHost: byte := 0x10

  /** The stored bytes of an element: type byte then data, never empty. */
  type EntryBytes = s: Str | |s| >= 1 witness [0]

  /** One AD element, without its length byte. */
  datatype AdvDataEntry = AdvDataEntry(v: EntryBytes) {
    function Type(): byte { v[0] }

    function Size(): nat { |v| - 1 }

    /** The data after the type byte; type and data together are the whole value. */
    function Data(): (r: Str)
      ensures v == [Type()] + r && |r| == Size()
    {
      v[1..]
    }

    predicate IsValid() { Type() != Invalid }

    /** AppendTo: the length byte (the size truncated to a char) followed by the value. */
    function Encoded(): (r: Str)
      ensures |r| == 1 + |v| && r[1..] == v
      ensures |v| < 0x100 ==> r[0] == |v|
    {
      [|v| % 0x100] + v
    }
  }

  /** AdvDataEntry(Str): an empty value becomes the single byte 0x00. */
  function NewEntry(v: Str): (e: AdvDataEntry)
    ensures v != [] ==> e.v == v
    ensures v == [] ==> e.Size() == 0 && !e.IsValid()
  {
    if v == [] then AdvDataEntry([0]) else AdvDataEntry(v)
  }

  /** The default-constructed entry: type kInvalid, no data. */
  const DefaultEntry: AdvDataEntry := NewEntry([])

  /** AdvDataEntryWithStorage(type, value): the type byte followed by a copy of the value. */
  function EntryOf(t: byte, value: Str): (e: AdvDataEntry)
    ensures e.Type() == t && e.Data() == value
  {
    AdvDataEntry([t] + value)
  }

  // ---------------------------------------------------------------------
  // Parsing

  /** Concatenation of the encodings of the elements, in order. */
  function Serialize(es: seq<AdvDataEntry>): Str
  {
    if es == [] then [] else es[0].Encoded() + Serialize(es[1..])
  }

  lemma {:induction false} SerializeAppend(a: seq<AdvDataEntry>, b: seq<AdvDataEntry>)
    ensures Serialize(a + b) == Serialize(a) + Serialize(b)
    decreases |a|
  {
    if a == [] {
      assert a + b == b;
    } else {
      assert (a + b)[1..] == a[1..] + b;
      SerializeAppend(a[1..], b);
    }
  }

  /** Every element fits its one-byte length field. */
  predicate Short(es: seq<AdvDataEntry>) {
    forall i :: 0 <= i < |es| ==> |es[i].v| < 0x100
  }

  /** The elements a parse yields, and whether it reached the end of the blob. */
  datatype Parsed = Parsed(entries: seq<AdvDataEntry>, ok: bool)

  /**
   * The elements AdvData::Parse produces from `input`. A parse that fails
   * keeps the elements read before the failure; the failure cases are a
   * lone trailing byte, a zero length and a length past the end.
   */
  function SplitAd(input: Str): (r: Parsed)
    ensures Short(r.entries)
    ensures Serialize(r.entries) <= input
    ensures r.ok <==> Serialize(r.entries) == input
    ensures |input| == 1 ==> !r.ok && r.entries == []
    ensures |input| >= 2 && (input[0] == 0 || input[0] > |input| - 1) ==> !r.ok && r.entries == []
    decreases |input|
  {
    if |input| == 0 then Parsed([], true)
    else if |input| < 2 then Parsed([], false)
    else
      var len := input[0];
      if len == 0 || len > |input| - 1 then Parsed([], false)
      else
        var e := AdvDataEntry(input[1..1 + len]);
        var rest := SplitAd(input[1 + len..]);
        var es := [e] + rest.entries;
        assert es[1..] == rest.entries;
        assert e.Encoded() == input[..1 + len];
        assert input == input[..1 + len] + input[1 + len..];
        Parsed(es, rest.ok)
  }

  /** Parsing a serialization of short elements gives back exactly those elements. */
  lemma {:induction false} SplitSerialize(es: seq<AdvDataEntry>)
    requires Short(es)
    ensures SplitAd(Serialize(es)) == Parsed(es, true)
    decreases |es|
  {
    if es != [] {
      var s := Serialize(es);
      var e := es[0];
      assert s == e.Encoded() + Serialize(es[1..]);
      assert s[1 + |e.v|..] == Serialize(es[1..]);
      assert s[1..1 + |e.v|] == e.v;
      SplitSerialize(es[1..]);
      assert [e] + es[1..] == es;
    }
  }

  /** One step of the parse: a well-formed leading element, then the parse of the rest. */
  lemma SplitStep(s: Str)
    requires |s| >= 2 && 0 < s[0] <= |s| - 1
    ensures SplitAd(s).entries == [AdvDataEntry(s[1..1 + s[0]])] + SplitAd(s[1 + s[0]..]).entries
    ensures SplitAd(s).ok == SplitAd(s[1 + s[0]..]).ok
  {
    var len := s[0];
    var rest := SplitAd(s[1 + len..]);
    assert SplitAd(s) == Parsed([AdvDataEntry(s[1..1 + len])] + rest.entries, rest.ok);
  }

  /** SplitStep as the parse loop uses it: the leading element joins those already appended. */
  lemma SplitTail(s: Str, es: seq<AdvDataEntry>)
    requires |s| >= 2 && 0 < s[0] <= |s| - 1
    ensures es + SplitAd(s).entries == (es + [AdvDataEntry(s[1..1 + s[0]])]) + SplitAd(s[1 + s[0]..]).entries
    ensures SplitAd(s).ok == SplitAd(s[1 + s[0]..]).ok
  {
    SplitStep(s);
    AppendAssoc(es, AdvDataEntry(s[1..1 + s[0]]), SplitAd(s[1 + s[0]..]).entries);
  }

  /** Parse's loop at a malformed element: what it appended is all there is, and the parse fails. */
  lemma ParseStops(entries: seq<AdvDataEntry>, base: seq<AdvDataEntry>, input: Str, rest: Str)
    requires entries + SplitAd(rest).entries == base + SplitAd(input).entries
    requires SplitAd(rest).ok == SplitAd(input).ok
    requires |rest| == 1 || (|rest| >= 2 && (rest[0] == 0 || rest[0] > |rest| - 1))
    ensures entries == base + SplitAd(input).entries && !SplitAd(input).ok
  {
    assert entries + [] == entries;
  }

  /** Parse's loop at a well-formed element e: appending it keeps the loop's invariant for what is left. */
  lemma ParseTakes(entries: seq<AdvDataEntry>, base: seq<AdvDataEntry>, input: Str, before: Str,
                   e: AdvDataEntry, rest: Str)
    requires entries + SplitAd(before).entries == base + SplitAd(input).entries
    requires SplitAd(before).ok == SplitAd(input).ok
    requires |before| >= 2 && 0 < before[0] <= |before| - 1
    requires e == AdvDataEntry(Substr(ChopLeft(before, 1), 0, before[0]))
    requires rest == ChopLeft(ChopLeft(before, 1), before[0])
    ensures (entries + [e]) + SplitAd(rest).entries == base + SplitAd(input).entries
    ensures SplitAd(rest).ok == SplitAd(input).ok
  {
    assert Substr(ChopLeft(before, 1), 0, before[0]) == before[1..1 + before[0]];
    assert rest == before[1 + before[0]..];
    SplitTail(before, entries);
  }

  /** A parsed AD list (AdvData is a vector of entries). */
  class AdvData {
    var entries: seq<AdvDataEntry>

    constructor()
      ensures entries == []
    {
      entries := [];
    }

    /**
     * Parse(in, append): clears the list unless appending, then appends the
     * elements of `input`. `ok` false is INVALID_ARGUMENT; the elements read
     * before the malformed one stay in the list.
     */
    method Parse(input: Str, append: bool) returns (ok: bool)
      modifies this
      ensures ok == SplitAd(input).ok
      ensures entries == (if append then old(entries) else []) + SplitAd(input).entries
    {
      if !append { entries := []; }
      ghost var base := entries;
      var rest := input;
      while |rest| > 0
        invariant entries + SplitAd(rest).entries == base + SplitAd(input).entries
        invariant SplitAd(rest).ok == SplitAd(input).ok
        decreases |rest|
      {
        if |rest| < 2 {
          ParseStops(entries, base, input, rest);
          return false;
        }
        var len := rest[0];
        ghost var before := rest;
        rest := ChopLeft(rest, 1);
        if len == 0 || len > |rest| {
          ParseStops(entries, base, input, before);
          return false;
        }
        var e := AdvDataEntry(Substr(rest, 0, len));
        rest := ChopLeft(rest, len);
        ParseTakes(entries, base, input, before, e, rest);
        entries := entries + [e];
      }
      assert SplitAd(rest) == Parsed([], true);
      assert entries + [] == entries;
      return true;
    }

    /** Parse2: the advertisement, then the scan response only if the first parse succeeded. */
    method Parse2(in1: Str, in2: Str) returns (ok: bool)
      modifies this
      ensures ok == (SplitAd(in1).ok && SplitAd(in2).ok)
      ensures entries == SplitAd(in1).entries + (if SplitAd(in1).ok then SplitAd(in2).entries else [])
    {
      ok := Parse(in1, false);
      assert [] + SplitAd(in1).entries == SplitAd(in1).entries;
      if ok {
        ghost var first := entries;
        ok := Parse(in2, true);
        assert entries == first + SplitAd(in2).entries;
      } else {
        assert SplitAd(in1).entries + [] == SplitAd(in1).entries;
      }
    }
  }

  // ---------------------------------------------------------------------
  // Lookups

  /** GetDataByType: the data of the first element of that type, else empty. */
  function DataByType(es: seq<AdvDataEntry>, t: byte): (r: Str)
    ensures (forall i :: 0 <= i < |es| ==> es[i].Type() != t) ==> r == []
    ensures forall i :: 0 <= i < |es| && es[i].Type() == t && (forall j :: 0 <= j < i ==> es[j].Type() != t)
                        ==> r == es[i].Data()
  {
    if es == [] then []
    else if es[0].Type() == t then es[0].Data()
    else DataByType(es[1..], t)
  }

  /** GetAllDataByType: the data of every element of that type, in order. */
  function AllDataByType(es: seq<AdvDataEntry>, t: byte): (r: seq<Str>)
    ensures |r| <= |es|
    ensures r == [] <==> forall i :: 0 <= i < |es| ==> es[i].Type() != t
    ensures r != [] ==> r[0] == DataByType(es, t)
  {
    if es == [] then []
    else if es[0].Type() == t then [es[0].Data()] + AllDataByType(es[1..], t)
    else AllDataByType(es[1..], t)
  }

  /** The service-data element type for a UUID of the given length, if that length is valid. */
  function ServiceDataType(len: nat): (r: Option<byte>)
    ensures r.Some? <==> (len == 2 || len == 4 || len == 16)
  {
    if len == 2 then Some(ServiceData16)
    else if len == 4 then Some(ServiceData32)
    else if len == 16 then Some(ServiceData128)
    else None
  }

  /** An element carries service data for `svc`: the right type, and the UUID leads its data. */
  predicate HasServiceData(e: AdvDataEntry, svc: Uuid) {
    ServiceDataType(svc.Len()) == Some(e.Type())
    && |e.Data()| >= svc.Len()
    && UuidFromBytes(e.Data(), svc.Len()) == svc
  }

  /** GetServiceData: what follows the UUID in the first matching element, else empty. */
  function ServiceData(es: seq<AdvDataEntry>, svc: Uuid): (r: Str)
    ensures !svc.IsValid() ==> r == []
    ensures (forall i :: 0 <= i < |es| ==> !HasServiceData(es[i], svc)) ==> r == []
    ensures forall i :: 0 <= i < |es| && HasServiceData(es[i], svc)
                        && (forall j :: 0 <= j < i ==> !HasServiceData(es[j], svc))
                        ==> r == es[i].Data()[svc.Len()..]
  {
    var len := svc.Len();
    match ServiceDataType(len)
    case None => []
    case Some(dataType) => ServiceDataScan(es, svc, dataType)
  }

  function ServiceDataScan(es: seq<AdvDataEntry>, svc: Uuid, dataType: byte): (r: Str)
    requires ServiceDataType(svc.Len()) == Some(dataType)
    ensures (forall i :: 0 <= i < |es| ==> !HasServiceData(es[i], svc)) ==> r == []
    ensures forall i :: 0 <= i < |es| && HasServiceData(es[i], svc)
                        && (forall j :: 0 <= j < i ==> !HasServiceData(es[j], svc))
                        ==> r == es[i].Data()[svc.Len()..]
  {
    if es == [] then []
    else
      var e := es[0];
      if e.Type() != dataType || |e.Data()| < svc.Len() || UuidFromBytes(e.Data(), svc.Len()) != svc
      then ServiceDataScan(es[1..], svc, dataType)
      else e.Data()[svc.Len()..]
  }

  /** GetName: the first full name anywhere in the list, else the first short name. */
  function Name(es: seq<AdvDataEntry>): (r: Str)
    ensures (exists i :: 0 <= i < |es| && es[i].Type() == FullName) ==> r == DataByType(es, FullName)
    ensures (forall i :: 0 <= i < |es| ==> es[i].Type() != FullName) ==> r == DataByType(es, ShortName)
  {
    var full := AllDataByType(es, FullName);
    if full != [] then full[0] else DataByType(es, ShortName)
  }

  /** A full name wins over a short name that precedes it. */
  lemma FullNameWins(short: Str, full: Str)
    ensures Name([EntryOf(ShortName, short), EntryOf(FullName, full)]) == full
    ensures Name([EntryOf(ShortName, short)]) == short
  {
    var es := [EntryOf(ShortName, short), EntryOf(FullName, full)];
    assert es[1].Type() == FullName;
    assert es[0].Type() != FullName;
  }

  /** The width of the UUIDs listed in an element of a service-list type. */
  function ServiceListWidth(t: byte): (r: Option<nat>)
    ensures r.Some? ==> r.value == 2 || r.value == 4 || r.value == 16
    ensures r.Some? <==> Service16Incomplete <= t <= Service128
  {
    if t == Service16 || t == Service16Incomplete then Some(2)
    else if t == Service32 || t == Service32Incomplete then Some(4)
    else if t == Service128 || t == Service128Incomplete then Some(16)
    else None
  }

  /** Back-to-back fixed-width UUIDs; a trailing partial chunk is ignored. */
  function UuidChunks(data: Str, w: nat): (r: seq<Uuid>)
    requires w == 2 || w == 4 || w == 16
    ensures forall u :: u in r ==> u.Len() == w
    ensures |data| >= w ==> r != [] && r[0] == Uuid(data[..w])
    ensures |data| < w ==> r == []
    decreases |data|
  {
    if |data| < w then []
    else [UuidFromBytes(data, w)] + UuidChunks(data[w..], w)
  }

  /** The UUIDs advertised by one element, if it is a service list. */
  function EntryServices(e: AdvDataEntry): seq<Uuid> {
    match ServiceListWidth(e.Type())
    case None => []
    case Some(w) => UuidChunks(e.Data(), w)
  }

  /** GetServices: every advertised UUID, element by element, in order. */
  function Services(es: seq<AdvDataEntry>): (r: seq<Uuid>)
    ensures forall u :: u in r ==> u.IsValid()
  {
    if es == [] then [] else EntryServices(es[0]) + Services(es[1..])
  }

  lemma {:induction false} ServicesAppend(a: seq<AdvDataEntry>, b: seq<AdvDataEntry>)
    ensures Services(a + b) == Services(a) + Services(b)
    decreases |a|
  {
    if a == [] {
      assert a + b == b;
    } else {
      assert (a + b)[1..] == a[1..] + b;
      ServicesAppend(a[1..], b);
    }
  }

  /** A UUID is advertised exactly when some element lists it. */
  lemma {:induction false} InServices(es: seq<AdvDataEntry>, u: Uuid)
    ensures u in Services(es) <==> exists i :: 0 <= i < |es| && u in EntryServices(es[i])
    decreases |es|
  {
    if es != [] {
      InServices(es[1..], u);
      if u in Services(es[1..]) {
        var i :| 0 <= i < |es[1..]| && u in EntryServices(es[1..][i]);
        assert u in EntryServices(es[i + 1]);
      }
      if exists i :: 0 <= i < |es| && u in EntryServices(es[i]) {
        var i :| 0 <= i < |es| && u in EntryServices(es[i]);
        if i > 0 {
          assert es[1..][i - 1] == es[i];
        }
      }
    }
  }

  /** The 16 bytes of `data` from offset j, a multiple of 16, are those of u. */
  predicate ChunkAt(data: Str, j: int, u: Uuid) {
    0 <= j && j % 16 == 0 && j + 16 <= |data| && data[j..j + 16] == u.le
  }

  /** A 128-bit list holds a UUID exactly when its bytes sit at a multiple of 16 in the data. */
  lemma {:induction false} InChunks16(data: Str, u: Uuid)
    ensures u in UuidChunks(data, 16) <==> exists j :: ChunkAt(data, j, u)
    decreases |data|
  {
    if |data| >= 16 {
      var rest := data[16..];
      InChunks16(rest, u);
      assert UuidChunks(data, 16) == [Uuid(data[..16])] + UuidChunks(rest, 16);
      if u in UuidChunks(rest, 16) {
        var j :| ChunkAt(rest, j, u);
        assert data[j + 16..j + 32] == rest[j..j + 16];
        assert ChunkAt(data, j + 16, u);
      }
      if u == Uuid(data[..16]) {
        assert ChunkAt(data, 0, u);
      }
      if exists j :: ChunkAt(data, j, u) {
        var j :| ChunkAt(data, j, u);
        if j > 0 {
          assert rest[j - 16..j] == data[j..j + 16];
          assert ChunkAt(rest, j - 16, u);
        } else {
          assert data[..16] == data[j..j + 16];
        }
      }
    }
  }

  /** The services from element i on: those of element i, then those after it. */
  lemma ServicesFrom(es: seq<AdvDataEntry>, i: nat)
    requires i < |es|
    ensures Services(es[i..]) == EntryServices(es[i]) + Services(es[i + 1..])
  {
    assert es[i..][1..] == es[i + 1..];
  }

  /** The inner loop of HasService: is `svc` among the back-to-back UUIDs of `data`? */
  method ChunksContain(data: Str, w: nat, svc: Uuid) returns (found: bool)
    requires w == 2 || w == 4 || w == 16
    ensures found <==> svc in UuidChunks(data, w)
  {
    var d := data;
    while |d| >= w
      invariant svc in UuidChunks(data, w) <==> svc in UuidChunks(d, w)
      decreases |d|
    {
      if UuidFromBytes(d, w) == svc { return true; }
      d := ChopLeft(d, w);
    }
    return false;
  }

  /** One element of HasService's loop: whether it is a service list that advertises `svc`. */
  method EntryHasService(e: AdvDataEntry, svc: Uuid) returns (found: bool)
    ensures found <==> svc in EntryServices(e)
  {
    found := false;
    match ServiceListWidth(e.Type()) {
      case None =>
      case Some(w) =>
        found := ChunksContain(e.Data(), w, svc);
    }
  }

  /** HasService: whether any service list advertises `svc`. */
  method HasService(es: seq<AdvDataEntry>, svc: Uuid) returns (res: bool)
    ensures res <==> svc in Services(es)
  {
    var i := 0;
    while i < |es|
      invariant 0 <= i <= |es|
      invariant svc in Services(es) <==> svc in Services(es[i..])
      decreases |es| - i
    {
      ServicesFrom(es, i);
      var found := EntryHasService(es[i], svc);
      if found { return true; }
      i := i + 1;
    }
    assert es[i..] == [];
    return false;
  }

  /** A vendor-specific element with at least two data bytes whose little-endian vendor id matches. */
  predicate HasVendorData(e: AdvDataEntry, vendorId: u16) {
    e.Type() == VendorSpecific && e.Size() >= 2 && Le16(e.Data()[0], e.Data()[1]) == vendorId
  }

  /** GetVendorData: what follows the vendor id in the first matching element, else empty. */
  function VendorData(es: seq<AdvDataEntry>, vendorId: u16): (r: Str)
    ensures (forall i :: 0 <= i < |es| ==> !HasVendorData(es[i], vendorId)) ==> r == []
    ensures forall i :: 0 <= i < |es| && HasVendorData(es[i], vendorId)
                        && (forall j :: 0 <= j < i ==> !HasVendorData(es[j], vendorId))
                        ==> r == es[i].Data()[2..]
  {
    if es == [] then []
    else
      var e := es[0];
      if e.Type() != VendorSpecific || e.Size() < 2 || Le16(e.Data()[0], e.Data()[1]) != vendorId
      then VendorData(es[1..], vendorId)
      else e.Data()[2..]
  }

  // ---------------------------------------------------------------------
  // Building

  /** The UUIDs of one width, in the order they were added. */
  function OfWidth(ss: seq<Uuid>, w: nat): (r: seq<Uuid>)
    ensures forall u :: u in r <==> u in ss && u.Len() == w
  {
    if ss == [] then []
    else (if ss[0].Len() == w then [ss[0]] else []) + OfWidth(ss[1..], w)
  }

  /** The concatenated little-endian encodings of some UUIDs. */
  function UuidBytes(ss: seq<Uuid>): Str {
    if ss == [] then [] else UuidToBytes(ss[0]) + UuidBytes(ss[1..])
  }

  /** An incomplete service list of one width, or nothing if no UUID has that width. */
  function ServiceListEntry(ss: seq<Uuid>, w: nat, t: byte): seq<AdvDataEntry> {
    var data := UuidBytes(OfWidth(ss, w));
    if data == [] then [] else [EntryOf(t, data)]
  }

  /** The three incomplete service lists BuildServices emits: 16-, then 32-, then 128-bit. */
  function ServiceEntries(ss: seq<Uuid>): seq<AdvDataEntry> {
    ServiceListEntry(ss, 2, Service16Incomplete)
    + ServiceListEntry(ss, 4, Service32Incomplete)
    + ServiceListEntry(ss, 16, Service128Incomplete)
  }

  /** Build: the elements in order, then the service lists. */
  function BuildOf(es: seq<AdvDataEntry>, ss: seq<Uuid>): Str {
    Serialize(es) + Serialize(ServiceEntries(ss))
  }

  /** Σ (1 + |value|) over the elements. */
  function EntriesSize(es: seq<AdvDataEntry>): nat {
    if es == [] then 0 else 1 + |es[0].v| + EntriesSize(es[1..])
  }

  /** GetTotalSize: the elements' encoded size plus the encoded service lists. */
  function TotalSizeOf(es: seq<AdvDataEntry>, ss: seq<Uuid>): nat {
    EntriesSize(es) + |Serialize(ServiceEntries(ss))|
  }

  lemma {:induction false} SerializeLength(es: seq<AdvDataEntry>)
    ensures |Serialize(es)| == EntriesSize(es)
    decreases |es|
  {
    if es != [] { SerializeLength(es[1..]); }
  }

  /** The size the builder accounts for is exactly the length of what it builds. */
  lemma BuildHasTotalSize(es: seq<AdvDataEntry>, ss: seq<Uuid>)
    ensures |BuildOf(es, ss)| == TotalSizeOf(es, ss)
  {
    SerializeLength(es);
  }

  lemma {:induction false} EntriesSizeAppend(a: seq<AdvDataEntry>, b: seq<AdvDataEntry>)
    ensures EntriesSize(a + b) == EntriesSize(a) + EntriesSize(b)
    decreases |a|
  {
    if a == [] {
      assert a + b == b;
    } else {
      assert (a + b)[1..] == a[1..] + b;
      EntriesSizeAppend(a[1..], b);
    }
  }

  lemma {:induction false} EntriesSizeBounds(es: seq<AdvDataEntry>, i: nat)
    requires i < |es|
    ensures 1 + |es[i].v| <= EntriesSize(es)
    decreases |es|
  {
    if i > 0 { EntriesSizeBounds(es[1..], i - 1); }
  }

  lemma ShortWhenSmall(es: seq<AdvDataEntry>)
    requires EntriesSize(es) <= 0x100
    ensures Short(es)
  {
    forall i | 0 <= i < |es| ensures |es[i].v| < 0x100 {
      EntriesSizeBounds(es, i);
    }
  }

  /**
   * A built blob of at most 256 bytes parses back into the added elements
   * followed by the service lists.
   */
  lemma BuildParses(es: seq<AdvDataEntry>, ss: seq<Uuid>)
    requires TotalSizeOf(es, ss) <= 0x100
    ensures SplitAd(BuildOf(es, ss)) == Parsed(es + ServiceEntries(ss), true)
  {
    var all := es + ServiceEntries(ss);
    SerializeAppend(es, ServiceEntries(ss));
    SerializeLength(ServiceEntries(ss));
    EntriesSizeAppend(es, ServiceEntries(ss));
    ShortWhenSmall(all);
    SplitSerialize(all);
  }

  lemma {:induction false} ChunksOfBytes(ss: seq<Uuid>, w: nat)
    requires w == 2 || w == 4 || w == 16
    requires forall k :: 0 <= k < |ss| ==> ss[k].Len() == w
    ensures UuidChunks(UuidBytes(ss), w) == ss
    decreases |ss|
  {
    if ss != [] {
      var d := UuidBytes(ss);
      assert d == ss[0].le + UuidBytes(ss[1..]);
      assert d[w..] == UuidBytes(ss[1..]);
      assert d[..w] == ss[0].le;
      ChunksOfBytes(ss[1..], w);
      assert [ss[0]] + ss[1..] == ss;
    }
  }

  lemma {:induction false} OfWidthHasWidth(ss: seq<Uuid>, w: nat)
    ensures forall k :: 0 <= k < |OfWidth(ss, w)| ==> OfWidth(ss, w)[k].Len() == w
  {
    var r := OfWidth(ss, w);
    forall k | 0 <= k < |r| ensures r[k].Len() == w {
      assert r[k] in r;
    }
  }

  lemma ListServices(ss: seq<Uuid>, w: nat, t: byte)
    requires w == 2 || w == 4 || w == 16
    requires ServiceListWidth(t) == Some(w)
    ensures Services(ServiceListEntry(ss, w, t)) == OfWidth(ss, w)
  {
    OfWidthHasWidth(ss, w);
    ChunksOfBytes(OfWidth(ss, w), w);
    var data := UuidBytes(OfWidth(ss, w));
    if data != [] {
      var es := [EntryOf(t, data)];
      assert es[1..] == [];
    } else {
      assert UuidChunks(data, w) == [];
    }
  }

  /**
   * The service lists of a built blob advertise, in order, the 16-bit, then
   * the 32-bit, then the 128-bit UUIDs that were added, each group in the
   * order of addition; UUIDs of any other length are not emitted.
   */
  lemma ServicesOfBuild(ss: seq<Uuid>)
    ensures Services(ServiceEntries(ss)) == OfWidth(ss, 2) + OfWidth(ss, 4) + OfWidth(ss, 16)
  {
    var l2 := ServiceListEntry(ss, 2, Service16Incomplete);
    var l4 := ServiceListEntry(ss, 4, Service32Incomplete);
    var l16 := ServiceListEntry(ss, 16, Service128Incomplete);
    ListServices(ss, 2, Service16Incomplete);
    ListServices(ss, 4, Service32Incomplete);
    ListServices(ss, 16, Service128Incomplete);
    ServicesAppend(l2 + l4, l16);
    ServicesAppend(l2, l4);
  }

  /** AdvDataBuilder: elements and services accumulated under a size cap. */
  class AdvDataBuilder {
    var entries: seq<AdvDataEntry>
    var svcs: seq<Uuid>
    const maxLen: nat

    /** What the builder has accepted never exceeds its cap. */
    ghost predicate Valid()
      reads this
    {
      TotalSizeOf(entries, svcs) <= maxLen
    }

    constructor(maxLen: nat)
      ensures this.maxLen == maxLen && entries == [] && svcs == []
      ensures Valid()
    {
      this.maxLen := maxLen;
      entries := [];
      svcs := [];
    }

    function Build(): (r: Str)
      reads this
      ensures |r| == TotalSizeOf(entries, svcs)
    {
      BuildHasTotalSize(entries, svcs);
      BuildOf(entries, svcs)
    }

    /** GetTotalSize: the loop over the elements, plus the service lists. */
    method GetTotalSize() returns (n: nat)
      ensures n == TotalSizeOf(entries, svcs)
    {
      n := 0;
      var i := 0;
      while i < |entries|
        invariant 0 <= i <= |entries|
        invariant n + EntriesSize(entries[i..]) == EntriesSize(entries)
        decreases |entries| - i
      {
        assert entries[i..][1..] == entries[i + 1..];
        n := n + 1 + |entries[i].v|;
        i := i + 1;
      }
      n := n + |Serialize(ServiceEntries(svcs))|;
    }

    /** Add: accepted only if the element still fits; the cap is kept either way. */
    method Add(e: AdvDataEntry) returns (ok: bool)
      modifies this
      ensures ok <==> old(TotalSizeOf(entries, svcs)) + |e.v| < maxLen
      ensures entries == if ok then old(entries) + [e] else old(entries)
      ensures svcs == old(svcs)
      ensures old(Valid()) ==> Valid()
      ensures ok ==> TotalSizeOf(entries, svcs) == old(TotalSizeOf(entries, svcs)) + 1 + |e.v| <= maxLen
    {
      var total := GetTotalSize();
      if total + |e.v| >= maxLen { return false; }
      EntriesSizeAppend(entries, [e]);
      entries := entries + [e];
      return true;
    }

    /** Add(type, value): an element built from a type code and its data. */
    method AddTyped(t: byte, value: Str) returns (ok: bool)
      modifies this
      ensures ok <==> old(TotalSizeOf(entries, svcs)) + 1 + |value| < maxLen
      ensures entries == if ok then old(entries) + [EntryOf(t, value)] else old(entries)
      ensures svcs == old(svcs)
      ensures old(Valid()) ==> Valid()
    {
      ok := Add(EntryOf(t, value));
    }

    /**
     * AddService: a UUID already present is accepted with no change; a new one
     * is kept only if the total size then stays within the cap.
     */
    method AddService(svc: Uuid) returns (ok: bool)
      modifies this
      ensures entries == old(entries)
      ensures svc in old(svcs) ==> ok && svcs == old(svcs)
      ensures svc !in old(svcs) ==> (ok <==> TotalSizeOf(old(entries), old(svcs) + [svc]) <= maxLen)
      ensures svc !in old(svcs) ==> svcs == if ok then old(svcs) + [svc] else old(svcs)
      ensures old(Valid()) ==> Valid()
    {
      for i := 0 to |svcs|
        invariant svc !in svcs[..i]
      {
        if svcs[i] == svc { return true; }
      }
      assert svcs[..|svcs|] == svcs;
      svcs := svcs + [svc];
      var total := GetTotalSize();
      if total > maxLen {
        svcs := svcs[..|svcs| - 1];
        assert svcs == old(svcs);
        return false;
      }
      return true;
    }
  }
}
