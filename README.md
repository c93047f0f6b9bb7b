# myhome core, modelled in Dafny

This project models the decoding and rule-engine core of the myhome home
automation firmware. Every claim below is proved by the Dafny verifier;
nothing is executed.

The model has two halves.

**The BLE advertisement relay** (`firmware/bt-relay`) takes in advertisements, decodes them per sensor and batches readings into report packets. The model covers:
- the `shos::Str` byte view: chopping, comparison, search, splitting, hex, checked integer parsing and glob matching (`ShosStr`);
- Bluetooth addresses and UUIDs (`ShosBt`);
- the AD-structure parser, lookups and size-capped builder (`GapAdv`);
- the BTHome v2 object table (`BTHomeRegistry`);
- the BTHome record decoder and frame parser (`BTHome`, in `BTHomeData.dfy`);
- the sensor adapters for Xavax, Mi PVVX, Mi ATS, ASensor and BTHome (`Xavax`, `MiPVVX`, `MiATS`, `ASensor`, `BTHomeSensor`);
- the common sensor object and its report queue (`SensorReports`, `BTSensors`);
- the relay's sensor lookup and report batching (`BTRelay`, in `Relay.dfy`).

**The hub** (`firmware/hub`, `home_devs/hub`, `firmware/temp`) keeps the latest value of every sensor channel and switches outputs on threshold limits. The model covers:
- the data-point parser (`HubPoint`);
- the map-based value store (`HubData`);
- the list-based value store of `hub.c` (`HubList`);
- the shared threshold hysteresis (`Thresholds`);
- the control rules: limits (`ControlLimit`), outputs (`ControlOutput`), the controller's evaluation (`HubControl`, in `Control.dfy`), its RPC handlers (`ControlRpc`) and properties of whole evaluations (`ControlProps`);
- the two legacy heater controllers (`HubHeater`, in `Heater.dfy`, and `HomeHeater`);
- the light controller (`HubLight`, in `Light.dfy`);
- the SHT3x CRC-8 and word checks (`Sht3x`).

`Bytes` and `Wrappers` hold shared helpers: subset types for bytes and fixed-width integers, little-endian words, and `Option`/`Result`.

## How the model is built

- **State in place.** State that the C and C++ code changes in place is a Dafny `class`. For example `HubData.Store`, `HubControl.Control`, `HubHeater.Heater`, `HubLight.Lights`, `BTSensors.BTSensor`, `BTRelay.Relay`, `BTHome.BTHomeData` and `GapAdv.AdvData`. Each adapter's own fields are a datatype with a field-update function, and `BTSensors.BTSensor` holds that datatype and changes it in place.
- **Specifications.** Each class method is proved against a function on values of its state (`EvalSpec`, `TimerSpec`, `SetLimitSpec`, ...). Lemmas then state what those functions mean.
- **Loops.** The source's loops are `while` loops with invariants.
- **Bytes.** Bytes are integers in `0..255`. The CRC uses `bv8`, and the changed-masks use `bv32`.
- **Sensor values.** These are exact reals: raw value times 10^exponent.
- **Parameters.** Time, the local hour, configuration values, the data table a rule reads and the outcome of saving the configuration are all parameters. GPIO writes and reports to the data server are recorded in sequences on the state.
- **Legacy heater flag.** In `hub_control.cpp` the heater flag and deadline drive no output. They only gate the evaluation and are answered by the status handler, and the model keeps them that way.

## Model

| member | source | states |
|---|---|---|
| ShosStr.ChopLeft | firmware/bt-relay/src/shos/shos_str.cpp:124-127 | dropping n bytes leaves the suffix after them, n shorter |
| ShosStr.ChopRight | firmware/bt-relay/src/shos/shos_str.hpp:133-133 | dropping n bytes from the end leaves the prefix before them, n shorter |
| ShosStr.Substr | firmware/bt-relay/src/shos/shos_str.cpp:129-132 | empty when `from` is past the end, otherwise the bytes from `from` on, clipped to `count` and to the view |
| ShosStr.SubstrIsChops | firmware/bt-relay/src/shos/shos_str.cpp:129-132 | a substring that starts inside the view is the view chopped by `from` on the left and by the excess beyond `count` on the right |
| ShosStr.Equal | firmware/bt-relay/src/shos/shos_str.cpp:27-32 | holds exactly when both views have the same bytes |
| ShosStr.Cmp | firmware/bt-relay/src/shos/shos_str.cpp:44-52 | the result is -1, 0 or 1, and 0 exactly for equal views |
| ShosStr.CmpAntisymmetric | firmware/bt-relay/src/shos/shos_str.cpp:44-52 | swapping the operands negates the result |
| ShosStr.CmpPrefix | firmware/bt-relay/src/shos/shos_str.cpp:44-52 | a proper prefix sorts before each of its extensions |
| ShosStr.ToLower | firmware/bt-relay/src/shos/shos_str.cpp:54-64 | ASCII capitals map to small letters 0x20 higher; every other byte is kept |
| ShosStr.LowerAll | firmware/bt-relay/src/shos/shos_str.cpp:54-64 | lower-cases each byte in place and keeps the length |
| ShosStr.CaseCmp | firmware/bt-relay/src/shos/shos_str.cpp:54-64 | the loop gives the same result as comparing the two lower-cased views |
| ShosStr.StartsWith | firmware/bt-relay/src/shos/shos_str.cpp:66-72 | holds exactly when the prefix fits and the leading bytes are the prefix |
| ShosStr.StartsWithExtends | firmware/bt-relay/src/shos/shos_str.cpp:66-72 | holds exactly for the views that are the prefix followed by some rest |
| ShosStr.IndexOf | firmware/bt-relay/src/shos/shos_str.cpp:134-139 | the least index at or after pos that holds ch; none (npos) exactly when no such index exists |
| ShosStr.Find | firmware/bt-relay/src/shos/shos_str.cpp:134-139 | the scan loop returns that least index |
| ShosStr.IndexOfSub | firmware/bt-relay/src/shos/shos_str.cpp:141-151 | the first position at or after pos where sub occurs; none exactly when it occurs nowhere from pos on |
| ShosStr.SubFoundAt | firmware/bt-relay/src/shos/shos_str.cpp:141-151 | the search stops where sub starts |
| ShosStr.SubNotAt | firmware/bt-relay/src/shos/shos_str.cpp:141-151 | where sub does not start, the search goes on from the next byte |
| ShosStr.SubPastEnd | firmware/bt-relay/src/shos/shos_str.cpp:141-151 | the search fails once fewer bytes than sub remain |
| ShosStr.FindStr | firmware/bt-relay/src/shos/shos_str.cpp:141-151 | chopping a copy one byte at a time and testing StartsWith finds that first occurrence |
| ShosStr.SplitOn | firmware/bt-relay/src/shos/shos_str.cpp:194-209 | without the separator, `before` is the whole view; with it, before + sep + after is the view and `before` holds no separator |
| ShosStr.Fields | firmware/bt-relay/src/shos/shos_str.cpp:114-122 | a pattern list always has at least one comma-separated field |
| ShosStr.FieldsStep | firmware/bt-relay/src/shos/shos_str.cpp:114-122 | the fields are the text before the first comma followed by the fields of the rest, or the whole list when it has no comma |
| ShosStr.HexEncoding | firmware/bt-relay/src/shos/shos_str.cpp:256-274 | two hex digits per byte |
| ShosStr.HexDigit | firmware/bt-relay/src/shos/shos_str.cpp:299-313 | a digit of either case has a value below 16; any other byte has none |
| ShosStr.HexDecoding | firmware/bt-relay/src/shos/shos_str.cpp:315-328 | succeeds exactly for an even-length all-hex text, with half as many bytes |
| ShosStr.HexDigitOfHexChar | firmware/bt-relay/src/shos/shos_str.cpp:256-261 | each digit hexc writes, in either case, decodes to its nibble |
| ShosStr.HexRoundTrip | firmware/bt-relay/src/shos/shos_str.cpp:263-328 | decoding the upper- or lower-case encoding gives back the bytes |
| ShosStr.HexEncode | firmware/bt-relay/src/shos/shos_str.cpp:263-274 | fails, leaving the buffer and size alone, exactly when out_size < 2*len; otherwise writes the encoding into the first 2*len slots, sets out_size to 2*len and leaves the rest alone |
| ShosStr.HexDecode | firmware/bt-relay/src/shos/shos_str.cpp:315-328 | succeeds exactly for valid hex with room for it, writing the decoded bytes and setting out_size; odd length or a small buffer leave the buffer alone, a bad digit leaves only the pairs before it written |
| ShosStr.DigitValue | firmware/bt-relay/src/shos/shos_str.cpp:407-435 | a digit's value is below its base, and -1 marks a non-digit |
| ShosStr.StripZeros | firmware/bt-relay/src/shos/shos_str.cpp:461-463 | removes exactly the leading zeros |
| ShosStr.UIntValue | firmware/bt-relay/src/shos/shos_str.cpp:438-496 | an accepted value never exceeds max |
| ShosStr.PlaceValuesFit | firmware/bt-relay/src/shos/shos_str.cpp:464-480 | for every supported base and width, the place value of the last permitted digit fits in the type |
| ShosStr.BinaryPlaces | firmware/bt-relay/src/shos/shos_str.cpp:464-472 | base-2 digit limits 8, 16, 32, 64 keep the top place value inside the width |
| ShosStr.OctalPlaces | firmware/bt-relay/src/shos/shos_str.cpp:464-473 | base-8 digit limits 3, 6, 11, 22 keep the top place value inside the width |
| ShosStr.DecimalPlaces | firmware/bt-relay/src/shos/shos_str.cpp:464-474 | base-10 digit limits 3, 5, 10, 20 keep the top place value inside the width |
| ShosStr.HexPlaces | firmware/bt-relay/src/shos/shos_str.cpp:464-475 | base-16 digit limits 2, 4, 8, 16 keep the top place value inside the width |
| ShosStr.AddPlace | firmware/bt-relay/src/shos/shos_str.cpp:487-493 | the inner loop, adding mult val times modulo the type's range, succeeds exactly when the true sum stays within max, and then yields it |
| ShosStr.PlaceStep | firmware/bt-relay/src/shos/shos_str.cpp:488-490 | the wrapped sum falls below the old value exactly when the addition overflowed |
| ShosStr.SignificantDigits | firmware/bt-relay/src/shos/shos_str.cpp:442-463 | picks the base, chopping a 0b/0o/0x prefix in base 0, then drops the leading zeros |
| ShosStr.SumDigits | firmware/bt-relay/src/shos/shos_str.cpp:481-495 | the digit loop accepts exactly an all-digit text whose value is at most max, and returns that value |
| ShosStr.ToUInt | firmware/bt-relay/src/shos/shos_str.cpp:438-496 | the wrapping add-one-place-at-a-time loop returns exactly UIntValue: the value when it is within max, an error otherwise |
| ShosStr.ToInt | firmware/bt-relay/src/shos/shos_str.cpp:514-537 | the value is the unsigned decimal parse of the digits after an optional '-', negated after a '-'; it is accepted exactly when that parse is, is not zero after a '-' ("-0" is refused) and is below max without one, so accepted values lie in [-max, max) |
| ShosStr.UInt8Max | firmware/bt-relay/src/shos/shos_str.cpp:498-500 | ToUInt8 accepts "255" |
| ShosStr.UInt8Over | firmware/bt-relay/src/shos/shos_str.cpp:498-500 | ToUInt8 rejects "256" |
| ShosStr.HexPrefix | firmware/bt-relay/src/shos/shos_str.cpp:442-458 | in base 0, "0xff" is 255 |
| ShosStr.LeadingZeros | firmware/bt-relay/src/shos/shos_str.cpp:461-463 | "007" is 7: leading zeros count neither towards the digit limit nor the value |
| ShosStr.NegativeZero | firmware/bt-relay/src/shos/shos_str.cpp:526-527 | "-0" is rejected |
| ShosStr.Int8Min | firmware/bt-relay/src/shos/shos_str.cpp:528-530 | ToInt8 accepts "-128" as -128 |
| ShosStr.Int8Over | firmware/bt-relay/src/shos/shos_str.cpp:528-532 | ToInt8 rejects "128" |
| ShosStr.Int8Max | firmware/bt-relay/src/shos/shos_str.cpp:535-540 | ToInt8 accepts "127" |
| ShosStr.StrMatchesPattern | firmware/bt-relay/src/shos/shos_str.cpp:74-108 | the recursive matcher with its two loops agrees with the glob relation Matches |
| ShosStr.MatchesPattern | firmware/bt-relay/src/shos/shos_str.cpp:110-112 | matching starts at depth 0 |
| ShosStr.AnyMatchesCons | firmware/bt-relay/src/shos/shos_str.cpp:114-122 | a text matches a list exactly when it matches the first field or one of the rest |
| ShosStr.MatchesPatterns | firmware/bt-relay/src/shos/shos_str.cpp:114-122 | true exactly when some comma-separated field matches |
| ShosStr.LiteralPatternMatchesOnlyItself | firmware/bt-relay/src/shos/shos_str.cpp:74-108 | a pattern without wildcards matches exactly itself |
| ShosStr.QuestionMatchesOneChar | firmware/bt-relay/src/shos/shos_str.cpp:74-108 | "?" matches exactly the one-character texts |
| ShosStr.TrailingStarMatchesAnyRest | firmware/bt-relay/src/shos/shos_str.cpp:74-108 | a literal followed by "*" matches every extension of the literal |
| ShosStr.DepthLimit | firmware/bt-relay/src/shos/shos_str.cpp:74-76 | past depth 10 nothing matches |
| ShosBt.AddrFromBytes | firmware/bt-relay/src/shos/shos_bt.cpp:43-61 | six bytes, reversed when little-endian and copied in order otherwise, with no address type |
| ShosBt.AddrReversalInvolutive | firmware/bt-relay/src/shos/shos_bt.cpp:43-61 | reading a reversed address little-endian again gives the bytes in their original order |
| ShosBt.UuidFromBytes | firmware/bt-relay/src/shos/shos_bt.cpp:68-79 | valid exactly for lengths 2, 4 and 16, holding the leading bytes; any other length leaves the empty UUID |
| ShosBt.To16 | firmware/bt-relay/src/shos/shos_bt.cpp:86-88 | the little-endian 16-bit value of a 2-byte UUID, 0 for any other |
| ShosBt.To32 | firmware/bt-relay/src/shos/shos_bt.cpp:90-92 | the little-endian 32-bit value of a 4-byte UUID, 0 for any other |
| ShosBt.UuidFromNumber | firmware/bt-relay/src/shos/shos_bt_uuid.hpp:17-25 | a 16-bit UUID holding the low 16 bits of the number |
| ShosBt.UuidFromBigEndian | firmware/bt-relay/src/shos/shos_bt_uuid.hpp:32-42 | a 128-bit UUID whose little-endian bytes are the list reversed |
| ShosBt.UuidToBytes | firmware/bt-relay/src/shos/shos_bt_uuid.hpp:68-68 | as the declaration states: as many bytes as the UUID is long, and loading them back gives the same UUID |
| ShosBt.NumberUuidRoundTrip | firmware/bt-relay/src/shos/shos_bt.cpp:68-88 | a 16-bit number's little-endian bytes load to the number's UUID, and To16 gives the number back |
| ShosBt.LoadedValues | firmware/bt-relay/src/shos/shos_bt.cpp:68-92 | To16 and To32 read back the loaded little-endian value at their own width and 0 at the other |
| GapAdv.AdvDataEntry.Data | firmware/bt-relay/src/shos/shos_bt_gap_adv.hpp:86-88 | type byte followed by the data is the whole entry, and the data is size() bytes long |
| GapAdv.AdvDataEntry.Encoded | firmware/bt-relay/src/shos/shos_bt_gap_adv.cpp:173-176 | the length byte, equal to the value's size when it fits in a byte, followed by the value |
| GapAdv.NewEntry | firmware/bt-relay/src/shos/shos_bt_gap_adv.hpp:83-84 | an empty value becomes the one-byte entry of type kInvalid with no data, which is not valid |
| GapAdv.EntryOf | firmware/bt-relay/src/shos/shos_bt_gap_adv.cpp:178-183 | an entry built from a type and a value has that type and that data |
| GapAdv.SerializeAppend | firmware/bt-relay/src/shos/shos_bt_gap_adv.cpp:237-245 | serialising two lists of entries back to back is serialising their concatenation |
| GapAdv.SplitAd | firmware/bt-relay/src/shos/shos_bt_gap_adv.cpp:17-28 | the entries parsed re-serialise to a prefix of the input, and to all of it exactly on success; a lone byte, a zero length or a length past the end fails with no entry from that point |
| GapAdv.SplitSerialize | firmware/bt-relay/src/shos/shos_bt_gap_adv.cpp:17-28 | parsing the serialisation of entries with values below 256 bytes gives those entries back, with success |
| GapAdv.AdvData.Parse | firmware/bt-relay/src/shos/shos_bt_gap_adv.cpp:17-28 | the loop succeeds exactly when SplitAd does, and leaves the old entries (when appending) followed by the entries SplitAd parses |
| GapAdv.AdvData.Parse2 | firmware/bt-relay/src/shos/shos_bt_gap_adv.cpp:30-34 | the second blob is parsed only when the first one parses, and the status is that of both |
| GapAdv.DataByType | firmware/bt-relay/src/shos/shos_bt_gap_adv.cpp:36-41 | the data of the first entry of the type, empty when there is none |
| GapAdv.AllDataByType | firmware/bt-relay/src/shos/shos_bt_gap_adv.cpp:43-49 | empty exactly when no entry has the type, and otherwise starting with the first one's data |
| GapAdv.ServiceDataType | firmware/bt-relay/src/shos/shos_bt_gap_adv.cpp:52-59 | only UUID lengths 2, 4 and 16 have a service data type |
| GapAdv.ServiceData | firmware/bt-relay/src/shos/shos_bt_gap_adv.cpp:51-67 | the data after the UUID of the first service-data entry of the right width for the UUID, empty for an invalid UUID or when no entry matches |
| GapAdv.ServiceDataScan | firmware/bt-relay/src/shos/shos_bt_gap_adv.cpp:60-66 | the scan returns the data after the UUID of the first matching entry, and empty when none matches |
| GapAdv.Name | firmware/bt-relay/src/shos/shos_bt_gap_adv.cpp:88-96 | the full name when any entry holds one, otherwise the short name |
| GapAdv.FullNameWins | firmware/bt-relay/src/shos/shos_bt_gap_adv.cpp:88-96 | a full name wins over a short name placed before it; a short name alone is the name |
| GapAdv.ServiceListWidth | firmware/bt-relay/src/shos/shos_bt_gap_adv.cpp:133-140 | the six service-list types, incomplete and complete, have UUID widths 2, 4 and 16, and no other type has one |
| GapAdv.UuidChunks | firmware/bt-relay/src/shos/shos_bt_gap_adv.cpp:126-131 | the data split into whole UUIDs of the width, starting with the first w bytes, and none when fewer remain |
| GapAdv.Services | firmware/bt-relay/src/shos/shos_bt_gap_adv.cpp:124-144 | every service listed is a valid UUID |
| GapAdv.InServices | firmware/bt-relay/src/shos/shos_bt_gap_adv.cpp:124-144 | a UUID is among the services exactly when some element lists it |
| GapAdv.InChunks16 | firmware/bt-relay/src/shos/shos_bt_gap_adv.cpp:124-144 | a 128-bit service list holds a UUID exactly when its 16 bytes sit at a multiple of 16 in the list's data |
| GapAdv.ServicesAppend | firmware/bt-relay/src/shos/shos_bt_gap_adv.cpp:124-144 | the services of two lists of entries are those of the first followed by those of the second |
| GapAdv.ChunksContain | firmware/bt-relay/src/shos/shos_bt_gap_adv.cpp:100-108 | the inner loop finds the UUID exactly when it is one of the chunks |
| GapAdv.EntryHasService | firmware/bt-relay/src/shos/shos_bt_gap_adv.cpp:110-118 | one entry lists the UUID exactly when it is one of that entry's services |
| GapAdv.HasService | firmware/bt-relay/src/shos/shos_bt_gap_adv.cpp:98-122 | true exactly when the UUID is among GetServices |
| GapAdv.VendorData | firmware/bt-relay/src/shos/shos_bt_gap_adv.cpp:146-159 | the data after the vendor id of the first vendor-specific entry with that id, empty when there is none |
| GapAdv.OfWidth | firmware/bt-relay/src/shos/shos_bt_gap_adv.cpp:252-258 | the services of the given width, kept in order |
| GapAdv.BuildHasTotalSize | firmware/bt-relay/src/shos/shos_bt_gap_adv.cpp:229-245 | Build produces exactly GetTotalSize bytes |
| GapAdv.BuildParses | firmware/bt-relay/src/shos/shos_bt_gap_adv.cpp:237-263 | a built blob of at most 256 bytes parses back to the entries followed by the service lists, with success |
| GapAdv.ListServices | firmware/bt-relay/src/shos/shos_bt_gap_adv.cpp:247-263 | the list entry BuildServices writes for one width lists exactly the services of that width |
| GapAdv.ServicesOfBuild | firmware/bt-relay/src/shos/shos_bt_gap_adv.cpp:247-263 | the services a built blob advertises are the 16-bit, then the 32-bit, then the 128-bit ones that were added |
| GapAdv.AdvDataBuilder.constructor | firmware/bt-relay/src/shos/shos_bt_gap_adv.cpp:205 | an empty builder with the size cap |
| GapAdv.AdvDataBuilder.Build | firmware/bt-relay/src/shos/shos_bt_gap_adv.cpp:237-245 | the blob is as long as the total size |
| GapAdv.AdvDataBuilder.GetTotalSize | firmware/bt-relay/src/shos/shos_bt_gap_adv.cpp:229-235 | the loop returns the size of the entries with their length bytes plus the service lists |
| GapAdv.AdvDataBuilder.Add | firmware/bt-relay/src/shos/shos_bt_gap_adv.cpp:207-211 | appends the entry exactly when the size so far plus the entry's value stays below the cap, keeps the services, and keeps the built size within the cap |
| GapAdv.AdvDataBuilder.AddTyped | firmware/bt-relay/src/shos/shos_bt_gap_adv.cpp:213-215 | the same for an entry built from a type and a value |
| GapAdv.AdvDataBuilder.AddService | firmware/bt-relay/src/shos/shos_bt_gap_adv.cpp:217-227 | a known service succeeds without change; a new one is kept exactly when the total size with it stays within the cap, and is otherwise removed again |
| GapAdv.SerializeLength | firmware/bt-relay/src/shos/shos_bt_gap_adv.cpp:229-245 | the serialised entries are exactly as long as the sum of the entry sizes GetTotalSize adds up |
| GapAdv.ChunksOfBytes | firmware/bt-relay/src/shos/shos_bt_gap_adv.cpp:126-131 | UUIDs of one width written one after another split back into the same UUIDs |
| BTHomeRegistry.RowShapes | firmware/bt-relay/src/BTHomeData.cpp:14-98 | every row is an unsigned, signed or string object; strings have length 0 and are raw sensors; numbers take 1 to 4 bytes; exponents are at most 0; no row has type kAny |
| BTHomeRegistry.IdsUnique | firmware/bt-relay/src/BTHomeData.cpp:14-98 | no object id appears twice in the table |
| BTHomeRegistry.InTableIff | firmware/bt-relay/src/BTHomeData.cpp:14-98 | an id is known exactly when some row carries it |
| BTHomeRegistry.RowIdNotMax | firmware/bt-relay/src/BTHomeData.cpp:14-98 | no row has id 0xFF, the value GetId uses for "not found" |
| BTHomeRegistry.Table | firmware/bt-relay/src/BTHomeData.cpp:14-98 | the objects in table order, 77 rows |
| BTHomeRegistry.FindId | firmware/bt-relay/src/BTHomeData.cpp:116-122 | the first row at or after k with the id, or the end of the table |
| BTHomeRegistry.Get | firmware/bt-relay/src/BTHomeData.cpp:116-122 | a found object has the id asked for and a consistent shape; otherwise the result is an internal error |
| BTHomeRegistry.GetIsRow | firmware/bt-relay/src/BTHomeData.cpp:116-122 | Get succeeds exactly for ids in the table, and then returns that id's row |
| BTHomeRegistry.GetByName | firmware/bt-relay/src/BTHomeData.cpp:124-134 | succeeds exactly when order is below the number of rows with the name, and then returns the row with that name preceded by exactly `order` others with it |
| BTHomeRegistry.FoundByName | firmware/bt-relay/src/BTHomeData.cpp:124-134 | the name scan stops at the row holding the order-th occurrence of the name, which has an id other than 0xFF |
| BTHomeRegistry.GetId | firmware/bt-relay/src/BTHomeData.cpp:144-150 | 0xFF exactly when there is no such occurrence, and otherwise the id of the object GetByName finds |
| BTHomeRegistry.FirstTemperatureId | firmware/bt-relay/src/BTHomeData.cpp:19 | the first "temperature" is object 0x02 |
| BTHomeRegistry.SecondTemperatureId | firmware/bt-relay/src/BTHomeData.cpp:45 | the second "temperature" is object 0x45 |
| BTHomeRegistry.FirstHumidityId | firmware/bt-relay/src/BTHomeData.cpp:20 | the first "humidity" is object 0x03 |
| BTHomeRegistry.SecondHumidityId | firmware/bt-relay/src/BTHomeData.cpp:35 | the second "humidity" is object 0x2E |
| BTHomeRegistry.GetName | firmware/bt-relay/src/BTHomeData.cpp:136-142 | the row's name, or "unknown" for an id not in the table |
| BTHomeRegistry.IsSensor | firmware/bt-relay/src/BTHomeData.cpp:152-158 | true exactly for ids in the table of type kSensor |
| BTHomeRegistry.IsBinarySensor | firmware/bt-relay/src/BTHomeData.cpp:160-166 | true exactly for ids in the table of type kBinarySensor |
| BTHomeRegistry.IsEvent | firmware/bt-relay/src/BTHomeData.cpp:168-174 | true exactly for ids in the table of type kEvent |
| BTHomeRegistry.GetDataType | firmware/bt-relay/src/BTHomeData.cpp:176-182 | the row's type, never kAny, and kAny for an unknown id |
| BTHomeRegistry.GetUnit | firmware/bt-relay/src/BTHomeData.cpp:184-190 | the row's unit, and empty for an unknown id |
| BTHomeRegistry.GetPrecision | firmware/bt-relay/src/BTHomeData.cpp:192-199 | the number of decimals, minus the exponent, and 0 for an unknown id |
| BTHomeRegistry.UnknownIdDefaults | firmware/bt-relay/src/BTHomeData.cpp:136-199 | an id no row carries gets every default: "unknown", no category, kAny, no unit, precision 0 |
| BTHomeRegistry.FirstTemperatureIsSensor | firmware/bt-relay/src/BTHomeData.cpp:19 | object 0x02 is a sensor with 2 decimals |
| BTHomeRegistry.SecondTemperaturePrecision | firmware/bt-relay/src/BTHomeData.cpp:45 | object 0x45 has 1 decimal |
| BTHomeRegistry.WindowIsBinarySensor | firmware/bt-relay/src/BTHomeData.cpp:87 | object 0x2D is a binary sensor |
| BTHomeRegistry.ButtonIsEvent | firmware/bt-relay/src/BTHomeData.cpp:89 | object 0x3A is an event |
| BTHomeRegistry.PacketIdIsOther | firmware/bt-relay/src/BTHomeData.cpp:16 | the packet id has type kOther and is not a sensor |
| BTHomeRegistry.SecondHumidityName | firmware/bt-relay/src/BTHomeData.cpp:35 | object 0x2E is named "humidity" |
| BTHomeRegistry.FindByNameCounts | firmware/bt-relay/src/BTHomeData.cpp:124-134 | the name scan finds a row exactly when enough rows of the name remain, and the row it finds has the name with exactly the requested number of rows of that name before it |
| BTHomeRegistry.ScanFirstTemperature | firmware/bt-relay/src/BTHomeData.cpp:124-134 | the first "temperature" is row 2 of the table |
| BTHomeRegistry.ScanSecondTemperature | firmware/bt-relay/src/BTHomeData.cpp:124-134 | the second "temperature" is row 28 of the table |
| BTHomeRegistry.ScanFirstHumidity | firmware/bt-relay/src/BTHomeData.cpp:124-134 | the first "humidity" is row 3 of the table |
| BTHomeRegistry.ScanSecondHumidity | firmware/bt-relay/src/BTHomeData.cpp:124-134 | the second "humidity" is row 18 of the table |
| BTHome.Same | firmware/bt-relay/src/BTHomeData.cpp:101-114 | two values are equal exactly when their formats and payloads are |
| BTHome.UnionWord | firmware/bt-relay/src/BTHomeData.cpp:256-265 | the union word holds the little-endian value bytes, over a fill of 0x00 or, when the last value byte has its top bit set, 0xFF |
| BTHome.RawAsWritten | firmware/bt-relay/src/BTHomeData.cpp:256-274 | the raw value as the code computes it: within 32 signed or unsigned bits |
| BTHome.RawAsWrittenThreeByteUnsigned | firmware/bt-relay/src/BTHomeData.cpp:264-271 | a 3-byte unsigned value with its top bit set comes out 0xFF000000 too large |
| BTHome.IlluminanceOverflow | firmware/bt-relay/src/BTHomeData.cpp:264-271 | bytes 00 00 80 decode to 0xFF800000 instead of 0x800000 |
| BTHome.IlluminanceRecordAsWritten | firmware/bt-relay/src/BTHomeData.cpp:264-271 | example, a whole record: illuminance 05 00 00 80 parses to 83886.08 lux, and the decode as written, scaled by 0.01, gives 42865786.88 lux |
| BTHome.RawValue | firmware/bt-relay/src/BTHomeData.cpp:256-274 | the little-endian value of the bytes, two's complement when signed: unsigned values lie in [0, 256^n), signed ones in [-256^n/2, 256^n/2) |
| BTHome.RawAsWrittenAgrees | firmware/bt-relay/src/BTHomeData.cpp:256-274 | except for 3-byte unsigned values with the top bit set, the code computes the intended raw value |
| BTHome.Scale | firmware/bt-relay/src/BTHomeData.cpp:281 | raw * 10^exponent, exactly |
| BTHome.DecodeRecord | firmware/bt-relay/src/BTHomeData.cpp:242-309 | corrected (integers read with RawValue, not the union word); consumes the id and the value bytes; a string keeps at most 3 bytes as kOther; a sensor becomes the scaled value, a binary sensor "raw != 0", any other object the raw integer in its own format; the index is 0 |
| BTHome.DecodeRecordAsWritten | firmware/bt-relay/src/BTHomeData.cpp:242-309 | as written, the record decodes exactly as DecodeRecord does, except that a 3-byte unsigned value whose top bit is set carries 0xFF000000 on top of its raw value, and still consumes the same bytes |
| BTHome.ParseAndConsume | firmware/bt-relay/src/BTHomeData.cpp:221-316 | corrected (records decoded by DecodeRecord); fewer than 2 bytes is INVALID_ARGUMENT; an unknown id or a record longer than the data is kParseFailed; otherwise the decoded record and the rest |
| BTHome.ParseWindowRecord | firmware/bt-relay/src/BTHomeData.cpp:284-292 | example: record 2D 01 decodes to the window being open, leaving the next byte |
| BTHome.PacketIdRecord | firmware/bt-relay/src/BTHomeData.cpp:293-301 | a packet id decodes as an unsigned kOther value |
| BTHome.ParseTextRecord | firmware/bt-relay/src/BTHomeData.cpp:242-255 | example: a text record of 4 bytes keeps its first 3 and consumes all 4 |
| BTHome.ShortRecordFails | firmware/bt-relay/src/BTHomeData.cpp:237-241 | a temperature record cut short fails to parse |
| BTHome.HundredDegreesRecord | firmware/bt-relay/src/BTHomeData.cpp:275-283 | example: 02 10 27 is a temperature of 100.00 degrees |
| BTHome.QuarterHundredRecord | firmware/bt-relay/src/BTHomeData.cpp:275-283 | example: 02 C4 09 is a temperature of 25.00 degrees |
| BTHome.CountId | firmware/bt-relay/src/BTHomeData.cpp:404-406 | bound only: the number of earlier values with the id never exceeds the number of values looked at; what it counts is stated by CountIdMeans |
| BTHome.CountIdMeans | firmware/bt-relay/src/BTHomeData.cpp:404-406 | the count is 0 exactly when no value looked at has the id, and all of them exactly when every one has it |
| BTHome.NextIndex | firmware/bt-relay/src/BTHomeData.cpp:404-406 | the index loop gives the number of stored values with the same id, in byte arithmetic |
| BTHome.NumberedAppend | firmware/bt-relay/src/BTHomeData.cpp:403-407 | appending a value with that index keeps every value numbered by its order among the values with its id |
| BTHome.NextRecord | firmware/bt-relay/src/BTHomeData.cpp:397-402 | one step of the record loop: a parsed record is the first of the records, and a failure ends them unsuccessfully |
| BTHome.Number | firmware/bt-relay/src/BTHomeData.cpp:403-407 | numbering changes only the index of each value |
| BTHome.NumberKeepsNumbered | firmware/bt-relay/src/BTHomeData.cpp:395-411 | numbered values stay numbered when a parse appends to them |
| BTHome.NumberSameTwice | firmware/bt-relay/src/BTHomeData.cpp:403-407 | two values with the same id get indexes 0 and 1 |
| BTHome.TwoTemperatures | firmware/bt-relay/src/BTHomeData.cpp:395-411 | a frame with two temperatures parses into temperature 0 of 25 degrees and temperature 1 of 100 degrees |
| BTHome.FindValue | firmware/bt-relay/src/BTHomeData.cpp:413-421 | stops only at a value with the id |
| BTHome.FindValueCounts | firmware/bt-relay/src/BTHomeData.cpp:413-421 | the search finds the value exactly when there are more than `index` values with the id, and then returns the index-th of them |
| BTHome.FindOwnValue | firmware/bt-relay/src/BTHomeData.cpp:413-421 | in numbered values, looking up a value's own (id, index) finds that value |
| BTHome.GetValue | firmware/bt-relay/src/BTHomeData.cpp:413-421 | the index-th value with the id, and NOT_FOUND when there is none |
| BTHome.Version | firmware/bt-relay/src/BTHomeData.hpp:143-152 | the protocol version is the top three bits of the info byte |
| BTHome.InfoFields | firmware/bt-relay/src/BTHomeData.hpp:143-152 | the encryption bit, trigger bit and version make up the info byte with the reserved bits |
| BTHome.InfoExamples | firmware/bt-relay/src/BTHomeData.hpp:143-152 | 0x40 is version 2 in the clear, 0x41 is encrypted, 0x44 is trigger-based |
| BTHome.BTHomeData.constructor | firmware/bt-relay/src/BTHomeData.hpp:154 | no address, info 0, no data and no values |
| BTHome.BTHomeData.ParseData | firmware/bt-relay/src/BTHomeData.cpp:395-411 | corrected (records decoded by DecodeRecord); appends the stored frame's records, numbered after the values already there, and fails with kParseFailed exactly when a record does not parse; nothing else changes |
| BTHome.Records | firmware/bt-relay/src/BTHomeData.cpp:395-404 | corrected (records decoded by DecodeRecord); the records decoded one after another while two or more bytes remain, a last single byte being ignored; a failing record ends the list, keeps the records before it and marks it not ok |
| BTHome.BTHomeData.Parse | firmware/bt-relay/src/BTHomeData.cpp:328-347 | corrected (records decoded by DecodeRecord); stores the address; empty data is INVALID_ARGUMENT; another version is kParseFailed; clear data with a key is kUnencrypted; accepted clear data replaces the frame, encrypted data keeps the old one, and the records are parsed |
| BTHome.BTHomeData.ParseAdv | firmware/bt-relay/src/BTHomeData.cpp:318-326 | corrected (records decoded by DecodeRecord); without BTHome service data (UUID 0xFCD2) the result is NOT_FOUND and nothing changes; otherwise Parse of that service data |
| SensorReports.Bit | firmware/bt-relay/src/BTSensorBTHome.cpp:36-36 | a bit below 32 is a non-zero mask word, any later bit no mask at all |
| SensorReports.BitsDisjoint | firmware/bt-relay/src/BTSensorXavax.cpp:22-30 | two distinct bits of a 32-bit report mask never overlap: bit i is set in 1 << j exactly when i == j |
| SensorReports.SetBit | firmware/bt-relay/src/BTSensorXavax.cpp:22-30 | setting bit i in a mask adds bit i and keeps every other bit as it was |
| SensorReports.ReportAllBits | firmware/bt-relay/src/BTSensor.hpp:44-44 | kReportAll has every one of the 32 bits set, so it asks for every reading |
| SensorReports.Emit | firmware/bt-relay/src/BTSensor.cpp:62-64 | a report call queues exactly one record, carrying the sensor's sid, the given subid, the last-seen time and the value, when its condition holds and none otherwise |
| SensorReports.StampedJoin | firmware/bt-relay/src/BTSensor.cpp:62-64 | records queued by consecutive report calls of one sensor all carry its sid and last-seen time |
| Xavax.Taste | firmware/bt-relay/src/BTSensorXavax.cpp:33-35 | an advertisement tastes exactly when one of its parsed elements is a 128-bit service list (complete or incomplete) holding the Xavax UUID's 16 bytes at a multiple of 16 (the repository's own AD parser standing in for the foreign lookup) |
| Xavax.TasteMeans | firmware/bt-relay/src/BTSensorXavax.cpp:33-35 | the Xavax UUID is among the services of a list of elements exactly when one of them is a 128-bit service list carrying its bytes |
| Xavax.EntryLists | firmware/bt-relay/src/BTSensorXavax.cpp:33-35 | one element lists the Xavax UUID exactly when it is a 128-bit service list carrying its bytes; 16- and 32-bit lists never do |
| Xavax.ConvTemp | firmware/bt-relay/src/BTSensorXavax.cpp:48-51 | 0xFF means no temperature; any other byte is half a degree per unit |
| Xavax.Apply | firmware/bt-relay/src/BTSensorXavax.cpp:66-106 | a frame's fields replace the stored ones except a temperature equal to the stored target at least 4 units from the old one (remembered as a bogus target), a target equal to the remembered bogus one and a battery above 100 %; a changed bit is set exactly for each field that changed, and bits 4-31 are clear |
| Xavax.Update | firmware/bt-relay/src/BTSensorXavax.cpp:53-61 | an advertisement is taken exactly when it carries the Xavax service and an 8-byte manufacturer record, which is then applied |
| Xavax.Items | firmware/bt-relay/src/BTSensorXavax.cpp:110-127 | the temperature and the target are reported when asked for and neither 0 nor 0xFF, the battery when asked for, at most 100 and with a non-zero target, the state whenever asked for; at most four records, all with the sensor's sid and time |
| Xavax.BatteryStaysPercentage | firmware/bt-relay/src/BTSensorXavax.cpp:102-106 | a stored battery percentage never leaves 0..100 |
| Xavax.BogusReportsIgnored | firmware/bt-relay/src/BTSensorXavax.cpp:67-97 | the two bogus frames the comment describes change nothing and flag nothing |
| Xavax.ChangesAreReported | firmware/bt-relay/src/BTSensorXavax.cpp:74-127 | a new valid temperature and a new state are in the change report, and a frame that flags nothing reports nothing |
| MiPVVX.Taste | firmware/bt-relay/src/BTSensorMiPVVX.cpp:36-43 | a frame tastes exactly when it is 19 bytes long, bytes 2-3 are 0x181A little-endian and bytes 4-9, reversed, are the sender's address; the other bytes are not looked at |
| MiPVVX.Reading | firmware/bt-relay/src/BTSensorMiPVVX.cpp:8-24 | a frame's temperature, humidity and battery voltage are its little-endian words at offsets 10, 12 and 14; battery percentage and counter are bytes 16 and 17 |
| MiPVVX.Apply | firmware/bt-relay/src/BTSensorMiPVVX.cpp:58-78 | a frame with the stored counter changes and flags nothing; any other replaces every field with the frame's, flagging temperature, humidity and battery exactly when they changed; bits 3-31 are clear |
| MiPVVX.Update | firmware/bt-relay/src/BTSensorMiPVVX.cpp:36-57 | a frame is taken exactly when it is 19 bytes, has service 0x181A and carries the sensor's own address reversed |
| MiPVVX.Items | firmware/bt-relay/src/BTSensorMiPVVX.cpp:82-93 | temperature and humidity in hundredths and the battery percentage are each reported exactly when asked for; at most three, all with the sensor's sid and time |
| MiPVVX.RepeatedCounterIsSilent | firmware/bt-relay/src/BTSensorMiPVVX.cpp:60-79 | a repeated measurement counter leaves the state alone and reports nothing |
| MiPVVX.NewReadingsAreReported | firmware/bt-relay/src/BTSensorMiPVVX.cpp:60-93 | with a new counter, every reading that changed is reported with its decoded value, the temperature signed |
| MiATS.Taste | firmware/bt-relay/src/BTSensorMiATS.cpp:28-33 | a frame tastes exactly when it is 17 bytes long and bytes 4-9, in order, are the sender's address |
| MiATS.Swap16 | firmware/bt-relay/src/BTSensorMiATS.cpp:76-76 | ntohs on a little-endian host swaps the two bytes of a word |
| MiATS.SwapInvolutive | firmware/bt-relay/src/BTSensorMiATS.cpp:76-76 | swapping twice gives the word back |
| MiATS.Reading | firmware/bt-relay/src/BTSensorMiATS.cpp:8-16 | the stored temperature and battery voltage are the frame's big-endian words at offsets 10 and 14 as a little-endian host holds them; humidity, battery and counter are bytes 12, 13 and 16 |
| MiATS.Apply | firmware/bt-relay/src/BTSensorMiATS.cpp:47-68 | a frame with the stored packet counter changes and flags nothing; any other replaces every field, flagging temperature, humidity and battery exactly when they changed; bits 3-31 are clear |
| MiATS.Update | firmware/bt-relay/src/BTSensorMiATS.cpp:28-46 | a frame is taken exactly when it is 17 bytes and carries the sensor's own address in order |
| MiATS.Items | firmware/bt-relay/src/BTSensorMiATS.cpp:72-83 | temperature, humidity and battery are each reported exactly when asked for; at most three, all with the sensor's sid and time |
| MiATS.ReportedTemperature | firmware/bt-relay/src/BTSensorMiATS.cpp:76-76 | the reported temperature is the frame's signed big-endian word in tenths of a degree: 00 E7 is 23.1 and FF F6 is -1.0 |
| MiATS.RepeatedCounterIsSilent | firmware/bt-relay/src/BTSensorMiATS.cpp:49-69 | a repeated packet counter leaves the state alone and reports nothing |
| ASensor.Taste | firmware/bt-relay/src/BTSensorASensor.cpp:25-28 | a frame tastes exactly when it is 27 bytes long and bytes 9-10 are D2 00, vendor 0x00D2 little-endian |
| ASensor.MovingValue | firmware/bt-relay/src/BTSensorASensor.cpp:57-57 | motion is reported as 1 when moving and 0 otherwise |
| ASensor.Apply | firmware/bt-relay/src/BTSensorASensor.cpp:41-52 | temperature and battery are always taken from the frame, unflagged; motion is flagged, and taken, exactly when the motion byte differs from the stored flag as a number |
| ASensor.Update | firmware/bt-relay/src/BTSensorASensor.cpp:25-28 | a frame is taken exactly when it is 27 bytes with vendor 0x00D2 |
| ASensor.Items | firmware/bt-relay/src/BTSensorASensor.cpp:55-63 | motion is reported exactly when bit 0 is asked for; temperature and battery only on a full report |
| ASensor.MotionChangeIsFlagged | firmware/bt-relay/src/BTSensorASensor.cpp:48-51 | a change of the motion flag is always flagged |
| ASensor.MotionByteComparedAsNumber | firmware/bt-relay/src/BTSensorASensor.cpp:48-51 | a motion byte of 2 against a stored true is a change, though the flag stays true |
| ASensor.ChangeReportIsMotionOnly | firmware/bt-relay/src/BTSensorASensor.cpp:41-57 | a change report holds the motion record alone, or nothing when nothing changed |
| BTHomeSensor.FreshParse | firmware/bt-relay/src/BTSensorBTHome.cpp:24-25 | the parse succeeds exactly when the advertisement holds acceptable BTHome service data whose records decode (an encrypted frame as no records); the values are then numbered per object id |
| BTHomeSensor.Taste | firmware/bt-relay/src/BTSensorBTHome.cpp:8-11 | an advertisement tastes exactly when its BTHome service data is present with version 2 and is either encrypted or decodes record by record |
| BTHomeSensor.SensorsBeforeStrict | firmware/bt-relay/src/BTSensorBTHome.cpp:28-39 | later sensor values get strictly larger bit positions, so no two sensor values share a bit |
| BTHomeSensor.Previous | firmware/bt-relay/src/BTSensorBTHome.cpp:30-30 | GetValue on the stored frame finds, if anything, a stored value with the same object id |
| BTHomeSensor.MaskMeans | firmware/bt-relay/src/BTSensorBTHome.cpp:28-39 | the changed mask has exactly the bits of the changed positions that fit in 32 bits |
| BTHomeSensor.PositionsMean | firmware/bt-relay/src/BTSensorBTHome.cpp:35-37 | the position of a sensor value is flagged exactly when it is new or its value differs from the stored one |
| BTHomeSensor.Duplicate | firmware/bt-relay/src/BTSensorBTHome.cpp:31-34 | corrected: some value among the first n repeats the stored packet id; DuplicateMeans states it |
| BTHomeSensor.DuplicateAsWritten | firmware/bt-relay/src/BTSensorBTHome.cpp:29-34 | as written: only a sensor value among the first n can count as a repeated packet id; DuplicateCheckIsDead shows it never does |
| BTHomeSensor.DuplicateMeans | firmware/bt-relay/src/BTSensorBTHome.cpp:31-34 | corrected, a frame is a duplicate exactly when one of its values is a packet id equal to the stored one |
| BTHomeSensor.DuplicateGrows | firmware/bt-relay/src/BTSensorBTHome.cpp:31-34 | a duplicate found in a prefix of the frame stays found |
| BTHomeSensor.Scan | firmware/bt-relay/src/BTSensorBTHome.cpp:26-39 | corrected (the duplicate test comes before the sensor filter): the loop reports a duplicate exactly when the frame is one, and otherwise yields exactly the changed mask |
| BTHomeSensor.Compare | firmware/bt-relay/src/BTSensorBTHome.cpp:30-35 | one value's tests: whether it repeats the stored packet id, and whether it is new or changed |
| BTHomeSensor.Subid | firmware/bt-relay/src/BTSensorBTHome.cpp:50-50 | the subid holds the object id in its high byte and the index in its low byte |
| BTHomeSensor.Items | firmware/bt-relay/src/BTSensorBTHome.cpp:45-52 | corrected, the report holds at most one record per value, all with the sensor's sid and time |
| BTHomeSensor.ItemsAsWritten | firmware/bt-relay/src/BTSensorBTHome.cpp:45-52 | as written, the report tests bit i for value i, counting every value; at most one record per value |
| BTHomeSensor.ReportSendsChanges | firmware/bt-relay/src/BTSensorBTHome.cpp:28-51 | corrected, reporting the mask Update computed sends exactly the sensor values that changed, in frame order |
| BTHomeSensor.AsWrittenAgreesWhenSensorsLead | firmware/bt-relay/src/BTSensorBTHome.cpp:36-49 | when no other value precedes a sensor value, the code's two numberings agree |
| BTHomeSensor.PacketIdHidesTemperature | firmware/bt-relay/src/BTSensorBTHome.cpp:36-49 | a first frame of a packet id and a temperature flags the temperature at bit 0, which the code's Report reads as the packet id's bit, so the changed temperature is not sent; corrected, it is |
| BTHomeSensor.RecordsPacketIdsOther | firmware/bt-relay/src/BTHomeData.cpp:16-16 | every packet id a payload decodes to has data type Other, not Sensor |
| BTHomeSensor.FreshPacketIdsOther | firmware/bt-relay/src/BTSensorBTHome.cpp:24-29 | a parsed frame holds its packet ids as values of type Other |
| BTHomeSensor.DuplicateCheckIsDead | firmware/bt-relay/src/BTSensorBTHome.cpp:29-34 | as written, the duplicate-packet test never fires, whatever the stored frame, because packet ids are skipped as non-sensor values first |
| BTHomeSensor.RepeatedFrameIsDuplicate | firmware/bt-relay/src/BTSensorBTHome.cpp:31-34 | corrected, the same frame with a packet id received twice is dropped as a duplicate |
| BTSensors.TypeCode | firmware/bt-relay/src/BTSensor.hpp:12-17 | the type codes fit below 5 and Xavax alone is 1 |
| BTSensors.Sid | firmware/bt-relay/src/BTSensor.cpp:13-14 | the sid's top byte is the type code and its three low bytes are address bytes 3, 4 and 5 |
| BTSensors.SidIdentifies | firmware/bt-relay/src/BTSensor.cpp:13-14 | two sensors share a sid exactly when they have the same type and the same last three address bytes |
| BTSensors.Next | firmware/bt-relay/src/BTSensor.hpp:42-42 | an adapter's update never changes which adapter it is |
| BTSensors.BTHomeNext | firmware/bt-relay/src/BTSensorBTHome.cpp:22-41 | corrected, a BTHome advertisement is taken exactly when it parses and does not repeat the stored packet id, and the new frame replaces the stored one |
| BTSensors.NextIgnores | firmware/bt-relay/src/BTSensor.hpp:42-42 | each adapter ignores exactly the advertisements its taste test or parse rejects |
| BTSensors.Items | firmware/bt-relay/src/BTSensor.hpp:45-45 | every record an adapter's report queues carries the sensor's sid and last-seen time |
| BTSensors.AfterUpdate | firmware/bt-relay/src/BTSensor.cpp:53-60 | an ignored advertisement changes nothing; an accepted one records the signal strength and both last-seen times; the queue only grows, by records of this sensor, and the last-report time only moves to the current uptime |
| BTSensors.BTSensor.constructor | firmware/bt-relay/src/BTSensor.cpp:10-15 | a new sensor has its address, the sid of its type and address, nothing seen and nothing queued |
| BTSensors.BTSensor.ReportData | firmware/bt-relay/src/BTSensor.cpp:62-64 | one record with the sensor's sid, the subid, the last-seen time and the value joins the end of the queue; nothing else changes |
| BTSensors.BTSensor.ReportValues | firmware/bt-relay/src/BTSensorBTHome.cpp:46-52 | corrected: the loop queues the corrected BTHome report of the stored values |
| BTSensors.BTSensor.Report | firmware/bt-relay/src/BTSensor.hpp:45-45 | the adapter's records for the requested readings join the queue; a full report also sets the last-report time |
| BTSensors.BTSensor.UpdateCommon | firmware/bt-relay/src/BTSensor.cpp:53-60 | the signal strength and both last-seen times are always recorded; the changed readings are reported only when some changed and report-on-change is configured |
| BTSensors.BTSensor.Update | firmware/bt-relay/src/BTSensor.hpp:42-42 | the sensor moves to the state AfterUpdate describes and stays well formed |
| BTSensors.BTSensor.Decode | firmware/bt-relay/src/BTSensor.hpp:42-42 | the adapter part of Update computes exactly the next state and mask of Next |
| BTSensors.BTSensor.DecodeBTHome | firmware/bt-relay/src/BTSensorBTHome.cpp:22-39 | corrected: the parse and the scan of BTSensorBTHome's Update compute exactly BTHomeNext |
| BTSensors.FreshParseIsParse | firmware/bt-relay/src/BTSensorBTHome.cpp:24-25 | what the BTHomeData parse leaves in a fresh object is exactly what FreshParse describes |
| BTSensors.Choose | firmware/bt-relay/src/BTSensor.cpp:66-79 | the chosen adapter is the first of ASensor, Xavax, MiATS and MiPVVX whose taste test accepts the advertisement, in its initial state, and none only when all four refuse it |
| BTSensors.CreateBTSensor | firmware/bt-relay/src/BTSensor.cpp:66-79 | a new sensor of the chosen adapter, or null exactly when no adapter tastes the advertisement |
| BTSensors.NoBTHomeFromScan | firmware/bt-relay/src/BTSensor.cpp:66-79 | CreateBTSensor never creates a BTHome sensor |
| BTRelay.TextLen | firmware/bt-relay/src/Main.cpp:172-173 | a packet's text is at least as long as the JSON of its last record |
| BTRelay.PushKeeps | firmware/bt-relay/src/Main.cpp:165-174 | one pass of the drain loop with packets left keeps the outbox well formed and either appends the record to the output or stops with every packet sent |
| BTRelay.DrainFrom | firmware/bt-relay/src/Main.cpp:164-175 | the drain takes records from the front of the queue and never beyond its end |
| BTRelay.DrainKeeps | firmware/bt-relay/src/Main.cpp:164-175 | the drain output is the old output followed by exactly the records taken, in queue order; it stops early only when every packet is sent, and the outbox stays well formed |
| BTRelay.Drain | firmware/bt-relay/src/Main.cpp:164-175 | the loop computes exactly DrainFrom from the front of the queue |
| BTRelay.FinalKeeps | firmware/bt-relay/src/Main.cpp:177-177 | the last send keeps at most max_packets packets, none empty, each admitted by the size check, holding every record taken once and in order |
| BTRelay.FitsBound | firmware/bt-relay/src/Main.cpp:166-173 | a packet of two or more records is at most the size cap plus one separator long |
| BTRelay.SeparatorOvershoot | firmware/bt-relay/src/Main.cpp:166-173 | the size check leaves out the ", " separator: with a cap of 10 and 5-character records a packet reaches 12 characters |
| BTRelay.FindIndex | firmware/bt-relay/src/Main.cpp:80-80 | the position found holds the scanned address and no earlier position does; none found means no sensor has it |
| BTRelay.Refill | firmware/bt-relay/src/Main.cpp:160-163 | a kept sensor with nothing queued and no report for longer than the interval queues its full report; any other keeps its queue |
| BTRelay.Visited | firmware/bt-relay/src/Main.cpp:160-175 | a visited sensor loses exactly the records taken from the front of its queue, stamps the report time when a full report was due, and keeps everything else |
| BTRelay.Snaps | firmware/bt-relay/src/Main.cpp:17-17 | the table's state is each sensor's state in table order |
| BTRelay.KeptIdx | firmware/bt-relay/src/Main.cpp:152-159 | the kept positions are, in increasing order, exactly the sensors that are not stale (something queued, or seen within the ttl) |
| BTRelay.CheckPass | firmware/bt-relay/src/Main.cpp:147-176 | the pass keeps sensors at increasing positions of the table and takes from each at most its queue |
| BTRelay.PassKeepsFresh | firmware/bt-relay/src/Main.cpp:152-159 | the pass keeps exactly the sensors that are not stale, in table order |
| BTRelay.PassVisits | firmware/bt-relay/src/Main.cpp:160-175 | every kept sensor's queue is refilled as Refill says and its state is the one Visited says |
| BTRelay.PassBatches | firmware/bt-relay/src/Main.cpp:147-176 | the outbox holds exactly the records taken from the queues, in order; a queue is left with records only once every packet is sent |
| BTRelay.CheckPassSends | firmware/bt-relay/src/Main.cpp:106-182 | at most max_packets packets are sent, none empty, each within the size check, each closed only for a record that did not fit; in order they hold the front of each kept sensor's queue, and a queue keeps records only when every packet was used |
| BTRelay.Visit | firmware/bt-relay/src/Main.cpp:160-175 | a kept sensor's queue is refilled as Refill says, drained as DrainFrom says, and its state becomes the one Visited says |
| BTRelay.Sweep | firmware/bt-relay/src/Main.cpp:147-176 | the loop over the table computes the outbox of CheckPass, keeps the sensors CheckPass keeps in table order, and leaves them in the states CheckPass gives |
| BTRelay.UpdateIn | firmware/bt-relay/src/Main.cpp:93-95 | the sensor at the found position takes the scan result as AfterUpdate says; every other sensor is untouched |
| BTRelay.Arrive | firmware/bt-relay/src/Main.cpp:84-95 | a new sensor of the adapter CreateBTSensor chooses, updated with the scan result that created it, or none exactly when no adapter tastes it |
| BTRelay.AddNew | firmware/bt-relay/src/Main.cpp:83-95 | an unknown address adds at most one sensor, at the end, which has taken the scan result; the others are untouched |
| BTRelay.Relay.Retain | firmware/bt-relay/src/Main.cpp:157-157 | the table becomes the kept sensors, holding what they held |
| BTRelay.Relay.GAPHandler | firmware/bt-relay/src/Main.cpp:79-95 | a known address updates that sensor alone as AfterUpdate says; an unknown one adds the sensor Arrive makes, if any |
| BTRelay.Relay.Create | firmware/bt-relay/src/Main.cpp:84-95 | a scan result of an unknown address adds the sensor Arrive makes, if any, at the end |
| BTRelay.Relay.CheckSensors | firmware/bt-relay/src/Main.cpp:106-182 | before scanning has run for 30 seconds nothing changes and nothing is sent; afterwards the table keeps exactly the sensors CheckPass keeps, in their new states, and the packets sent are those of CheckPassSends |
| Sht3x.CalcCrc8 | firmware/temp/src/sht3x.c:9-23 | the byte and bit loops compute the CRC-8 of the data (polynomial 0x31, start 0xFF, no reflection) as Crc8 defines it byte by byte |
| Sht3x.Crc8Empty | firmware/temp/src/sht3x.c:10-10 | the CRC of no bytes is the start value 0xFF |
| Sht3x.Crc8Residue | firmware/temp/src/sht3x.c:9-23 | a message followed by its own CRC has CRC zero |
| Sht3x.FeedAppend | firmware/temp/src/sht3x.c:12-21 | the CRC register after a concatenation is that of the second part started from the register after the first |
| Sht3x.ShiftInjective | firmware/temp/src/sht3x.c:14-20 | one bit step loses nothing: distinct registers stay distinct |
| Sht3x.AbsorbInjective | firmware/temp/src/sht3x.c:13-20 | distinct registers stay distinct after absorbing the same byte |
| Sht3x.FeedInjective | firmware/temp/src/sht3x.c:12-21 | distinct registers stay distinct whatever bytes follow |
| Sht3x.ByteErrorDetected | firmware/temp/src/sht3x.c:9-23 | any corruption confined to one byte of a message changes its CRC |
| Sht3x.Frame | firmware/temp/src/sht3x.c:84-85 | a sent word is three bytes: the two word bytes, high first, and their CRC |
| Sht3x.Word | firmware/temp/src/sht3x.c:84-96 | three received bytes carry a word exactly when the third is the CRC of the first two |
| Sht3x.WordFrame | firmware/temp/src/sht3x.c:84-85 | an intact frame decodes to the big-endian word it carries |
| Sht3x.WordRejectsCorruption | firmware/temp/src/sht3x.c:84-96 | a frame with any one of its three bytes altered is rejected |
| Sht3x.ReadWord | firmware/temp/src/sht3x.c:84-96 | the CRC test of one reply word computes exactly Word |
| Sht3x.Read | firmware/temp/src/sht3x.c:64-97 | a failed command write or a read timeout leaves both values invalid; otherwise the temperature and humidity words are each accepted on their own CRC |
| Sht3x.ReadFrames | firmware/temp/src/sht3x.c:83-96 | an intact measurement reply yields both big-endian words |
| Sht3x.Probe | firmware/temp/src/sht3x.c:52-62 | the sensor is found at 0x44 exactly when that address answers the probe, at 0x45 exactly when only that one does, and nowhere when neither does |
| Sht3x.ProbeFindsIntact | firmware/temp/src/sht3x.c:25-50 | an address whose status write, intact status reply and status clear all succeed is the one found |
| Sht3x.ProbeSkipsCorrupt | firmware/temp/src/sht3x.c:37-40 | a status reply at 0x44 corrupted in one byte makes the probe fall through to 0x45 |
| Thresholds.Lookup | firmware/hub/src/hub_data.cpp:64-69 | a reading is found exactly when one is stored for the (sid, subid) pair, and it is the stored one |
| Thresholds.Wants | firmware/hub/src/hub_control_limit.cpp:105-125 | a limit wants its outputs on exactly when it is enabled, has a reading at most 300 seconds old, and the reading is below min while off or below max while on |
| Thresholds.DeadBand | firmware/hub/src/hub_control_limit.cpp:113-125 | with min <= max a fresh reading below min means on, at or above max off, and in between the previous state |
| Thresholds.Settles | firmware/hub/src/hub_control_limit.cpp:105-130 | with min <= max a decision re-evaluated on the same reading stays the same, so the limit does not flap |
| Thresholds.HeaterDuration | firmware/hub/src/hub_heater.c:146-148 | a manual request lasts as long as asked when that is positive, and 12 hours otherwise |
| Thresholds.Remaining | firmware/hub/src/hub_heater.c:121-125 | the reported duration is the whole seconds left to the deadline, or -1 once the deadline has passed |
| Thresholds.RemainingAfter | firmware/hub/src/hub_heater.c:121-125 | a deadline set d whole seconds ahead reports d seconds left |
| Thresholds.RemainingSeconds | firmware/hub/src/hub_control.cpp:255-269 | the status handlers compute exactly Remaining |
| ControlOutput.Level | firmware/hub/src/hub_control_output.cpp:76-76 | the pin level is act when on and the logical negation of act (1 exactly when act is 0) when off |
| ControlOutput.Output.constructor | firmware/hub/src/hub_control_output.cpp:7-14 | an output starts off at time 0 with nothing reported; a valid one has its pin set up at the off level, an invalid one never touches it |
| ControlOutput.Output.GetState | firmware/hub/src/hub_control_output.cpp:42-49 | an invalid output reads as off; a valid one reads its state |
| ControlOutput.Output.SetState | firmware/hub/src/hub_control_output.cpp:66-80 | an invalid output or one already in the requested state is left exactly as it was; otherwise the pin is driven to the new level, the change time and state are recorded and the new state is reported once |
| ControlOutput.Output.Report | firmware/hub/src/hub_control_output.cpp:82-86 | a valid output reports its current state under its id; an invalid one reports nothing; the state is untouched |
| ControlOutput.Output.GetStateWithTimestamp | firmware/hub/src/hub_control_output.cpp:51-60 | the state comes with the time of the last change, or off at time 0 for an invalid output |
| ControlLimit.CommaFrom | firmware/hub/src/hub_control_limit.cpp:75-77 | the position found is the first comma at or after the start, or the end of the string |
| ControlLimit.EntriesHaveNoComma | firmware/hub/src/hub_control_limit.cpp:71-79 | no entry of the comma list contains a comma |
| ControlLimit.JoinEntries | firmware/hub/src/hub_control_limit.cpp:71-79 | joining the entries with commas gives the string back when it does not end in a comma |
| ControlLimit.EntriesPresent | firmware/hub/src/hub_control_limit.cpp:81-83 | a string names at least one output exactly when it is not empty |
| ControlLimit.Elements | firmware/hub/src/hub_control_limit.cpp:76-76 | the set holds exactly the entries of the list |
| ControlLimit.ParseOutputsStr | firmware/hub/src/hub_control_limit.cpp:71-79 | the loop collects exactly the set of the comma-separated entries |
| ControlLimit.Limit.constructor | firmware/hub/src/hub_control_limit.cpp:7-12 | a limit holds its configuration and starts off at time 0 |
| ControlLimit.Limit.IsValidMeans | firmware/hub/src/hub_control_limit.cpp:81-83 | a limit is valid exactly when its sid and subid are non-negative and its output list is not empty |
| ControlLimit.Limit.Eval | firmware/hub/src/hub_control_limit.cpp:85-133 | an invalid limit answers off and keeps its state; a valid one answers, and takes as its state, the hysteresis decision on its reading, with sensor 0 disabled between 11:00 and 17:59 when sensor 2 reads above 11; the change time moves only when the state changes; the configuration is untouched |
| HubPoint.ParsePoint | firmware/hub/src/hub_data.cpp:176-210 | a point is refused with -1 for a negative sid and otherwise with -2 without a value; an accepted one keeps its sid, subid, name and value, and its own timestamp, else the batch timestamp when positive, else the current time |
| HubPoint.ReplyOf | firmware/hub/src/hub_data.cpp:219-227 | the single-point reply is success exactly when the point is accepted, and otherwise its error |
| HubPoint.FirstBad | firmware/hub/src/hub_data.cpp:240-246 | every point before the position found is accepted, and the point there, if any, is refused |
| HubPoint.Samples | firmware/hub/src/hub_data.cpp:240-246 | a batch has no more samples than points |
| HubPoint.SamplesOfGood | firmware/hub/src/hub_data.cpp:240-246 | a batch of accepted points gives one sample per point, in order |
| HubPoint.MultiReply | firmware/hub/src/hub_data.cpp:229-249 | the batch reply is -3 without an array, else the first refused point's error, else success |
| HubData.Record | firmware/hub/src/hub_data.cpp:202-210 | the stored record carries the point's ids, time and value, and its name or the empty name |
| HubData.MakeKey | firmware/hub/src/hub_data.cpp:15-17 | a key fits in 64 bits |
| HubData.KeyWords | firmware/hub/src/hub_data.cpp:15-17 | the low word of a key is subid's 32 bits; the high word is sid's, except that a negative subid sign-extends to all ones over it |
| HubData.KeyInjective | firmware/hub/src/hub_data.cpp:15-17 | channels with non-negative ids get distinct keys |
| HubData.KeyIgnoresSid | firmware/hub/src/hub_data.cpp:15-17 | with a negative subid the key is the same for every sid |
| HubData.KeyNegativeApart | firmware/hub/src/hub_data.cpp:15-17 | a key with a negative subid never equals one with a non-negative subid, and a negative sid never shares a key with a non-negative one |
| HubData.Merge | firmware/hub/src/hub_data.cpp:38-49 | a record with ts <= 0 or a negative sid is ignored; a new key is stored; an existing key is replaced only by a strictly newer record; other keys are untouched |
| HubData.MergeIdempotent | firmware/hub/src/hub_data.cpp:38-49 | adding the same record twice is adding it once, and the second add stores nothing |
| HubData.MergeMonotone | firmware/hub/src/hub_data.cpp:38-49 | adding never loses a key and never makes a stored time older |
| HubData.Reported | firmware/hub/src/hub_data.cpp:50-52 | an add reports the record exactly when it was stored and a server is configured |
| HubData.Added | firmware/hub/src/hub_data.cpp:240-246 | a batch adds at most one record per point |
| HubData.AddedSnoc | firmware/hub/src/hub_data.cpp:240-246 | one more point adds its record exactly when it is accepted |
| HubData.MergeAllKeeps | firmware/hub/src/hub_data.cpp:38-49 | after a run of adds every storable record's key is present with a time at least as new as the record's |
| HubData.MergeAllMonotone | firmware/hub/src/hub_data.cpp:38-49 | a run of adds never loses a key and never makes a stored time older |
| HubData.MergeKeyed | firmware/hub/src/hub_data.cpp:38-49 | every record stays stored under its own key |
| HubData.Store.constructor | firmware/hub/src/hub_data.cpp:9-9 | the table starts empty with nothing sent |
| HubData.Store.ReportSd | firmware/hub/src/hub_data.cpp:28-36 | a record with a non-negative sid is sent when a server is configured; the table is untouched |
| HubData.Store.AddInternal | firmware/hub/src/hub_data.cpp:38-53 | the table becomes Merge of the record, and a stored record is sent only when reporting is asked for |
| HubData.Store.Add | firmware/hub/src/hub_data.cpp:60-62 | the table becomes Merge of the record, and a stored record is reported |
| HubData.Store.ReportToServer | firmware/hub/src/hub_data.cpp:55-58 | a nameless record is added and reported as Add does |
| HubData.Store.Get | firmware/hub/src/hub_data.cpp:64-69 | a record is found exactly when the channel's key is stored, and it is the stored one |
| HubData.Store.GetMatches | firmware/hub/src/hub_data.cpp:64-69 | a lookup by non-negative ids finds only a record of exactly that channel |
| HubData.Store.GetNegativeSid | firmware/hub/src/hub_data.cpp:64-69 | a lookup with a negative sid and a non-negative subid finds nothing |
| HubData.Store.Reset | firmware/hub/src/hub_data.cpp:128-147 | both ids negative clears the table; otherwise exactly the channel's key is erased, or the reply is 404 and nothing changes; nothing is sent |
| HubData.Store.AddPoint | firmware/hub/src/hub_data.cpp:176-217 | a refused point changes nothing; an accepted one is added as Add does; the reply says which |
| HubData.Store.DataHandler | firmware/hub/src/hub_data.cpp:219-227 | one point with no batch timestamp is added as the fold of Add over its records |
| HubData.Store.MultiHandler | firmware/hub/src/hub_data.cpp:229-249 | without an array nothing changes and the reply is -3; otherwise the points before the first refused one are added in order, and stay added, and the reply is that point's error or success |
| HubData.FirstBadAt | firmware/hub/src/hub_data.cpp:240-246 | where the batch loop stops is the first refused point, and its reply is the batch's |
| HubList.IndexOf | firmware/hub/src/hub.c:42-44 | the position found holds an entry of the channel and no earlier one does; the list length means there is none |
| HubList.Put | firmware/hub/src/hub.c:39-59 | the list is unchanged unless the record is stored; a new channel goes to the head, and a known one is overwritten in place by a strictly newer record |
| HubList.UniqueFind | firmware/hub/src/hub.c:42-44 | in a list with one entry per channel, the search finds each entry at its own position |
| HubList.PutUnique | firmware/hub/src/hub.c:39-59 | storing keeps at most one entry per channel |
| HubList.PutFinds | firmware/hub/src/hub.c:39-59 | after a storable add the channel's entry is found and is at least as new as the record, and the same add again changes nothing |
| HubList.PutOthers | firmware/hub/src/hub.c:39-59 | storing leaves every other channel's entry as it was |
| HubList.SdSends | firmware/hub/src/hub.c:17-27 | a record with a negative sid, or with no server configured, is never sent |
| HubList.SentTwice | firmware/hub/src/hub.c:17-27 | as written, a record that the re-entrant add stores is sent to the data server twice |
| HubList.SentTwiceExample | firmware/hub/src/hub.c:29-37 | the first reading of sensor 1 on an empty list is sent twice |
| HubList.Store.constructor | firmware/hub/src/hub.c:14-15 | the list starts empty with nothing sent |
| HubList.Store.Find | firmware/hub/src/hub.c:42-44 | the search loop returns exactly IndexOf |
| HubList.Store.AddInternal | firmware/hub/src/hub.c:39-65 | the list becomes Put of the record, and the record is sent once when reporting is asked for, a server is configured and it was stored |
| HubList.Store.AddData | firmware/hub/src/hub.c:67-69 | the list becomes Put of the record, which is sent once when stored and a server is configured |
| HubList.Store.ReportSd | firmware/hub/src/hub.c:17-27 | as written, the record is stored as Put says and sent as SdSends says |
| HubList.Store.ReportToServer | firmware/hub/src/hub.c:29-37 | as written, a nameless record is stored as Put says and sent as SdSends says |
| HubList.Store.ReportSdOnce | firmware/hub/src/hub.c:17-27 | corrected, the record is stored as Put says and sent exactly once when its sid is non-negative and a server is configured |
| HubList.Store.ReportToServerOnce | firmware/hub/src/hub.c:29-37 | corrected, every point with a non-negative sid is stored as Put says and sent exactly once |
| HubList.Store.Get | firmware/hub/src/hub.c:71-79 | a record is found exactly when the list holds the channel, and it is that channel's first entry |
| HubList.Store.AddPoint | firmware/hub/src/hub.c:176-216 | a refused point changes nothing; an accepted one is added as AddData does; the reply says which |
| HubList.Store.ReportTemp | firmware/hub/src/hub.c:259-311 | with a non-negative sid, a temperature above -300 is added as subid 0 named "<name> Temp" and a humidity of at least 0 as subid 1 named "<name> RH"; a negative sid changes nothing |
| HubList.Labelled | firmware/hub/src/hub.c:280-283 | a label exists exactly when a name does, and is the name and suffix cut to 99 characters |
| HubList.FirstMatch | firmware/hub/src/hub.c:42-44 | the loop that stops at the first match finds IndexOf |
| HubControl.Digits | firmware/hub/src/hub_control.cpp:248-248 | std::to_string of an id is a non-empty string of decimal digits |
| HubControl.DigitsRoundTrip | firmware/hub/src/hub_control.cpp:248-248 | reading the digits back gives the id |
| HubControl.DecimalInjective | firmware/hub/src/hub_control.cpp:248-248 | distinct ids have distinct decimal strings, so an id names at most one output |
| HubControl.FirstOutput | firmware/hub/src/hub_control.cpp:245-253 | the position found is the first valid output whose name or decimal id is the entry, and no earlier output answers |
| HubControl.Resolve | firmware/hub/src/hub_control.cpp:188-199 | a set of names and ids resolves to exactly the first answering output of each, all valid; names that find nothing are dropped |
| HubControl.SensorType | firmware/hub/src/hub_control.cpp:174-174 | the sensor type is the sid's top byte, a value below 256 |
| HubControl.XavaxSids | firmware/hub/src/hub_control.cpp:174-176 | of the 32-bit sids, exactly those from 2^24 up to 2^25 are Xavax sensors |
| HubControl.RetargetMeans | firmware/hub/src/hub_control.cpp:174-185 | a Xavax limit whose target temperature (subid 1) is known gets thresholds of the target -0.5 and +0.5; any other limit, and everything but the thresholds, is untouched |
| HubControl.Decide | firmware/hub/src/hub_control.cpp:186-186 | only a valid limit can want its outputs on |
| HubControl.StepMeans | firmware/hub/src/hub_control.cpp:172-186 | an evaluation changes only the retargeted thresholds, the state and its change time; a valid limit takes the decided state, an invalid one keeps its state, and the change time moves exactly when the state changes |
| HubControl.AsksMeans | firmware/hub/src/hub_control.cpp:186-199 | a limit asks for an output exactly when it decides on and lists an entry that output is the first to answer |
| HubControl.WantedMeans | firmware/hub/src/hub_control.cpp:172-200 | an output is wanted on exactly when some limit asks for it |
| HubControl.Applied | firmware/hub/src/hub_control_output.cpp:66-80 | an invalid output, or one already as wanted, is untouched; a valid one ends up as wanted |
| HubControl.ChangesMeans | firmware/hub/src/hub_control.cpp:209-218 | the last-action time moves exactly when some valid output is not yet in its wanted state |
| HubControl.ApplyUpToAt | firmware/hub/src/hub_control.cpp:209-220 | the output loop sets each output on its own as Applied says |
| HubControl.StepUpToAt | firmware/hub/src/hub_control.cpp:172-205 | the limit loop steps each limit on its own as Step says |
| HubControl.Reported | firmware/hub/src/hub_control_output.cpp:82-86 | a valid output adds one report of its id, the time and its state; nothing else changes |
| HubControl.ReportUpToAt | firmware/hub/src/hub_control.cpp:233-237 | the report loop reports each output on its own |
| HubControl.Cleared | firmware/hub/src/hub_control.cpp:164-169 | the start of an enabled evaluation touches only the heater flag and the deadline |
| HubControl.EvalSpec | firmware/hub/src/hub_control.cpp:161-222 | an evaluation keeps the number of outputs and of limits |
| HubControl.Control.constructor | firmware/hub/src/hub_control.cpp:36-147 | a controller holds the 20 limits, numbered by slot, and the 10 outputs, with no evaluation, no action, no heater request and nothing reported |
| HubControl.Control.GetOutputByNameOrID | firmware/hub/src/hub_control.cpp:245-253 | the search loop returns exactly FirstOutput |
| HubControl.Control.ResolveNames | firmware/hub/src/hub_control.cpp:188-199 | the loop over a limit's outputs collects exactly Resolve of its names |
| HubControl.Control.EvalLimit | firmware/hub/src/hub_control.cpp:173-204 | one limit is retargeted and stepped as Step says, answers Decide, asks for exactly the outputs its names resolve to when on, and reports its answer when valid and enabled |
| HubControl.Control.EvalLimits | firmware/hub/src/hub_control.cpp:172-205 | every limit is stepped in slot order, the wanted outputs are exactly Wanted, and the reports are those of LimitReports |
| HubControl.Control.ApplyOutputs | firmware/hub/src/hub_control.cpp:209-220 | every output ends as ApplyUpTo says, and the last-action time moves to now exactly when some output changes |
| HubControl.Control.ApplyOne | firmware/hub/src/hub_control.cpp:210-219 | one output ends as Applied says, and a change sets the last-action time |
| HubControl.Control.ClearDeadline | firmware/hub/src/hub_control.cpp:164-169 | an expired deadline is cleared with the heater flag, as Cleared says |
| HubControl.Control.RunLimits | firmware/hub/src/hub_control.cpp:172-205 | the limit loop leaves the state LimitsDone gives and returns the outputs WantedOf gives |
| HubControl.Control.RunOutputs | firmware/hub/src/hub_control.cpp:209-221 | the output loop and the evaluation time leave the state OutputsDone gives |
| HubControl.Control.Run | firmware/hub/src/hub_control.cpp:172-221 | both loops together leave the state Ran gives |
| HubControl.Control.Eval | firmware/hub/src/hub_control.cpp:161-222 | an evaluation leaves exactly the state EvalSpec gives |
| HubControl.Control.SetEnabled | firmware/hub/src/hub_control.cpp:153-159 | setting the flag to its value changes nothing; a change sets it and forces an evaluation |
| HubControl.Control.GetOutputStatus | firmware/hub/src/hub_control.cpp:224-231 | a status is returned exactly when some valid output answers, and it is that output's state and change time |
| HubControl.Control.ReportOutputs | firmware/hub/src/hub_control.cpp:233-237 | every valid output reports its state once; nothing else changes |
| HubControl.Control.ReportOne | firmware/hub/src/hub_control.cpp:235-235 | one output reports as Reported says |
| ControlProps.EvalKeepsConfig | firmware/hub/src/hub_control.cpp:161-222 | an evaluation changes no limit's channel, enable flag or outputs, and keeps ordered thresholds ordered |
| ControlProps.EvalWaitsForDeadline | firmware/hub/src/hub_control.cpp:170-170 | while a manual deadline is pending an enabled evaluation changes nothing |
| ControlProps.EvalAfterDeadline | firmware/hub/src/hub_control.cpp:164-171 | once the deadline has passed the heater request is dropped, and the evaluation runs unless throttled |
| ControlProps.EvalThrottled | firmware/hub/src/hub_control.cpp:171-171 | an unforced evaluation sooner than the interval after the last one changes nothing |
| ControlProps.EvalSwitches | firmware/hub/src/hub_control.cpp:161-222 | an evaluation that runs switches a valid output on exactly when control is enabled and some limit asks for it, leaves invalid outputs alone and stamps the evaluation time |
| ControlProps.EvalSteps | firmware/hub/src/hub_control.cpp:172-205 | an enabled run steps every limit and reports each valid enabled one |
| ControlProps.EvalDisabled | firmware/hub/src/hub_control.cpp:206-220 | while control is disabled no limit is evaluated or reported, the heater request is kept, and every valid output is switched off |
| ControlProps.StepTwice | firmware/hub/src/hub_control.cpp:172-186 | with its thresholds in order a limit stepped twice on the same data stays put and decides the same |
| ControlProps.WantedAlike | firmware/hub/src/hub_control.cpp:186-200 | limits that decide alike and name the same outputs want the same outputs |
| ControlProps.ApplyTwice | firmware/hub/src/hub_control.cpp:209-220 | applying the same wishes again changes no output and records no action |
| ControlProps.EvalSettles | firmware/hub/src/hub_control.cpp:161-222 | with every limit's thresholds in order, a second forced evaluation on the same data switches no output and moves no limit |
| ControlRpc.ListedUpToMeans | firmware/hub/src/hub_control.cpp:327-339 | Hub.Control.GetLimits lists exactly the limits with a sensor that match the requested sid and subid (a negative one matches all), each once and in slot order |
| ControlRpc.GetLimits | firmware/hub/src/hub_control.cpp:317-344 | the handler's loop lists exactly the slots ListedUpTo gives |
| ControlRpc.ShownUpToMeans | firmware/hub/src/hub_control.cpp:442-455 | Hub.Control.GetOutputs lists exactly the valid outputs that match the requested id (negative matches all) and name (empty matches all), each once and in order |
| ControlRpc.GetOutputs | firmware/hub/src/hub_control.cpp:428-461 | the handler's loop lists exactly the outputs ShownUpTo gives |
| ControlRpc.FirstFit | firmware/hub/src/hub_control.cpp:369-392 | the slot found is the first that fits the search, and none before it does |
| ControlRpc.FirstFitAt | firmware/hub/src/hub_control.cpp:369-392 | a search that stops at the first fitting slot finds FirstFit |
| ControlRpc.SlotMeans | firmware/hub/src/hub_control.cpp:367-396 | a slot is found exactly when some limit is on the channel, invalid or disabled; a limit already on the channel is the one taken (the first), and another slot is taken only when no limit is on the channel |
| ControlRpc.SetLimitErrors | firmware/hub/src/hub_control.cpp:362-418 | SetLimit fails with -2 exactly when the sid is valid and every limit is valid, enabled and on another channel; with -1 exactly for a negative sid, an output name that resolves nowhere or a failed save; every refusal before the edit changes nothing |
| ControlRpc.SetLimitSpec | firmware/hub/src/hub_control.cpp:347-425 | Hub.Control.SetLimit on a state: a negative sid is -1, no slot -2, an unknown output -1; otherwise the slot is edited and a failed save is -1, a good one is followed by a forced evaluation; SetLimitErrors, SetLimitWrites and SetLimitKeepsOthers state what it gives |
| ControlRpc.SetLimitWrites | firmware/hub/src/hub_control.cpp:406-412 | a successful SetLimit puts the chosen slot on the requested channel, with the requested enable flag and outputs and the old ones where none were given |
| ControlRpc.SetLimitKeepsOthers | firmware/hub/src/hub_control.cpp:367-420 | a successful SetLimit leaves every other slot's settings as they were |
| ControlRpc.EditKeepsChannels | firmware/hub/src/hub_control.cpp:408-409 | writing the channel into the slot SetLimit picks keeps limits on distinct channels |
| ControlRpc.SetLimitOnePerChannel | firmware/hub/src/hub_control.cpp:347-425 | whatever its outcome, SetLimit never puts a second limit on a channel that has one |
| ControlRpc.Matches | firmware/hub/src/hub_control.cpp:370-387 | one limit is matched against a search the way the three loops match it |
| ControlRpc.FindFit | firmware/hub/src/hub_control.cpp:369-374 | the search loop returns exactly FirstFit |
| ControlRpc.FindSlot | firmware/hub/src/hub_control.cpp:367-392 | the three searches in turn return exactly Slot |
| ControlRpc.CheckNames | firmware/hub/src/hub_control.cpp:398-405 | the requested output list is accepted exactly when every entry names an output |
| ControlRpc.EditLimit | firmware/hub/src/hub_control.cpp:406-412 | the setters leave the limit as Edited says: channel written, other fields only where given |
| ControlRpc.EditSlot | firmware/hub/src/hub_control.cpp:406-412 | editing slot j changes that slot alone, as EditedAt says |
| ControlRpc.SetLimit | firmware/hub/src/hub_control.cpp:347-425 | the handler leaves exactly the reply and state SetLimitSpec gives |
| ControlRpc.Save | firmware/hub/src/hub_control.cpp:414-422 | the edit, the save and the forced evaluation leave exactly the reply and state Commit gives |
| ControlRpc.HeaterStatus | firmware/hub/src/hub_control.cpp:259-265 | the status is the heater flag and the whole seconds left to the deadline, truncated, or -1 once it has passed |
| ControlRpc.GetHeaterStatus | firmware/hub/src/hub_control.cpp:255-269 | the handler answers exactly HeaterStatus |
| ControlRpc.HeaterSetRefused | firmware/hub/src/hub_control.cpp:282-285 | a request with neither flag is refused with -1 and changes nothing; any other is answered |
| ControlRpc.HeaterSetSpec | firmware/hub/src/hub_control.cpp:271-314 | Hub.Heater.Set on a state: neither flag is -1; otherwise ctl_on and heater_on are applied, the reply carries the flags and the deadline and a forced evaluation follows; HeaterSetRefused, HeaterSetControl and HeaterSetHeater state what it gives |
| ControlRpc.HeaterSetControl | firmware/hub/src/hub_control.cpp:287-289 | with ctl_on given, control ends in the requested state and the reply says so |
| ControlRpc.HeaterSetHeater | firmware/hub/src/hub_control.cpp:291-309 | with heater_on given, the flag is as requested, the deadline is the requested duration ahead (12 hours for none or a non-positive one), the reply states both, and while control is enabled the forced evaluation after it keeps them |
| ControlRpc.SetHeater | firmware/hub/src/hub_control.cpp:296-303 | only the heater flag and the deadline change |
| ControlRpc.RequestControl | firmware/hub/src/hub_control.cpp:287-289 | the ctl_on part leaves exactly the state ControlRequested gives |
| ControlRpc.Request | firmware/hub/src/hub_control.cpp:282-307 | the handler up to its reply leaves exactly the state HeaterRequested gives |
| ControlRpc.HeaterSet | firmware/hub/src/hub_control.cpp:271-314 | the handler leaves exactly the reply and state HeaterSetSpec gives |
| ControlRpc.ControlCron | firmware/hub/src/hub_control.cpp:480-490 | the ctl_on / ctl_off cron action changes nothing when control is already in that state, and otherwise sets it and runs a forced evaluation |
| ControlRpc.HeaterOutputStatus | firmware/hub/src/hub_control.cpp:539-541 | the state and change time of the first valid output answering to "Heater", exactly when there is one |
| HubHeater.CheckThresh | firmware/hub/src/hub_heater.c:53-77 | a missing or disabled limit, or one without data fresher than 300 seconds, does not want the heater; otherwise the heater is wanted below min when off and below max when on |
| HubHeater.AnyWantsMeans | firmware/hub/src/hub_heater.c:84-86 | the or over the ten limits holds exactly when some limit wants the heater |
| HubHeater.EvalSpec | firmware/hub/src/hub_heater.c:79-95 | hub_heater_eval on a state: held under a deadline or within 60 seconds of the last evaluation, else the or of the limits, reporting a change; EvalMeans states what it gives |
| HubHeater.EvalMeans | firmware/hub/src/hub_heater.c:79-95 | under a manual deadline, or sooner than 60 seconds after the last evaluation, nothing changes; otherwise the heater is on exactly when some limit wants it, a change is reported once and stamps the action time, and the evaluation time is now; limits, deadline and relay are never touched |
| HubHeater.TimerSpec | firmware/hub/src/hub_heater.c:97-109 | heater_timer_cb on a state: an expired deadline turns the heater off and is cleared, then EvalSpec runs and the relay is written; TimerMeans states what it gives |
| HubHeater.TimerMeans | firmware/hub/src/hub_heater.c:97-109 | every tick ends with the relay at the heater's state; a pending deadline holds the heater; an expired one is cleared and turns the heater off, after which the limits decide from off when an evaluation is due |
| HubHeater.SetAsWritten | firmware/hub/src/hub_heater.c:133-170 | as written: heater_on defaults to a bool set from -1, which is true, so the -1 refusal is never taken; SetAsWrittenAcceptsMissing and SetAsWrittenAgrees state what it gives |
| HubHeater.SetSpec | firmware/hub/src/hub_heater.c:133-170 | corrected: a request without heater_on is refused with -1; otherwise the flag, a deadline of the duration ahead (12 hours for a non-positive one) and the action time are set and an evaluation follows; SetHolds states what it gives |
| HubHeater.SetAsWrittenAcceptsMissing | firmware/hub/src/hub_heater.c:136-144 | as written, a request without heater_on is not refused and switches the heater on, where the check means to refuse it with -1 |
| HubHeater.SetAsWrittenAgrees | firmware/hub/src/hub_heater.c:133-170 | with heater_on given, the handler as written and the corrected one agree |
| HubHeater.SetHolds | firmware/hub/src/hub_heater.c:146-165 | a request sets the flag (reporting a change), a deadline of the requested duration ahead (12 hours for none or a non-positive one) and the action time; the limits are untouched and the status reports the requested duration |
| HubHeater.FirstFit | firmware/hub/src/hub_heater.c:228-244 | the limit found is the first that fits the search, and none before it does |
| HubHeater.FirstFitAt | firmware/hub/src/hub_heater.c:228-244 | a search that stops at the first fitting limit finds FirstFit |
| HubHeater.SlotNone | firmware/hub/src/hub_heater.c:226-249 | no slot is found exactly when every limit has a sensor, is enabled and is on another channel |
| HubHeater.SetLimitsSpec | firmware/hub/src/hub_heater.c:206-267 | hub_heater_set_limits_handler on a state: a negative sid or subid is -1, no slot is -2, otherwise the slot is overwritten and a failed save is -1, a good one evaluates; SetLimitsNoSlot, SetLimitsWrites and SetLimitsOnePerChannel state what it gives |
| HubHeater.SetLimitsNoSlot | firmware/hub/src/hub_heater.c:221-249 | a request with a channel is refused with -2 exactly when no slot is found |
| HubHeater.SetLimitsWrites | firmware/hub/src/hub_heater.c:251-251 | a request with a channel overwrites exactly its slot with the requested limit, and the other limits are untouched |
| HubHeater.SlotKeepsOnePerChannel | firmware/hub/src/hub_heater.c:226-251 | the slot is the limit already on the channel when there is one, so writing it never puts a second limit on a channel |
| HubHeater.SetLimitsOnePerChannel | firmware/hub/src/hub_heater.c:206-267 | whatever its outcome, the handler never puts a second limit on a channel |
| HubHeater.ListedUpToMeans | firmware/hub/src/hub_heater.c:186-196 | the listing holds exactly the limits with a sensor that match the requested channel (any for a negative sid) |
| HubHeater.Label | firmware/hub/src/hub_heater.c:290-293 | a 100-byte snprintf keeps the name and suffix whole when they fit in 99 characters and cuts them to 99 otherwise |
| HubHeater.ReportTemp | firmware/hub/src/hub_heater.c:269-323 | a valid sid stores a temperature above -300 as subid 0 and a humidity of at least 0 as subid 1, at the reported time, named with the label when a name is given, and nothing else |
| HubHeater.Heater.constructor | firmware/hub/src/hub_heater.c:17-21 | the heater starts off, without a deadline, with nothing evaluated, reported or written |
| HubHeater.Heater.Eval | firmware/hub/src/hub_heater.c:79-95 | an evaluation leaves exactly the state EvalSpec gives |
| HubHeater.Heater.Timer | firmware/hub/src/hub_heater.c:97-109 | a tick leaves exactly the state TimerSpec gives |
| HubHeater.Heater.GetStatus | firmware/hub/src/hub_heater.c:117-131 | the status is the heater flag and the whole seconds left to the deadline, or -1 once it has passed |
| HubHeater.Heater.Set | firmware/hub/src/hub_heater.c:133-170 | the handler, with the missing-flag check working, leaves exactly the reply and state SetSpec gives |
| HubHeater.Heater.FindFit | firmware/hub/src/hub_heater.c:228-244 | one search over get_limits(0) to get_limits(10), the last of which is none, returns exactly FirstFit |
| HubHeater.Heater.FindSlot | firmware/hub/src/hub_heater.c:226-245 | the three searches in turn return exactly Slot |
| HubHeater.Heater.Store | firmware/hub/src/hub_heater.c:251-262 | the slot is overwritten; a failed save answers -1, a good one evaluates and answers done |
| HubHeater.Heater.SetLimits | firmware/hub/src/hub_heater.c:206-267 | the handler leaves exactly the reply and state SetLimitsSpec gives |
| HubHeater.Heater.GetLimitsHandler | firmware/hub/src/hub_heater.c:172-204 | the handler's loop lists exactly the limits ListedUpTo gives |
| HubHeater.Heater.Cron | firmware/hub/src/hub_heater.c:325-338 | a cron action sets the flag as a manual request for 12 hours, which then holds |
| HomeHeater.EvalMeans | home_devs/hub/src/hub_heater.c:31-67 | under a manual deadline, sooner than 60 seconds after the last evaluation or 300 seconds after the last switch, nothing changes; otherwise the heater is put at the demand, a switch stamps the action time, the evaluation time is now, and nothing else changes |
| HomeHeater.NoFlap | home_devs/hub/src/hub_heater.c:36-36 | after an evaluation switches the heater, no evaluation in the next 300 seconds changes anything |
| HomeHeater.EvalIdle | home_devs/hub/src/hub_heater.c:61-66 | an evaluation whose demand is already met neither switches the heater nor stamps the action time |
| HomeHeater.ColdWaterWanted | home_devs/hub/src/hub_heater.c:51-54 | a fresh report that the hot water is cold makes the heater wanted, whatever the room temperature |
| HomeHeater.EvalSpec | home_devs/hub/src/hub_heater.c:31-67 | hub_heater_eval on a state: held under a deadline, within 60 seconds of the last evaluation or 300 seconds of the last action, else the heater follows the demand; EvalMeans, NoFlap and EvalIdle state what it gives |
| HomeHeater.TimerSpec | home_devs/hub/src/hub_heater.c:69-82 | heater_timer_cb on a state: an expired deadline flips the heater and is cleared, then EvalSpec runs and the relay is written; TimerMeans states what it gives |
| HomeHeater.TimerMeans | home_devs/hub/src/hub_heater.c:69-82 | every tick ends with the relay at the heater's state; a pending deadline holds the heater; an expired one is cleared and flips the heater, which stays flipped unless an evaluation is due |
| HomeHeater.SetDuration | home_devs/hub/src/hub_heater.c:118-122 | a manual request lasts the requested seconds, at least 30, and 12 hours when none or a non-positive one is given |
| HomeHeater.SetSpec | home_devs/hub/src/hub_heater.c:106-140 | Hub.Heater.Set on a state: a negative heater_on is -1; otherwise the flag, the deadline SetDuration ahead and the action time are set, without an evaluation; SetHolds and SetRefused state what it gives |
| HomeHeater.SetHolds | home_devs/hub/src/hub_heater.c:124-135 | a request with heater_on sets the heater (any non-zero value being on) and a deadline of SetDuration ahead, which the reply states; no evaluation moves the heater before the deadline is cleared, the status reports the duration, and nothing but the flag, the deadline and the action time changes |
| HomeHeater.SetRefused | home_devs/hub/src/hub_heater.c:113-116 | a missing or negative heater_on is refused with -1 and changes nothing |
| HomeHeater.ReportTempMeans | home_devs/hub/src/hub_heater.c:142-164 | a report changes only sensor 0's reading, and only to a newer one with a temperature, so the timestamp never goes back; the reading kept is the report's |
| HomeHeater.ReportHwsMeans | home_devs/hub/src/hub_heater.c:166-190 | a report changes only sensor 1's hot-water reading, and only to a newer one, so the timestamp never goes back; the reading kept is the report's |
| HomeHeater.Heater.constructor | home_devs/hub/src/hub_heater.c:10-25 | the globals start at zero: heater off, no deadline, no readings |
| HomeHeater.Heater.Eval | home_devs/hub/src/hub_heater.c:31-67 | an evaluation leaves exactly the state EvalSpec gives |
| HomeHeater.Heater.Timer | home_devs/hub/src/hub_heater.c:69-82 | a tick leaves exactly the state TimerSpec gives |
| HomeHeater.Heater.GetStatus | home_devs/hub/src/hub_heater.c:90-104 | the status is the heater flag and the whole seconds left to the deadline, or -1 once it has passed |
| HomeHeater.Heater.Set | home_devs/hub/src/hub_heater.c:106-140 | the handler leaves exactly the reply and state SetSpec gives |
| HomeHeater.Heater.ReportTemp | home_devs/hub/src/hub_heater.c:142-164 | the handler leaves exactly the state ReportTempSpec gives |
| HomeHeater.Heater.ReportHws | home_devs/hub/src/hub_heater.c:166-190 | the handler leaves exactly the state ReportHwsSpec gives |
| HubLight.AdcReg | home_devs/hub/src/hub_light.c:20-20 | channel 0 is read from register 0x43 and every other channel from 0x83 |
| HubLight.LuxStep | home_devs/hub/src/hub_light.c:27-27 | within a chord each step adds 2^chord to the count |
| HubLight.LuxNextChord | home_devs/hub/src/hub_light.c:27-27 | the first step of a chord is 1.5 * 2^chord above the last step of the chord before |
| HubLight.CountStep | home_devs/hub/src/hub_light.c:25-27 | neighbouring 7-bit codes differ by 2^chord within a chord and by 1.5 * 2^chord across chords |
| HubLight.CountMonotone | home_devs/hub/src/hub_light.c:25-27 | a larger 7-bit code always gives a larger count, so the scale has no ties |
| HubLight.CountEnds | home_devs/hub/src/hub_light.c:25-27 | the lowest code counts 0 and the highest 4015.5 |
| HubLight.CountBounds | home_devs/hub/src/hub_light.c:25-27 | every count lies between 0 and 4015.5 |
| HubLight.ReadSensorAsWritten | home_devs/hub/src/hub_light.c:19-28 | as written: a failed power-up read gives -1; a successful ADC read gives what the checked reader gives; a failed ADC read (-1) gives 4015.5 |
| HubLight.ReadSensor | home_devs/hub/src/hub_light.c:19-28 | corrected: the result is -1 or a count between 0 and 4015.5, and a count only when both register reads succeeded |
| HubLight.ReadSensorAsWrittenFailure | home_devs/hub/src/hub_light.c:23-24 | as written, a failed ADC read (-1) stored in a uint8_t passes the valid-bit test and reads as 4015.5, the brightest light; the corrected reader gives -1 |
| HubLight.ReadSensorMeans | home_devs/hub/src/hub_light.c:19-28 | a reading is valid exactly when both reads succeed and bit 7 is set, and is then the count of the low seven bits, at most 4015.5; any other is -1; on in-range reads the corrected reader agrees with the one as written |
| HubLight.TickSpec | home_devs/hub/src/hub_light.c:30-53 | a tick only appends to the relay writes, and the last value written is the lights' new state |
| HubLight.TickMeans | home_devs/hub/src/hub_light.c:30-53 | every tick ends with the relay at the lights' state (an off switch writing it off first); the sensor is ok exactly when both channels read; a failed read keeps the lights; a good one applies the on-below-low, off-at-or-above-high hysteresis to channel 0 |
| HubLight.LightsDeadBand | home_devs/hub/src/hub_light.c:40-49 | with ordered thresholds a reading below the low one turns the lights on, one at or above the high one off, and one in between keeps them |
| HubLight.LightsSettle | home_devs/hub/src/hub_light.c:30-53 | with ordered thresholds a second tick on the same readings switches nothing |
| HubLight.TickAsWrittenSwitchesOff | home_devs/hub/src/hub_light.c:23-50 | with the lights on, a failed ADC read on channel 0 and a good channel 1, the tick as written switches the lights off, while the corrected tick keeps them on and marks the sensor bad |
| HubLight.Lights.constructor | home_devs/hub/src/hub_light.c:61-68 | corrected (channels read with ReadSensor); the flags start off and the first tick runs on the first readings |
| HubLight.Lights.Tick | home_devs/hub/src/hub_light.c:30-53 | corrected (channels read with ReadSensor); a tick leaves exactly the state TickSpec gives for the two channels' readings |

## Left out

- Input and output: JSON request parsing, RPC replies and their text, logging, GPIO and I2C calls, timers and callback registration. Requests enter as parameters, with an absent field as `None` or as the source's default. GPIO writes and server reports are recorded as sequences.
- Time, the local hour and configuration values are parameters. Whole-second truncation of the remaining duration is modelled; floating-point rounding is not. Sensor values are exact reals.
- Saving the configuration is a boolean parameter that gives its outcome. Loading and saving the hub's data files (`hub_data.cpp`, `hub.c`) are not part of this model.
- Memory allocation failure (`calloc` returning NULL in `hub.c`) is not modelled; allocation always succeeds.
- AES-CCM decryption in `BTHomeData.cpp` is compiled out (`#if 0`). The model keeps what the compiled code does: the payload field keeps its previous contents.
- `ToString`, `GetInfoJson`, `DataTypeString` and `Data::ToJSON` only format text, so they are not part of this model.
- `shos::Str`: `rfind`, `find_first_of`, `find_first_not_of`, `strspn`/`strcspn`, the vector form of `SplitOn`, `Strip`, `ToString`, `CopyTo`, the `std::string` forms of `HexEncode`/`HexDecode`, `ToHexString`, `HexDecodeInPlace`, Base64 (compiled out) and the C API (`shos_*`) are not part of this model. None of them is used by the modelled core.
- ShosBt.UuidToBytes: its only definition, in `shos_bt.cpp` lines 94-109, is compiled out (`#if 0`), and that dead body would read `uuid128[12]` for 2- and 4-byte UUIDs. The model follows the declaration's stated contract at `shos_bt_uuid.hpp` line 68: the UUID's 0, 2, 4 or 16 bytes, little-endian.
- ShosStr.ToLower: characters are taken as unsigned bytes 0..255. `shos_str.cpp` lines 57-58 pass a plain `char` to `std::tolower`; on a target where `char` is signed, bytes from 0x80 up are negative, which `tolower` does not define.
- ShosStr.CaseCmp: characters are taken as unsigned bytes, as for ShosStr.ToLower above; with a signed `char`, bytes from 0x80 up would sort below ASCII.
- ShosStr.ChopLeft: the view is a value, so chopping returns the shorter view rather than advancing `p` in place; the same holds for ChopRight.
- `AdvData::GetAllServiceData` and `GetAllVendorData` are not part of this model; nothing in the core calls them.
- UUID equality is byte equality of equal-width UUIDs. The foreign `mgos_bt_uuid_cmp` may also equate a 16-bit UUID with its 128-bit Bluetooth-base form; that is not modelled.
- Changed-masks are 32-bit vectors. A BTHome frame with 32 or more sensor values would shift past bit 31, which is undefined in C; the model's masks cover positions below 32 only.
- The BTHome sensor type is taken as 4. The header's `Type` enumeration has no BTHome entry, so this value is an assumption.
- The relay's `std::map` of sensors is walked in address order in the firmware; the model holds the sensors in a sequence in insertion order, so the order in which sensors are drained differs.
- `Main.cpp`'s `CheckScan`, `CheckLEDs`, set-up code and RPC reporting are scan, LED and transport plumbing, not part of this model.
- The reboot at the top of `CheckSensors` (`Main.cpp` lines 113-116), requested when no scan result has arrived for 600 seconds, is a system restart, so it is not part of this model.
- HubHeater.Label: names are taken as one byte per character. `snprintf` cuts the label at 99 bytes, so a name with multi-byte UTF-8 characters is cut at a different place than the model's 99 characters.
- HubList.Labelled: names are taken as one byte per character, as for HubHeater.Label above.
- `Hub.Data.Get` and `Hub.Data.List` in `hub_data.cpp` only format the table as JSON, so they are not part of this model.
- The `Sensor.Data` and `Sensor.DataMulti` handlers in `firmware/hub/src/hub.c` run the same per-point loop as `hub_data.cpp`'s. That loop is modelled once, in `HubPoint`, and each store's `AddPoint` applies it.
- The SHT3x conversion of the checked words into degrees and percent is floating point, so it is left out. The words themselves and their CRC gating are modelled.
- `heater_crontab_cb` in `hub_control.cpp` is compiled out (`#if 0`) and does nothing; the model has no member for it.
- The `(int)` cast of the remaining seconds assumes the number fits an `int`; a deadline more than 2^31 seconds ahead would overflow in C.
- The `hub_heater_get_status` and `hub_light_get_status` getters only copy two fields out; those fields are the classes' own fields, read directly.
- HubControl.Control.constructor: it receives the 20 limits and 10 outputs already built; reading each slot from the configuration tree is left out.
- BTHomeRegistry.Get: its own contract says only that a found row has the requested id and a consistent shape; that it is the table row with that id is stated by GetIsRow.
- HubLight.Lights.constructor: `hub_light_init` queues the first tick with `mgos_invoke_cb`; the model runs that tick at once. That tick is the corrected one, as in Lights.Tick below.
- HubLight.Lights.Tick: corrected. It reads both channels with ReadSensor, which treats a failed ADC read as a failed reading. `hub_light.c` lines 23-24 store that read unchecked in a `uint8_t`, so as written a failed read is the brightest light (ReadSensorAsWritten, see Findings). With the lights on and channel 0's ADC read failing, the code switches the lights off, while the model keeps them on and marks the sensor bad (TickAsWrittenSwitchesOff).
- BTHome.DecodeRecord: corrected. It reads integers with RawValue. `BTHomeData.cpp` lines 256-272 read them through a union pre-filled with 0xFF bytes, so as written a 3-byte unsigned value with bit 23 set decodes 0xFF000000 higher (0x800000 becomes 0xFF800000, see Findings). DecodeRecordAsWritten is the decode as written; the two differ only there.
- BTHome.ParseAndConsume: corrected, through DecodeRecord, for the 3-byte unsigned values with bit 23 set named in the line above; its error cases and the bytes it consumes are as written.
- BTHome.Records: corrected, through DecodeRecord, in the same 3-byte unsigned case only.
- BTHome.BTHomeData.ParseData: corrected, through DecodeRecord, in the same 3-byte unsigned case only.
- BTHome.BTHomeData.Parse: corrected, through DecodeRecord, in the same 3-byte unsigned case only; its header checks are as written.
- BTHome.BTHomeData.ParseAdv: corrected, through DecodeRecord, in the same 3-byte unsigned case only; the NOT_FOUND case is as written.
- BTHomeSensor.Scan: corrected. It tests each value for a repeated packet id before it skips non-sensor values. `BTSensorBTHome.cpp` lines 29-34 skip every value that is not of type kSensor first, and a packet id is a kOther value, so as written the duplicate test never fires and a repeated frame is processed again (DuplicateAsWritten, DuplicateCheckIsDead, see Findings).
- BTHomeSensor.Items: corrected. It reads the bit of each sensor value at its position among the sensor values, as Update numbers them. `BTSensorBTHome.cpp` lines 45-52 test bit i against value i of all values, so as written a sensor value after a non-sensor value is read under the wrong bit, and a changed one can go unsent (ItemsAsWritten, PacketIdHidesTemperature, see Findings).
- BTSensors.BTHomeNext: corrected, through Scan, in the repeated packet id case named under BTHomeSensor.Scan above; as written such a frame is taken (DuplicateCheckIsDead).
- BTSensors.BTSensor.ReportValues: corrected, through Items, in the bit-numbering case named under BTHomeSensor.Items above (ItemsAsWritten, PacketIdHidesTemperature).
- BTSensors.BTSensor.DecodeBTHome: corrected, through Scan and BTHomeNext, in the repeated packet id case named under BTHomeSensor.Scan above (DuplicateAsWritten, DuplicateCheckIsDead).

## Findings

| source | as written | input that shows it | evidently intended | confidence | as-written member | corrected member |
|---|---|---|---|---|---|---|
| firmware/bt-relay/src/BTHomeData.cpp:264-271 | a 3-byte value with bit 23 set gets 0xFF in its top byte, for unsigned formats too | an unsigned 3-byte value `00 00 80`, such as illuminance, decodes to 0xFF800000 | only signed 3-byte values are sign-extended; unsigned ones decode to 0x800000 | high (not executed) | BTHome.RawAsWrittenThreeByteUnsigned | BTHome.RawValue |
| firmware/bt-relay/src/BTSensorBTHome.cpp:28-52 | Update numbers the bits of the changed mask by sensor values only, and Report tests bit i against value i of all values | a first frame holding a packet id and then a temperature: the temperature is flagged at bit 0, and Report reads bit 0 as the packet id's, so nothing is sent | Report reads the bit of each sensor value at its position among the sensor values | high (not executed) | BTHomeSensor.PacketIdHidesTemperature | BTHomeSensor.ReportSendsChanges |
| firmware/bt-relay/src/BTSensorBTHome.cpp:29-34 | the duplicate-packet test sits after the test that skips non-sensor values, and the packet id is a kOther value | the same frame with a packet id received twice is processed twice | a frame whose packet id equals the stored one is dropped | high (not executed) | BTHomeSensor.DuplicateCheckIsDead | BTHomeSensor.RepeatedFrameIsDuplicate |
| firmware/hub/src/hub_heater.c:136-144 | `bool heater_on = -1` converts to true, so `heater_on < 0` never holds | a Hub.Heater.Set request with no heater_on switches the heater on | a request without heater_on is refused with error -1 | high (not executed) | HubHeater.SetAsWrittenAcceptsMissing | HubHeater.Heater.Set |
| home_devs/hub/src/hub_light.c:23-24 | the second register read is stored in a `uint8_t` without a check | a failed ADC read (-1) becomes 0xFF, which has the valid bit and reads as 4015.5, the brightest light | a failed read gives -1, as a failed power-up read does | medium (not executed) | HubLight.ReadSensorAsWrittenFailure | HubLight.ReadSensorMeans |
| firmware/hub/src/hub.c:17-37 | report_to_server_sd adds the point through hub_add_data, which reports a new point by calling report_to_server_sd again, and then sends it itself | the first reading of sensor 1 on an empty list: the inner call sends it, and so does the outer one | each new point is sent to the data server once | medium (not executed) | HubList.SentTwiceExample | HubList.Store.ReportToServerOnce |
