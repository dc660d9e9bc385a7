# cerastar-i2c: the emulated I2C RAM block and the BM1 write protocol

The firmware emulates a 256-byte I2C RAM/EEPROM block that a Cerastar gas
furnace reads and writes. In this block:

- The furnace writes its telemetry record `furnace_state` at 0x20..0x2C and
  sets `furnace_data_avail` (0x10).
- The emulated BM1 bus module writes its control record `bm1_state` at
  0x90..0x9F. Byte 15 of that record is a CRC-8 (polynomial 0x39, MSB first,
  table driven) over bytes 0..14.
- The bus module announces a finished record by setting `bm1_data_avail` (0x11).

This project models four parts of the firmware:

- the layout of the block;
- the CRC-8 engine;
- start-up initialisation of the block;
- the seven BM1 mutators. Each one clears the flag, stores fields, recomputes
  the checksum and sets the flag again.

Module by module:

- `RamLayout` (`ram_layout.dfy`) models the block.
  - The raw view is a `Block`: 256 `bv8`, with offset constants for the named fields.
  - The field view is two datatypes, `FurnaceState` and `BusmoduleState`, with their byte encodings.
  - A `Region` datatype names each field. Lemmas show that the named fields are disjoint and that the struct lays them at their documented offsets.
- `Crc8` (`crc8.dfy`) models the CRC-8 engine.
  - The division round and the table entry are pure functions.
  - The static table is a class holding an `array<bv8>`. It is filled by the nested loops of `initCrc8` and read by `crc8`.
  - The checksum of a string is the left fold of the update from 0. Lemmas show linearity, the receiver's zero check, and detection of any single-byte error.
- `RamInit` (`ram_init.dfy`) models `initRamDatablock` as a method on the live block. It is proved to leave `InitialBlock()`, whatever the block held before.
- `Furnace` (`furnace.dfy`) models the write protocol.
  - Each mutator is a method on the live block, `array<bv8>`, performing the source's stores in the source's order.
  - A store into `bm1_state` (`StoreBm1`) and the checksum recomputation both require the flag to be 0. So the verifier checks, at every intermediate step, that no half-written record is ever published.
  - Each method is proved to leave `Commit(old block, new record)`. That is the record stored with a fresh checksum, the flag set, and every byte outside 0x11 and 0x90..0x9F unchanged.
  - Lemmas derive each mutator's effect on the record, its idempotence, and the invariant "flag set ⇒ checksum valid".
  - Two concrete frames are checked: the one the bus module was logged writing, and the one `updateBusmoduleTargets` produces on a fresh block.

Integers in the source are `uint8_t`, modelled as `bv8`, so `2*tempC` wraps
modulo 256 exactly as the store into a `uint8_t` field does (`Twice`).

## Model

| member | source | states |
|---|---|---|
| RamLayout.FurnaceStateOf | src/cerastarI2C/i2c-ramblock.h:10-25 | the furnace record is the 13 bytes at 0x20..0x2C, byte k of the record (in declaration order vlMax..dummy3) being block byte 0x20+k |
| RamLayout.Bm1StateOf | src/cerastarI2C/i2c-ramblock.h:32-46 | the bus-module record is the 16 bytes at 0x90..0x9F, byte k of the record (power, vlSet_x2, wwSet_x2, dummy1, stopPump, dummy2, error, dummy3[7], dummy4, checksum) being block byte 0x90+k |
| RamLayout.EncodeBm1 | src/cerastarI2C/i2c-ramblock.h:32-46 | a record encodes to exactly 16 bytes, byte k being field k in declaration order, and decoding those bytes gives the record back |
| RamLayout.DecodeBm1 | src/cerastarI2C/i2c-ramblock.h:32-46 | 16 bytes decode to the record whose byte k is byte k of the input |
| RamLayout.EncodeDecodeBm1 | src/cerastarI2C/i2c-ramblock.h:32-46 | encoding a decoded 16-byte string gives the string back |
| RamLayout.Bm1ByteDetermines | src/cerastarI2C/i2c-ramblock.h:32-46 | two records with the same 16 bytes are equal |
| RamLayout.WithBm1State | src/cerastarI2C/i2c-ramblock.h:191 | storing a record through the field view writes its bytes at 0x90..0x9F and no other byte, and reading the record back gives the one stored |
| RamLayout.Bm1StateOfAgrees | src/cerastarI2C/i2c-ramblock.h:191 | the record read from a block depends only on bytes 0x90..0x9F |
| RamLayout.WithBm1StateOfSelf | src/cerastarI2C/i2c-ramblock.h:191 | storing the record a block already holds leaves the block unchanged |
| RamLayout.WithBm1StateTwice | src/cerastarI2C/i2c-ramblock.h:191 | a second store of a record overwrites the first entirely |
| RamLayout.FieldsAreRecords | src/cerastarI2C/i2c-ramblock.h:53-55 | the union aliases raw_data and fields: the raw bytes at 0x90..0x9F are the encoding of the bus-module record read through the field view, and raw byte 0x20+k is field k of the furnace record |
| RamLayout.FieldOfAgreeing | src/cerastarI2C/i2c-ramblock.h:53-282 | two blocks that agree on the bytes of a named field have the same field |
| RamLayout.RegionsDisjoint | src/cerastarI2C/i2c-ramblock.h:73-280 | the flags, furnace_state, bm1_state, init_seq, dev_magic and dev_version share no byte pairwise |
| RamLayout.StoreKeepsOtherFields | src/cerastarI2C/i2c-ramblock.h:53-282 | a one-byte store through raw_data leaves every named field not containing that byte unchanged |
| RamLayout.StoreIntoFieldKeepsOthers | src/cerastarI2C/i2c-ramblock.h:73-280 | a store into one named field leaves every other named field unchanged |
| RamLayout.LayoutMatchesOffsets | src/cerastarI2C/i2c-ramblock.h:53-282 | the field struct covers exactly the 256 bytes of raw_data, and laying its members out in order puts furnace_data_avail at 0x10, bm1_data_avail at 0x11, furnace_state at 0x20, bm1_state at 0x90, init_seq at 0xE0, dev_magic at 0xFE and dev_version at 0xFF |
| Crc8.Crc8Table.constructor | src/cerastarI2C/crc8.cpp:7 | the static table has 256 entries, all zero, and is not yet initialised |
| Crc8.Crc8Table.InitCrc8 | src/cerastarI2C/crc8.cpp:9-20 | afterwards every entry `table[i]` is eight division rounds (shift left, XOR 0x39 if the MSB was set, truncated to 8 bits) of `i`, whatever the table held, so a second run rewrites an identical table |
| Crc8.Crc8Table.Crc8 | src/cerastarI2C/crc8.cpp:22-25 | given an initialised table, the result is the table entry of `crc_in ^ new_value` |
| Crc8.EntryOfOne | src/cerastarI2C/crc8.cpp:14-18 | `table[1] == 0x39` |
| Crc8.EntryOfZero | src/cerastarI2C/crc8.cpp:14-18 | `table[0] == 0` |
| Crc8.RoundLinear | src/cerastarI2C/crc8.cpp:16 | one division round is linear over XOR |
| Crc8.RoundsLinear | src/cerastarI2C/crc8.cpp:15-17 | any number of rounds is linear over XOR |
| Crc8.EntryLinear | src/cerastarI2C/crc8.cpp:15-17 | `table[a ^ b] == table[a] ^ table[b]` |
| Crc8.RoundInjective | src/cerastarI2C/crc8.cpp:16 | one division round maps distinct bytes to distinct bytes |
| Crc8.RoundsInjective | src/cerastarI2C/crc8.cpp:15-17 | any number of rounds maps distinct bytes to distinct bytes |
| Crc8.EntryZeroIff | src/cerastarI2C/crc8.cpp:13-19 | `table[y] == 0` exactly when `y == 0` |
| Crc8.UpdateLinear | src/cerastarI2C/crc8.cpp:22-25 | `crc8` is linear over XOR in both arguments at once |
| Crc8.UpdateDependsOnXor | src/cerastarI2C/crc8.cpp:22-25 | `crc8(c1, b1) == crc8(c2, b2)` whenever `c1 ^ b1 == c2 ^ b2` |
| Crc8.ChecksumSnoc | src/cerastarI2C/crc8.cpp:22-25 | the checksum of `s + [x]` is `crc8(checksum(s), x)` |
| Crc8.ChecksumOfSealedIsZero | src/cerastarI2C/crc8.cpp:22-25 | folding a string followed by one more byte gives 0 exactly when that byte is the string's checksum |
| Crc8.ChecksumLinear | src/cerastarI2C/crc8.cpp:22-25 | the checksum of the bytewise XOR of two equally long strings is the XOR of their checksums |
| Crc8.ChecksumLinearStep | src/cerastarI2C/crc8.cpp:22-25 | the inductive step of that linearity: it carries over from the prefixes to the whole strings |
| Crc8.ChecksumOfZeroes | src/cerastarI2C/crc8.cpp:22-25 | an all-zero string has checksum 0 |
| Crc8.ChecksumOfOneErrorNonzero | src/cerastarI2C/crc8.cpp:22-25 | a string that is zero except for one nonzero byte has a nonzero checksum |
| Crc8.SingleByteErrorDetected | src/cerastarI2C/crc8.cpp:22-25 | changing any one byte of a string changes its checksum |
| RamInit.InitRamDatablock | src/cerastarI2C/i2c-ramblock.cpp:40-50 | afterwards the block is `InitialBlock()` whatever it held before, so running it again gives the same block |
| RamInit.InitialZeroes | src/cerastarI2C/i2c-ramblock.cpp:43-49 | every byte except 0x90, 0xE0..0xE7, 0xFE and 0xFF is 0 after initialisation |
| RamInit.InitialStamps | src/cerastarI2C/i2c-ramblock.cpp:42-49 | init_seq holds 49 46 20 30 34 2E 30 30, dev_magic is 0xFC, dev_version is 0x03 and power is 0x80 |
| RamInit.InitialFlagsClear | src/cerastarI2C/i2c-ramblock.cpp:47-48 | both data-available flags are 0 after initialisation |
| RamInit.InitialBm1State | src/cerastarI2C/i2c-ramblock.cpp:43-49 | the bus-module record after initialisation has power 0x80 and every other byte, the checksum included, 0 |
| RamInit.InitialFurnaceState | src/cerastarI2C/i2c-ramblock.cpp:43 | the furnace record after initialisation is all zero |
| RamInit.InitialBlockContents | src/cerastarI2C/i2c-ramblock.cpp:42-49 | all of the above at once: identity, magic, version, flags, both records and the zero fill |
| Furnace.Payload | src/cerastarI2C/furnace.cpp:63-64 | the checksum covers the 15 bytes before it, bm1_state bytes 0..14; followed by the record's checksum byte they read back as the whole record |
| Furnace.Sealed | src/cerastarI2C/furnace.cpp:60-68 | the sealed record has a valid checksum and differs from the given one at most in the checksum |
| Furnace.Commit | src/cerastarI2C/furnace.cpp:84-86 | the end state of a mutator is published (flag 1, valid checksum), holds the sealed record, and changes no byte outside 0x11 and 0x90..0x9F |
| Furnace.WithByte | src/cerastarI2C/furnace.cpp:74-82 | a store into bm1_state byte k (k < 15) replaces byte k of the record and no other byte |
| Furnace.StoreBm1 | src/cerastarI2C/furnace.cpp:74-82 | a store into a bm1_state byte other than the checksum is allowed only while bm1_data_avail is 0, and changes that byte alone |
| Furnace.RecomputeBusmoduleDataCrc | src/cerastarI2C/furnace.cpp:60-68 | with the flag clear, the checksum byte becomes the left fold of `crc8` from 0 over bm1_state bytes 0..14, no other byte changes, the old checksum is never used, and the record is then valid |
| Furnace.ResealedIsValid | src/cerastarI2C/furnace.cpp:60-68 | recomputing the checksum byte in place yields the sealed record, which is valid |
| Furnace.StagedWithdrawn | src/cerastarI2C/furnace.cpp:72 | clearing the flag changes only a bus-module byte and keeps the record's 15 protected bytes |
| Furnace.StagedStore | src/cerastarI2C/furnace.cpp:74-82 | each store into bytes 0..14 keeps every byte outside the bus module's unchanged and the protected bytes equal to the updated record's |
| Furnace.PayloadWithByte | src/cerastarI2C/furnace.cpp:74-82 | replacing record byte k replaces byte k of the protected bytes |
| Furnace.RecordOfPayload | src/cerastarI2C/furnace.cpp:62-65 | a block whose bytes 0x90..0x9E hold a record's protected bytes, with checksum byte x, holds that record with checksum x |
| Furnace.DecodePayload | src/cerastarI2C/furnace.cpp:62-65 | the 15 protected bytes followed by a checksum byte decode to the record with that checksum |
| Furnace.StoresPayload | src/cerastarI2C/furnace.cpp:63-64 | a block whose record equals s up to the checksum holds s's 15 protected bytes at 0x90..0x9E |
| Furnace.EqualByParts | src/cerastarI2C/furnace.cpp:60-136 | two blocks agreeing on the flag, the record and every byte outside the bus module's are equal |
| Furnace.CommitOfStores | src/cerastarI2C/furnace.cpp:84-86 | after any stores that keep foreign bytes and leave a record's protected bytes in place, recomputing and setting the flag gives exactly the commit of that record |
| Furnace.OneStoreCommits | src/cerastarI2C/furnace.cpp:89-103 | withdraw, one store, reseal and publish is the commit of the record with that byte replaced |
| Furnace.TwoStoresCommit | src/cerastarI2C/furnace.cpp:105-112 | the same for two stores |
| Furnace.StagedFourStores | src/cerastarI2C/furnace.cpp:74-82 | four stores in a row keep the block staged for the record with the four bytes replaced |
| Furnace.StagedSetpointStores | src/cerastarI2C/furnace.cpp:74-77 | the first four stores of `updateBusmoduleTargets` stage the record with the caller's power, setpoints and stopPump |
| Furnace.StagedFixedStores | src/cerastarI2C/furnace.cpp:78-82 | its last four stores stage the record with error 0, dummy1 1, dummy2 1 and dummy4 0xFF |
| Furnace.TargetStoresCommit | src/cerastarI2C/furnace.cpp:70-87 | its eight stores, resealed and published, commit the target record |
| Furnace.UpdateBusmoduleTargets | src/cerastarI2C/furnace.cpp:70-87 | the block becomes the commit of the record with the caller's values, the fixed values and the old dummy3 |
| Furnace.StopPumpCommits | src/cerastarI2C/furnace.cpp:89-95 | the stores of `furnaceStopPump`, resealed and published, commit the record with stopPump 1 |
| Furnace.FurnaceStopPump | src/cerastarI2C/furnace.cpp:89-95 | the block becomes the commit of the old record with stopPump 1 |
| Furnace.StartPumpCommits | src/cerastarI2C/furnace.cpp:97-103 | the stores of `furnaceStartPump`, resealed and published, commit the record with stopPump 0 |
| Furnace.FurnaceStartPump | src/cerastarI2C/furnace.cpp:97-103 | the block becomes the commit of the old record with stopPump 0 |
| Furnace.StopHeatingCommits | src/cerastarI2C/furnace.cpp:105-112 | the stores of `furnaceStopHeating`, resealed and published, commit the record with both setpoints 20 |
| Furnace.FurnaceStopHeating | src/cerastarI2C/furnace.cpp:105-112 | the block becomes the commit of the old record with both setpoints 20 |
| Furnace.PowerlevelCommits | src/cerastarI2C/furnace.cpp:114-120 | the stores of `furnaceSetPowerlevel`, resealed and published, commit the record with the new power |
| Furnace.FurnaceSetPowerlevel | src/cerastarI2C/furnace.cpp:114-120 | the block becomes the commit of the old record with the new power |
| Furnace.HeatingSetpointCommits | src/cerastarI2C/furnace.cpp:122-128 | the stores of `furnaceSetHeatingSetpoint`, resealed and published, commit the record with vlSet_x2 = 2*t mod 256 |
| Furnace.FurnaceSetHeatingSetpoint | src/cerastarI2C/furnace.cpp:122-128 | the block becomes the commit of the old record with vlSet_x2 = 2*t mod 256 |
| Furnace.HotWaterSetpointCommits | src/cerastarI2C/furnace.cpp:130-136 | the stores of `furnaceSetHotWaterSetpoint`, resealed and published, commit the record with wwSet_x2 = 2*t mod 256 |
| Furnace.FurnaceSetHotWaterSetpoint | src/cerastarI2C/furnace.cpp:130-136 | the block becomes the commit of the old record with wwSet_x2 = 2*t mod 256 |
| Furnace.CommitKeepsForeignFields | src/cerastarI2C/furnace.cpp:60-136 | no mutator changes furnace_data_avail, furnace_state, init_seq, dev_magic or dev_version |
| Furnace.SealedIgnoresChecksum | src/cerastarI2C/furnace.cpp:62 | sealing does not depend on the record's old checksum |
| Furnace.CommitIgnoresChecksum | src/cerastarI2C/furnace.cpp:62 | a commit does not depend on the old checksum byte |
| Furnace.CommitAbsorbs | src/cerastarI2C/furnace.cpp:60-136 | a second commit overwrites everything the first one wrote |
| Furnace.CommitConsistent | src/cerastarI2C/furnace.cpp:84-86 | after every mutator, flag set implies a valid checksum |
| Furnace.InitialBlockConsistent | src/cerastarI2C/i2c-ramblock.cpp:48-49 | initialisation establishes "flag set implies a valid checksum", with the frame not published |
| Furnace.InitialChecksumStale | src/cerastarI2C/i2c-ramblock.cpp:48-49 | after initialisation the checksum byte 0 does not match the default record, so the invariant holds only because the flag is 0 |
| Furnace.PublishedFrameFoldsToZero | src/cerastarI2C/furnace.cpp:60-68 | folding all 16 bytes of a published record gives 0 |
| Furnace.CorruptedFrameDetected | src/cerastarI2C/furnace.cpp:60-68 | any single corrupted byte of a published record makes that fold nonzero |
| Furnace.TwiceEncoding | src/cerastarI2C/furnace.cpp:75-76 | `2*t` stored in a byte is 2t below 128 and 2t-256 from 128 up; below 128 it halves back to t with no half degree |
| Furnace.TargetsUpdatedEffect | src/cerastarI2C/furnace.cpp:70-87 | afterwards the record has power p, vlSet_x2 2vl, wwSet_x2 2ww, stopPump sp, error 0, dummy1 1, dummy2 1, dummy4 0xFF, dummy3 unchanged; the frame is published; no byte outside 0x11 and 0x90..0x9F changes |
| Furnace.PumpStoppedEffect | src/cerastarI2C/furnace.cpp:89-95 | only stopPump (to 1), the checksum and the flag change; the frame is published |
| Furnace.PumpStartedEffect | src/cerastarI2C/furnace.cpp:97-103 | only stopPump (to 0), the checksum and the flag change; the frame is published |
| Furnace.HeatingStoppedEffect | src/cerastarI2C/furnace.cpp:105-112 | both setpoints become 20 whatever they were; power, stopPump and the other bytes are kept |
| Furnace.PowerlevelSetEffect | src/cerastarI2C/furnace.cpp:114-120 | only power, the checksum and the flag change; the frame is published |
| Furnace.HeatingSetpointSetEffect | src/cerastarI2C/furnace.cpp:122-128 | only vlSet_x2 (to 2t mod 256), the checksum and the flag change |
| Furnace.HotWaterSetpointSetEffect | src/cerastarI2C/furnace.cpp:130-136 | only wwSet_x2 (to 2t mod 256), the checksum and the flag change |
| Furnace.TargetsUpdatedIdempotent | src/cerastarI2C/furnace.cpp:70-87 | applying `updateBusmoduleTargets` twice with the same arguments gives the block applying it once gives |
| Furnace.PumpStoppedIdempotent | src/cerastarI2C/furnace.cpp:89-95 | `furnaceStopPump` twice equals once |
| Furnace.PumpStartedIdempotent | src/cerastarI2C/furnace.cpp:97-103 | `furnaceStartPump` twice equals once |
| Furnace.HeatingStoppedIdempotent | src/cerastarI2C/furnace.cpp:105-112 | `furnaceStopHeating` twice equals once |
| Furnace.PowerlevelSetIdempotent | src/cerastarI2C/furnace.cpp:114-120 | `furnaceSetPowerlevel(p)` twice equals once |
| Furnace.HeatingSetpointSetIdempotent | src/cerastarI2C/furnace.cpp:122-128 | `furnaceSetHeatingSetpoint(t)` twice equals once |
| Furnace.HotWaterSetpointSetIdempotent | src/cerastarI2C/furnace.cpp:130-136 | `furnaceSetHotWaterSetpoint(t)` twice equals once |
| Furnace.LoggedPayloadChecksum | src/cerastarI2C/i2c-ramblock.h:34-35 | the fold over the logged bytes FF B4 00 01 00 01 03 00 00 00 00 00 00 00 FF is 0x0D |
| Furnace.LoggedFrameChecksumValid | src/cerastarI2C/i2c-ramblock.h:34-35 | the logged BM1 frame, with checksum 0x0D, is a valid record |
| Furnace.TargetsPayloadChecksum | src/cerastarI2C/furnace.cpp:70-87 | the fold over 80 2C 5A 01 00 01 00 00 00 00 00 00 00 00 FF is 0x3B |
| Furnace.TargetsRecordChecksum | src/cerastarI2C/furnace.cpp:70-87 | the record holding those bytes has protected-byte checksum 0x3B |
| Furnace.TargetsOverInitialRecord | src/cerastarI2C/furnace.cpp:74-82 | the stores of `updateBusmoduleTargets(0x80, 22, 45, 0)` over the record initialisation leaves give 80 2C 5A 01 00 01 00 00..00 FF before the checksum |
| Furnace.CommittedRecord | src/cerastarI2C/furnace.cpp:84-86 | after a commit the record carries the checksum of its 15 protected bytes |
| Furnace.TargetsCommitted | src/cerastarI2C/furnace.cpp:84-86 | `updateBusmoduleTargets(0x80, 22, 45, 0)` leaves the record it stores, with the checksum of its protected bytes |
| Furnace.TargetsFromInitialRecord | src/cerastarI2C/furnace.cpp:70-87 | `updateBusmoduleTargets(0x80, 22, 45, 0)` over the record initialisation leaves gives 80 2C 5A 01 00 01 00 00..00 FF with checksum 0x3B |
| Furnace.TargetsExample | src/cerastarI2C/furnace.cpp:70-87 | the same on a freshly initialised block |
| Furnace.HeatingSetpointExample | src/cerastarI2C/furnace.cpp:122-128 | `furnaceSetHeatingSetpoint(22)` leaves vlSet_x2 == 44, which halves back to 22 degrees |

## Left out

- String formatting is not modelled: `temperatureToStr`, `furnaceStateToStr` and `busmoduleStateToStr` (src/cerastarI2C/furnace.cpp:10-53), and `furnaceStateStr`, `busmoduleStateStr` and the hex dump `ramDatablockStr` (src/cerastarI2C/i2c-ramblock.cpp). They only build display text.
- Concurrency is not modelled. The block is `volatile` and the I2C slave interrupt reads it between any two stores; the model runs each mutator sequentially. The flag discipline is stated as `StoreBm1` and `RecomputeBusmoduleDataCrc` requiring the flag to be 0, checked at every call. Real atomicity is not modelled.
- The I2C transport is not modelled, and neither are the furnace's own writes to `furnace_state` and `furnace_data_avail`. The code that does them is not part of this model, so only their offsets appear.
- The union's memory-layout mechanics are replaced by one byte buffer with offset accessors. Packing and aliasing of `raw_data` and `fields` are not modelled.
- `memset` and `memcpy` in `initRamDatablock` are modelled as parallel `forall` stores into the array.
- src/cerastarI2C/furnace.h holds declarations only. crc8.h is not part of this model.
- Crc8.Crc8Table.Crc8 requires an initialised table. In the source, a call before `initCrc8` reads the zero-filled static table and returns 0, which the model does not allow. The constructor states that the fresh table is not initialised.
- Furnace.StoreBm1 requires the flag to be 0. This is the protocol's discipline, checked at each call site; the source itself performs no such check.
- Furnace.RecomputeBusmoduleDataCrc requires the flag to be 0, for the same reason; the source performs no such check.
- "Every table entry is a byte" needs no lemma: entries have type `bv8`, and the `& 0xFF` of the source is the identity on them.
