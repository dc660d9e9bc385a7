/** The bus-module (BM1) write protocol: every mutator withdraws the frame
    (bm1_data_avail := 0), stores fields of bm1_state, recomputes the CRC-8
    checksum over bytes 0..14 of bm1_state and republishes the frame
    (bm1_data_avail := 1). */
module Furnace {
  import opened Crc8
  import opened RamLayout
  import opened RamInit

  /** A whole-degree setpoint in the half-degree encoding: `2 * t` stored into
      an 8-bit field, so it wraps for `t >= 128`. */
  function Twice(t: bv8): bv8 {
    t * 2
  }

  /** The safe-minimum setpoint written by `furnaceStopHeating`: 10 degrees C. */
  const STOP_HEATING_X2: bv8 := 20

  // ---------------------------------------------------------------------------
  // Frame integrity
  // ---------------------------------------------------------------------------

  /** The 15 bytes the checksum protects: bm1_state bytes 0..14. Followed by
      the record's checksum byte they read back as the record. */
  function Payload(s: BusmoduleState): (p: seq<bv8>)
    ensures |p| == CHECKSUM
    ensures forall k :: 0 <= k < CHECKSUM ==> p[k] == Bm1Byte(s, k)
    ensures DecodeBm1(p + [s.checksum]) == s
  {
    var f := EncodeBm1(s);
    assert f[..CHECKSUM] + [s.checksum] == f;
    f[..CHECKSUM]
  }

  /** The stored checksum matches the 15 bytes before it. */
  predicate ChecksumValid(s: BusmoduleState) {
    s.checksum == Checksum(Payload(s))
  }

  /** The record with its checksum recomputed; nothing else differs. */
  function Sealed(s: BusmoduleState): (r: BusmoduleState)
    ensures ChecksumValid(r)
    ensures r == s.(checksum := r.checksum)
  {
    assert Payload(s.(checksum := Checksum(Payload(s)))) == Payload(s);
    s.(checksum := Checksum(Payload(s)))
  }

  /** Bytes the bus module owns: its availability flag and bm1_state. */
  predicate OwnedByBusModule(i: int) {
    i == BM1_DATA_AVAIL || InBm1State(i)
  }

  /** `r` differs from `b` at most in the bytes the bus module owns. */
  predicate OnlyBusModuleChanged(b: Block, r: Block) {
    forall i :: 0 <= i < BLOCK_SIZE && !OwnedByBusModule(i) ==> r[i] == b[i]
  }

  /** The frame is published and its checksum is good. */
  predicate Published(b: Block) {
    b[BM1_DATA_AVAIL] == 1 && ChecksumValid(Bm1StateOf(b))
  }

  /** The protocol invariant: an observer that sees the flag set sees a good checksum. */
  predicate Consistent(b: Block) {
    b[BM1_DATA_AVAIL] == 1 ==> ChecksumValid(Bm1StateOf(b))
  }

  /** The end state of every mutator: `s` stored with a fresh checksum and the
      flag set; every byte the bus module does not own is left alone. */
  function Commit(b: Block, s: BusmoduleState): (r: Block)
    ensures Published(r)
    ensures Bm1StateOf(r) == Sealed(s)
    ensures OnlyBusModuleChanged(b, r)
  {
    var w := WithBm1State(b, Sealed(s));
    Bm1StateOfAgrees(w, w[BM1_DATA_AVAIL := 1]);
    w[BM1_DATA_AVAIL := 1]
  }

  // ---------------------------------------------------------------------------
  // The mutators, as functions of the block they start from
  // ---------------------------------------------------------------------------

  function TargetsUpdated(b: Block, power: bv8, vlTempC: bv8, wwTempC: bv8, stopPump: bv8): Block {
    Commit(b, Targets(Bm1StateOf(b), power, vlTempC, wwTempC, stopPump))
  }

  function PumpStopped(b: Block): Block {
    Commit(b, Bm1StateOf(b).(stopPump := 1))
  }

  function PumpStarted(b: Block): Block {
    Commit(b, Bm1StateOf(b).(stopPump := 0))
  }

  function HeatingStopped(b: Block): Block {
    Commit(b, Bm1StateOf(b).(vlSetX2 := STOP_HEATING_X2, wwSetX2 := STOP_HEATING_X2))
  }

  function PowerlevelSet(b: Block, powerLev: bv8): Block {
    Commit(b, Bm1StateOf(b).(power := powerLev))
  }

  function HeatingSetpointSet(b: Block, tempC: bv8): Block {
    Commit(b, Bm1StateOf(b).(vlSetX2 := Twice(tempC)))
  }

  function HotWaterSetpointSet(b: Block, tempC: bv8): Block {
    Commit(b, Bm1StateOf(b).(wwSetX2 := Twice(tempC)))
  }

  // ---------------------------------------------------------------------------
  // The mutators as the source runs them, on the shared block in place
  // ---------------------------------------------------------------------------

  /** The record with byte `k` (one of bytes 0..14) replaced: a one-byte store
      seen through the field view. */
  function WithByte(s: BusmoduleState, k: nat, v: bv8): (r: BusmoduleState)
    requires k < CHECKSUM
    ensures forall j :: 0 <= j < BM1_STATE_SIZE ==> Bm1Byte(r, j) == if j == k then v else Bm1Byte(s, j)
  {
    if k == POWER then s.(power := v)
    else if k == VL_SET then s.(vlSetX2 := v)
    else if k == WW_SET then s.(wwSetX2 := v)
    else if k == BM1_DUMMY1 then s.(dummy1 := v)
    else if k == STOP_PUMP then s.(stopPump := v)
    else if k == BM1_DUMMY2 then s.(dummy2 := v)
    else if k == BM1_ERROR then s.(error := v)
    else if k < BM1_DUMMY4 then s.(dummy3 := s.dummy3[k - BM1_DUMMY3 := v])
    else s.(dummy4 := v)
  }

  /** A store into bm1_state bytes 0..14. The protocol allows it only while the
      frame is withdrawn, so no observer sees a half-written frame published. */
  method StoreBm1(mem: array<bv8>, k: nat, v: bv8)
    requires mem.Length == BLOCK_SIZE && k < CHECKSUM
    requires mem[BM1_DATA_AVAIL] == 0
    modifies mem
    ensures mem[..] == old(mem[..])[BM1_STATE + k := v]
  {
    mem[BM1_STATE + k] := v;
  }

  /** `s_recomputeBusmoduleDataCRC`: walks bm1_state bytes 0..14, folding each
      into the checksum byte, which starts at 0. The old checksum is never read. */
  method RecomputeBusmoduleDataCrc(mem: array<bv8>, crc: Crc8Table)
    requires mem.Length == BLOCK_SIZE && crc.Initialised() && mem != crc.table
    requires mem[BM1_DATA_AVAIL] == 0
    modifies mem
    ensures mem[..] == Resealed(old(mem[..]))
    ensures ChecksumValid(Bm1StateOf(mem[..]))
  {
    ghost var b: Block := mem[..];
    mem[BM1_CHECKSUM] := 0;
    var dd := BM1_STATE;
    while dd < BM1_CHECKSUM
      invariant BM1_STATE <= dd <= BM1_CHECKSUM
      invariant forall i :: 0 <= i < BLOCK_SIZE && i != BM1_CHECKSUM ==> mem[i] == b[i]
      invariant mem[BM1_CHECKSUM] == Checksum(b[BM1_STATE..dd])
    {
      var c := crc.Crc8(mem[BM1_CHECKSUM], mem[dd]);
      assert b[BM1_STATE..dd + 1][..dd - BM1_STATE] == b[BM1_STATE..dd];
      mem[BM1_CHECKSUM] := c;
      dd := dd + 1;
    }
    assert mem[..] == Resealed(b);
    ResealedIsValid(b);
  }

  /** The block with its checksum byte recomputed from bm1_state bytes 0..14. */
  function Resealed(c: Block): Block {
    c[BM1_CHECKSUM := Checksum(c[BM1_STATE..BM1_CHECKSUM])]
  }

  /** Recomputing the checksum byte in place seals the record. */
  lemma ResealedIsValid(c: Block)
    ensures Bm1StateOf(Resealed(c)) == Sealed(Bm1StateOf(c))
    ensures ChecksumValid(Bm1StateOf(Resealed(c)))
  {
    var s := Bm1StateOf(c);
    StoresPayload(c, s);
    RecordOfPayload(c, s, Checksum(Payload(s)));
  }

  /** `c` is `b` part-way through a mutator: only bytes the bus module owns
      have changed, and bm1_state bytes 0..14 hold the payload of `s`. */
  predicate Staged(b: Block, c: Block, s: BusmoduleState) {
    OnlyBusModuleChanged(b, c) && c[BM1_STATE..BM1_CHECKSUM] == Payload(s)
  }

  /** Clearing the flag starts a mutator with the record as it stands. */
  lemma StagedWithdrawn(b: Block)
    ensures Staged(b, b[BM1_DATA_AVAIL := 0], Bm1StateOf(b))
  {
    StoresPayload(b, Bm1StateOf(b));
    assert b[BM1_DATA_AVAIL := 0][BM1_STATE..BM1_CHECKSUM] == b[BM1_STATE..BM1_CHECKSUM];
  }

  /** Each store into bytes 0..14 keeps the block staged, for the record with
      that byte replaced. */
  lemma StagedStore(b: Block, c: Block, s: BusmoduleState, k: nat, v: bv8)
    requires Staged(b, c, s) && k < CHECKSUM
    ensures Staged(b, c[BM1_STATE + k := v], WithByte(s, k, v))
  {
    assert c[BM1_STATE + k := v][BM1_STATE..BM1_CHECKSUM] == c[BM1_STATE..BM1_CHECKSUM][k := v];
    PayloadWithByte(s, k, v);
  }

  /** A one-byte store into the record is the same store into its payload. */
  lemma PayloadWithByte(s: BusmoduleState, k: nat, v: bv8)
    requires k < CHECKSUM
    ensures Payload(WithByte(s, k, v)) == Payload(s)[k := v]
  {
    var p := Payload(WithByte(s, k, v));
    forall j | 0 <= j < CHECKSUM ensures p[j] == Payload(s)[k := v][j] {
      assert p[j] == Bm1Byte(WithByte(s, k, v), j);
    }
  }

  /** A block whose bytes 0..14 hold `s`'s payload, with checksum byte `x`,
      holds `s` with checksum `x`. */
  lemma RecordOfPayload(c: Block, s: BusmoduleState, x: bv8)
    requires c[BM1_STATE..BM1_CHECKSUM] == Payload(s)
    ensures Bm1StateOf(c[BM1_CHECKSUM := x]) == s.(checksum := x)
  {
    assert c[BM1_CHECKSUM := x][BM1_STATE..BM1_STATE + BM1_STATE_SIZE] == Payload(s) + [x];
    DecodePayload(s, x);
  }

  /** The payload and any checksum byte decode to the record with that checksum. */
  lemma DecodePayload(s: BusmoduleState, x: bv8)
    ensures DecodeBm1(Payload(s) + [x]) == s.(checksum := x)
  {
    var f := Payload(s) + [x];
    forall j | 0 <= j < BM1_DUMMY3_SIZE ensures f[BM1_DUMMY3..BM1_DUMMY4][j] == s.dummy3[j] {
      assert f[BM1_DUMMY3 + j] == Bm1Byte(s, BM1_DUMMY3 + j);
    }
    assert f[BM1_DUMMY3..BM1_DUMMY4] == s.dummy3;
  }

  /** Stores followed by the checksum recomputation and the flag set give the
      committed block, whatever the stores were, provided they leave bytes
      0..14 of bm1_state holding `s` and touch nothing outside the bus module's bytes. */
  lemma CommitOfStores(b: Block, c: Block, s: BusmoduleState)
    requires Staged(b, c, s)
    ensures Resealed(c)[BM1_DATA_AVAIL := 1] == Commit(b, s)
  {
    var d := Resealed(c);
    RecordOfPayload(c, s, Checksum(Payload(s)));
    var lhs := d[BM1_DATA_AVAIL := 1];
    Bm1StateOfAgrees(d, lhs);
    EqualByParts(lhs, Commit(b, s));
  }

  /** Bytes 0..14 of a block whose record is `s` up to the checksum are `s`'s payload. */
  lemma StoresPayload(c: Block, s: BusmoduleState)
    requires Bm1StateOf(c) == s.(checksum := Bm1StateOf(c).checksum)
    ensures c[BM1_STATE..BM1_CHECKSUM] == Payload(s)
  {
    forall k | 0 <= k < CHECKSUM ensures c[BM1_STATE + k] == Bm1Byte(s, k) {
      assert Bm1Byte(s, k) == Bm1Byte(Bm1StateOf(c), k);
    }
  }

  /** Two blocks are equal when they agree on the flag, on the record and on
      every byte the bus module does not own. */
  lemma EqualByParts(x: Block, y: Block)
    requires x[BM1_DATA_AVAIL] == y[BM1_DATA_AVAIL]
    requires forall i :: 0 <= i < BLOCK_SIZE && !OwnedByBusModule(i) ==> x[i] == y[i]
    requires Bm1StateOf(x) == Bm1StateOf(y)
    ensures x == y
  {
    forall i | 0 <= i < BLOCK_SIZE ensures x[i] == y[i] {
      if InBm1State(i) {
        assert x[BM1_STATE + (i - BM1_STATE)] == Bm1Byte(Bm1StateOf(x), i - BM1_STATE);
        assert y[BM1_STATE + (i - BM1_STATE)] == Bm1Byte(Bm1StateOf(y), i - BM1_STATE);
      }
    }
  }

  /** Withdraw, one store into byte `k`, reseal, publish: the commit of the
      record with that byte replaced. */
  lemma OneStoreCommits(b: Block, k: nat, v: bv8)
    requires k < CHECKSUM
    ensures Resealed(b[BM1_DATA_AVAIL := 0][BM1_STATE + k := v])[BM1_DATA_AVAIL := 1]
         == Commit(b, WithByte(Bm1StateOf(b), k, v))
  {
    StagedWithdrawn(b);
    StagedStore(b, b[BM1_DATA_AVAIL := 0], Bm1StateOf(b), k, v);
    CommitOfStores(b, b[BM1_DATA_AVAIL := 0][BM1_STATE + k := v], WithByte(Bm1StateOf(b), k, v));
  }

  /** The same with two stores. */
  lemma TwoStoresCommit(b: Block, k1: nat, v1: bv8, k2: nat, v2: bv8)
    requires k1 < CHECKSUM && k2 < CHECKSUM
    ensures Resealed(b[BM1_DATA_AVAIL := 0][BM1_STATE + k1 := v1][BM1_STATE + k2 := v2])[BM1_DATA_AVAIL := 1]
         == Commit(b, WithByte(WithByte(Bm1StateOf(b), k1, v1), k2, v2))
  {
    StagedWithdrawn(b);
    StagedStore(b, b[BM1_DATA_AVAIL := 0], Bm1StateOf(b), k1, v1);
    StagedStore(b, b[BM1_DATA_AVAIL := 0][BM1_STATE + k1 := v1], WithByte(Bm1StateOf(b), k1, v1), k2, v2);
    CommitOfStores(b, b[BM1_DATA_AVAIL := 0][BM1_STATE + k1 := v1][BM1_STATE + k2 := v2],
                   WithByte(WithByte(Bm1StateOf(b), k1, v1), k2, v2));
  }

  /** The record `updateBusmoduleTargets` stores, before its checksum is recomputed. */
  function Targets(s: BusmoduleState, power: bv8, vlTempC: bv8, wwTempC: bv8, stopPump: bv8): BusmoduleState {
    s.(power := power, vlSetX2 := Twice(vlTempC), wwSetX2 := Twice(wwTempC),
       stopPump := stopPump, error := 0, dummy1 := 1, dummy2 := 1, dummy4 := 0xFF)
  }

  /** The first four stores of `updateBusmoduleTargets`: the caller's values. */
  function SetpointStores(c: Block, power: bv8, vlTempC: bv8, wwTempC: bv8, stopPump: bv8): Block {
    c[BM1_STATE + POWER := power][BM1_STATE + VL_SET := Twice(vlTempC)]
     [BM1_STATE + WW_SET := Twice(wwTempC)][BM1_STATE + STOP_PUMP := stopPump]
  }

  /** The last four stores of `updateBusmoduleTargets`: fixed values. */
  function FixedStores(c: Block): Block {
    c[BM1_STATE + BM1_ERROR := 0][BM1_STATE + BM1_DUMMY1 := 1][BM1_STATE + BM1_DUMMY2 := 1]
     [BM1_STATE + BM1_DUMMY4 := 0xFF]
  }

  /** The block after the withdrawal and the eight stores of
      `updateBusmoduleTargets`, in its order. */
  function TargetStores(b: Block, power: bv8, vlTempC: bv8, wwTempC: bv8, stopPump: bv8): Block {
    FixedStores(SetpointStores(b[BM1_DATA_AVAIL := 0], power, vlTempC, wwTempC, stopPump))
  }

  /** The eight stores, resealed and published, commit the target record. */
  lemma TargetStoresCommit(b: Block, power: bv8, vlTempC: bv8, wwTempC: bv8, stopPump: bv8)
    ensures Resealed(TargetStores(b, power, vlTempC, wwTempC, stopPump))[BM1_DATA_AVAIL := 1]
         == TargetsUpdated(b, power, vlTempC, wwTempC, stopPump)
  {
    var c := b[BM1_DATA_AVAIL := 0];
    var s := Bm1StateOf(b);
    StagedWithdrawn(b);
    StagedSetpointStores(b, c, s, power, vlTempC, wwTempC, stopPump);
    var s4 := s.(power := power, vlSetX2 := Twice(vlTempC), wwSetX2 := Twice(wwTempC), stopPump := stopPump);
    StagedFixedStores(b, SetpointStores(c, power, vlTempC, wwTempC, stopPump), s4);
    CommitOfStores(b, TargetStores(b, power, vlTempC, wwTempC, stopPump), Targets(s, power, vlTempC, wwTempC, stopPump));
  }

  lemma StagedSetpointStores(b: Block, c: Block, s: BusmoduleState,
                             power: bv8, vlTempC: bv8, wwTempC: bv8, stopPump: bv8)
    requires Staged(b, c, s)
    ensures Staged(b, SetpointStores(c, power, vlTempC, wwTempC, stopPump),
                   s.(power := power, vlSetX2 := Twice(vlTempC), wwSetX2 := Twice(wwTempC), stopPump := stopPump))
  {
    StagedFourStores(b, c, s, POWER, power, VL_SET, Twice(vlTempC), WW_SET, Twice(wwTempC), STOP_PUMP, stopPump);
    var t := WithByte(s, POWER, power);
    assert t == s.(power := power);
    t := WithByte(t, VL_SET, Twice(vlTempC));
    assert t == s.(power := power, vlSetX2 := Twice(vlTempC));
    t := WithByte(t, WW_SET, Twice(wwTempC));
    t := WithByte(t, STOP_PUMP, stopPump);
  }

  lemma StagedFixedStores(b: Block, c: Block, s: BusmoduleState)
    requires Staged(b, c, s)
    ensures Staged(b, FixedStores(c), s.(error := 0, dummy1 := 1, dummy2 := 1, dummy4 := 0xFF))
  {
    StagedFourStores(b, c, s, BM1_ERROR, 0, BM1_DUMMY1, 1, BM1_DUMMY2, 1, BM1_DUMMY4, 0xFF);
    var t := WithByte(WithByte(s, BM1_ERROR, 0), BM1_DUMMY1, 1);
    assert t == s.(error := 0, dummy1 := 1);
  }

  /** Four stores in a row keep the block staged. */
  lemma StagedFourStores(b: Block, c: Block, s: BusmoduleState,
                         k1: nat, v1: bv8, k2: nat, v2: bv8, k3: nat, v3: bv8, k4: nat, v4: bv8)
    requires Staged(b, c, s)
    requires k1 < CHECKSUM && k2 < CHECKSUM && k3 < CHECKSUM && k4 < CHECKSUM
    ensures Staged(b, c[BM1_STATE + k1 := v1][BM1_STATE + k2 := v2][BM1_STATE + k3 := v3][BM1_STATE + k4 := v4],
                   WithByte(WithByte(WithByte(WithByte(s, k1, v1), k2, v2), k3, v3), k4, v4))
  {
    var c1, s1 := c[BM1_STATE + k1 := v1], WithByte(s, k1, v1);
    StagedStore(b, c, s, k1, v1);
    var c2, s2 := c1[BM1_STATE + k2 := v2], WithByte(s1, k2, v2);
    StagedStore(b, c1, s1, k2, v2);
    var c3, s3 := c2[BM1_STATE + k3 := v3], WithByte(s2, k3, v3);
    StagedStore(b, c2, s2, k3, v3);
    StagedStore(b, c3, s3, k4, v4);
  }

  /** `updateBusmoduleTargets`: withdraw the frame, eight stores, reseal,
      republish. */
  method UpdateBusmoduleTargets(mem: array<bv8>, crc: Crc8Table,
                                power: bv8, vlTempC: bv8, wwTempC: bv8, stopPump: bv8)
    requires mem.Length == BLOCK_SIZE && crc.Initialised() && mem != crc.table
    modifies mem
    ensures mem[..] == TargetsUpdated(old(mem[..]), power, vlTempC, wwTempC, stopPump)
  {
    ghost var b: Block := mem[..];
    mem[BM1_DATA_AVAIL] := 0;
    StoreBm1(mem, POWER, power);
    StoreBm1(mem, VL_SET, Twice(vlTempC));
    StoreBm1(mem, WW_SET, Twice(wwTempC));
    StoreBm1(mem, STOP_PUMP, stopPump);
    assert mem[..] == SetpointStores(b[BM1_DATA_AVAIL := 0], power, vlTempC, wwTempC, stopPump);
    StoreBm1(mem, BM1_ERROR, 0);
    StoreBm1(mem, BM1_DUMMY1, 1);
    StoreBm1(mem, BM1_DUMMY2, 1);
    StoreBm1(mem, BM1_DUMMY4, 0xFF);
    assert mem[..] == TargetStores(b, power, vlTempC, wwTempC, stopPump);
    RecomputeBusmoduleDataCrc(mem, crc);
    mem[BM1_DATA_AVAIL] := 1;
    TargetStoresCommit(b, power, vlTempC, wwTempC, stopPump);
  }

  /** The stores of `furnaceStopPump`, resealed and published, commit its record. */
  lemma StopPumpCommits(b: Block)
    ensures Resealed(b[BM1_DATA_AVAIL := 0][BM1_STATE + STOP_PUMP := 1])[BM1_DATA_AVAIL := 1] == PumpStopped(b)
  {
    OneStoreCommits(b, STOP_PUMP, 1);
    assert WithByte(Bm1StateOf(b), STOP_PUMP, 1) == Bm1StateOf(b).(stopPump := 1);
  }

  /** `furnaceStopPump`: withdraw the frame, store, reseal, republish. */
  method FurnaceStopPump(mem: array<bv8>, crc: Crc8Table)
    requires mem.Length == BLOCK_SIZE && crc.Initialised() && mem != crc.table
    modifies mem
    ensures mem[..] == PumpStopped(old(mem[..]))
  {
    ghost var b: Block := mem[..];
    mem[BM1_DATA_AVAIL] := 0;
    StoreBm1(mem, STOP_PUMP, 1);
    RecomputeBusmoduleDataCrc(mem, crc);
    mem[BM1_DATA_AVAIL] := 1;
    StopPumpCommits(b);
  }

  /** The stores of `furnaceStartPump`, resealed and published, commit its record. */
  lemma StartPumpCommits(b: Block)
    ensures Resealed(b[BM1_DATA_AVAIL := 0][BM1_STATE + STOP_PUMP := 0])[BM1_DATA_AVAIL := 1] == PumpStarted(b)
  {
    OneStoreCommits(b, STOP_PUMP, 0);
    assert WithByte(Bm1StateOf(b), STOP_PUMP, 0) == Bm1StateOf(b).(stopPump := 0);
  }

  /** `furnaceStartPump`: withdraw the frame, store, reseal, republish. */
  method FurnaceStartPump(mem: array<bv8>, crc: Crc8Table)
    requires mem.Length == BLOCK_SIZE && crc.Initialised() && mem != crc.table
    modifies mem
    ensures mem[..] == PumpStarted(old(mem[..]))
  {
    ghost var b: Block := mem[..];
    mem[BM1_DATA_AVAIL] := 0;
    StoreBm1(mem, STOP_PUMP, 0);
    RecomputeBusmoduleDataCrc(mem, crc);
    mem[BM1_DATA_AVAIL] := 1;
    StartPumpCommits(b);
  }

  /** The stores of `furnaceStopHeating`, resealed and published, commit its record. */
  lemma StopHeatingCommits(b: Block)
    ensures Resealed(b[BM1_DATA_AVAIL := 0][BM1_STATE + VL_SET := STOP_HEATING_X2][BM1_STATE + WW_SET := STOP_HEATING_X2])[BM1_DATA_AVAIL := 1] == HeatingStopped(b)
  {
    TwoStoresCommit(b, VL_SET, STOP_HEATING_X2, WW_SET, STOP_HEATING_X2);
    assert WithByte(WithByte(Bm1StateOf(b), VL_SET, STOP_HEATING_X2), WW_SET, STOP_HEATING_X2)
        == Bm1StateOf(b).(vlSetX2 := STOP_HEATING_X2, wwSetX2 := STOP_HEATING_X2);
  }

  /** `furnaceStopHeating`: withdraw the frame, store, reseal, republish. */
  method FurnaceStopHeating(mem: array<bv8>, crc: Crc8Table)
    requires mem.Length == BLOCK_SIZE && crc.Initialised() && mem != crc.table
    modifies mem
    ensures mem[..] == HeatingStopped(old(mem[..]))
  {
    ghost var b: Block := mem[..];
    mem[BM1_DATA_AVAIL] := 0;
    StoreBm1(mem, VL_SET, STOP_HEATING_X2);
    StoreBm1(mem, WW_SET, STOP_HEATING_X2);
    RecomputeBusmoduleDataCrc(mem, crc);
    mem[BM1_DATA_AVAIL] := 1;
    StopHeatingCommits(b);
  }

  /** The stores of `furnaceSetPowerlevel`, resealed and published, commit its record. */
  lemma PowerlevelCommits(b: Block, powerLev: bv8)
    ensures Resealed(b[BM1_DATA_AVAIL := 0][BM1_STATE + POWER := powerLev])[BM1_DATA_AVAIL := 1] == PowerlevelSet(b, powerLev)
  {
    OneStoreCommits(b, POWER, powerLev);
    assert WithByte(Bm1StateOf(b), POWER, powerLev) == Bm1StateOf(b).(power := powerLev);
  }

  /** `furnaceSetPowerlevel`: withdraw the frame, store, reseal, republish. */
  method FurnaceSetPowerlevel(mem: array<bv8>, crc: Crc8Table, powerLev: bv8)
    requires mem.Length == BLOCK_SIZE && crc.Initialised() && mem != crc.table
    modifies mem
    ensures mem[..] == PowerlevelSet(old(mem[..]), powerLev)
  {
    ghost var b: Block := mem[..];
    mem[BM1_DATA_AVAIL] := 0;
    StoreBm1(mem, POWER, powerLev);
    RecomputeBusmoduleDataCrc(mem, crc);
    mem[BM1_DATA_AVAIL] := 1;
    PowerlevelCommits(b, powerLev);
  }

  /** The stores of `furnaceSetHeatingSetpoint`, resealed and published, commit its record. */
  lemma HeatingSetpointCommits(b: Block, tempC: bv8)
    ensures Resealed(b[BM1_DATA_AVAIL := 0][BM1_STATE + VL_SET := Twice(tempC)])[BM1_DATA_AVAIL := 1] == HeatingSetpointSet(b, tempC)
  {
    OneStoreCommits(b, VL_SET, Twice(tempC));
    assert WithByte(Bm1StateOf(b), VL_SET, Twice(tempC)) == Bm1StateOf(b).(vlSetX2 := Twice(tempC));
  }

  /** `furnaceSetHeatingSetpoint`: withdraw the frame, store, reseal, republish. */
  method FurnaceSetHeatingSetpoint(mem: array<bv8>, crc: Crc8Table, tempC: bv8)
    requires mem.Length == BLOCK_SIZE && crc.Initialised() && mem != crc.table
    modifies mem
    ensures mem[..] == HeatingSetpointSet(old(mem[..]), tempC)
  {
    ghost var b: Block := mem[..];
    mem[BM1_DATA_AVAIL] := 0;
    StoreBm1(mem, VL_SET, Twice(tempC));
    RecomputeBusmoduleDataCrc(mem, crc);
    mem[BM1_DATA_AVAIL] := 1;
    HeatingSetpointCommits(b, tempC);
  }

  /** The stores of `furnaceSetHotWaterSetpoint`, resealed and published, commit its record. */
  lemma HotWaterSetpointCommits(b: Block, tempC: bv8)
    ensures Resealed(b[BM1_DATA_AVAIL := 0][BM1_STATE + WW_SET := Twice(tempC)])[BM1_DATA_AVAIL := 1] == HotWaterSetpointSet(b, tempC)
  {
    OneStoreCommits(b, WW_SET, Twice(tempC));
    assert WithByte(Bm1StateOf(b), WW_SET, Twice(tempC)) == Bm1StateOf(b).(wwSetX2 := Twice(tempC));
  }

  /** `furnaceSetHotWaterSetpoint`: withdraw the frame, store, reseal, republish. */
  method FurnaceSetHotWaterSetpoint(mem: array<bv8>, crc: Crc8Table, tempC: bv8)
    requires mem.Length == BLOCK_SIZE && crc.Initialised() && mem != crc.table
    modifies mem
    ensures mem[..] == HotWaterSetpointSet(old(mem[..]), tempC)
  {
    ghost var b: Block := mem[..];
    mem[BM1_DATA_AVAIL] := 0;
    StoreBm1(mem, WW_SET, Twice(tempC));
    RecomputeBusmoduleDataCrc(mem, crc);
    mem[BM1_DATA_AVAIL] := 1;
    HotWaterSetpointCommits(b, tempC);
  }

  // ---------------------------------------------------------------------------
  // Properties of the protocol
  // ---------------------------------------------------------------------------

  /** The bytes the furnace and the device identity own survive every commit:
      furnace_data_avail, furnace_state, init_seq, dev_magic and dev_version. */
  lemma CommitKeepsForeignFields(b: Block, s: BusmoduleState, r: Region)
    requires r != Bm1StateArea && r != Bm1DataAvail
    ensures Field(Commit(b, s), r) == Field(b, r)
  {
    RegionsDisjoint(r, Bm1StateArea);
    RegionsDisjoint(r, Bm1DataAvail);
    FieldOfAgreeing(b, Commit(b, s), r);
  }

  lemma SealedIgnoresChecksum(s: BusmoduleState, c: bv8)
    ensures Sealed(s.(checksum := c)) == Sealed(s)
  {
    assert Payload(s.(checksum := c)) == Payload(s);
  }

  /** A commit does not depend on the checksum byte of the record it is given. */
  lemma CommitIgnoresChecksum(b: Block, s: BusmoduleState, c: bv8)
    ensures Commit(b, s.(checksum := c)) == Commit(b, s)
  {
    SealedIgnoresChecksum(s, c);
  }

  /** A second commit overwrites everything the first one wrote. */
  lemma CommitAbsorbs(b: Block, s: BusmoduleState, t: BusmoduleState)
    ensures Commit(Commit(b, s), t) == Commit(b, t)
  {
    EqualByParts(Commit(Commit(b, s), t), Commit(b, t));
  }

  /** Initialisation establishes the protocol invariant, with the frame not yet
      published. */
  lemma InitialBlockConsistent()
    ensures Consistent(InitialBlock()) && !Published(InitialBlock())
  {
    InitialFlagsClear();
  }

  /** After initialisation the checksum byte is stale: 0 does not match the
      default frame, which is why the flag must stay clear until a mutator runs. */
  lemma InitialChecksumStale()
    ensures !ChecksumValid(Bm1StateOf(InitialBlock()))
  {
    var b := InitialBlock();
    InitialZeroes();
    InitialStamps();
    var p := Payload(Bm1StateOf(b));
    forall j | 0 <= j < |p| && j != POWER ensures p[j] == 0 {
      assert !StampedByInit(BM1_STATE + j);
    }
    ChecksumOfOneErrorNonzero(p, POWER);
  }

  /** The invariant holds after every commit, whatever the block was before. */
  lemma CommitConsistent(b: Block, s: BusmoduleState)
    ensures Consistent(Commit(b, s))
  {
  }

  /** A receiver checks a published frame by folding all 16 bytes: the result
      is 0. */
  lemma PublishedFrameFoldsToZero(b: Block)
    requires Published(b)
    ensures Checksum(Field(b, Bm1StateArea)) == 0
  {
    var s := Bm1StateOf(b);
    var f := Field(b, Bm1StateArea);
    assert f == Payload(s) + [s.checksum];
    ChecksumOfSealedIsZero(Payload(s), s.checksum);
  }

  /** Any single corrupted byte of a published frame makes the receiver's
      fold nonzero. */
  lemma CorruptedFrameDetected(b: Block, k: nat, e: bv8)
    requires Published(b) && k < BM1_STATE_SIZE && e != 0
    ensures var f := Field(b, Bm1StateArea); Checksum(f[k := f[k] ^ e]) != 0
  {
    PublishedFrameFoldsToZero(b);
    var f := Field(b, Bm1StateArea);
    SingleByteErrorDetected(f, k, e);
  }

  /** The setpoint encoding: it wraps from 128 degrees up; below that, halving
      gives the whole-degree value back with no half degree. */
  lemma TwiceEncoding(t: bv8)
    ensures Twice(t) as int == if t < 128 then 2 * t as int else 2 * t as int - 256
    ensures t < 128 ==> Twice(t) as int / 2 == t as int && Twice(t) as int % 2 == 0
  {
  }

  // Effects of the mutators

  lemma TargetsUpdatedEffect(b: Block, power: bv8, vlTempC: bv8, wwTempC: bv8, stopPump: bv8)
    ensures var r := TargetsUpdated(b, power, vlTempC, wwTempC, stopPump); var s := Bm1StateOf(r);
      && Published(r) && OnlyBusModuleChanged(b, r)
      && s.power == power && s.vlSetX2 == Twice(vlTempC) && s.wwSetX2 == Twice(wwTempC)
      && s.stopPump == stopPump && s.error == 0
      && s.dummy1 == 1 && s.dummy2 == 1 && s.dummy4 == 0xFF
      && s.dummy3 == Bm1StateOf(b).dummy3
  {
  }

  lemma PumpStoppedEffect(b: Block)
    ensures var r := PumpStopped(b); var s := Bm1StateOf(r);
      && Published(r) && OnlyBusModuleChanged(b, r)
      && s == Bm1StateOf(b).(stopPump := 1, checksum := s.checksum)
  {
  }

  lemma PumpStartedEffect(b: Block)
    ensures var r := PumpStarted(b); var s := Bm1StateOf(r);
      && Published(r) && OnlyBusModuleChanged(b, r)
      && s == Bm1StateOf(b).(stopPump := 0, checksum := s.checksum)
  {
  }

  /** Both setpoints become 10 degrees C whatever they were; power, stopPump and
      the other bytes are kept. */
  lemma HeatingStoppedEffect(b: Block)
    ensures var r := HeatingStopped(b); var s := Bm1StateOf(r);
      && Published(r) && OnlyBusModuleChanged(b, r)
      && s.vlSetX2 == 20 && s.wwSetX2 == 20
      && s == Bm1StateOf(b).(vlSetX2 := 20, wwSetX2 := 20, checksum := s.checksum)
  {
  }

  lemma PowerlevelSetEffect(b: Block, powerLev: bv8)
    ensures var r := PowerlevelSet(b, powerLev); var s := Bm1StateOf(r);
      && Published(r) && OnlyBusModuleChanged(b, r)
      && s == Bm1StateOf(b).(power := powerLev, checksum := s.checksum)
  {
  }

  lemma HeatingSetpointSetEffect(b: Block, tempC: bv8)
    ensures var r := HeatingSetpointSet(b, tempC); var s := Bm1StateOf(r);
      && Published(r) && OnlyBusModuleChanged(b, r)
      && s == Bm1StateOf(b).(vlSetX2 := Twice(tempC), checksum := s.checksum)
  {
  }

  lemma HotWaterSetpointSetEffect(b: Block, tempC: bv8)
    ensures var r := HotWaterSetpointSet(b, tempC); var s := Bm1StateOf(r);
      && Published(r) && OnlyBusModuleChanged(b, r)
      && s == Bm1StateOf(b).(wwSetX2 := Twice(tempC), checksum := s.checksum)
  {
  }

  // Idempotence: a mutator applied twice with the same arguments gives the
  // block it gives once.

  lemma TargetsUpdatedIdempotent(b: Block, power: bv8, vlTempC: bv8, wwTempC: bv8, stopPump: bv8)
    ensures var r := TargetsUpdated(b, power, vlTempC, wwTempC, stopPump);
      TargetsUpdated(r, power, vlTempC, wwTempC, stopPump) == r
  {
    var x := Targets(Bm1StateOf(b), power, vlTempC, wwTempC, stopPump);
    var r := Commit(b, x);
    assert Targets(Bm1StateOf(r), power, vlTempC, wwTempC, stopPump) == x.(checksum := Sealed(x).checksum);
    CommitAbsorbs(b, x, x.(checksum := Sealed(x).checksum));
    CommitIgnoresChecksum(b, x, Sealed(x).checksum);
  }

  lemma PumpStoppedIdempotent(b: Block)
    ensures PumpStopped(PumpStopped(b)) == PumpStopped(b)
  {
    var x := Bm1StateOf(b).(stopPump := 1);
    CommitAbsorbs(b, x, Sealed(x));
    CommitIgnoresChecksum(b, x, Sealed(x).checksum);
  }

  lemma PumpStartedIdempotent(b: Block)
    ensures PumpStarted(PumpStarted(b)) == PumpStarted(b)
  {
    var x := Bm1StateOf(b).(stopPump := 0);
    CommitAbsorbs(b, x, Sealed(x));
    CommitIgnoresChecksum(b, x, Sealed(x).checksum);
  }

  lemma HeatingStoppedIdempotent(b: Block)
    ensures HeatingStopped(HeatingStopped(b)) == HeatingStopped(b)
  {
    var x := Bm1StateOf(b).(vlSetX2 := STOP_HEATING_X2, wwSetX2 := STOP_HEATING_X2);
    CommitAbsorbs(b, x, Sealed(x));
    CommitIgnoresChecksum(b, x, Sealed(x).checksum);
  }

  lemma PowerlevelSetIdempotent(b: Block, powerLev: bv8)
    ensures PowerlevelSet(PowerlevelSet(b, powerLev), powerLev) == PowerlevelSet(b, powerLev)
  {
    var x := Bm1StateOf(b).(power := powerLev);
    CommitAbsorbs(b, x, Sealed(x));
    CommitIgnoresChecksum(b, x, Sealed(x).checksum);
  }

  lemma HeatingSetpointSetIdempotent(b: Block, tempC: bv8)
    ensures HeatingSetpointSet(HeatingSetpointSet(b, tempC), tempC) == HeatingSetpointSet(b, tempC)
  {
    var x := Bm1StateOf(b).(vlSetX2 := Twice(tempC));
    CommitAbsorbs(b, x, Sealed(x));
    CommitIgnoresChecksum(b, x, Sealed(x).checksum);
  }

  lemma HotWaterSetpointSetIdempotent(b: Block, tempC: bv8)
    ensures HotWaterSetpointSet(HotWaterSetpointSet(b, tempC), tempC) == HotWaterSetpointSet(b, tempC)
  {
    var x := Bm1StateOf(b).(wwSetX2 := Twice(tempC));
    CommitAbsorbs(b, x, Sealed(x));
    CommitIgnoresChecksum(b, x, Sealed(x).checksum);
  }

  // ---------------------------------------------------------------------------
  // Concrete frames
  // ---------------------------------------------------------------------------

  /** The BM1 frame the device was logged writing at offset 0x90. */
  const LOGGED_FRAME: seq<bv8> :=
    [0xFF, 0xB4, 0x00, 0x01, 0x00, 0x01, 0x03, 0x00, 0x00, 0x00, 0x00, 0x00, 0x00, 0x00, 0xFF, 0x0D]

  /** Its bytes 0..14, the part the checksum covers. */
  const LOGGED_PAYLOAD: seq<bv8> := LOGGED_FRAME[..CHECKSUM]

  /** One step of the fold over a concrete string. */
  lemma ChecksumStep(s: seq<bv8>, acc: bv8, x: bv8, idx: bv8, next: bv8)
    requires Checksum(s) == acc && acc ^ x == idx && Entry(idx) == next
    ensures Checksum(s + [x]) == next
  {
    ChecksumSnoc(s, x);
  }

  /** The fold over the logged payload ends in 0x0D. */
  lemma LoggedPayloadChecksum()
    ensures Checksum(LOGGED_PAYLOAD) == 0x0D
  {
    var p: seq<bv8> := [];
    ChecksumStep(p, 0x00, 0xFF, 0xFF, 0x63); p := p + [0xFF];
    ChecksumStep(p, 0x63, 0xB4, 0xD7, 0x1D); p := p + [0xB4];
    ChecksumStep(p, 0x1D, 0x00, 0x1D, 0xF7); p := p + [0x00];
    ChecksumStep(p, 0xF7, 0x01, 0xF6, 0xAB); p := p + [0x01];
    ChecksumStep(p, 0xAB, 0x00, 0xAB, 0x7B); p := p + [0x00];
    ChecksumStep(p, 0x7B, 0x01, 0x7A, 0xF0); p := p + [0x01];
    ChecksumStep(p, 0xF0, 0x03, 0xF3, 0x76); p := p + [0x03];
    ChecksumStep(p, 0x76, 0x00, 0x76, 0xE5); p := p + [0x00];
    ChecksumStep(p, 0xE5, 0x00, 0xE5, 0x3B); p := p + [0x00];
    ChecksumStep(p, 0x3B, 0x00, 0x3B, 0xEE); p := p + [0x00];
    ChecksumStep(p, 0xEE, 0x00, 0xEE, 0x81); p := p + [0x00];
    ChecksumStep(p, 0x81, 0x00, 0x81, 0x77); p := p + [0x00];
    ChecksumStep(p, 0x77, 0x00, 0x77, 0xDC); p := p + [0x00];
    ChecksumStep(p, 0xDC, 0x00, 0xDC, 0xA7); p := p + [0x00];
    ChecksumStep(p, 0xA7, 0xFF, 0x58, 0x0D); p := p + [0xFF];
    assert p == LOGGED_PAYLOAD;
  }

  /** The logged frame carries a good checksum: 0x0D is the fold of its first
      15 bytes, so this model seals frames the way the real bus module does. */
  lemma LoggedFrameChecksumValid()
    ensures ChecksumValid(DecodeBm1(LOGGED_FRAME))
  {
    assert Payload(DecodeBm1(LOGGED_FRAME)) == LOGGED_PAYLOAD;
    LoggedPayloadChecksum();
  }

  /** The payload `updateBusmoduleTargets(0x80, 22, 45, 0)` writes over a freshly
      initialised block. */
  const TARGETS_PAYLOAD: seq<bv8> := [0x80, 44, 90, 1, 0, 1, 0, 0, 0, 0, 0, 0, 0, 0, 0xFF]

  /** The fold over that payload ends in 0x3B. */
  lemma TargetsPayloadChecksum()
    ensures Checksum(TARGETS_PAYLOAD) == 0x3B
  {
    var p: seq<bv8> := [];
    ChecksumStep(p, 0x00, 0x80, 0x80, 0x4E); p := p + [0x80];
    ChecksumStep(p, 0x4E, 0x2C, 0x62, 0xDA); p := p + [0x2C];
    ChecksumStep(p, 0xDA, 0x5A, 0x80, 0x4E); p := p + [0x5A];
    ChecksumStep(p, 0x4E, 0x01, 0x4F, 0x79); p := p + [0x01];
    ChecksumStep(p, 0x79, 0x00, 0x79, 0xBB); p := p + [0x00];
    ChecksumStep(p, 0xBB, 0x01, 0xBA, 0x99); p := p + [0x01];
    ChecksumStep(p, 0x99, 0x00, 0x99, 0x5D); p := p + [0x00];
    ChecksumStep(p, 0x5D, 0x00, 0x5D, 0xD0); p := p + [0x00];
    ChecksumStep(p, 0xD0, 0x00, 0xD0, 0xB2); p := p + [0x00];
    ChecksumStep(p, 0xB2, 0x00, 0xB2, 0x68); p := p + [0x00];
    ChecksumStep(p, 0x68, 0x00, 0x68, 0x59); p := p + [0x00];
    ChecksumStep(p, 0x59, 0x00, 0x59, 0x34); p := p + [0x00];
    ChecksumStep(p, 0x34, 0x00, 0x34, 0xB0); p := p + [0x00];
    ChecksumStep(p, 0xB0, 0x00, 0xB0, 0x1A); p := p + [0x00];
    ChecksumStep(p, 0x1A, 0xFF, 0xE5, 0x3B); p := p + [0xFF];
    assert p == TARGETS_PAYLOAD;
  }

  /** The record those bytes encode, with its checksum not yet computed. */
  const TARGETS_RECORD: BusmoduleState := BusmoduleState(0x80, 44, 90, 1, 0, 1, 0, [0, 0, 0, 0, 0, 0, 0], 0xFF, 0)

  lemma TargetsRecordChecksum()
    ensures Checksum(Payload(TARGETS_RECORD)) == 0x3B
  {
    assert Payload(TARGETS_RECORD) == TARGETS_PAYLOAD;
    TargetsPayloadChecksum();
  }

  /** The record `updateBusmoduleTargets(0x80, 22, 45, 0)` stores over the one
      initialisation leaves, before its checksum is recomputed. */
  lemma TargetsOverInitialRecord(b: Block)
    requires Bm1StateOf(b) == BusmoduleState(DEFAULT_POWER, 0, 0, 0, 0, 0, 0, [0, 0, 0, 0, 0, 0, 0], 0, 0)
    ensures Targets(Bm1StateOf(b), 0x80, 22, 45, 0) == TARGETS_RECORD
  {
  }

  /** A commit leaves the record with the checksum of its payload. */
  lemma CommittedRecord(b: Block, s: BusmoduleState, c: bv8)
    requires Checksum(Payload(s)) == c
    ensures Bm1StateOf(Commit(b, s)) == s.(checksum := c)
  {
  }

  /** `updateBusmoduleTargets(0x80, 22, 45, 0)` over any block whose record is
      the one initialisation leaves. */
  lemma TargetsFromInitialRecord(b: Block)
    requires Bm1StateOf(b) == BusmoduleState(DEFAULT_POWER, 0, 0, 0, 0, 0, 0, [0, 0, 0, 0, 0, 0, 0], 0, 0)
    ensures Bm1StateOf(TargetsUpdated(b, 0x80, 22, 45, 0))
         == BusmoduleState(0x80, 44, 90, 1, 0, 1, 0, [0, 0, 0, 0, 0, 0, 0], 0xFF, 0x3B)
  {
    TargetsOverInitialRecord(b);
    TargetsRecordChecksum();
    TargetsCommitted(b, TARGETS_RECORD, 0x3B);
  }

  /** The commit step of `TargetsFromInitialRecord`, over a record left abstract. */
  lemma TargetsCommitted(b: Block, x: BusmoduleState, c: bv8)
    requires Targets(Bm1StateOf(b), 0x80, 22, 45, 0) == x && Checksum(Payload(x)) == c
    ensures Bm1StateOf(TargetsUpdated(b, 0x80, 22, 45, 0)) == x.(checksum := c)
  {
    CommittedRecord(b, x, c);
  }

  /** `updateBusmoduleTargets(0x80, 22, 45, 0)` on a freshly initialised block. */
  lemma TargetsExample()
    ensures Bm1StateOf(TargetsUpdated(InitialBlock(), 0x80, 22, 45, 0))
         == BusmoduleState(0x80, 44, 90, 1, 0, 1, 0, [0, 0, 0, 0, 0, 0, 0], 0xFF, 0x3B)
  {
    InitialBm1State();
    TargetsFromInitialRecord(InitialBlock());
  }

  /** `furnaceSetHeatingSetpoint(22)` leaves vlSet_x2 at 44, which reads back as 22 degrees. */
  lemma HeatingSetpointExample(b: Block)
    ensures Bm1StateOf(HeatingSetpointSet(b, 22)).vlSetX2 == 44
    ensures Bm1StateOf(HeatingSetpointSet(b, 22)).vlSetX2 as int / 2 == 22
  {
  }
}
