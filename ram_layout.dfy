/** The emulated 256-byte I2C RAM block: one byte buffer, the offsets of its
    named fields, and the field view of the two state records laid over it. */
module RamLayout {

  const BLOCK_SIZE: nat := 256

  /** The raw view: 256 bytes, indexed 0..255. */
  type Block = b: seq<bv8> | |b| == BLOCK_SIZE witness seq(256, _ => 0)

  // Offsets of the named fields within the block
  const FURNACE_DATA_AVAIL: nat := 0x10
  const BM1_DATA_AVAIL: nat := 0x11
  const FURNACE_STATE: nat := 0x20
  const FURNACE_STATE_SIZE: nat := 13
  const BM1_STATE: nat := 0x90
  const BM1_STATE_SIZE: nat := 16
  const INIT_SEQ: nat := 0xE0
  const INIT_SEQ_SIZE: nat := 8
  const DEV_MAGIC: nat := 0xFE
  const DEV_VERSION: nat := 0xFF

  // Byte positions within bm1_state
  const POWER: nat := 0
  const VL_SET: nat := 1
  const WW_SET: nat := 2
  const BM1_DUMMY1: nat := 3
  const STOP_PUMP: nat := 4
  const BM1_DUMMY2: nat := 5
  const BM1_ERROR: nat := 6
  const BM1_DUMMY3: nat := 7
  const BM1_DUMMY3_SIZE: nat := 7
  const BM1_DUMMY4: nat := 14
  const CHECKSUM: nat := 15

  /** Absolute offset of the BM1 checksum byte (0x9F). */
  const BM1_CHECKSUM: nat := BM1_STATE + CHECKSUM

  type Reserved7 = s: seq<bv8> | |s| == BM1_DUMMY3_SIZE witness [0, 0, 0, 0, 0, 0, 0]

  /** Telemetry written by the furnace; temperatures in half-degree units. */
  datatype FurnaceState = FurnaceState(
    vlMaxX2: bv8, vlTempX2: bv8, dlMaxX2: bv8, dlTempX2: bv8, wwMaxX2: bv8, wwTempX2: bv8,
    error: bv8, dummy1: bv8, dummy2: bv8, flame: bv8, pump: bv8, flags: bv8, dummy3: bv8)

  /** Control state written by the bus module; the last byte protects the other 15. */
  datatype BusmoduleState = BusmoduleState(
    power: bv8, vlSetX2: bv8, wwSetX2: bv8, dummy1: bv8, stopPump: bv8, dummy2: bv8,
    error: bv8, dummy3: Reserved7, dummy4: bv8, checksum: bv8)

  /** Byte `k` of the furnace record, in declaration order. */
  function FurnaceByte(s: FurnaceState, k: nat): bv8
    requires k < FURNACE_STATE_SIZE
  {
    match k
    case 0 => s.vlMaxX2
    case 1 => s.vlTempX2
    case 2 => s.dlMaxX2
    case 3 => s.dlTempX2
    case 4 => s.wwMaxX2
    case 5 => s.wwTempX2
    case 6 => s.error
    case 7 => s.dummy1
    case 8 => s.dummy2
    case 9 => s.flame
    case 10 => s.pump
    case 11 => s.flags
    case _ => s.dummy3
  }

  /** Byte `k` of the bus-module record, in declaration order. */
  function Bm1Byte(s: BusmoduleState, k: nat): bv8
    requires k < BM1_STATE_SIZE
  {
    if k == POWER then s.power
    else if k == VL_SET then s.vlSetX2
    else if k == WW_SET then s.wwSetX2
    else if k == BM1_DUMMY1 then s.dummy1
    else if k == STOP_PUMP then s.stopPump
    else if k == BM1_DUMMY2 then s.dummy2
    else if k == BM1_ERROR then s.error
    else if k < BM1_DUMMY4 then s.dummy3[k - BM1_DUMMY3]
    else if k == BM1_DUMMY4 then s.dummy4
    else s.checksum
  }

  /** The 16 bytes of a bus-module record; reading them back gives the record. */
  function EncodeBm1(s: BusmoduleState): (f: seq<bv8>)
    ensures |f| == BM1_STATE_SIZE
    ensures forall k :: 0 <= k < BM1_STATE_SIZE ==> f[k] == Bm1Byte(s, k)
    ensures DecodeBm1(f) == s
  {
    var f := seq(BM1_STATE_SIZE, k requires 0 <= k < BM1_STATE_SIZE => Bm1Byte(s, k));
    assert f[BM1_DUMMY3..BM1_DUMMY4] == s.dummy3;
    f
  }

  /** Reads 16 bytes as a bus-module record. */
  function DecodeBm1(f: seq<bv8>): (s: BusmoduleState)
    requires |f| == BM1_STATE_SIZE
    ensures forall k :: 0 <= k < BM1_STATE_SIZE ==> Bm1Byte(s, k) == f[k]
  {
    BusmoduleState(f[0], f[1], f[2], f[3], f[4], f[5], f[6], f[7..14], f[14], f[15])
  }

  /** A record is determined by its 16 bytes. */
  lemma Bm1ByteDetermines(s: BusmoduleState, t: BusmoduleState)
    requires forall k :: 0 <= k < BM1_STATE_SIZE ==> Bm1Byte(s, k) == Bm1Byte(t, k)
    ensures s == t
  {
    assert Bm1Byte(s, POWER) == Bm1Byte(t, POWER) && Bm1Byte(s, VL_SET) == Bm1Byte(t, VL_SET);
    assert Bm1Byte(s, WW_SET) == Bm1Byte(t, WW_SET) && Bm1Byte(s, BM1_DUMMY1) == Bm1Byte(t, BM1_DUMMY1);
    assert Bm1Byte(s, STOP_PUMP) == Bm1Byte(t, STOP_PUMP) && Bm1Byte(s, BM1_DUMMY2) == Bm1Byte(t, BM1_DUMMY2);
    assert Bm1Byte(s, BM1_ERROR) == Bm1Byte(t, BM1_ERROR) && Bm1Byte(s, BM1_DUMMY4) == Bm1Byte(t, BM1_DUMMY4);
    assert Bm1Byte(s, CHECKSUM) == Bm1Byte(t, CHECKSUM);
    assert s.dummy3 == t.dummy3 by {
      forall j | 0 <= j < BM1_DUMMY3_SIZE ensures s.dummy3[j] == t.dummy3[j] {
        assert Bm1Byte(s, BM1_DUMMY3 + j) == Bm1Byte(t, BM1_DUMMY3 + j);
      }
    }
  }

  lemma EncodeDecodeBm1(f: seq<bv8>)
    requires |f| == BM1_STATE_SIZE
    ensures EncodeBm1(DecodeBm1(f)) == f
  {
  }

  // ---------------------------------------------------------------------------
  // Field view over the raw view
  // ---------------------------------------------------------------------------

  /** `furnace_state`: the 13 bytes at 0x20..0x2C, in declaration order. */
  function FurnaceStateOf(b: Block): (s: FurnaceState)
    ensures forall k :: 0 <= k < FURNACE_STATE_SIZE ==> FurnaceByte(s, k) == b[FURNACE_STATE + k]
  {
    FurnaceState(b[0x20], b[0x21], b[0x22], b[0x23], b[0x24], b[0x25], b[0x26],
                 b[0x27], b[0x28], b[0x29], b[0x2A], b[0x2B], b[0x2C])
  }

  /** `bm1_state`: the 16 bytes at 0x90..0x9F, in declaration order. */
  function Bm1StateOf(b: Block): (s: BusmoduleState)
    ensures forall k :: 0 <= k < BM1_STATE_SIZE ==> Bm1Byte(s, k) == b[BM1_STATE + k]
  {
    DecodeBm1(b[BM1_STATE..BM1_STATE + BM1_STATE_SIZE])
  }

  predicate InBm1State(i: int) {
    BM1_STATE <= i < BM1_STATE + BM1_STATE_SIZE
  }

  /** A store of a whole record through the field view: every byte outside
      0x90..0x9F is as before, and the record reads back as the one stored. */
  function WithBm1State(b: Block, s: BusmoduleState): (r: Block)
    ensures forall i :: 0 <= i < BLOCK_SIZE && !InBm1State(i) ==> r[i] == b[i]
    ensures forall k :: 0 <= k < BM1_STATE_SIZE ==> r[BM1_STATE + k] == Bm1Byte(s, k)
    ensures Bm1StateOf(r) == s
  {
    var r: Block := seq(BLOCK_SIZE, i requires 0 <= i < BLOCK_SIZE =>
      if InBm1State(i) then Bm1Byte(s, i - BM1_STATE) else b[i]);
    assert r[BM1_STATE..BM1_STATE + BM1_STATE_SIZE] == EncodeBm1(s);
    r
  }

  /** Two blocks that agree on 0x90..0x9F have the same bus-module record. */
  lemma Bm1StateOfAgrees(b: Block, c: Block)
    requires forall i :: BM1_STATE <= i < BM1_STATE + BM1_STATE_SIZE ==> b[i] == c[i]
    ensures Bm1StateOf(b) == Bm1StateOf(c)
  {
    assert b[BM1_STATE..BM1_STATE + BM1_STATE_SIZE] == c[BM1_STATE..BM1_STATE + BM1_STATE_SIZE];
  }

  /** Storing the record a block already holds changes nothing. */
  lemma WithBm1StateOfSelf(b: Block)
    ensures WithBm1State(b, Bm1StateOf(b)) == b
  {
    var r := WithBm1State(b, Bm1StateOf(b));
    assert forall i :: 0 <= i < BLOCK_SIZE ==> r[i] == b[i] by {
      forall i | 0 <= i < BLOCK_SIZE ensures r[i] == b[i] {
        if InBm1State(i) {
          assert r[BM1_STATE + (i - BM1_STATE)] == b[BM1_STATE + (i - BM1_STATE)];
        }
      }
    }
  }

  /** A second store through the field view overwrites the first entirely. */
  lemma WithBm1StateTwice(b: Block, s: BusmoduleState, t: BusmoduleState)
    ensures WithBm1State(WithBm1State(b, s), t) == WithBm1State(b, t)
  {
    var r1 := WithBm1State(WithBm1State(b, s), t);
    var r2 := WithBm1State(b, t);
    assert forall i :: 0 <= i < BLOCK_SIZE ==> r1[i] == r2[i] by {
      forall i | 0 <= i < BLOCK_SIZE ensures r1[i] == r2[i] {
        if InBm1State(i) {
          assert r1[BM1_STATE + (i - BM1_STATE)] == r2[BM1_STATE + (i - BM1_STATE)];
        }
      }
    }
  }

  // ---------------------------------------------------------------------------
  // Named regions
  // ---------------------------------------------------------------------------

  /** The named fields of the block; every other byte is an unnamed `field_NNN`. */
  datatype Region =
    | FurnaceDataAvail | Bm1DataAvail | FurnaceStateArea | Bm1StateArea
    | InitSeqArea | DevMagic | DevVersion
  {
    function Start(): nat {
      match this
      case FurnaceDataAvail => FURNACE_DATA_AVAIL
      case Bm1DataAvail => BM1_DATA_AVAIL
      case FurnaceStateArea => FURNACE_STATE
      case Bm1StateArea => BM1_STATE
      case InitSeqArea => INIT_SEQ
      case DevMagic => DEV_MAGIC
      case DevVersion => DEV_VERSION
    }

    function Size(): nat {
      match this
      case FurnaceStateArea => FURNACE_STATE_SIZE
      case Bm1StateArea => BM1_STATE_SIZE
      case InitSeqArea => INIT_SEQ_SIZE
      case _ => 1
    }

    function End(): nat {
      Start() + Size()
    }

    predicate Contains(i: int) {
      Start() <= i < End()
    }
  }

  /** The bytes of a named field. */
  function Field(b: Block, r: Region): (f: seq<bv8>)
    ensures |f| == r.Size()
    ensures forall k :: 0 <= k < r.Size() ==> f[k] == b[r.Start() + k]
  {
    b[r.Start()..r.End()]
  }

  /** The union aliases `raw_data` and `fields`: the raw bytes of each record
      area are the encoding of the record read through the field view, byte k
      of the area being field k of the record. */
  lemma FieldsAreRecords(b: Block)
    ensures Field(b, Bm1StateArea) == EncodeBm1(Bm1StateOf(b))
    ensures forall k :: 0 <= k < FURNACE_STATE_SIZE ==>
      Field(b, FurnaceStateArea)[k] == FurnaceByte(FurnaceStateOf(b), k)
  {
    EncodeDecodeBm1(Field(b, Bm1StateArea));
  }

  /** Distinct named fields share no byte. */
  lemma RegionsDisjoint(r1: Region, r2: Region)
    requires r1 != r2
    ensures r1.End() <= r2.Start() || r2.End() <= r1.Start()
  {
  }

  /** Two blocks that agree on the bytes of a field have the same field. */
  lemma FieldOfAgreeing(b: Block, c: Block, r: Region)
    requires forall i :: 0 <= i < BLOCK_SIZE && r.Contains(i) ==> b[i] == c[i]
    ensures Field(b, r) == Field(c, r)
  {
    assert forall k :: 0 <= k < r.Size() ==> Field(b, r)[k] == Field(c, r)[k];
  }

  /** A one-byte store leaves every named field that does not contain it unchanged. */
  lemma StoreKeepsOtherFields(b: Block, i: nat, v: bv8, r: Region)
    requires i < BLOCK_SIZE && !r.Contains(i)
    ensures Field(b[i := v], r) == Field(b, r)
  {
  }

  /** A store into one named field leaves every other named field unchanged. */
  lemma StoreIntoFieldKeepsOthers(b: Block, r: Region, k: nat, v: bv8, other: Region)
    requires k < r.Size() && other != r
    ensures Field(b[r.Start() + k := v], other) == Field(b, other)
  {
    RegionsDisjoint(r, other);
    StoreKeepsOtherFields(b, r.Start() + k, v, other);
  }

  // ---------------------------------------------------------------------------
  // The struct declaration, member by member
  // ---------------------------------------------------------------------------

  /** A member of the field struct: a run of unnamed padding bytes or a named field. */
  datatype Member = Pad(n: nat) | Named(r: Region)

  function MemberSize(m: Member): nat {
    match m
    case Pad(n) => n
    case Named(r) => r.Size()
  }

  /** The field struct in declaration order. */
  const Layout: seq<Member> := [
    Pad(16), Named(FurnaceDataAvail), Named(Bm1DataAvail), Pad(14), Named(FurnaceStateArea),
    Pad(99), Named(Bm1StateArea), Pad(64), Named(InitSeqArea), Pad(22), Named(DevMagic),
    Named(DevVersion)]

  /** Offset at which the member after the first `n` members starts. */
  function OffsetAfter(ms: seq<Member>, n: nat): nat
    requires n <= |ms|
  {
    if n == 0 then 0 else OffsetAfter(ms, n - 1) + MemberSize(ms[n - 1])
  }

  /** The struct covers exactly the 256 bytes of the raw view, and laying its
      members one after another puts every named field at its documented offset. */
  lemma LayoutMatchesOffsets()
    ensures OffsetAfter(Layout, |Layout|) == BLOCK_SIZE
    ensures forall j :: 0 <= j < |Layout| && Layout[j].Named? ==>
      OffsetAfter(Layout, j) == Layout[j].r.Start()
  {
    assert OffsetAfter(Layout, 1) == 16;
    assert OffsetAfter(Layout, 2) == 17;
    assert OffsetAfter(Layout, 3) == 18;
    assert OffsetAfter(Layout, 4) == 32;
    assert OffsetAfter(Layout, 5) == 45;
    assert OffsetAfter(Layout, 6) == 144;
    assert OffsetAfter(Layout, 7) == 160;
    assert OffsetAfter(Layout, 8) == 224;
    assert OffsetAfter(Layout, 9) == 232;
    assert OffsetAfter(Layout, 10) == 254;
    assert OffsetAfter(Layout, 11) == 255;
  }
}
