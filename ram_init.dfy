/** Start-up initialisation of the emulated I2C RAM block. */
module RamInit {
  import opened RamLayout

  /** The identity bytes stamped at 0xE0 ("IF 04.00"). */
  const INIT_SEQUENCE: seq<bv8> := [0x49, 0x46, 0x20, 0x30, 0x34, 0x2e, 0x30, 0x30]
  const MAGIC: bv8 := 0xFC
  const VERSION: bv8 := 0x03
  /** Default BM1 power level, about half of the full 0xFF. */
  const DEFAULT_POWER: bv8 := 0x80

  /** The block `initRamDatablock` leaves behind: zero fill, then the identity
      sequence, magic, version, both flags cleared and the default power. */
  function InitialBlock(): Block {
    var zero: Block := seq(BLOCK_SIZE, _ => 0);
    var stamped: Block := zero[..INIT_SEQ] + INIT_SEQUENCE + zero[INIT_SEQ + INIT_SEQ_SIZE..];
    stamped[DEV_MAGIC := MAGIC][DEV_VERSION := VERSION]
           [FURNACE_DATA_AVAIL := 0][BM1_DATA_AVAIL := 0][BM1_STATE + POWER := DEFAULT_POWER]
  }

  /** Bytes that initialisation sets to something other than zero. */
  predicate StampedByInit(i: int) {
    i == BM1_STATE + POWER || INIT_SEQ <= i < INIT_SEQ + INIT_SEQ_SIZE || i == DEV_MAGIC || i == DEV_VERSION
  }

  /** Every byte initialisation does not stamp is zero. */
  lemma InitialZeroes()
    ensures forall i :: 0 <= i < BLOCK_SIZE && !StampedByInit(i) ==> InitialBlock()[i] == 0
  {
  }

  /** The stamped bytes: identity sequence, magic, version and default power. */
  lemma InitialStamps()
    ensures var b := InitialBlock();
      && Field(b, InitSeqArea) == INIT_SEQUENCE
      && b[DEV_MAGIC] == MAGIC && b[DEV_VERSION] == VERSION
      && b[BM1_STATE + POWER] == DEFAULT_POWER
  {
    var b := InitialBlock();
    assert Field(b, InitSeqArea) == INIT_SEQUENCE;
  }

  /** Initialisation leaves both availability flags clear. */
  lemma InitialFlagsClear()
    ensures InitialBlock()[FURNACE_DATA_AVAIL] == 0 && InitialBlock()[BM1_DATA_AVAIL] == 0
  {
    InitialZeroes();
  }

  /** The bus-module record initialisation leaves: default power, all else zero. */
  lemma InitialBm1State()
    ensures Bm1StateOf(InitialBlock()) == BusmoduleState(DEFAULT_POWER, 0, 0, 0, 0, 0, 0, [0, 0, 0, 0, 0, 0, 0], 0, 0)
  {
    var b := InitialBlock();
    InitialZeroes();
    InitialStamps();
    var s := Bm1StateOf(b);
    assert s.power == DEFAULT_POWER && s.checksum == 0;
    assert s.dummy3 == [0, 0, 0, 0, 0, 0, 0] by {
      forall k | 0 <= k < BM1_DUMMY3_SIZE ensures s.dummy3[k] == 0 {
        assert Bm1Byte(s, BM1_DUMMY3 + k) == b[BM1_STATE + BM1_DUMMY3 + k];
      }
    }
  }

  /** The furnace record initialisation leaves: all zero. */
  lemma InitialFurnaceState()
    ensures FurnaceStateOf(InitialBlock()) == FurnaceState(0, 0, 0, 0, 0, 0, 0, 0, 0, 0, 0, 0, 0)
  {
    InitialZeroes();
  }

  /** What initialisation establishes, field by field. */
  lemma InitialBlockContents()
    ensures var b := InitialBlock();
      && Field(b, InitSeqArea) == INIT_SEQUENCE
      && b[DEV_MAGIC] == MAGIC && b[DEV_VERSION] == VERSION
      && b[FURNACE_DATA_AVAIL] == 0 && b[BM1_DATA_AVAIL] == 0
      && Bm1StateOf(b) == BusmoduleState(DEFAULT_POWER, 0, 0, 0, 0, 0, 0, [0, 0, 0, 0, 0, 0, 0], 0, 0)
      && FurnaceStateOf(b) == FurnaceState(0, 0, 0, 0, 0, 0, 0, 0, 0, 0, 0, 0, 0)
      && forall i :: 0 <= i < BLOCK_SIZE && !StampedByInit(i) ==> b[i] == 0
  {
    InitialZeroes();
    InitialStamps();
    InitialFlagsClear();
    InitialBm1State();
    InitialFurnaceState();
  }

  /** `initRamDatablock`: the result does not depend on what the block held before. */
  method InitRamDatablock(mem: array<bv8>)
    requires mem.Length == BLOCK_SIZE
    modifies mem
    ensures mem[..] == InitialBlock()
  {
    forall i | 0 <= i < BLOCK_SIZE {
      mem[i] := 0;
    }
    forall k | 0 <= k < INIT_SEQ_SIZE {
      mem[INIT_SEQ + k] := INIT_SEQUENCE[k];
    }
    mem[DEV_MAGIC] := MAGIC;
    mem[DEV_VERSION] := VERSION;
    mem[FURNACE_DATA_AVAIL] := 0;
    mem[BM1_DATA_AVAIL] := 0;
    mem[BM1_STATE + POWER] := DEFAULT_POWER;
    assert mem[..] == InitialBlock();
  }
}
