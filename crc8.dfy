/** CRC-8 engine: polynomial 0x39, MSB first, table driven, used to seal the
    bus-module (BM1) control frame. Bytes are `bv8`, so a left shift drops the
    bit that leaves the byte, exactly as the store back into a `uint8_t` does. */
module Crc8 {

  const TABLE_SIZE: nat := 256
  const POLY: bv8 := 0x39
  /** Division steps per byte, one per bit. */
  const ROUNDS: nat := 8

  /** One polynomial-division step: shift left; if the bit shifted out was set,
      XOR in the polynomial. */
  function Round(c: bv8): bv8 {
    if c & 0x80 != 0 then (c << 1) ^ POLY else c << 1
  }

  /** `n` division steps applied to `c`. */
  function Rounds(c: bv8, n: nat): bv8 {
    if n == 0 then c else Round(Rounds(c, n - 1))
  }

  /** The table entry for index `i`: the CRC-8 remainder of the single byte `i`. */
  function Entry(i: bv8): bv8 {
    Rounds(i, ROUNDS)
  }

  /** The incremental update: fold one more byte into the running checksum. */
  function Update(crcIn: bv8, newValue: bv8): bv8 {
    Entry(crcIn ^ newValue)
  }

  /** The checksum of a byte string: `Update` folded left to right from 0. */
  function Checksum(s: seq<bv8>): bv8 {
    if s == [] then 0 else Update(Checksum(s[..|s| - 1]), s[|s| - 1])
  }

  /** XOR of two bytes, as a named step: the linearity proofs below rewrite
      with it instead of handing the solver raw bit-vector XOR. */
  function XorByte(a: bv8, b: bv8): bv8 {
    a ^ b
  }

  /** Bytewise XOR of two strings of equal length. */
  function Xor(s: seq<bv8>, t: seq<bv8>): (r: seq<bv8>)
    requires |s| == |t|
    ensures |r| == |s|
    ensures forall k :: 0 <= k < |r| ==> r[k] == s[k] ^ t[k]
  {
    seq(|s|, k requires 0 <= k < |s| => s[k] ^ t[k])
  }

  // ---------------------------------------------------------------------------
  // The static lookup table and its initialisation
  // ---------------------------------------------------------------------------

  class Crc8Table {
    /** The static table; it is zero until `InitCrc8` has run. */
    const table: array<bv8>

    ghost predicate Valid() {
      table.Length == TABLE_SIZE
    }

    /** Every entry holds the remainder of its own index. */
    ghost predicate Initialised()
      reads table
    {
      Valid() && forall i :: 0 <= i < TABLE_SIZE ==> table[i] == Entry(i as bv8)
    }

    /** Static storage: zero-filled, hence not yet usable for checksums. */
    constructor ()
      ensures Valid() && fresh(table)
      ensures forall i :: 0 <= i < TABLE_SIZE ==> table[i] == 0
      ensures !Initialised()
    {
      table := new bv8[TABLE_SIZE](_ => 0);
      new;
      EntryOfOne();
      assert table[1] != Entry(1 as bv8);
    }

    /** Fills every entry with eight division steps of its index. The result
        does not depend on what the table held before, so running it again
        rewrites an identical table. */
    method InitCrc8()
      requires Valid()
      modifies table
      ensures Initialised()
    {
      var i := 0;
      while i < TABLE_SIZE
        invariant 0 <= i <= TABLE_SIZE
        invariant forall k :: 0 <= k < i ==> table[k] == Entry(k as bv8)
      {
        var crc: bv8 := i as bv8;
        var j := 0;
        while j < 8
          invariant 0 <= j <= 8
          invariant crc == Rounds(i as bv8, j)
        {
          crc := (crc << 1) ^ (if crc & 0x80 != 0 then POLY else 0);
          j := j + 1;
        }
        table[i] := crc & 0xFF;
        i := i + 1;
      }
    }

    /** `crc8(crc_in, new_value)`: one table lookup at `crc_in ^ new_value`. */
    method Crc8(crcIn: bv8, newValue: bv8) returns (r: bv8)
      requires Initialised()
      ensures r == Update(crcIn, newValue)
    {
      r := table[(crcIn ^ newValue) as int];
    }
  }

  // ---------------------------------------------------------------------------
  // Properties of the table
  // ---------------------------------------------------------------------------

  /** A set bit 0 reaches the MSB after seven steps; the eighth XORs in the polynomial. */
  lemma EntryOfOne()
    ensures Entry(1) == POLY
  {
    assert Rounds(1, 7) == 0x80;
  }

  /** One division step is linear over XOR. */
  lemma RoundLinear(a: bv8, b: bv8)
    ensures Round(XorByte(a, b)) == XorByte(Round(a), Round(b))
  {
    if a & 0x80 != 0 {
      if b & 0x80 != 0 { assert (a ^ b) & 0x80 == 0; assert Round(a^b) == (a^b) << 1; }
      else { assert (a ^ b) & 0x80 != 0; }
    } else {
      if b & 0x80 != 0 { assert (a ^ b) & 0x80 != 0; } else { assert (a ^ b) & 0x80 == 0; }
    }
  }

  lemma {:induction false} RoundsLinear(a: bv8, b: bv8, n: nat)
    ensures Rounds(XorByte(a, b), n) == XorByte(Rounds(a, n), Rounds(b, n))
  {
    if n > 0 {
      RoundsLinear(a, b, n - 1);
      RoundLinear(Rounds(a, n - 1), Rounds(b, n - 1));
    }
  }

  /** The table is linear over XOR: `table[a ^ b] == table[a] ^ table[b]`. */
  lemma EntryLinear(a: bv8, b: bv8)
    ensures Entry(XorByte(a, b)) == XorByte(Entry(a), Entry(b))
  {
    RoundsLinear(a, b, 8);
  }

  /** `table[0] == 0`, a consequence of linearity. */
  lemma EntryOfZero()
    ensures Entry(0) == 0
  {
    EntryLinear(0, 0);
  }

  /** One division step loses no information: bit 0 of the result records the
      bit that was shifted out. */
  lemma RoundInjective(a: bv8, b: bv8)
    requires Round(a) == Round(b)
    ensures a == b
  {
  }

  lemma {:induction false} RoundsInjective(a: bv8, b: bv8, n: nat)
    requires Rounds(a, n) == Rounds(b, n)
    ensures a == b
  {
    if n > 0 {
      RoundInjective(Rounds(a, n - 1), Rounds(b, n - 1));
      RoundsInjective(a, b, n - 1);
    }
  }

  /** Only index 0 has entry 0. */
  lemma EntryZeroIff(y: bv8)
    ensures Entry(y) == 0 <==> y == 0
  {
    EntryOfZero();
    if Entry(y) == 0 {
      RoundsInjective(y, 0, 8);
    }
  }

  /** The update is linear over XOR in both arguments at once. */
  lemma UpdateLinear(c1: bv8, b1: bv8, c2: bv8, b2: bv8)
    ensures Update(XorByte(c1, c2), XorByte(b1, b2)) == XorByte(Update(c1, b1), Update(c2, b2))
  {
    assert (c1 ^ c2) ^ (b1 ^ b2) == (c1 ^ b1) ^ (c2 ^ b2);
    EntryLinear(c1 ^ b1, c2 ^ b2);
  }

  /** The update depends on its two arguments only through their XOR. */
  lemma UpdateDependsOnXor(c1: bv8, b1: bv8, c2: bv8, b2: bv8)
    requires c1 ^ b1 == c2 ^ b2
    ensures Update(c1, b1) == Update(c2, b2)
  {
  }

  // ---------------------------------------------------------------------------
  // Properties of the checksum
  // ---------------------------------------------------------------------------

  /** Folding one more byte into a checksum. */
  lemma ChecksumSnoc(s: seq<bv8>, x: bv8)
    ensures Checksum(s + [x]) == Update(Checksum(s), x)
  {
    assert (s + [x])[..|s|] == s;
  }

  /** Appending the checksum to the bytes it covers gives a string whose own
      checksum is 0, and no other trailing byte does: the receiver's frame check. */
  lemma ChecksumOfSealedIsZero(s: seq<bv8>, x: bv8)
    ensures Checksum(s + [x]) == 0 <==> x == Checksum(s)
  {
    ChecksumSnoc(s, x);
    EntryZeroIff(Checksum(s) ^ x);
  }

  /** The checksum is linear over bytewise XOR of equally long strings. */
  lemma {:induction false} ChecksumLinear(s: seq<bv8>, t: seq<bv8>)
    requires |s| == |t|
    ensures Checksum(Xor(s, t)) == Checksum(s) ^ Checksum(t)
  {
    if s == [] {
      assert Xor(s, t) == [];
    } else {
      var n := |s| - 1;
      var x := Xor(s, t);
      assert x[..n] == Xor(s[..n], t[..n]);
      ChecksumLinear(s[..n], t[..n]);
      ChecksumLinearStep(x, s, t);
    }
  }

  /** The inductive step of `ChecksumLinear`, given its hypothesis. */
  lemma ChecksumLinearStep(x: seq<bv8>, s: seq<bv8>, t: seq<bv8>)
    requires |x| == |s| == |t| > 0
    requires x[|x| - 1] == XorByte(s[|s| - 1], t[|t| - 1])
    requires Checksum(x[..|x| - 1]) == XorByte(Checksum(s[..|s| - 1]), Checksum(t[..|t| - 1]))
    ensures Checksum(x) == XorByte(Checksum(s), Checksum(t))
  {
    var n := |x| - 1;
    UpdateLinear(Checksum(s[..n]), s[n], Checksum(t[..n]), t[n]);
  }

  /** A string that is zero except for one nonzero byte has a nonzero checksum. */
  lemma {:induction false} ChecksumOfOneErrorNonzero(s: seq<bv8>, k: nat)
    requires k < |s| && s[k] != 0
    requires forall j :: 0 <= j < |s| && j != k ==> s[j] == 0
    ensures Checksum(s) != 0
  {
    var n := |s| - 1;
    EntryZeroIff(Checksum(s[..n]) ^ s[n]);
    if n == k {
      ChecksumOfZeroes(s[..n]);
    } else {
      ChecksumOfOneErrorNonzero(s[..n], k);
    }
  }

  lemma {:induction false} ChecksumOfZeroes(s: seq<bv8>)
    requires forall j :: 0 <= j < |s| ==> s[j] == 0
    ensures Checksum(s) == 0
  {
    if s != [] {
      ChecksumOfZeroes(s[..|s| - 1]);
      EntryOfZero();
    }
  }

  /** Any single corrupted byte changes the checksum, so it is always detected. */
  lemma SingleByteErrorDetected(s: seq<bv8>, k: nat, e: bv8)
    requires k < |s| && e != 0
    ensures Checksum(s[k := s[k] ^ e]) != Checksum(s)
  {
    var t := s[k := s[k] ^ e];
    ChecksumLinear(s, t);
    ChecksumOfOneErrorNonzero(Xor(s, t), k);
  }
}
