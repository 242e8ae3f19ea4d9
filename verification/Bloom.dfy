/** The bit vector that gates lookups: a byte array addressed bit by bit. */
module Bloom {
  import opened BitMask

  /** The byte with only bit `i` set. */
  function OneBit(i: nat): bv8
    requires i < 8
  {
    if i == 0 then 1 else if i == 1 then 2 else if i == 2 then 4 else if i == 3 then 8
    else if i == 4 then 16 else if i == 5 then 32 else if i == 6 then 64 else 128
  }

  lemma OneBitIsPower(i: nat)
    requires i < 8
    ensures OneBit(i) as nat == Pow2(i)
  {
  }

  predicate HasBit(byte: bv8, i: nat)
    requires i < 8
  {
    byte & OneBit(i) != 0
  }

  function OrBit(byte: bv8, i: nat): bv8
    requires i < 8
  {
    byte | OneBit(i)
  }

  lemma OrSetsOneBit(byte: bv8, i: nat, j: nat)
    requires i < 8 && j < 8
    ensures HasBit(OrBit(byte, i), j) <==> i == j || HasBit(byte, j)
  {
  }

  lemma SameAddress(idx: nat, j: nat)
    ensures idx / 8 == j / 8 && idx % 8 == j % 8 <==> idx == j
  {
  }

  /** Bytes needed for 2^nbits bits. */
  function ByteLength(nbits: nat): nat {
    var bits := Pow2(nbits);
    bits / 8 + (if bits % 8 != 0 then 1 else 0)
  }

  /** The bit that stands for a hash value. */
  function BitOf(hashv: nat, nbits: nat): nat {
    And(hashv, Pow2(nbits) - 1)
  }

  /** A value's bit is its remainder, and there is room for just as many bits, in whole bytes. */
  lemma BitsAndBytes(hashv: nat, nbits: nat)
    ensures BitOf(hashv, nbits) == hashv % Pow2(nbits) < Pow2(nbits)
    ensures ByteLength(nbits) * 8 >= Pow2(nbits) > (ByteLength(nbits) - 1) * 8
  {
    MaskIsModulus(hashv, nbits);
  }

  ghost predicate IsSet(bits: seq<bv8>, idx: nat) {
    idx / 8 < |bits| && HasBit(bits[idx / 8], idx % 8)
  }

  /** Every hash value of `hs` has its bit set. */
  ghost predicate Covers(bits: seq<bv8>, nbits: nat, hs: set<nat>) {
    forall h | h in hs :: IsSet(bits, BitOf(h, nbits))
  }

  lemma BitInRange(hashv: nat, nbits: nat)
    ensures BitOf(hashv, nbits) / 8 < ByteLength(nbits)
  {
    SplitAtBit(hashv, nbits);
  }

  function WithBit(bits: seq<bv8>, idx: nat): seq<bv8> {
    if idx / 8 < |bits| then bits[idx / 8 := OrBit(bits[idx / 8], idx % 8)] else bits
  }

  /** Setting a bit sets that bit and changes no other. */
  lemma WithBitSets(bits: seq<bv8>, idx: nat, j: nat)
    requires idx / 8 < |bits|
    ensures IsSet(WithBit(bits, idx), j) <==> j == idx || IsSet(bits, j)
  {
    SameAddress(idx, j);
    if j / 8 == idx / 8 {
      OrSetsOneBit(bits[idx / 8], idx % 8, j % 8);
    }
  }

  method Make(nbits: nat) returns (bv: array<bv8>)
    ensures fresh(bv) && bv.Length == ByteLength(nbits)
    ensures forall idx: nat :: !IsSet(bv[..], idx)
  {
    bv := new bv8[ByteLength(nbits)](_ => 0);
  }

  method Add(bv: array<bv8>, nbits: nat, hashv: nat)
    requires bv.Length == ByteLength(nbits)
    modifies bv
    ensures bv[..] == WithBit(old(bv[..]), BitOf(hashv, nbits))
  {
    BitInRange(hashv, nbits);
    var idx := And(hashv, Pow2(nbits) - 1);
    bv[idx / 8] := OrBit(bv[idx / 8], idx % 8);
  }

  method Test(bv: array<bv8>, nbits: nat, hashv: nat) returns (hit: bool)
    requires bv.Length == ByteLength(nbits)
    ensures hit <==> IsSet(bv[..], BitOf(hashv, nbits))
  {
    BitInRange(hashv, nbits);
    var idx := And(hashv, Pow2(nbits) - 1);
    hit := HasBit(bv[idx / 8], idx % 8);
  }

  /** Adding a hash value covers it and uncovers none. */
  lemma AddCovers(bits: seq<bv8>, nbits: nat, hashv: nat, hs: set<nat>)
    requires Covers(bits, nbits, hs) && |bits| == ByteLength(nbits)
    ensures Covers(WithBit(bits, BitOf(hashv, nbits)), nbits, hs + {hashv})
  {
    BitInRange(hashv, nbits);
    forall h | h in hs + {hashv} ensures IsSet(WithBit(bits, BitOf(hashv, nbits)), BitOf(h, nbits)) {
      WithBitSets(bits, BitOf(hashv, nbits), BitOf(h, nbits));
    }
  }
}
