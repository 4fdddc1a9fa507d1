/** The frame checksum: the table-driven CRC-32 loop, its bit-by-bit meaning, and the
    error bursts that it is guaranteed to notice. */
module Crc32 {
  import opened Bytes

  /** The reflected form of the IEEE 802.3 generator polynomial. */
  const POLY: bv32 := 0xEDB88320

  /** Bits in a byte. */
  const BYTE: nat := 8

  // ---------- the reference: one bit at a time ----------

  function BitStep(x: bv32): bv32 {
    if x & 1 == 1 then (x >> 1) ^ POLY else x >> 1
  }

  function BitSteps(x: bv32, n: nat): bv32
    decreases n
  {
    if n == 0 then x else BitSteps(BitStep(x), n - 1)
  }

  function Xor(x: bv32, y: bv32): bv32 { x ^ y }

  function ByteStep(reg: bv32, b: byte): bv32 {
    BitSteps(Xor(reg, b as bv32), BYTE)
  }

  /** The register after the bytes of s have been shifted in, eight bit steps a byte. */
  function Register(reg: bv32, s: seq<byte>): bv32
    decreases |s|
  {
    if s == [] then reg else Register(ByteStep(reg, s[0]), s[1..])
  }

  /** The bit-by-bit reflected CRC-32. */
  function Crc(s: seq<byte>): bv32 {
    Inverted(Register(ONES, s))
  }

  const ONES: bv32 := 0xFFFFFFFF

  function Inverted(x: bv32): bv32 { x ^ ONES }

  // ---------- the table ----------

  /** kCrc32Table, sixteen entries a row. */
  function TableRow(high: bv8): seq<bv32> {
    match high
      case 0 => [
        0x00000000, 0x77073096, 0xee0e612c, 0x990951ba, 0x076dc419, 0x706af48f, 0xe963a535, 0x9e6495a3,
        0x0edb8832, 0x79dcb8a4, 0xe0d5e91e, 0x97d2d988, 0x09b64c2b, 0x7eb17cbd, 0xe7b82d07, 0x90bf1d91]
      case 1 => [
        0x1db71064, 0x6ab020f2, 0xf3b97148, 0x84be41de, 0x1adad47d, 0x6ddde4eb, 0xf4d4b551, 0x83d385c7,
        0x136c9856, 0x646ba8c0, 0xfd62f97a, 0x8a65c9ec, 0x14015c4f, 0x63066cd9, 0xfa0f3d63, 0x8d080df5]
      case 2 => [
        0x3b6e20c8, 0x4c69105e, 0xd56041e4, 0xa2677172, 0x3c03e4d1, 0x4b04d447, 0xd20d85fd, 0xa50ab56b,
        0x35b5a8fa, 0x42b2986c, 0xdbbbc9d6, 0xacbcf940, 0x32d86ce3, 0x45df5c75, 0xdcd60dcf, 0xabd13d59]
      case 3 => [
        0x26d930ac, 0x51de003a, 0xc8d75180, 0xbfd06116, 0x21b4f4b5, 0x56b3c423, 0xcfba9599, 0xb8bda50f,
        0x2802b89e, 0x5f058808, 0xc60cd9b2, 0xb10be924, 0x2f6f7c87, 0x58684c11, 0xc1611dab, 0xb6662d3d]
      case 4 => [
        0x76dc4190, 0x01db7106, 0x98d220bc, 0xefd5102a, 0x71b18589, 0x06b6b51f, 0x9fbfe4a5, 0xe8b8d433,
        0x7807c9a2, 0x0f00f934, 0x9609a88e, 0xe10e9818, 0x7f6a0dbb, 0x086d3d2d, 0x91646c97, 0xe6635c01]
      case 5 => [
        0x6b6b51f4, 0x1c6c6162, 0x856530d8, 0xf262004e, 0x6c0695ed, 0x1b01a57b, 0x8208f4c1, 0xf50fc457,
        0x65b0d9c6, 0x12b7e950, 0x8bbeb8ea, 0xfcb9887c, 0x62dd1ddf, 0x15da2d49, 0x8cd37cf3, 0xfbd44c65]
      case 6 => [
        0x4db26158, 0x3ab551ce, 0xa3bc0074, 0xd4bb30e2, 0x4adfa541, 0x3dd895d7, 0xa4d1c46d, 0xd3d6f4fb,
        0x4369e96a, 0x346ed9fc, 0xad678846, 0xda60b8d0, 0x44042d73, 0x33031de5, 0xaa0a4c5f, 0xdd0d7cc9]
      case 7 => [
        0x5005713c, 0x270241aa, 0xbe0b1010, 0xc90c2086, 0x5768b525, 0x206f85b3, 0xb966d409, 0xce61e49f,
        0x5edef90e, 0x29d9c998, 0xb0d09822, 0xc7d7a8b4, 0x59b33d17, 0x2eb40d81, 0xb7bd5c3b, 0xc0ba6cad]
      case 8 => [
        0xedb88320, 0x9abfb3b6, 0x03b6e20c, 0x74b1d29a, 0xead54739, 0x9dd277af, 0x04db2615, 0x73dc1683,
        0xe3630b12, 0x94643b84, 0x0d6d6a3e, 0x7a6a5aa8, 0xe40ecf0b, 0x9309ff9d, 0x0a00ae27, 0x7d079eb1]
      case 9 => [
        0xf00f9344, 0x8708a3d2, 0x1e01f268, 0x6906c2fe, 0xf762575d, 0x806567cb, 0x196c3671, 0x6e6b06e7,
        0xfed41b76, 0x89d32be0, 0x10da7a5a, 0x67dd4acc, 0xf9b9df6f, 0x8ebeeff9, 0x17b7be43, 0x60b08ed5]
      case 10 => [
        0xd6d6a3e8, 0xa1d1937e, 0x38d8c2c4, 0x4fdff252, 0xd1bb67f1, 0xa6bc5767, 0x3fb506dd, 0x48b2364b,
        0xd80d2bda, 0xaf0a1b4c, 0x36034af6, 0x41047a60, 0xdf60efc3, 0xa867df55, 0x316e8eef, 0x4669be79]
      case 11 => [
        0xcb61b38c, 0xbc66831a, 0x256fd2a0, 0x5268e236, 0xcc0c7795, 0xbb0b4703, 0x220216b9, 0x5505262f,
        0xc5ba3bbe, 0xb2bd0b28, 0x2bb45a92, 0x5cb36a04, 0xc2d7ffa7, 0xb5d0cf31, 0x2cd99e8b, 0x5bdeae1d]
      case 12 => [
        0x9b64c2b0, 0xec63f226, 0x756aa39c, 0x026d930a, 0x9c0906a9, 0xeb0e363f, 0x72076785, 0x05005713,
        0x95bf4a82, 0xe2b87a14, 0x7bb12bae, 0x0cb61b38, 0x92d28e9b, 0xe5d5be0d, 0x7cdcefb7, 0x0bdbdf21]
      case 13 => [
        0x86d3d2d4, 0xf1d4e242, 0x68ddb3f8, 0x1fda836e, 0x81be16cd, 0xf6b9265b, 0x6fb077e1, 0x18b74777,
        0x88085ae6, 0xff0f6a70, 0x66063bca, 0x11010b5c, 0x8f659eff, 0xf862ae69, 0x616bffd3, 0x166ccf45]
      case 14 => [
        0xa00ae278, 0xd70dd2ee, 0x4e048354, 0x3903b3c2, 0xa7672661, 0xd06016f7, 0x4969474d, 0x3e6e77db,
        0xaed16a4a, 0xd9d65adc, 0x40df0b66, 0x37d83bf0, 0xa9bcae53, 0xdebb9ec5, 0x47b2cf7f, 0x30b5ffe9]
      case _ => [
        0xbdbdf21c, 0xcabac28a, 0x53b39330, 0x24b4a3a6, 0xbad03605, 0xcdd70693, 0x54de5729, 0x23d967bf,
        0xb3667a2e, 0xc4614ab8, 0x5d681b02, 0x2a6f2b94, 0xb40bbe37, 0xc30c8ea1, 0x5a05df1b, 0x2d02ef8d]
  }

  function EightSteps(x: bv32): bv32 {
    BitStep(BitStep(BitStep(BitStep(BitStep(BitStep(BitStep(BitStep(x))))))))
  }

  lemma TableRowsFrom0(high: bv8, low: bv8)
    requires high < 4 && low < 16
    ensures |TableRow(high)| == 16
    ensures TableRow(high)[low as int] == EightSteps((high as bv32 << 4) | low as bv32)
  {
  }

  lemma TableRowsFrom4(high: bv8, low: bv8)
    requires 4 <= high < 8 && low < 16
    ensures |TableRow(high)| == 16
    ensures TableRow(high)[low as int] == EightSteps((high as bv32 << 4) | low as bv32)
  {
  }

  lemma TableRowsFrom8(high: bv8, low: bv8)
    requires 8 <= high < 12 && low < 16
    ensures |TableRow(high)| == 16
    ensures TableRow(high)[low as int] == EightSteps((high as bv32 << 4) | low as bv32)
  {
  }

  lemma TableRowsFrom12(high: bv8, low: bv8)
    requires 12 <= high < 16 && low < 16
    ensures |TableRow(high)| == 16
    ensures TableRow(high)[low as int] == EightSteps((high as bv32 << 4) | low as bv32)
  {
  }

  lemma TableRows(high: bv8, low: bv8)
    requires high < 16 && low < 16
    ensures |TableRow(high)| == 16
    ensures TableRow(high)[low as int] == EightSteps((high as bv32 << 4) | low as bv32)
  {
    if high < 4 {
      TableRowsFrom0(high, low);
    } else if high < 8 {
      TableRowsFrom4(high, low);
    } else if high < 12 {
      TableRowsFrom8(high, low);
    } else {
      TableRowsFrom12(high, low);
    }
  }

  lemma Nibbles(x: bv8)
    ensures x & 0xF < 16 && x >> 4 < 16
    ensures (x & 0xF) as int < 16
    ensures ((x >> 4) as bv32 << 4) | (x & 0xF) as bv32 == x as bv32
  {
    assert x & 0xF < 16;
  }

  lemma {:induction false} EightStepsAreBitSteps(x: bv32)
    ensures EightSteps(x) == BitSteps(x, BYTE)
  {
    var x1 := BitStep(x);
    var x2 := BitStep(x1);
    var x3 := BitStep(x2);
    var x4 := BitStep(x3);
    var x5 := BitStep(x4);
    var x6 := BitStep(x5);
    var x7 := BitStep(x6);
    assert BitSteps(x7, 1) == EightSteps(x);
    assert BitSteps(x6, 2) == EightSteps(x);
    assert BitSteps(x5, 3) == EightSteps(x);
    assert BitSteps(x4, 4) == EightSteps(x);
    assert BitSteps(x3, 5) == EightSteps(x);
    assert BitSteps(x2, 6) == EightSteps(x);
    assert BitSteps(x1, 7) == EightSteps(x);
  }

  /** kCrc32Table[i]: for every index the table holds the eight bit steps of that index. */
  method TableEntry(i: bv8) returns (entry: bv32)
    ensures entry == BitSteps(i as bv32, BYTE)
  {
    Nibbles(i);
    TableRows(i >> 4, i & 0xF);
    EightStepsAreBitSteps(i as bv32);
    entry := TableRow(i >> 4)[(i & 0xF) as int];
  }

  // ---------- bit steps are linear and injective ----------

  lemma XorShiftsRight(x: bv32, y: bv32)
    ensures (x ^ y) >> 1 == (x >> 1) ^ (y >> 1)
  {
  }

  lemma XorLowBit(x: bv32, y: bv32)
    ensures (x ^ y) & 1 == (x & 1) ^ (y & 1)
  {
  }

  lemma LowBit(x: bv32)
    ensures x & 1 == 0 || x & 1 == 1
  {
  }

  lemma XorCancels(x: bv32, y: bv32)
    ensures (x ^ POLY) ^ (y ^ POLY) == x ^ y
    ensures (x ^ POLY) ^ y == (x ^ y) ^ POLY
    ensures x ^ (y ^ POLY) == (x ^ y) ^ POLY
  {
  }

  lemma BitStepXor(x: bv32, y: bv32)
    ensures BitStep(x ^ y) == BitStep(x) ^ BitStep(y)
  {
    XorShiftsRight(x, y);
    XorLowBit(x, y);
    LowBit(x);
    LowBit(y);
    XorCancels(x >> 1, y >> 1);
  }

  lemma BitStepLinear(x: bv32, y: bv32)
    ensures BitStep(Xor(x, y)) == Xor(BitStep(x), BitStep(y))
  {
    BitStepXor(x, y);
  }

  lemma {:induction false} BitStepsLinear(x: bv32, y: bv32, n: nat)
    ensures BitSteps(Xor(x, y), n) == Xor(BitSteps(x, n), BitSteps(y, n))
    decreases n
  {
    if n > 0 {
      var x', y' := BitStep(x), BitStep(y);
      BitStepLinear(x, y);
      BitStepsLinear(x', y', n - 1);
      assert BitSteps(Xor(x', y'), n - 1) == Xor(BitSteps(x', n - 1), BitSteps(y', n - 1));
    }
  }

  lemma BitStepInjective(x: bv32, y: bv32)
    requires BitStep(x) == BitStep(y)
    ensures x == y
  {
  }

  lemma {:induction false} BitStepsInjective(x: bv32, y: bv32, n: nat)
    requires BitSteps(x, n) == BitSteps(y, n)
    ensures x == y
    decreases n
  {
    if n > 0 {
      BitStepsInjective(BitStep(x), BitStep(y), n - 1);
      BitStepInjective(x, y);
    }
  }

  lemma EightStepsUnshift(y: bv32)
    requires y & 0xFF000000 == 0
    ensures EightSteps(y << 8) == y
  {
  }

  /** Eight bit steps remove a low byte of zeroes and nothing else. */
  lemma BitStepsUnshift(y: bv32)
    requires y & 0xFF000000 == 0
    ensures BitSteps(y << 8, BYTE) == y
  {
    EightStepsUnshift(y);
    EightStepsAreBitSteps(y << 8);
  }

  // ---------- the table loop computes the reference ----------

  lemma LowAndHigh(low: bv32, high: bv32)
    requires high & 0xFF000000 == 0
    ensures BitSteps(Xor(low, high << 8), BYTE) == Xor(BitSteps(low, BYTE), high)
  {
    BitStepsLinear(low, high << 8, BYTE);
    BitStepsUnshift(high);
  }

  lemma SplitLowByte(x: bv32)
    ensures x == Xor(x & 0xFF, (x >> 8) << 8)
    ensures (x >> 8) & 0xFF000000 == 0
    ensures ((x & 0xFF) as bv8) as bv32 == x & 0xFF
  {
  }

  lemma HighBytesUntouched(crc: bv32, b: byte)
    ensures Xor(crc, b as bv32) >> 8 == crc >> 8
  {
  }

  lemma SplitSteps(x: bv32)
    ensures Xor(BitSteps(((x & 0xFF) as bv8) as bv32, BYTE), x >> 8) == BitSteps(x, BYTE)
  {
    SplitLowByte(x);
    LowAndHigh(x & 0xFF, x >> 8);
  }

  /** The table entry of the register's low byte, mixed with the register's high bytes. */
  method LookUp(mixed: bv32, high: bv32) returns (next: bv32)
    requires high == mixed >> 8
    ensures next == BitSteps(mixed, BYTE)
  {
    SplitSteps(mixed);
    var entry := TableEntry((mixed & 0xFF) as bv8);
    next := Xor(entry, high);
  }

  /** One turn of the table loop is eight bit steps. */
  method TableStep(crc: bv32, b: byte) returns (next: bv32)
    ensures next == ByteStep(crc, b)
  {
    HighBytesUntouched(crc, b);
    next := LookUp(Xor(crc, b as bv32), crc >> 8);
  }

  lemma {:induction false} RegisterSnoc(reg: bv32, s: seq<byte>, b: byte)
    ensures Register(reg, s + [b]) == ByteStep(Register(reg, s), b)
    decreases |s|
  {
    if s == [] {
      assert s + [b] == [b];
      assert Register(ByteStep(reg, b), [b][1..]) == ByteStep(reg, b);
    } else {
      assert (s + [b])[1..] == s[1..] + [b];
      RegisterSnoc(ByteStep(reg, s[0]), s[1..], b);
    }
  }

  /** Codec::crc32: the table loop returns the bit-by-bit CRC-32 of every input. */
  method Compute(data: seq<byte>) returns (crc: bv32)
    ensures crc == Crc(data)
  {
    crc := ONES;
    for i := 0 to |data|
      invariant crc == Register(ONES, data[..i])
    {
      RegisterSnoc(ONES, data[..i], data[i]);
      assert data[..i + 1] == data[..i] + [data[i]];
      crc := TableStep(crc, data[i]);
    }
    assert data[..|data|] == data;
    crc := Inverted(crc);
  }

  // ---------- bursts of up to 32 bits are always noticed ----------

  function Bit(b: bool): bv32 { if b then 1 else 0 }

  /** The register after the bits have been shifted in one by one. */
  function BitRegister(reg: bv32, bits: seq<bool>): bv32
    decreases |bits|
  {
    if bits == [] then reg else BitRegister(BitStep(Xor(reg, Bit(bits[0]))), bits[1..])
  }

  /** The bits of a byte in the order in which the checksum takes them, lowest first. */
  function BitsOf(b: byte): (bits: seq<bool>)
    ensures |bits| == BYTE
  {
    [b & 0x01 != 0, b & 0x02 != 0, b & 0x04 != 0, b & 0x08 != 0,
     b & 0x10 != 0, b & 0x20 != 0, b & 0x40 != 0, b & 0x80 != 0]
  }

  function Bits(s: seq<byte>): (bits: seq<bool>)
    ensures |bits| == BYTE * |s|
  {
    if s == [] then [] else BitsOf(s[0]) + Bits(s[1..])
  }

  /** The bits are those of the word, the lowest first, and the word has no others. */
  predicate IsWord(w: seq<bool>, x: bv32)
    decreases |w|
  {
    if w == [] then x == 0 else x & 1 == Bit(w[0]) && IsWord(w[1..], x >> 1)
  }

  lemma {:induction false} WordDetermines(v: seq<bool>, w: seq<bool>, x: bv32)
    requires |v| == |w| && IsWord(v, x) && IsWord(w, x)
    ensures v == w
    decreases |v|
  {
    if v != [] {
      WordDetermines(v[1..], w[1..], x >> 1);
      assert v == [v[0]] + v[1..] && w == [w[0]] + w[1..];
    }
  }

  function Pow(j: nat): bv32 {
    if j == 0 then 1 else Pow(j - 1) << 1
  }

  lemma ShiftedBit(x: bv32, p: bv32)
    requires (x >> 1) & p == 0
    ensures x & (p << 1) == 0
  {
  }

  lemma {:induction false} BitClear(w: seq<bool>, x: bv32, j: nat)
    requires IsWord(w, x) && |w| <= j
    ensures x & Pow(j) == 0
    decreases |w|
  {
    if w != [] {
      BitClear(w[1..], x >> 1, j - 1);
      ShiftedBit(x, Pow(j - 1));
    }
  }

  lemma TopBit()
    ensures Pow(31) == 0x80000000
  {
    assert Pow(8) == 0x100;
    assert Pow(16) == 0x10000;
    assert Pow(24) == 0x1000000;
  }

  lemma JoinBit(b: bool, y: bv32) returns (x: bv32)
    requires y & 0x80000000 == 0
    ensures x & 1 == Bit(b) && x >> 1 == y
  {
    x := Xor(Bit(b), y << 1);
  }

  lemma PrependBit(w: seq<bool>, k: nat, x: bv32, y: bv32)
    requires k < |w| && y == x >> 1 && x & 1 == Bit(w[k]) && IsWord(w[k + 1..], y)
    ensures IsWord(w[k..], x)
  {
    assert w[k..][1..] == w[k + 1..];
  }

  /** Up to 32 bits make up a word. */
  lemma {:induction false} MakeWord(w: seq<bool>) returns (x: bv32)
    requires |w| <= 32
    ensures IsWord(w, x)
    decreases |w|
  {
    if w == [] {
      x := 0;
    } else {
      var y := MakeWord(w[1..]);
      BitClear(w[1..], y, 31);
      TopBit();
      x := JoinBit(w[0], y);
      PrependBit(w, 0, x, y);
      assert w[0..] == w;
    }
  }

  lemma BitStepUnshift(y: bv32)
    requires y & 0x80000000 == 0
    ensures BitStep(y << 1) == y
  {
  }

  lemma Halves(x: bv32, b: bool)
    requires x & 1 == Bit(b)
    ensures x == Xor(Bit(b), (x >> 1) << 1) && (x >> 1) & 0x80000000 == 0
  {
  }

  lemma XorAssociates(x: bv32, y: bv32, z: bv32)
    ensures Xor(Xor(x, y), z) == Xor(x, Xor(y, z))
  {
  }

  lemma StepThenXor(reg: bv32, b: bool, x: bv32)
    requires x & 1 == Bit(b)
    ensures Xor(BitStep(Xor(reg, Bit(b))), x >> 1) == BitStep(Xor(reg, x))
  {
    Halves(x, b);
    BitStepLinear(Xor(reg, Bit(b)), (x >> 1) << 1);
    BitStepUnshift(x >> 1);
    XorAssociates(reg, Bit(b), (x >> 1) << 1);
  }

  lemma XorZero(x: bv32)
    ensures Xor(x, 0) == x
  {
  }

  /** Feeding the bits of a word is one xor followed by bit steps only. */
  lemma {:induction false} RegisterOfWord(reg: bv32, w: seq<bool>, x: bv32)
    requires IsWord(w, x)
    ensures BitRegister(reg, w) == BitSteps(Xor(reg, x), |w|)
    decreases |w|
  {
    if w == [] {
      XorZero(reg);
    } else {
      var y := x >> 1;
      RegisterOfWord(BitStep(Xor(reg, Bit(w[0]))), w[1..], y);
      StepThenXor(reg, w[0], x);
    }
  }

  lemma ByteShifts(b: byte, w: seq<bool>, x: bv32)
    returns (x1: bv32, x2: bv32, x3: bv32, x4: bv32, x5: bv32, x6: bv32, x7: bv32)
    requires x == b as bv32 && w == BitsOf(b)
    ensures x1 == x >> 1 && x2 == x1 >> 1 && x3 == x2 >> 1 && x4 == x3 >> 1
    ensures x5 == x4 >> 1 && x6 == x5 >> 1 && x7 == x6 >> 1 && 0 == x7 >> 1
    ensures x & 1 == Bit(w[0]) && x1 & 1 == Bit(w[1]) && x2 & 1 == Bit(w[2]) && x3 & 1 == Bit(w[3])
    ensures x4 & 1 == Bit(w[4]) && x5 & 1 == Bit(w[5]) && x6 & 1 == Bit(w[6]) && x7 & 1 == Bit(w[7])
  {
    x1 := x >> 1;
    x2 := x1 >> 1;
    x3 := x2 >> 1;
    x4 := x3 >> 1;
    x5 := x4 >> 1;
    x6 := x5 >> 1;
    x7 := x6 >> 1;
  }

  lemma PrependFour(w: seq<bool>, k: nat, x: bv32, x1: bv32, x2: bv32, x3: bv32, x4: bv32)
    requires k + 4 <= |w| && IsWord(w[k + 4..], x4)
    requires x1 == x >> 1 && x2 == x1 >> 1 && x3 == x2 >> 1 && x4 == x3 >> 1
    requires x & 1 == Bit(w[k]) && x1 & 1 == Bit(w[k + 1]) && x2 & 1 == Bit(w[k + 2]) && x3 & 1 == Bit(w[k + 3])
    ensures IsWord(w[k..], x)
  {
    PrependBit(w, k + 3, x3, x4);
    PrependBit(w, k + 2, x2, x3);
    PrependBit(w, k + 1, x1, x2);
    PrependBit(w, k, x, x1);
  }

  /** The bits of a byte are the bits of the word it widens to. */
  lemma WordOfByte(b: byte, x: bv32)
    requires x == b as bv32
    ensures IsWord(BitsOf(b), x)
  {
    var w := BitsOf(b);
    var x1, x2, x3, x4, x5, x6, x7 := ByteShifts(b, w, x);
    assert IsWord(w[8..], 0);
    PrependFour(w, 4, x4, x5, x6, x7, 0);
    PrependFour(w, 0, x, x1, x2, x3, x4);
    assert w[0..] == w;
  }

  lemma ByteStepIsBits(reg: bv32, b: byte)
    ensures ByteStep(reg, b) == BitRegister(reg, BitsOf(b))
  {
    WordOfByte(b, b as bv32);
    RegisterOfWord(reg, BitsOf(b), b as bv32);
  }

  lemma {:induction false} BitRegisterConcat(reg: bv32, s: seq<bool>, t: seq<bool>)
    ensures BitRegister(reg, s + t) == BitRegister(BitRegister(reg, s), t)
    decreases |s|
  {
    if s == [] {
      assert s + t == t;
    } else {
      assert (s + t)[1..] == s[1..] + t;
      BitRegisterConcat(BitStep(Xor(reg, Bit(s[0]))), s[1..], t);
    }
  }

  lemma {:induction false} RegisterIsBits(reg: bv32, s: seq<byte>)
    ensures Register(reg, s) == BitRegister(reg, Bits(s))
    decreases |s|
  {
    if s != [] {
      ByteStepIsBits(reg, s[0]);
      BitRegisterConcat(reg, BitsOf(s[0]), Bits(s[1..]));
      RegisterIsBits(ByteStep(reg, s[0]), s[1..]);
    }
  }

  lemma XorInjective(x: bv32, y: bv32, z: bv32)
    ensures Xor(x, z) == Xor(y, z) ==> x == y
    ensures Xor(z, x) == Xor(z, y) ==> x == y
  {
  }

  lemma InvertedInjective(x: bv32, y: bv32)
    requires Inverted(x) == Inverted(y)
    ensures x == y
  {
  }

  lemma {:induction false} RegisterInjective(reg: bv32, reg': bv32, bits: seq<bool>)
    requires BitRegister(reg, bits) == BitRegister(reg', bits)
    ensures reg == reg'
    decreases |bits|
  {
    if bits != [] {
      var x, x' := Xor(reg, Bit(bits[0])), Xor(reg', Bit(bits[0]));
      RegisterInjective(BitStep(x), BitStep(x'), bits[1..]);
      BitStepInjective(x, x');
      XorInjective(reg, reg', Bit(bits[0]));
    }
  }

  lemma BurstMovesRegister(reg: bv32, d: seq<bool>, e: seq<bool>)
    requires |d| == |e| <= 32 && BitRegister(reg, d) == BitRegister(reg, e)
    ensures d == e
  {
    var x := MakeWord(d);
    var y := MakeWord(e);
    RegisterOfWord(reg, d, x);
    RegisterOfWord(reg, e, y);
    BitStepsInjective(Xor(reg, x), Xor(reg, y), |d|);
    XorInjective(x, y, reg);
    WordDetermines(d, e, x);
  }

  lemma CrcOfParts(s: seq<byte>, pre: seq<bool>, d: seq<bool>, post: seq<bool>)
    requires Bits(s) == pre + d + post
    ensures Crc(s) == Inverted(BitRegister(BitRegister(BitRegister(ONES, pre), d), post))
  {
    RegisterIsBits(ONES, s);
    BitRegisterConcat(ONES, pre + d, post);
    BitRegisterConcat(ONES, pre, d);
  }

  lemma SameCrc(s: seq<byte>, t: seq<byte>, pre: seq<bool>, d: seq<bool>, e: seq<bool>, post: seq<bool>)
    requires Bits(s) == pre + d + post && Bits(t) == pre + e + post && |d| == |e| <= 32 && Crc(s) == Crc(t)
    ensures d == e
  {
    CrcOfParts(s, pre, d, post);
    CrcOfParts(t, pre, e, post);
    var reg := BitRegister(ONES, pre);
    InvertedInjective(BitRegister(BitRegister(reg, d), post), BitRegister(BitRegister(reg, e), post));
    RegisterInjective(BitRegister(reg, d), BitRegister(reg, e), post);
    BurstMovesRegister(reg, d, e);
  }

  /** Two inputs that differ only inside 32 consecutive bits, in the order of transmission, never share a checksum. */
  lemma BurstDetected(s: seq<byte>, t: seq<byte>, pre: seq<bool>, d: seq<bool>, e: seq<bool>, post: seq<bool>)
    requires Bits(s) == pre + d + post && Bits(t) == pre + e + post && |d| == |e| <= 32 && d != e
    ensures Crc(s) != Crc(t)
  {
    if Crc(s) == Crc(t) {
      SameCrc(s, t, pre, d, e, post);
    }
  }

  lemma {:induction false} BitsConcat(s: seq<byte>, t: seq<byte>)
    ensures Bits(s + t) == Bits(s) + Bits(t)
    decreases |s|
  {
    if s == [] {
      assert s + t == t;
    } else {
      assert (s + t)[1..] == s[1..] + t;
      BitsConcat(s[1..], t);
      Associate(BitsOf(s[0]), Bits(s[1..]), Bits(t));
    }
  }

  lemma SameBitsSameByte(b: byte, c: byte)
    requires BitsOf(b) == BitsOf(c)
    ensures b == c
  {
    var v, w := BitsOf(b), BitsOf(c);
    assert v[0] == w[0] && v[1] == w[1] && v[2] == w[2] && v[3] == w[3];
    assert v[4] == w[4] && v[5] == w[5] && v[6] == w[6] && v[7] == w[7];
  }

  lemma {:induction false} BitsInjective(s: seq<byte>, t: seq<byte>)
    requires Bits(s) == Bits(t) && |s| == |t|
    ensures s == t
    decreases |s|
  {
    if s != [] {
      assert BitsOf(s[0]) == Bits(s)[..BYTE] == Bits(t)[..BYTE] == BitsOf(t[0]);
      assert Bits(s[1..]) == Bits(s)[BYTE..] == Bits(t)[BYTE..] == Bits(t[1..]);
      SameBitsSameByte(s[0], t[0]);
      BitsInjective(s[1..], t[1..]);
      assert s == [s[0]] + s[1..] && t == [t[0]] + t[1..];
    }
  }

  /** In particular four consecutive bytes. */
  lemma ByteBurstDetected(pre: seq<byte>, d: seq<byte>, e: seq<byte>, post: seq<byte>)
    requires |d| == |e| <= 4 && d != e
    ensures Crc(pre + d + post) != Crc(pre + e + post)
  {
    BitsConcat(pre + d, post);
    BitsConcat(pre, d);
    BitsConcat(pre + e, post);
    BitsConcat(pre, e);
    if Bits(d) == Bits(e) {
      BitsInjective(d, e);
    }
    BurstDetected(pre + d + post, pre + e + post, Bits(pre), Bits(d), Bits(e), Bits(post));
  }

  // ---------- known values and the residue ----------

  /** The checksum of nothing. */
  lemma CrcOfNothing()
    ensures Crc([]) == 0
  {
  }

  lemma ByteStepIs(reg: bv32, b: byte, next: bv32)
    requires EightSteps(Xor(reg, b as bv32)) == next
    ensures ByteStep(reg, b) == next
  {
    EightStepsAreBitSteps(Xor(reg, b as bv32));
  }

  lemma FeedNext(s: seq<byte>, i: nat, reg: bv32, next: bv32)
    requires i < |s| && Register(ONES, s[..i]) == reg && EightSteps(Xor(reg, s[i] as bv32)) == next
    ensures Register(ONES, s[..i + 1]) == next
  {
    ByteStepIs(reg, s[i], next);
    RegisterSnoc(ONES, s[..i], s[i]);
    assert s[..i + 1] == s[..i] + [s[i]];
  }

  /** s are the digits 1 to 9 in ASCII. */
  predicate Digits(s: seq<byte>) {
    && |s| == 9 && s[0] == 0x31 && s[1] == 0x32 && s[2] == 0x33 && s[3] == 0x34 && s[4] == 0x35 && s[5] == 0x36
    && s[6] == 0x37 && s[7] == 0x38 && s[8] == 0x39
  }

  lemma FirstDigits(s: seq<byte>)
    requires Digits(s)
    ensures Register(ONES, s[..5]) == 0x340AC5E3
  {
    FeedNext(s, 0, 0xFFFFFFFF, 0x7C231048);
    FeedNext(s, 1, 0x7C231048, 0xB0ACBB32);
    FeedNext(s, 2, 0xB0ACBB32, 0x77B79C2D);
    FeedNext(s, 3, 0x77B79C2D, 0x641C1F5C);
    FeedNext(s, 4, 0x641C1F5C, 0x340AC5E3);
  }

  /** The check value of the CRC-32 of IEEE 802.3. */
  lemma CheckValue(s: seq<byte>)
    requires Digits(s)
    ensures Crc(s) == 0xCBF43926
  {
    FirstDigits(s);
    FeedNext(s, 5, 0x340AC5E3, 0xF68D2C9E);
    FeedNext(s, 6, 0xF68D2C9E, 0xAFFC9660);
    FeedNext(s, 7, 0xAFFC9660, 0x651F2550);
    FeedNext(s, 8, 0x651F2550, 0x340BC6D9);
    assert s[..9] == s;
  }

  /** The bytes of a word, the lowest first. */
  function LowFirst(c: bv32, n: nat): (s: seq<byte>)
    ensures |s| == n
  {
    if n == 0 then [] else [(c & 0xFF) as bv8] + LowFirst(c >> 8, n - 1)
  }

  lemma LowByteSplit(reg: bv32, c: bv32)
    ensures Xor(reg, c) == Xor(Xor(reg, ((c & 0xFF) as bv8) as bv32), (c >> 8) << 8)
    ensures (c >> 8) & 0xFF000000 == 0
  {
  }

  lemma FeedLowByte(reg: bv32, c: bv32)
    ensures BitSteps(Xor(reg, c), BYTE) == Xor(ByteStep(reg, (c & 0xFF) as bv8), c >> 8)
  {
    LowByteSplit(reg, c);
    LowAndHigh(Xor(reg, ((c & 0xFF) as bv8) as bv32), c >> 8);
  }

  /** A word of n bytes, fed lowest first, is one xor followed by bit steps only. */
  lemma {:induction false} FeedWord(reg: bv32, c: bv32, n: nat) returns (rest: bv32)
    ensures BitSteps(Xor(reg, c), BYTE * n) == Xor(Register(reg, LowFirst(c, n)), rest)
    ensures rest == ShiftedOut(c, n)
    decreases n
  {
    if n == 0 {
      rest := c;
    } else {
      var b := (c & 0xFF) as bv8;
      FeedLowByte(reg, c);
      BitStepsAdd(Xor(reg, c), BYTE, BYTE * (n - 1));
      rest := FeedWord(ByteStep(reg, b), c >> 8, n - 1);
      assert LowFirst(c, n)[1..] == LowFirst(c >> 8, n - 1);
    }
  }

  function ShiftedOut(c: bv32, n: nat): bv32 {
    if n == 0 then c else ShiftedOut(c >> 8, n - 1)
  }

  lemma {:induction false} BitStepsAdd(x: bv32, m: nat, n: nat)
    ensures BitSteps(x, m + n) == BitSteps(BitSteps(x, m), n)
    decreases m
  {
    if m > 0 {
      BitStepsAdd(BitStep(x), m - 1, n);
    }
  }

  lemma NothingOut(c: bv32)
    ensures ShiftedOut(c, 4) == 0
  {
    assert ShiftedOut(c, 4) == ShiftedOut(c >> 8, 3);
    assert ShiftedOut(c >> 8, 3) == ShiftedOut(c >> 8 >> 8, 2);
    assert ShiftedOut(c >> 8 >> 8, 2) == ShiftedOut(c >> 8 >> 8 >> 8, 1);
    assert ShiftedOut(c >> 8 >> 8 >> 8, 1) == c >> 8 >> 8 >> 8 >> 8;
  }

  lemma OnesSteps()
    ensures BitSteps(ONES, 32) == 0xDEBB20E3
  {
    var x1, x2, x3 := 0x2DFD1072, 0xBE26ED00, 0x00BE26ED;
    assert EightSteps(ONES) == x1 && EightSteps(x1) == x2 && EightSteps(x2) == x3 && EightSteps(x3) == 0xDEBB20E3;
    EightStepsAreBitSteps(ONES);
    EightStepsAreBitSteps(x1);
    EightStepsAreBitSteps(x2);
    EightStepsAreBitSteps(x3);
    BitStepsAdd(ONES, 8, 24);
    BitStepsAdd(x1, 8, 16);
    BitStepsAdd(x2, 8, 8);
  }

  lemma XorInverted(x: bv32)
    ensures Xor(x, Inverted(x)) == ONES && Inverted(0xDEBB20E3) == 0x2144DF1C
  {
  }

  lemma {:induction false} RegisterConcat(reg: bv32, s: seq<byte>, t: seq<byte>)
    ensures Register(reg, s + t) == Register(Register(reg, s), t)
    decreases |s|
  {
    if s == [] {
      assert s + t == t;
    } else {
      assert (s + t)[1..] == s[1..] + t;
      RegisterConcat(ByteStep(reg, s[0]), s[1..], t);
    }
  }

  /** Behind its own checksum, lowest byte first, every input has the same checksum. */
  lemma Residue(s: seq<byte>)
    ensures Crc(s + LowFirst(Crc(s), 4)) == 0x2144DF1C
  {
    var reg := Register(ONES, s);
    RegisterConcat(ONES, s, LowFirst(Crc(s), 4));
    var rest := FeedWord(reg, Inverted(reg), 4);
    NothingOut(Inverted(reg));
    XorZero(Register(reg, LowFirst(Crc(s), 4)));
    XorInverted(reg);
    OnesSteps();
  }

  // ---------- the checksum field ----------

  /** The checksum as the four bytes that follow the body, most significant first. */
  function ToBytes(c: bv32): (s: seq<byte>)
    ensures |s| == 4
  {
    [(c >> 24) as bv8, ((c >> 16) & 0xFF) as bv8, ((c >> 8) & 0xFF) as bv8, (c & 0xFF) as bv8]
  }

  function Join(a: byte, b: byte, c: byte, d: byte): bv32 {
    (a as bv32 << 24) | (b as bv32 << 16) | (c as bv32 << 8) | (d as bv32)
  }

  function FromBytes(s: seq<byte>): bv32
    requires |s| == 4
  {
    Join(s[0], s[1], s[2], s[3])
  }

  lemma ChecksumReadsBack(c: bv32)
    ensures FromBytes(ToBytes(c)) == c
  {
  }

  lemma JoinInjective(a: byte, b: byte, c: byte, d: byte, a': byte, b': byte, c': byte, d': byte)
    requires Join(a, b, c, d) == Join(a', b', c', d')
    ensures a == a' && b == b' && c == c' && d == d'
  {
  }

  /** The checksum and its four bytes determine each other. */
  lemma ChecksumDetermined(s: seq<byte>, c: bv32)
    requires |s| == 4
    ensures FromBytes(s) == c <==> s == ToBytes(c)
  {
    ChecksumReadsBack(c);
    if FromBytes(s) == c {
      var t := ToBytes(c);
      JoinInjective(s[0], s[1], s[2], s[3], t[0], t[1], t[2], t[3]);
    }
  }
}
