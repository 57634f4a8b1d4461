/** The checksum of src/cluster/raft_persistence.c: the CRC-32 of section 8 of RFC 1952. */
module Crc {

  import opened Bytes

  const POLY: bv32 := 0xEDB88320
  const ONES: bv32 := 0xFFFF_FFFF

  // The operators, named so that proofs can treat them as unknown functions.
  function Xor(x: bv32, y: bv32): bv32 { x ^ y }
  function Half(x: bv32): bv32 { x >> 1 }
  predicate Odd(x: bv32) { x & 1 == 1 }
  function Widen(b: byte): bv32 { b as bv32 }

  /** One bit of the shift register. */
  function Bit(x: bv32): bv32 {
    if x & 1 == 1 then (x >> 1) ^ POLY else x >> 1
  }

  function EightBits(x: bv32): bv32 {
    Bit(Bit(Bit(Bit(Bit(Bit(Bit(Bit(x))))))))
  }

  /** The reference: eight single-bit steps for every byte, least significant bit first. */
  function Register(data: seq<byte>): bv32 {
    if data == [] then ONES
    else EightBits(Xor(Register(data[..|data| - 1]), Widen(data[|data| - 1])))
  }

  function Checksum(data: seq<byte>): bv32 {
    Xor(Register(data), ONES)
  }

  function Row0(c: bv8): bv32 {
    match c
    case 0 => 0x00000000
    case 1 => 0x77073096
    case 2 => 0xee0e612c
    case 3 => 0x990951ba
    case 4 => 0x076dc419
    case 5 => 0x706af48f
    case 6 => 0xe963a535
    case 7 => 0x9e6495a3
    case 8 => 0x0edb8832
    case 9 => 0x79dcb8a4
    case 10 => 0xe0d5e91e
    case 11 => 0x97d2d988
    case 12 => 0x09b64c2b
    case 13 => 0x7eb17cbd
    case 14 => 0xe7b82d07
    case _ => 0x90bf1d91
  }

  function Row1(c: bv8): bv32 {
    match c
    case 0 => 0x1db71064
    case 1 => 0x6ab020f2
    case 2 => 0xf3b97148
    case 3 => 0x84be41de
    case 4 => 0x1adad47d
    case 5 => 0x6ddde4eb
    case 6 => 0xf4d4b551
    case 7 => 0x83d385c7
    case 8 => 0x136c9856
    case 9 => 0x646ba8c0
    case 10 => 0xfd62f97a
    case 11 => 0x8a65c9ec
    case 12 => 0x14015c4f
    case 13 => 0x63066cd9
    case 14 => 0xfa0f3d63
    case _ => 0x8d080df5
  }

  function Row2(c: bv8): bv32 {
    match c
    case 0 => 0x3b6e20c8
    case 1 => 0x4c69105e
    case 2 => 0xd56041e4
    case 3 => 0xa2677172
    case 4 => 0x3c03e4d1
    case 5 => 0x4b04d447
    case 6 => 0xd20d85fd
    case 7 => 0xa50ab56b
    case 8 => 0x35b5a8fa
    case 9 => 0x42b2986c
    case 10 => 0xdbbbc9d6
    case 11 => 0xacbcf940
    case 12 => 0x32d86ce3
    case 13 => 0x45df5c75
    case 14 => 0xdcd60dcf
    case _ => 0xabd13d59
  }

  function Row3(c: bv8): bv32 {
    match c
    case 0 => 0x26d930ac
    case 1 => 0x51de003a
    case 2 => 0xc8d75180
    case 3 => 0xbfd06116
    case 4 => 0x21b4f4b5
    case 5 => 0x56b3c423
    case 6 => 0xcfba9599
    case 7 => 0xb8bda50f
    case 8 => 0x2802b89e
    case 9 => 0x5f058808
    case 10 => 0xc60cd9b2
    case 11 => 0xb10be924
    case 12 => 0x2f6f7c87
    case 13 => 0x58684c11
    case 14 => 0xc1611dab
    case _ => 0xb6662d3d
  }

  function Row4(c: bv8): bv32 {
    match c
    case 0 => 0x76dc4190
    case 1 => 0x01db7106
    case 2 => 0x98d220bc
    case 3 => 0xefd5102a
    case 4 => 0x71b18589
    case 5 => 0x06b6b51f
    case 6 => 0x9fbfe4a5
    case 7 => 0xe8b8d433
    case 8 => 0x7807c9a2
    case 9 => 0x0f00f934
    case 10 => 0x9609a88e
    case 11 => 0xe10e9818
    case 12 => 0x7f6a0dbb
    case 13 => 0x086d3d2d
    case 14 => 0x91646c97
    case _ => 0xe6635c01
  }

  function Row5(c: bv8): bv32 {
    match c
    case 0 => 0x6b6b51f4
    case 1 => 0x1c6c6162
    case 2 => 0x856530d8
    case 3 => 0xf262004e
    case 4 => 0x6c0695ed
    case 5 => 0x1b01a57b
    case 6 => 0x8208f4c1
    case 7 => 0xf50fc457
    case 8 => 0x65b0d9c6
    case 9 => 0x12b7e950
    case 10 => 0x8bbeb8ea
    case 11 => 0xfcb9887c
    case 12 => 0x62dd1ddf
    case 13 => 0x15da2d49
    case 14 => 0x8cd37cf3
    case _ => 0xfbd44c65
  }

  function Row6(c: bv8): bv32 {
    match c
    case 0 => 0x4db26158
    case 1 => 0x3ab551ce
    case 2 => 0xa3bc0074
    case 3 => 0xd4bb30e2
    case 4 => 0x4adfa541
    case 5 => 0x3dd895d7
    case 6 => 0xa4d1c46d
    case 7 => 0xd3d6f4fb
    case 8 => 0x4369e96a
    case 9 => 0x346ed9fc
    case 10 => 0xad678846
    case 11 => 0xda60b8d0
    case 12 => 0x44042d73
    case 13 => 0x33031de5
    case 14 => 0xaa0a4c5f
    case _ => 0xdd0d7cc9
  }

  function Row7(c: bv8): bv32 {
    match c
    case 0 => 0x5005713c
    case 1 => 0x270241aa
    case 2 => 0xbe0b1010
    case 3 => 0xc90c2086
    case 4 => 0x5768b525
    case 5 => 0x206f85b3
    case 6 => 0xb966d409
    case 7 => 0xce61e49f
    case 8 => 0x5edef90e
    case 9 => 0x29d9c998
    case 10 => 0xb0d09822
    case 11 => 0xc7d7a8b4
    case 12 => 0x59b33d17
    case 13 => 0x2eb40d81
    case 14 => 0xb7bd5c3b
    case _ => 0xc0ba6cad
  }

  function Row8(c: bv8): bv32 {
    match c
    case 0 => 0xedb88320
    case 1 => 0x9abfb3b6
    case 2 => 0x03b6e20c
    case 3 => 0x74b1d29a
    case 4 => 0xead54739
    case 5 => 0x9dd277af
    case 6 => 0x04db2615
    case 7 => 0x73dc1683
    case 8 => 0xe3630b12
    case 9 => 0x94643b84
    case 10 => 0x0d6d6a3e
    case 11 => 0x7a6a5aa8
    case 12 => 0xe40ecf0b
    case 13 => 0x9309ff9d
    case 14 => 0x0a00ae27
    case _ => 0x7d079eb1
  }

  function Row9(c: bv8): bv32 {
    match c
    case 0 => 0xf00f9344
    case 1 => 0x8708a3d2
    case 2 => 0x1e01f268
    case 3 => 0x6906c2fe
    case 4 => 0xf762575d
    case 5 => 0x806567cb
    case 6 => 0x196c3671
    case 7 => 0x6e6b06e7
    case 8 => 0xfed41b76
    case 9 => 0x89d32be0
    case 10 => 0x10da7a5a
    case 11 => 0x67dd4acc
    case 12 => 0xf9b9df6f
    case 13 => 0x8ebeeff9
    case 14 => 0x17b7be43
    case _ => 0x60b08ed5
  }

  function RowA(c: bv8): bv32 {
    match c
    case 0 => 0xd6d6a3e8
    case 1 => 0xa1d1937e
    case 2 => 0x38d8c2c4
    case 3 => 0x4fdff252
    case 4 => 0xd1bb67f1
    case 5 => 0xa6bc5767
    case 6 => 0x3fb506dd
    case 7 => 0x48b2364b
    case 8 => 0xd80d2bda
    case 9 => 0xaf0a1b4c
    case 10 => 0x36034af6
    case 11 => 0x41047a60
    case 12 => 0xdf60efc3
    case 13 => 0xa867df55
    case 14 => 0x316e8eef
    case _ => 0x4669be79
  }

  function RowB(c: bv8): bv32 {
    match c
    case 0 => 0xcb61b38c
    case 1 => 0xbc66831a
    case 2 => 0x256fd2a0
    case 3 => 0x5268e236
    case 4 => 0xcc0c7795
    case 5 => 0xbb0b4703
    case 6 => 0x220216b9
    case 7 => 0x5505262f
    case 8 => 0xc5ba3bbe
    case 9 => 0xb2bd0b28
    case 10 => 0x2bb45a92
    case 11 => 0x5cb36a04
    case 12 => 0xc2d7ffa7
    case 13 => 0xb5d0cf31
    case 14 => 0x2cd99e8b
    case _ => 0x5bdeae1d
  }

  function RowC(c: bv8): bv32 {
    match c
    case 0 => 0x9b64c2b0
    case 1 => 0xec63f226
    case 2 => 0x756aa39c
    case 3 => 0x026d930a
    case 4 => 0x9c0906a9
    case 5 => 0xeb0e363f
    case 6 => 0x72076785
    case 7 => 0x05005713
    case 8 => 0x95bf4a82
    case 9 => 0xe2b87a14
    case 10 => 0x7bb12bae
    case 11 => 0x0cb61b38
    case 12 => 0x92d28e9b
    case 13 => 0xe5d5be0d
    case 14 => 0x7cdcefb7
    case _ => 0x0bdbdf21
  }

  function RowD(c: bv8): bv32 {
    match c
    case 0 => 0x86d3d2d4
    case 1 => 0xf1d4e242
    case 2 => 0x68ddb3f8
    case 3 => 0x1fda836e
    case 4 => 0x81be16cd
    case 5 => 0xf6b9265b
    case 6 => 0x6fb077e1
    case 7 => 0x18b74777
    case 8 => 0x88085ae6
    case 9 => 0xff0f6a70
    case 10 => 0x66063bca
    case 11 => 0x11010b5c
    case 12 => 0x8f659eff
    case 13 => 0xf862ae69
    case 14 => 0x616bffd3
    case _ => 0x166ccf45
  }

  function RowE(c: bv8): bv32 {
    match c
    case 0 => 0xa00ae278
    case 1 => 0xd70dd2ee
    case 2 => 0x4e048354
    case 3 => 0x3903b3c2
    case 4 => 0xa7672661
    case 5 => 0xd06016f7
    case 6 => 0x4969474d
    case 7 => 0x3e6e77db
    case 8 => 0xaed16a4a
    case 9 => 0xd9d65adc
    case 10 => 0x40df0b66
    case 11 => 0x37d83bf0
    case 12 => 0xa9bcae53
    case 13 => 0xdebb9ec5
    case 14 => 0x47b2cf7f
    case _ => 0x30b5ffe9
  }

  function RowF(c: bv8): bv32 {
    match c
    case 0 => 0xbdbdf21c
    case 1 => 0xcabac28a
    case 2 => 0x53b39330
    case 3 => 0x24b4a3a6
    case 4 => 0xbad03605
    case 5 => 0xcdd70693
    case 6 => 0x54de5729
    case 7 => 0x23d967bf
    case 8 => 0xb3667a2e
    case 9 => 0xc4614ab8
    case 10 => 0x5d681b02
    case 11 => 0x2a6f2b94
    case 12 => 0xb40bbe37
    case 13 => 0xc30c8ea1
    case 14 => 0x5a05df1b
    case _ => 0x2d02ef8d
  }

  // crc32_table, sixteen entries to a row.
  function Table(x: bv8): bv32 {
    match x >> 4
    case 0 => Row0(x & 15)
    case 1 => Row1(x & 15)
    case 2 => Row2(x & 15)
    case 3 => Row3(x & 15)
    case 4 => Row4(x & 15)
    case 5 => Row5(x & 15)
    case 6 => Row6(x & 15)
    case 7 => Row7(x & 15)
    case 8 => Row8(x & 15)
    case 9 => Row9(x & 15)
    case 10 => RowA(x & 15)
    case 11 => RowB(x & 15)
    case 12 => RowC(x & 15)
    case 13 => RowD(x & 15)
    case 14 => RowE(x & 15)
    case _ => RowF(x & 15)
  }

  lemma TableQuarter0(x: bv8)
    requires x < 0x40
    ensures Table(x) == EightBits(Widen(x))
  {
  }

  lemma TableQuarter1(x: bv8)
    requires 0x40 <= x < 0x80
    ensures Table(x) == EightBits(Widen(x))
  {
  }

  lemma TableQuarter2(x: bv8)
    requires 0x80 <= x < 0xC0
    ensures Table(x) == EightBits(Widen(x))
  {
  }

  lemma TableQuarter3(x: bv8)
    requires 0xC0 <= x
    ensures Table(x) == EightBits(Widen(x))
  {
  }

  /** Every table entry is its index shifted through the register. */
  lemma TableCorrect(x: bv8)
    ensures Table(x) == EightBits(Widen(x))
  {
    hide Table, EightBits;
    if x < 0x40 { TableQuarter0(x); }
    else if x < 0x80 { TableQuarter1(x); }
    else if x < 0xC0 { TableQuarter2(x); }
    else { TableQuarter3(x); }
  }

  lemma XorTwice(x: bv32, y: bv32, p: bv32)
    ensures Xor(Xor(x, p), Xor(y, p)) == Xor(x, y)
  {
    assert (x ^ p) ^ (y ^ p) == x ^ y;
  }

  lemma XorCommutes(x: bv32, y: bv32)
    ensures Xor(x, y) == Xor(y, x)
  {
    assert x ^ y == y ^ x;
  }

  lemma XorUndone(x: bv32, p: bv32)
    ensures Xor(Xor(x, p), p) == x
  {
    assert (x ^ p) ^ p == x;
  }

  lemma XorMoves(x: bv32, y: bv32, p: bv32)
    ensures Xor(Xor(x, p), y) == Xor(Xor(x, y), p)
  {
    hide Xor;
    XorUndone(y, p);
    XorTwice(x, Xor(y, p), p);
    XorUndone(p, y);
    XorTwice(x, Xor(p, y), y);
    XorCommutes(y, p);
  }

  lemma XorHalves(x: bv32, y: bv32)
    ensures Half(Xor(x, y)) == Xor(Half(x), Half(y))
    ensures Odd(Xor(x, y)) <==> Odd(x) != Odd(y)
  {
  }

  lemma BitUnfold(x: bv32)
    ensures Bit(x) == if Odd(x) then Xor(Half(x), POLY) else Half(x)
  {
  }

  lemma BitLinear(x: bv32, y: bv32)
    ensures Bit(Xor(x, y)) == Xor(Bit(x), Bit(y))
  {
    hide Bit, Xor, Half, Odd, POLY;
    BitUnfold(x);
    BitUnfold(y);
    BitUnfold(Xor(x, y));
    XorHalves(x, y);
    XorTwice(Half(x), Half(y), POLY);
    XorMoves(Half(x), Half(y), POLY);
    XorMoves(Half(y), Half(x), POLY);
    XorCommutes(Half(x), Half(y));
    XorCommutes(Half(x), Xor(Half(y), POLY));
  }

  lemma EightBitsLinear(x: bv32, y: bv32)
    ensures EightBits(Xor(x, y)) == Xor(EightBits(x), EightBits(y))
  {
    hide Bit, Xor;
    BitLinear(x, y);
    BitLinear(Bit(x), Bit(y));
    BitLinear(Bit(Bit(x)), Bit(Bit(y)));
    BitLinear(Bit(Bit(Bit(x))), Bit(Bit(Bit(y))));
    BitLinear(Bit(Bit(Bit(Bit(x)))), Bit(Bit(Bit(Bit(y)))));
    BitLinear(Bit(Bit(Bit(Bit(Bit(x))))), Bit(Bit(Bit(Bit(Bit(y))))));
    BitLinear(Bit(Bit(Bit(Bit(Bit(Bit(x)))))), Bit(Bit(Bit(Bit(Bit(Bit(y)))))));
    BitLinear(Bit(Bit(Bit(Bit(Bit(Bit(Bit(x))))))), Bit(Bit(Bit(Bit(Bit(Bit(Bit(y))))))));
  }

  function LowByte(x: bv32): bv8 { (x & 0xFF) as bv8 }
  function HighBytes(x: bv32): bv32 { x & 0xFFFF_FF00 }
  function Shift(x: bv32): bv32 { x >> 8 }

  lemma EightBitsOfHigh(x: bv32)
    ensures EightBits(HighBytes(x)) == Shift(x)
  {
  }

  lemma LowAndHigh(x: bv32, b: byte)
    ensures x == Xor(Widen(LowByte(x)), HighBytes(x))
    ensures Shift(Xor(x, Widen(b))) == Shift(x)
  {
  }

  /** A table lookup and a shift do eight bits at once. */
  lemma LookupIsEightBits(x: bv32)
    ensures Xor(Table(LowByte(x)), Shift(x)) == EightBits(x)
  {
    hide Table, EightBits, Xor, Widen, HighBytes, Shift, LowByte;
    LowAndHigh(x, 0);
    EightBitsLinear(Widen(LowByte(x)), HighBytes(x));
    EightBitsOfHigh(x);
    TableCorrect(LowByte(x));
  }

  /** crc32: the table-driven loop computes the bit-at-a-time checksum. */
  method Crc32(data: seq<byte>) returns (sum: bv32)
    ensures sum == Checksum(data)
  {
    hide Table, EightBits, Xor, Widen, LowByte, Shift;
    var crc := ONES;
    for i := 0 to |data|
      invariant crc == Register(data[..i])
    {
      LookupIsEightBits(Xor(crc, Widen(data[i])));
      LowAndHigh(crc, data[i]);
      assert data[..i + 1][..i] == data[..i];
      crc := Xor(Table(LowByte(Xor(crc, Widen(data[i])))), Shift(crc));
    }
    assert data[..|data|] == data;
    sum := Xor(crc, ONES);
  }

  lemma BitInjective(x: bv32, y: bv32)
    requires Bit(x) == Bit(y)
    ensures x == y
  {
  }

  lemma EightBitsInjective(x: bv32, y: bv32)
    requires EightBits(x) == EightBits(y)
    ensures x == y
  {
    hide Bit;
    BitInjective(Bit(Bit(Bit(Bit(Bit(Bit(Bit(x))))))), Bit(Bit(Bit(Bit(Bit(Bit(Bit(y))))))));
    BitInjective(Bit(Bit(Bit(Bit(Bit(Bit(x)))))), Bit(Bit(Bit(Bit(Bit(Bit(y)))))));
    BitInjective(Bit(Bit(Bit(Bit(Bit(x))))), Bit(Bit(Bit(Bit(Bit(y))))));
    BitInjective(Bit(Bit(Bit(Bit(x)))), Bit(Bit(Bit(Bit(y)))));
    BitInjective(Bit(Bit(Bit(x))), Bit(Bit(Bit(y))));
    BitInjective(Bit(Bit(x)), Bit(Bit(y)));
    BitInjective(Bit(x), Bit(y));
    BitInjective(x, y);
  }

  lemma XorCancels(x: bv32, y: bv32, z: bv32)
    requires Xor(x, z) == Xor(y, z)
    ensures x == y
  {
    assert (x ^ z) ^ z == x;
    assert (y ^ z) ^ z == y;
  }

  lemma WidenInjective(a: byte, b: byte)
    requires Widen(a) == Widen(b)
    ensures a == b
  {
  }

  /** One more byte never merges two registers, nor two bytes from one register. */
  lemma StepInjective(x: bv32, y: bv32, a: byte, b: byte)
    requires EightBits(Xor(x, Widen(a))) == EightBits(Xor(y, Widen(b)))
    ensures x == y ==> a == b
    ensures a == b ==> x == y
  {
    hide EightBits, Xor, Widen;
    EightBitsInjective(Xor(x, Widen(a)), Xor(y, Widen(b)));
    if a == b {
      XorCancels(x, y, Widen(a));
    } else if x == y {
      XorCommutes(x, Widen(a));
      XorCommutes(x, Widen(b));
      XorCancels(Widen(a), Widen(b), x);
      WidenInjective(a, b);
    }
  }

  lemma {:induction false} OneByteChangesRegister(data: seq<byte>, k: nat, b: byte)
    requires k < |data| && b != data[k]
    ensures Register(data[k := b]) != Register(data)
  {
    hide EightBits, Xor, Widen;
    var n := |data| - 1;
    var init, other := data[..n], data[k := b];
    if k < n {
      assert other[..n] == init[k := b];
      OneByteChangesRegister(init, k, b);
    } else {
      assert other[..n] == init;
    }
    if Register(other) == Register(data) {
      StepInjective(Register(init), Register(other[..n]), data[n], other[n]);
    }
  }

  /** Buffers of equal length that differ in exactly one byte have different checksums. */
  lemma OneByteChangesChecksum(data: seq<byte>, k: nat, b: byte)
    requires k < |data| && b != data[k]
    ensures Checksum(data[k := b]) != Checksum(data)
  {
    hide Register, Xor;
    OneByteChangesRegister(data, k, b);
    if Checksum(data[k := b]) == Checksum(data) { XorCancels(Register(data[k := b]), Register(data), ONES); }
  }

  lemma CheckStep(data: seq<byte>, b: byte, before: bv32, after: bv32)
    requires Register(data) == before && EightBits(Xor(before, Widen(b))) == after
    ensures Register(data + [b]) == after
  {
    hide EightBits, Xor, Widen;
    assert (data + [b])[..|data|] == data;
  }

  // The nine bytes of "123456789".
  const NINE_DIGITS: seq<byte> := [0x31, 0x32, 0x33, 0x34, 0x35, 0x36, 0x37, 0x38, 0x39]

  lemma Digit1()
    ensures EightBits(Xor(0xFFFFFFFF, Widen(0x31))) == 0x7C231048
  {
  }

  lemma Digit2()
    ensures EightBits(Xor(0x7C231048, Widen(0x32))) == 0xB0ACBB32
  {
  }

  lemma Digit3()
    ensures EightBits(Xor(0xB0ACBB32, Widen(0x33))) == 0x77B79C2D
  {
  }

  lemma Digit4()
    ensures EightBits(Xor(0x77B79C2D, Widen(0x34))) == 0x641C1F5C
  {
  }

  lemma Digit5()
    ensures EightBits(Xor(0x641C1F5C, Widen(0x35))) == 0x340AC5E3
  {
  }

  lemma Digit6()
    ensures EightBits(Xor(0x340AC5E3, Widen(0x36))) == 0xF68D2C9E
  {
  }

  lemma Digit7()
    ensures EightBits(Xor(0xF68D2C9E, Widen(0x37))) == 0xAFFC9660
  {
  }

  lemma Digit8()
    ensures EightBits(Xor(0xAFFC9660, Widen(0x38))) == 0x651F2550
  {
  }

  lemma Digit9()
    ensures EightBits(Xor(0x651F2550, Widen(0x39))) == 0x340BC6D9
  {
  }

  lemma CheckRegister()
    ensures Register(NINE_DIGITS) == 0x340BC6D9
  {
    hide EightBits, Xor, Widen;
    Digit1();
    CheckStep(NINE_DIGITS[..0], 0x31, 0xFFFFFFFF, 0x7C231048);
    assert NINE_DIGITS[..0] + [0x31] == NINE_DIGITS[..1];
    Digit2();
    CheckStep(NINE_DIGITS[..1], 0x32, 0x7C231048, 0xB0ACBB32);
    assert NINE_DIGITS[..1] + [0x32] == NINE_DIGITS[..2];
    Digit3();
    CheckStep(NINE_DIGITS[..2], 0x33, 0xB0ACBB32, 0x77B79C2D);
    assert NINE_DIGITS[..2] + [0x33] == NINE_DIGITS[..3];
    Digit4();
    CheckStep(NINE_DIGITS[..3], 0x34, 0x77B79C2D, 0x641C1F5C);
    assert NINE_DIGITS[..3] + [0x34] == NINE_DIGITS[..4];
    Digit5();
    CheckStep(NINE_DIGITS[..4], 0x35, 0x641C1F5C, 0x340AC5E3);
    assert NINE_DIGITS[..4] + [0x35] == NINE_DIGITS[..5];
    Digit6();
    CheckStep(NINE_DIGITS[..5], 0x36, 0x340AC5E3, 0xF68D2C9E);
    assert NINE_DIGITS[..5] + [0x36] == NINE_DIGITS[..6];
    Digit7();
    CheckStep(NINE_DIGITS[..6], 0x37, 0xF68D2C9E, 0xAFFC9660);
    assert NINE_DIGITS[..6] + [0x37] == NINE_DIGITS[..7];
    Digit8();
    CheckStep(NINE_DIGITS[..7], 0x38, 0xAFFC9660, 0x651F2550);
    assert NINE_DIGITS[..7] + [0x38] == NINE_DIGITS[..8];
    Digit9();
    CheckStep(NINE_DIGITS[..8], 0x39, 0x651F2550, 0x340BC6D9);
    assert NINE_DIGITS[..8] + [0x39] == NINE_DIGITS[..9];
    assert NINE_DIGITS[..9] == NINE_DIGITS;
  }

  /** The initial value and the final complement are those of the standard: the empty string has checksum 0, and
      "123456789" the algorithm's check value. */
  lemma CheckValue()
    ensures Checksum([]) == 0 && Checksum(NINE_DIGITS) == 0xCBF43926
  {
    hide Register, EightBits;
    CheckRegister();
    EmptyRegister();
  }

  lemma EmptyRegister()
    ensures Register([]) == 0xFFFF_FFFF
  {
  }
}
