/**
  * The checksum behind the check mode of the MPI benchmarks (IMB_chk_diff.c, lines 1294-1389).
  * The program updates its register one byte at a time through a table of 256 words.  The reference
  * here is the shift register of RFC 1952, section 8, fed one bit at a time, each byte lowest bit
  * first; that document's final complement is not taken, as the program does not take it.
  */
module CrcTable {
  type Byte = bv8

  const POLYNOMIAL: bv32 := 0xedb88320
  const INITIAL: bv32 := 0xffffffff

  /** The reference */

  /** Exclusive or, under a name that a proof can hide. */
  function Xor(c: bv32, d: bv32): bv32 {
    c ^ d
  }

  predicate Odd(c: bv32) {
    c & 1 == 1
  }

  function Half(c: bv32): bv32 {
    c >> 1
  }

  function Flip(c: bv32): bv32 {
    Xor(POLYNOMIAL, c)
  }

  /** One shift of the register. */
  function Shift(c: bv32): bv32 {
    if c & 1 == 1 then POLYNOMIAL ^ (c >> 1) else c >> 1
  }

  function BitOf(b: bool): bv32 {
    if b then 1 else 0
  }

  /** The register after one message bit after another. */
  function Absorb(c: bv32, bits: seq<bool>): bv32
    decreases |bits|
  {
    if bits == [] then c else Absorb(Shift(Xor(c, BitOf(bits[0]))), bits[1..])
  }

  /** The n lowest bits of a word, lowest first. */
  function Bits(w: bv32, n: nat): (bits: seq<bool>)
    ensures |bits| == n
    decreases n
  {
    if n == 0 then [] else [Odd(w)] + Bits(Half(w), n - 1)
  }

  function MessageBits(bytes: seq<Byte>): seq<bool> {
    if bytes == [] then [] else Bits(bytes[0] as bv32, 8) + MessageBits(bytes[1..])
  }

  function Checksum(bytes: seq<Byte>): bv32 {
    Absorb(INITIAL, MessageBits(bytes))
  }

  function Shift8(c: bv32): bv32 {
    Shift(Shift(Shift(Shift(Shift(Shift(Shift(Shift(c))))))))
  }

  /** The program's table, sixteen words to a row */

  const ROW_0: seq<bv32> := [
    0x00000000, 0x77073096, 0xee0e612c, 0x990951ba, 0x076dc419, 0x706af48f, 0xe963a535, 0x9e6495a3,
    0x0edb8832, 0x79dcb8a4, 0xe0d5e91e, 0x97d2d988, 0x09b64c2b, 0x7eb17cbd, 0xe7b82d07, 0x90bf1d91]

  const ROW_1: seq<bv32> := [
    0x1db71064, 0x6ab020f2, 0xf3b97148, 0x84be41de, 0x1adad47d, 0x6ddde4eb, 0xf4d4b551, 0x83d385c7,
    0x136c9856, 0x646ba8c0, 0xfd62f97a, 0x8a65c9ec, 0x14015c4f, 0x63066cd9, 0xfa0f3d63, 0x8d080df5]

  const ROW_2: seq<bv32> := [
    0x3b6e20c8, 0x4c69105e, 0xd56041e4, 0xa2677172, 0x3c03e4d1, 0x4b04d447, 0xd20d85fd, 0xa50ab56b,
    0x35b5a8fa, 0x42b2986c, 0xdbbbc9d6, 0xacbcf940, 0x32d86ce3, 0x45df5c75, 0xdcd60dcf, 0xabd13d59]

  const ROW_3: seq<bv32> := [
    0x26d930ac, 0x51de003a, 0xc8d75180, 0xbfd06116, 0x21b4f4b5, 0x56b3c423, 0xcfba9599, 0xb8bda50f,
    0x2802b89e, 0x5f058808, 0xc60cd9b2, 0xb10be924, 0x2f6f7c87, 0x58684c11, 0xc1611dab, 0xb6662d3d]

  const ROW_4: seq<bv32> := [
    0x76dc4190, 0x01db7106, 0x98d220bc, 0xefd5102a, 0x71b18589, 0x06b6b51f, 0x9fbfe4a5, 0xe8b8d433,
    0x7807c9a2, 0x0f00f934, 0x9609a88e, 0xe10e9818, 0x7f6a0dbb, 0x086d3d2d, 0x91646c97, 0xe6635c01]

  const ROW_5: seq<bv32> := [
    0x6b6b51f4, 0x1c6c6162, 0x856530d8, 0xf262004e, 0x6c0695ed, 0x1b01a57b, 0x8208f4c1, 0xf50fc457,
    0x65b0d9c6, 0x12b7e950, 0x8bbeb8ea, 0xfcb9887c, 0x62dd1ddf, 0x15da2d49, 0x8cd37cf3, 0xfbd44c65]

  const ROW_6: seq<bv32> := [
    0x4db26158, 0x3ab551ce, 0xa3bc0074, 0xd4bb30e2, 0x4adfa541, 0x3dd895d7, 0xa4d1c46d, 0xd3d6f4fb,
    0x4369e96a, 0x346ed9fc, 0xad678846, 0xda60b8d0, 0x44042d73, 0x33031de5, 0xaa0a4c5f, 0xdd0d7cc9]

  const ROW_7: seq<bv32> := [
    0x5005713c, 0x270241aa, 0xbe0b1010, 0xc90c2086, 0x5768b525, 0x206f85b3, 0xb966d409, 0xce61e49f,
    0x5edef90e, 0x29d9c998, 0xb0d09822, 0xc7d7a8b4, 0x59b33d17, 0x2eb40d81, 0xb7bd5c3b, 0xc0ba6cad]

  const ROW_8: seq<bv32> := [
    0xedb88320, 0x9abfb3b6, 0x03b6e20c, 0x74b1d29a, 0xead54739, 0x9dd277af, 0x04db2615, 0x73dc1683,
    0xe3630b12, 0x94643b84, 0x0d6d6a3e, 0x7a6a5aa8, 0xe40ecf0b, 0x9309ff9d, 0x0a00ae27, 0x7d079eb1]

  const ROW_9: seq<bv32> := [
    0xf00f9344, 0x8708a3d2, 0x1e01f268, 0x6906c2fe, 0xf762575d, 0x806567cb, 0x196c3671, 0x6e6b06e7,
    0xfed41b76, 0x89d32be0, 0x10da7a5a, 0x67dd4acc, 0xf9b9df6f, 0x8ebeeff9, 0x17b7be43, 0x60b08ed5]

  const ROW_a: seq<bv32> := [
    0xd6d6a3e8, 0xa1d1937e, 0x38d8c2c4, 0x4fdff252, 0xd1bb67f1, 0xa6bc5767, 0x3fb506dd, 0x48b2364b,
    0xd80d2bda, 0xaf0a1b4c, 0x36034af6, 0x41047a60, 0xdf60efc3, 0xa867df55, 0x316e8eef, 0x4669be79]

  const ROW_b: seq<bv32> := [
    0xcb61b38c, 0xbc66831a, 0x256fd2a0, 0x5268e236, 0xcc0c7795, 0xbb0b4703, 0x220216b9, 0x5505262f,
    0xc5ba3bbe, 0xb2bd0b28, 0x2bb45a92, 0x5cb36a04, 0xc2d7ffa7, 0xb5d0cf31, 0x2cd99e8b, 0x5bdeae1d]

  const ROW_c: seq<bv32> := [
    0x9b64c2b0, 0xec63f226, 0x756aa39c, 0x026d930a, 0x9c0906a9, 0xeb0e363f, 0x72076785, 0x05005713,
    0x95bf4a82, 0xe2b87a14, 0x7bb12bae, 0x0cb61b38, 0x92d28e9b, 0xe5d5be0d, 0x7cdcefb7, 0x0bdbdf21]

  const ROW_d: seq<bv32> := [
    0x86d3d2d4, 0xf1d4e242, 0x68ddb3f8, 0x1fda836e, 0x81be16cd, 0xf6b9265b, 0x6fb077e1, 0x18b74777,
    0x88085ae6, 0xff0f6a70, 0x66063bca, 0x11010b5c, 0x8f659eff, 0xf862ae69, 0x616bffd3, 0x166ccf45]

  const ROW_e: seq<bv32> := [
    0xa00ae278, 0xd70dd2ee, 0x4e048354, 0x3903b3c2, 0xa7672661, 0xd06016f7, 0x4969474d, 0x3e6e77db,
    0xaed16a4a, 0xd9d65adc, 0x40df0b66, 0x37d83bf0, 0xa9bcae53, 0xdebb9ec5, 0x47b2cf7f, 0x30b5ffe9]

  const ROW_f: seq<bv32> := [
    0xbdbdf21c, 0xcabac28a, 0x53b39330, 0x24b4a3a6, 0xbad03605, 0xcdd70693, 0x54de5729, 0x23d967bf,
    0xb3667a2e, 0xc4614ab8, 0x5d681b02, 0x2a6f2b94, 0xb40bbe37, 0xc30c8ea1, 0x5a05df1b, 0x2d02ef8d]

  function Row(h: bv32): seq<bv32>
    requires h < 16
  {
    match h
    case 0 => ROW_0
    case 1 => ROW_1
    case 2 => ROW_2
    case 3 => ROW_3
    case 4 => ROW_4
    case 5 => ROW_5
    case 6 => ROW_6
    case 7 => ROW_7
    case 8 => ROW_8
    case 9 => ROW_9
    case 10 => ROW_a
    case 11 => ROW_b
    case 12 => ROW_c
    case 13 => ROW_d
    case 14 => ROW_e
    case _ => ROW_f
  }

  /** Eight shifts of sixteen neighbouring indices. */
  function Shifted(base: bv32): (row: seq<bv32>)
    ensures |row| == 16
  {
    [Shift8(base), Shift8(base ^ 1), Shift8(base ^ 2), Shift8(base ^ 3),
     Shift8(base ^ 4), Shift8(base ^ 5), Shift8(base ^ 6), Shift8(base ^ 7),
     Shift8(base ^ 8), Shift8(base ^ 9), Shift8(base ^ 10), Shift8(base ^ 11),
     Shift8(base ^ 12), Shift8(base ^ 13), Shift8(base ^ 14), Shift8(base ^ 15)]
  }

  lemma Row0()
    ensures ROW_0 == Shifted(0x00)
  {}

  lemma Row1()
    ensures ROW_1 == Shifted(0x10)
  {}

  lemma Row2()
    ensures ROW_2 == Shifted(0x20)
  {}

  lemma Row3()
    ensures ROW_3 == Shifted(0x30)
  {}

  lemma Row4()
    ensures ROW_4 == Shifted(0x40)
  {}

  lemma Row5()
    ensures ROW_5 == Shifted(0x50)
  {}

  lemma Row6()
    ensures ROW_6 == Shifted(0x60)
  {}

  lemma Row7()
    ensures ROW_7 == Shifted(0x70)
  {}

  lemma Row8()
    ensures ROW_8 == Shifted(0x80)
  {}

  lemma Row9()
    ensures ROW_9 == Shifted(0x90)
  {}

  lemma Row10()
    ensures ROW_a == Shifted(0xa0)
  {}

  lemma Row11()
    ensures ROW_b == Shifted(0xb0)
  {}

  lemma Row12()
    ensures ROW_c == Shifted(0xc0)
  {}

  lemma Row13()
    ensures ROW_d == Shifted(0xd0)
  {}

  lemma Row14()
    ensures ROW_e == Shifted(0xe0)
  {}

  lemma Row15()
    ensures ROW_f == Shifted(0xf0)
  {}

  lemma RowIsShifted(h: bv32)
    requires h < 16
    ensures Row(h) == Shifted(h << 4)
  {
    hide Shifted, Shift8, Shift;
    match h
    case 0 => hide ROW_0; Row0();
    case 1 => hide ROW_1; Row1();
    case 2 => hide ROW_2; Row2();
    case 3 => hide ROW_3; Row3();
    case 4 => hide ROW_4; Row4();
    case 5 => hide ROW_5; Row5();
    case 6 => hide ROW_6; Row6();
    case 7 => hide ROW_7; Row7();
    case 8 => hide ROW_8; Row8();
    case 9 => hide ROW_9; Row9();
    case 10 => hide ROW_a; Row10();
    case 11 => hide ROW_b; Row11();
    case 12 => hide ROW_c; Row12();
    case 13 => hide ROW_d; Row13();
    case 14 => hide ROW_e; Row14();
    case _ => hide ROW_f; Row15();
  }

  lemma XorNothing(base: bv32)
    ensures base ^ 0 == base
  {}

  lemma ShiftedLow(base: bv32, n: bv32)
    requires n < 8
    ensures Shifted(base)[n as nat] == Shift8(base ^ n)
  {
    hide Shift8;
    match n
    case 0 => XorNothing(base);
    case 1 => case 2 => case 3 => case 4 => case 5 => case 6 =>
    case _ => assert n == 7;
  }

  lemma ShiftedHigh(base: bv32, n: bv32)
    requires 8 <= n < 16
    ensures Shifted(base)[n as nat] == Shift8(base ^ n)
  {
    hide Shift8;
    match n
    case 8 => case 9 => case 10 => case 11 => case 12 => case 13 => case 14 =>
    case _ => assert n == 15;
  }

  lemma Nibbles(k: bv32)
    requires k < 256
    ensures k >> 4 < 16 && k & 15 < 16 && ((k >> 4) << 4) ^ (k & 15) == k
  {}

  function Entry(k: bv32): bv32
    requires k < 256
  {
    Nibbles(k);
    RowIsShifted(k >> 4);
    Row(k >> 4)[(k & 15) as nat]
  }

  /** Every one of the 256 words is eight shifts of its index. */
  lemma TableEntry(k: bv32)
    requires k < 256
    ensures Entry(k) == Shift8(k)
  {
    hide Row, Shifted, Shift8, Shift;
    Nibbles(k);
    RowIsShifted(k >> 4);
    if k & 15 < 8 {
      ShiftedLow((k >> 4) << 4, k & 15);
    } else {
      ShiftedHigh((k >> 4) << 4, k & 15);
    }
  }

  /** The shift register is linear */

  lemma HalfXor(c: bv32, d: bv32)
    ensures Half(Xor(c, d)) == Xor(Half(c), Half(d))
  {}

  lemma OddXor(c: bv32, d: bv32)
    ensures Odd(Xor(c, d)) <==> Odd(c) != Odd(d)
  {}

  lemma XorAssociative(a: bv32, b: bv32, c: bv32)
    ensures Xor(Xor(a, b), c) == Xor(a, Xor(b, c))
  {}

  lemma XorCommutes(a: bv32, b: bv32)
    ensures Xor(a, b) == Xor(b, a)
  {}

  lemma XorTwice(a: bv32, b: bv32)
    ensures Xor(a, Xor(a, b)) == b
  {}

  lemma FlipXor(x: bv32, y: bv32)
    ensures Xor(Flip(x), y) == Xor(x, Flip(y)) == Flip(Xor(x, y))
    ensures Xor(Flip(x), Flip(y)) == Xor(x, y)
  {
    hide Xor, POLYNOMIAL;
    XorAssociative(POLYNOMIAL, x, y);
    XorCommutes(x, POLYNOMIAL);
    XorAssociative(x, POLYNOMIAL, y);
    XorAssociative(x, POLYNOMIAL, Flip(y));
    XorTwice(POLYNOMIAL, y);
  }

  lemma ShiftParts(c: bv32)
    ensures Shift(c) == if Odd(c) then Flip(Half(c)) else Half(c)
  {}

  lemma ShiftXor(c: bv32, d: bv32)
    ensures Shift(Xor(c, d)) == Xor(Shift(c), Shift(d))
  {
    hide *;
    ShiftParts(c);
    ShiftParts(d);
    ShiftParts(Xor(c, d));
    OddXor(c, d);
    HalfXor(c, d);
    FlipXor(Half(c), Half(d));
  }

  lemma Shift8Xor(c: bv32, d: bv32)
    ensures Shift8(Xor(c, d)) == Xor(Shift8(c), Shift8(d))
  {
    hide Shift, Xor;
    ShiftXor(c, d);
    var c1, d1 := Shift(c), Shift(d);
    ShiftXor(c1, d1);
    var c2, d2 := Shift(c1), Shift(d1);
    ShiftXor(c2, d2);
    var c3, d3 := Shift(c2), Shift(d2);
    ShiftXor(c3, d3);
    var c4, d4 := Shift(c3), Shift(d3);
    ShiftXor(c4, d4);
    var c5, d5 := Shift(c4), Shift(d4);
    ShiftXor(c5, d5);
    var c6, d6 := Shift(c5), Shift(d5);
    ShiftXor(c6, d6);
    ShiftXor(Shift(c6), Shift(d6));
  }
}
