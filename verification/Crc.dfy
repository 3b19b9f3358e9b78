/**
  * The checksum of a buffer, and the search for a short buffer inside a longer one that trusts it
  * (IMB_chk_diff.c, lines 1131-1242 and 1363-1389).  An element has four bytes, so the search by
  * checksum runs for parts of one to three bytes.
  */
module Crc {
  import opened CrcTable

  const ELEMENT_SIZE: nat := 4

  /** A byte read through the program's char type, which may be signed. */
  function Widen(b: Byte, signed: bool): bv32 {
    if signed && b >= 0x80 then 0xffffff00 ^ (b as bv32) else b as bv32
  }

  /** Exclusive or */

  lemma XorZero(a: bv32)
    ensures Xor(a, 0) == a
  {}

  lemma XorCancel(a: bv32, b: bv32, c: bv32)
    requires Xor(c, a) == Xor(c, b) || Xor(a, c) == Xor(b, c)
    ensures a == b
  {}

  /** A byte absorbed bit by bit is eight shifts */

  function Shifts(c: bv32, n: nat): bv32
    decreases n
  {
    if n == 0 then c else Shifts(Shift(c), n - 1)
  }

  /** The word has no more than n bits. */
  predicate Fits(w: bv32, n: nat)
    decreases n
  {
    if n == 0 then w == 0 else Fits(Half(w), n - 1)
  }

  /** All but the lowest bit, in place. */
  function High(w: bv32): bv32 {
    (w >> 1) << 1
  }

  lemma TakeBit(w: bv32)
    ensures Xor(BitOf(Odd(w)), High(w)) == w
    ensures !Odd(High(w)) && Half(High(w)) == Half(w)
  {}

  lemma ShiftEven(w: bv32, half: bv32)
    requires !Odd(w) && Half(w) == half
    ensures Shift(w) == half
  {
    hide *;
    ShiftParts(w);
  }

  lemma ShiftBit(c: bv32, w: bv32)
    ensures Shift(Xor(c, w)) == Xor(Shift(Xor(c, BitOf(Odd(w)))), Half(w))
  {
    hide *;
    var low := BitOf(Odd(w));
    TakeBit(w);
    ShiftEven(High(w), Half(w));
    XorAssociative(c, low, High(w));
    ShiftXor(Xor(c, low), High(w));
  }

  lemma {:induction false} AbsorbBits(c: bv32, w: bv32, n: nat)
    requires Fits(w, n)
    ensures Absorb(c, Bits(w, n)) == Shifts(Xor(c, w), n)
    decreases n
  {
    hide Shift, Xor, BitOf, Odd, Half;
    if n == 0 {
      XorZero(c);
    } else {
      var next := Shift(Xor(c, BitOf(Odd(w))));
      ShiftBit(c, w);
      AbsorbBits(next, Half(w), n - 1);
      assert Bits(w, n)[1..] == Bits(Half(w), n - 1);
    }
  }

  lemma ByteRunsOut(b: bv32)
    requires b < 256
    ensures Half(Half(Half(Half(Half(Half(Half(Half(b)))))))) == 0
  {}

  lemma ByteFits(b: bv32)
    requires b < 256
    ensures Fits(b, 8)
  {
    hide Half;
    ByteRunsOut(b);
    var b4 := Half(Half(Half(Half(b))));
    assert Fits(Half(Half(Half(b4))), 1);
    assert Fits(Half(Half(b4)), 2);
    assert Fits(Half(b4), 3);
    assert Fits(b4, 4);
    assert Fits(Half(Half(Half(b))), 5);
    assert Fits(Half(Half(b)), 6);
    assert Fits(Half(b), 7);
  }

  lemma EightShifts(c: bv32)
    ensures Shifts(c, 8) == Shift8(c)
  {
    hide Shift;
    var c4 := Shift(Shift(Shift(Shift(c))));
    assert Shifts(c, 8) == Shifts(Shift(Shift(c)), 6) == Shifts(c4, 4);
    assert Shifts(c4, 4) == Shifts(Shift(Shift(c4)), 2);
  }

  lemma AbsorbByte(c: bv32, b: bv32)
    requires b < 256
    ensures Absorb(c, Bits(b, 8)) == Shift8(Xor(c, b))
  {
    hide *;
    ByteFits(b);
    AbsorbBits(c, b, 8);
    EightShifts(Xor(c, b));
  }

  /** The table step */

  function Twice(w: bv32): bv32 {
    w << 1
  }

  /** The word moved up by one byte. */
  function Up(w: bv32): bv32 {
    w << 8
  }

  lemma UpIsTwice(w: bv32)
    ensures Up(w) == Twice(Twice(Twice(Twice(Twice(Twice(Twice(Twice(w))))))))
  {}

  predicate TopClear(w: bv32) {
    w < 0x80000000
  }

  lemma RoomAbove(y: bv32)
    requires y < 0x1000000
    ensures TopClear(y) && TopClear(Twice(y)) && TopClear(Twice(Twice(y))) && TopClear(Twice(Twice(Twice(y))))
    ensures TopClear(Twice(Twice(Twice(Twice(y)))))
    ensures TopClear(Twice(Twice(Twice(Twice(Twice(y))))))
    ensures TopClear(Twice(Twice(Twice(Twice(Twice(Twice(y)))))))
    ensures TopClear(Twice(Twice(Twice(Twice(Twice(Twice(Twice(y))))))))
  {}

  lemma TwiceIsEven(w: bv32)
    requires TopClear(w)
    ensures !Odd(Twice(w)) && Half(Twice(w)) == w
  {}

  lemma ShiftTwice(w: bv32)
    requires TopClear(w)
    ensures Shift(Twice(w)) == w
  {
    hide *;
    TwiceIsEven(w);
    ShiftEven(Twice(w), w);
  }

  /** Bits above the lowest eight only move down. */
  lemma ShiftOut(y: bv32)
    requires y < 0x1000000
    ensures Shift8(Up(y)) == y
  {
    hide Shift, Up, Twice, TopClear;
    UpIsTwice(y);
    RoomAbove(y);
    ShiftTwice(Twice(Twice(Twice(Twice(Twice(Twice(Twice(y))))))));
    ShiftTwice(Twice(Twice(Twice(Twice(Twice(Twice(y)))))));
    ShiftTwice(Twice(Twice(Twice(Twice(Twice(y))))));
    ShiftTwice(Twice(Twice(Twice(Twice(y)))));
    ShiftTwice(Twice(Twice(Twice(y))));
    ShiftTwice(Twice(Twice(y)));
    ShiftTwice(Twice(y));
    ShiftTwice(y);
  }

  lemma StepParts(c: bv32, b: Byte, signed: bool)
    ensures (b as bv32) < 256
    ensures (c ^ Widen(b, signed)) & 0xff == Xor(c, b as bv32) & 0xff < 256
    ensures (c >> 8) & 0x00ffffff == Xor(c, b as bv32) >> 8 < 0x1000000
  {}

  lemma TwoParts(x: bv32)
    ensures Xor(x & 0xff, Up(x >> 8)) == x
  {}

  /** What the program does to its register for one byte. */
  function TableStep(c: bv32, b: Byte, signed: bool): bv32 {
    Xor(Entry((c ^ Widen(b, signed)) & 0xff), (c >> 8) & 0x00ffffff)
  }

  lemma TableStepAbsorbs(c: bv32, b: Byte, signed: bool)
    ensures TableStep(c, b, signed) == Absorb(c, Bits(b as bv32, 8))
  {
    hide Entry, Shift8, Shift, Xor, Up, Widen, Absorb, Bits;
    var x := Xor(c, b as bv32);
    StepParts(c, b, signed);
    TableEntry(x & 0xff);
    ShiftOut(x >> 8);
    TwoParts(x);
    Shift8Xor(x & 0xff, Up(x >> 8));
    AbsorbByte(c, b as bv32);
  }

  lemma {:induction false} AbsorbConcat(c: bv32, s: seq<bool>, t: seq<bool>)
    ensures Absorb(c, s + t) == Absorb(Absorb(c, s), t)
    decreases |s|
  {
    if s == [] {
      assert s + t == t;
    } else {
      assert (s + t)[1..] == s[1..] + t;
      AbsorbConcat(Shift(Xor(c, BitOf(s[0]))), s[1..], t);
    }
  }

  lemma {:induction false} MessageBitsConcat(s: seq<Byte>, t: seq<Byte>)
    ensures MessageBits(s + t) == MessageBits(s) + MessageBits(t)
  {
    if s == [] {
      assert s + t == t;
    } else {
      assert (s + t)[1..] == s[1..] + t;
      MessageBitsConcat(s[1..], t);
      assert (Bits(s[0] as bv32, 8) + MessageBits(s[1..])) + MessageBits(t)
          == Bits(s[0] as bv32, 8) + (MessageBits(s[1..]) + MessageBits(t));
    }
  }

  lemma OneByte(b: Byte)
    ensures MessageBits([b]) == Bits(b as bv32, 8)
  {
    assert MessageBits([b]) == Bits(b as bv32, 8) + MessageBits([]);
  }

  lemma AbsorbNext(c: bv32, s: seq<Byte>, b: Byte, signed: bool)
    ensures Absorb(c, MessageBits(s + [b])) == TableStep(Absorb(c, MessageBits(s)), b, signed)
  {
    MessageBitsConcat(s, [b]);
    OneByte(b);
    AbsorbConcat(c, MessageBits(s), MessageBits([b]));
    TableStepAbsorbs(Absorb(c, MessageBits(s)), b, signed);
  }

  lemma ChecksumNext(s: seq<Byte>, b: Byte, signed: bool)
    ensures Checksum([]) == INITIAL
    ensures Checksum(s + [b]) == TableStep(Checksum(s), b, signed)
  {
    assert Checksum([]) == Absorb(INITIAL, []);
    hide TableStep, MessageBits;
    AbsorbNext(INITIAL, s, b, signed);
  }

  /** The checksum of the bytes from a position on, as the program computes it. */
  method ComputeCrc(buf: array<Byte>, from: nat, size: int, signed: bool) returns (crccode: bv32)
    requires from + size <= buf.Length
    ensures size <= 0 ==> crccode == 0
    ensures size > 0 ==> crccode == Checksum(buf[from..from + size])
  {
    hide Checksum, TableStep;
    crccode := INITIAL;
    if size <= 0 {
      crccode := 0;
    } else {
      var i := 0;
      ghost var read: seq<Byte> := [];
      ChecksumNext(read, 0, signed);
      while i < size
        invariant 0 <= i <= size && read == buf[from..from + i]
        invariant crccode == Checksum(read)
      {
        ChecksumNext(read, buf[from + i], signed);
        read := read + [buf[from + i]];
        crccode := TableStep(crccode, buf[from + i], signed);
        i := i + 1;
      }
    }
  }

  /** Four bytes fit in the register, so nothing is lost */

  function Word(u: seq<Byte>): (w: bv32)
    requires |u| <= 4
  {
    if u == [] then 0 else Xor(u[0] as bv32, Up(Word(u[1..])))
  }

  /** The word has no more than n bytes. */
  predicate Narrow(w: bv32, n: nat) {
    w <= (if n == 0 then 0 else if n == 1 then 0xff else if n == 2 then 0xffff else if n == 3 then 0xffffff else 0xffffffff)
  }

  lemma AddByte(b: Byte, w: bv32, n: nat)
    requires n <= 3 && Narrow(w, n)
    ensures Narrow(Xor(b as bv32, Up(w)), n + 1)
  {}

  lemma ZeroIsNarrow(n: nat)
    ensures Narrow(0, n)
  {}

  lemma {:induction false} WordIsNarrow(u: seq<Byte>)
    requires |u| <= 4
    ensures Narrow(Word(u), |u|)
  {
    hide Xor, Up, Narrow;
    if u == [] {
      ZeroIsNarrow(0);
    } else {
      WordIsNarrow(u[1..]);
      AddByte(u[0], Word(u[1..]), |u| - 1);
    }
  }

  lemma NarrowWord(u: seq<Byte>)
    requires |u| <= 3
    ensures Word(u) < 0x1000000
  {
    hide Word;
    WordIsNarrow(u);
  }

  lemma SplitWord(a: Byte, v: bv32, b: Byte, w: bv32)
    requires v < 0x1000000 && w < 0x1000000
    requires Xor(a as bv32, Up(v)) == Xor(b as bv32, Up(w))
    ensures a == b && v == w
  {}

  lemma {:induction false} WordInjective(u: seq<Byte>, v: seq<Byte>)
    requires |u| == |v| <= 4
    requires Word(u) == Word(v)
    ensures u == v
  {
    hide Xor, Up;
    if u == [] {
    } else {
      NarrowWord(u[1..]);
      NarrowWord(v[1..]);
      SplitWord(u[0], Word(u[1..]), v[0], Word(v[1..]));
      WordInjective(u[1..], v[1..]);
      assert u == [u[0]] + u[1..];
      assert v == [v[0]] + v[1..];
    }
  }

  function ShiftBytes(c: bv32, n: nat): bv32
    decreases n
  {
    if n == 0 then c else ShiftBytes(Shift8(c), n - 1)
  }

  lemma ShiftByteAndWord(c: bv32, b: bv32, w: bv32)
    requires w < 0x1000000
    ensures Shift8(Xor(c, Xor(b, Up(w)))) == Xor(Shift8(Xor(c, b)), w)
  {
    hide *;
    ShiftOut(w);
    XorAssociative(c, b, Up(w));
    Shift8Xor(Xor(c, b), Up(w));
  }

  lemma ByteWidth(b: Byte)
    ensures (b as bv32) < 256
  {}

  lemma {:induction false} AbsorbWord(c: bv32, u: seq<Byte>)
    requires |u| <= 4
    ensures Absorb(c, MessageBits(u)) == ShiftBytes(Xor(c, Word(u)), |u|)
    decreases |u|
  {
    hide Shift8, Shift, Xor, Up, Bits;
    if u == [] {
      XorZero(c);
    } else {
      var b, w := u[0] as bv32, Word(u[1..]);
      ByteWidth(u[0]);
      NarrowWord(u[1..]);
      AbsorbConcat(c, Bits(b, 8), MessageBits(u[1..]));
      AbsorbByte(c, b);
      AbsorbWord(Shift8(Xor(c, b)), u[1..]);
      ShiftByteAndWord(c, b, w);
    }
  }

  lemma ShiftInjective(c: bv32, d: bv32)
    requires Shift(c) == Shift(d)
    ensures c == d
  {}

  lemma Shift8Injective(c: bv32, d: bv32)
    requires Shift8(c) == Shift8(d)
    ensures c == d
  {
    hide Shift;
    var c4, d4 := Shift(Shift(Shift(Shift(c)))), Shift(Shift(Shift(Shift(d))));
    ShiftInjective(Shift(Shift(Shift(c4))), Shift(Shift(Shift(d4))));
    ShiftInjective(Shift(Shift(c4)), Shift(Shift(d4)));
    ShiftInjective(Shift(c4), Shift(d4));
    ShiftInjective(c4, d4);
    ShiftInjective(Shift(Shift(Shift(c))), Shift(Shift(Shift(d))));
    ShiftInjective(Shift(Shift(c)), Shift(Shift(d)));
    ShiftInjective(Shift(c), Shift(d));
    ShiftInjective(c, d);
  }

  lemma {:induction false} ShiftBytesInjective(c: bv32, d: bv32, n: nat)
    requires ShiftBytes(c, n) == ShiftBytes(d, n)
    ensures c == d
    decreases n
  {
    hide Shift8;
    if n == 0 {
    } else {
      ShiftBytesInjective(Shift8(c), Shift8(d), n - 1);
      Shift8Injective(c, d);
    }
  }

  /** Two registers fed the same bits stay apart. */
  lemma {:induction false} AbsorbInjective(c: bv32, d: bv32, bits: seq<bool>)
    requires Absorb(c, bits) == Absorb(d, bits)
    ensures c == d
    decreases |bits|
  {
    hide Shift, Xor, BitOf;
    if bits == [] {
    } else {
      var b := BitOf(bits[0]);
      AbsorbInjective(Shift(Xor(c, b)), Shift(Xor(d, b)), bits[1..]);
      ShiftInjective(Xor(c, b), Xor(d, b));
      XorCancel(c, d, b);
    }
  }

  lemma ChecksumOfThree(prefix: seq<Byte>, u: seq<Byte>, suffix: seq<Byte>)
    ensures Checksum(prefix + u + suffix)
         == Absorb(Absorb(Absorb(INITIAL, MessageBits(prefix)), MessageBits(u)), MessageBits(suffix))
  {
    MessageBitsConcat(prefix + u, suffix);
    MessageBitsConcat(prefix, u);
    AbsorbConcat(INITIAL, MessageBits(prefix + u), MessageBits(suffix));
    AbsorbConcat(INITIAL, MessageBits(prefix), MessageBits(u));
  }

  /** Buffers of equal length that differ only within four consecutive bytes have different checksums. */
  lemma BurstDetected(prefix: seq<Byte>, u: seq<Byte>, v: seq<Byte>, suffix: seq<Byte>)
    requires |u| == |v| <= 4
    requires u != v
    ensures Checksum(prefix + u + suffix) != Checksum(prefix + v + suffix)
  {
    if Checksum(prefix + u + suffix) == Checksum(prefix + v + suffix) {
      var c := Absorb(INITIAL, MessageBits(prefix));
      ChecksumOfThree(prefix, u, suffix);
      ChecksumOfThree(prefix, v, suffix);
      AbsorbInjective(Absorb(c, MessageBits(u)), Absorb(c, MessageBits(v)), MessageBits(suffix));
      AbsorbWord(c, u);
      AbsorbWord(c, v);
      hide *;
      ShiftBytesInjective(Xor(c, Word(u)), Xor(c, Word(v)), |u|);
      XorCancel(Word(u), Word(v), c);
      WordInjective(u, v);
    }
  }

  /** For buffers shorter than five bytes the checksum is as good as the bytes. */
  lemma ShortChecksum(u: seq<Byte>, v: seq<Byte>)
    requires |u| == |v| <= 4
    ensures Checksum(u) == Checksum(v) <==> u == v
  {
    hide *;
    if u != v {
      BurstDetected([], u, v, []);
      assert [] + u + [] == u && [] + v + [] == v;
    }
  }

  /** A checksum that no comparison has met yet. */
  function Another(c: bv32): (r: bv32)
    ensures r != c
  {
    c - 1
  }

  /** Part stands in whole at a position. */
  predicate OccursAt(part: seq<Byte>, whole: seq<Byte>, k: nat) {
    k + |part| <= |whole| && whole[k..k + |part|] == part
  }

  /** The search, for every part but those of whole elements. */
  method ChkContained(part: array<Byte>, p_size: int, whole: array<Byte>, w_size: int, signed: bool)
    returns (pos: int, fpos: int, d: int)
    requires p_size <= part.Length && 0 <= w_size <= whole.Length
    requires p_size < ELEMENT_SIZE || p_size > w_size
    ensures p_size <= 0 ==> pos == 0 && fpos == -1 && d == 0
    ensures 0 < p_size ==> (d == 0 <==> exists k: nat :: OccursAt(part[..p_size], whole[..w_size], k))
    ensures 0 < p_size && d == 0 ==>
      fpos == -1 && 0 <= pos && OccursAt(part[..p_size], whole[..w_size], pos)
      && forall k: nat :: k < pos ==> !OccursAt(part[..p_size], whole[..w_size], k)
    ensures d != 0 ==> d == 1 && pos == 0 && fpos == 0
  {
    hide Checksum;
    fpos := -1;
    d := 0;
    if p_size <= 0 {
      pos := 0;
    } else if p_size > w_size {
      pos := 0;
      fpos := 0;
    } else {
      var pcrc := ComputeCrc(part, 0, p_size, signed);
      pos := 0;
      var wcrc := Another(pcrc);
      ghost var p, w := part[..p_size], whole[..w_size];
      while pos <= w_size - p_size && wcrc != pcrc
        invariant 0 <= pos <= w_size - p_size + 1
        invariant forall k: nat :: k < pos ==> !OccursAt(p, w, k)
        invariant wcrc == pcrc ==> pos <= w_size - p_size && OccursAt(p, w, pos)
        decreases w_size - p_size + 1 - pos, if wcrc != pcrc then 1 else 0
      {
        wcrc := ComputeCrc(whole, pos, p_size, signed);
        ShortChecksum(whole[pos..pos + p_size], p);
        assert w[pos..pos + p_size] == whole[pos..pos + p_size];
        if wcrc != pcrc {
          pos := pos + 1;
        }
      }
      if pos <= w_size - p_size {
        d := 0;
      } else {
        pos := 0;
        fpos := 0;
        d := 1;
      }
    }
    if fpos >= 0 {
      d := 1;
    }
  }
}
