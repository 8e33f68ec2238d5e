/**
 CRC64 with the reversed ISO polynomial: the slice-by-8 table form (lib/crc64.cc) against
 bit-by-bit division.  A uint64_t is the sequence of its bits, least significant first.
 As a remainder, bit 0 holds the coefficient of x^63 and bit 63 that of x^0.
 */
module Crc64 {

  import opened Common

  type Word = w: seq<bool> | |w| == 64 witness seq(64, i => false)

  function Zero(): Word {
    seq(64, i => false)
  }

  newtype Byte = b: int | 0 <= b < 256

  /** POLY64REV, 0xd800000000000000 */
  function Poly(): Word {
    seq(64, i => i == 63 || i == 62 || i == 60 || i == 59)
  }

  function Xor(a: Word, b: Word): Word {
    seq(64, i requires 0 <= i < 64 => a[i] != b[i])
  }

  /** a >> k */
  function Shr(a: Word, k: nat): Word
    requires k <= 64
  {
    a[k..] + Zero()[..k]
  }

  /** a & 0xff */
  function LowByte(a: Word): Word {
    a[..8] + Zero()[8..]
  }

  // ----- Reference: long division

  /** A remainder times x, reduced by the polynomial. */
  function MulX(r: Word): Word {
    if r[0] then Xor(Shr(r, 1), Poly()) else Shr(r, 1)
  }

  /** Bring down one message bit, which enters at x^64. */
  function DivideBit(r: Word, bit: bool): Word {
    if bit then Xor(MulX(r), Poly()) else MulX(r)
  }

  function DivideBits(r: Word, bits: seq<bool>): Word
    decreases |bits|
  {
    if bits == [] then r else DivideBits(DivideBit(r, bits[0]), bits[1..])
  }

  /** The bits of a byte, zero-extended. */
  function Bits(b: nat): Word {
    seq(64, i requires 0 <= i < 64 => BitOf(b, i))
  }

  function BitOf(b: nat, i: nat): bool {
    if i == 0 then b % 2 == 1 else BitOf(b / 2, i - 1)
  }

  /** The message as a bit string: every byte least significant bit first. */
  function Message(data: seq<Byte>): (m: seq<bool>)
    ensures |m| == 8 * |data|
  {
    if data == [] then [] else Message(data[..|data| - 1]) + Bits(data[|data| - 1] as int)[..8]
  }

  /** The remainder of the message times x^64. */
  function Crc(data: seq<Byte>): Word {
    DivideBits(Zero(), Message(data))
  }

  // ----- The register is linear

  function Steps(r: Word, n: nat): Word
    decreases n
  {
    if n == 0 then r else Steps(MulX(r), n - 1)
  }

  lemma MulXLinear(a: Word, b: Word)
    ensures MulX(Xor(a, b)) == Xor(MulX(a), MulX(b))
  {
  }

  lemma {:induction false} StepsLinear(a: Word, b: Word, n: nat)
    ensures Steps(Xor(a, b), n) == Xor(Steps(a, n), Steps(b, n))
    decreases n
  {
    if n > 0 {
      MulXLinear(a, b);
      StepsLinear(MulX(a), MulX(b), n - 1);
    }
  }

  lemma {:induction false} StepsAdd(a: Word, m: nat, n: nat)
    ensures Steps(a, m + n) == Steps(Steps(a, m), n)
    decreases m
  {
    if m > 0 { StepsAdd(MulX(a), m - 1, n); }
  }

  /** Bits that have not reached the low end yet are only shifted. */
  lemma {:induction false} HighBitsShift(a: Word, k: nat)
    requires k <= 64 && forall i :: 0 <= i < k ==> !a[i]
    ensures Steps(a, k) == Shr(a, k)
    decreases k
  {
    if k > 0 {
      HighBitsShift(Shr(a, 1), k - 1);
      ShrShr(a, 1, k - 1);
    }
  }

  /** Dividing by a bit string is xoring it in and stepping past it. */
  lemma {:induction false} DivideIsSteps(r: Word, w: Word, n: nat)
    requires n <= 64
    ensures Steps(Xor(r, w), n) == Xor(DivideBits(r, w[..n]), Shr(w, n))
    decreases n
  {
    if n == 0 {
      assert Shr(w, 0) == w;
    } else {
      BitEnters(r, w);
      DivideIsSteps(DivideBit(r, w[0]), Shr(w, 1), n - 1);
      assert Shr(w, 1)[..n - 1] == w[..n][1..];
      ShrShr(w, 1, n - 1);
    }
  }

  lemma BitEnters(r: Word, w: Word)
    ensures MulX(Xor(r, w)) == Xor(DivideBit(r, w[0]), Shr(w, 1))
  {
  }

  lemma ShrShr(x: Word, j: nat, k: nat)
    requires j + k <= 64
    ensures Shr(Shr(x, j), k) == Shr(x, j + k)
  {
    forall i | 0 <= i < 64 ensures Shr(Shr(x, j), k)[i] == Shr(x, j + k)[i] {
    }
  }

  lemma {:induction false} DivideConcat(r: Word, a: seq<bool>, b: seq<bool>)
    ensures DivideBits(r, a + b) == DivideBits(DivideBits(r, a), b)
    decreases |a|
  {
    if a == [] {
      assert a + b == b;
    } else {
      DivideConcat(DivideBit(r, a[0]), a[1..], b);
      assert (a + b)[1..] == a[1..] + b;
    }
  }

  // ----- Bytes and table indices

  /** The value of a bit string, least significant bit first. */
  function Value(bits: seq<bool>): nat {
    if bits == [] then 0 else (if bits[0] then 1 else 0) + 2 * Value(bits[1..])
  }

  /** The table index made from the low byte of a word. */
  function Index(x: Word): (n: nat)
    ensures n < 256
  {
    ValueOfByte(x[..8]);
    Value(x[..8])
  }

  lemma ValueOfByte(b: seq<bool>)
    requires |b| == 8
    ensures Value(b) < 256
  {
    ValueStep(b); ValueStep(b[1..]); ValueStep(b[2..]); ValueStep(b[3..]);
    ValueStep(b[4..]); ValueStep(b[5..]); ValueStep(b[6..]); ValueStep(b[7..]);
    assert b[1..][1..] == b[2..] && b[2..][1..] == b[3..] && b[3..][1..] == b[4..] && b[4..][1..] == b[5..];
    assert b[5..][1..] == b[6..] && b[6..][1..] == b[7..] && b[7..][1..] == [];
  }

  lemma ValueStep(b: seq<bool>)
    requires b != []
    ensures Value(b) <= 1 + 2 * Value(b[1..])
  {
  }

  lemma {:induction false} BitOfValue(bits: seq<bool>, i: nat)
    ensures BitOf(Value(bits), i) <==> i < |bits| && bits[i]
    decreases i
  {
    if bits == [] {
      BitOfZero(i);
    } else {
      BitOfStep(if bits[0] then 1 else 0, Value(bits[1..]), i);
      if i > 0 { BitOfValue(bits[1..], i - 1); }
    }
  }

  lemma BitOfStep(low: nat, v: nat, i: nat)
    requires low < 2
    ensures BitOf(low + 2 * v, i) == if i == 0 then low == 1 else BitOf(v, i - 1)
  {
    assert (low + 2 * v) / 2 == v && (low + 2 * v) % 2 == low;
  }

  lemma {:induction false} BitOfZero(i: nat)
    ensures !BitOf(0, i)
  {
    if i > 0 { BitOfZero(i - 1); }
  }

  lemma {:induction false} ByteHasEightBits(b: nat, n: nat, i: nat)
    requires b < Pow2(n) && n <= i
    ensures !BitOf(b, i)
    decreases n
  {
    if n == 0 { BitOfZero(i); } else { ByteHasEightBits(b / 2, n - 1, i - 1); }
  }

  lemma BitsOfByte(b: nat)
    requires b < 256
    ensures Shr(Bits(b), 8) == Zero()
  {
    assert Pow2(4) == 16 && Pow2(8) == 256;
    forall i | 8 <= i < 64 ensures !Bits(b)[i] { ByteHasEightBits(b, 8, i); }
  }

  lemma BitsOfIndex(x: Word)
    ensures Bits(Index(x)) == LowByte(x)
  {
    forall i | 0 <= i < 64 ensures Bits(Index(x))[i] == LowByte(x)[i] { BitOfValue(x[..8], i); }
  }

  // ----- The tables

  /** What CRCTable[k][n] must hold: byte n pushed through 8 * (k + 1) steps. */
  function Table(k: nat, n: nat): Word {
    Steps(Bits(n), 8 * (k + 1))
  }

  /** Stepping past the low byte of x replaces it by a table entry. */
  lemma LookUpLowByte(x: Word, k: nat)
    ensures Steps(x, 8 * (k + 1)) == Xor(Table(k, Index(x)), Steps(Shr(x, 8), 8 * k))
  {
    var high := Zero()[..8] + x[8..];
    assert x == Xor(LowByte(x), high);
    BitsOfIndex(x);
    StepsLinear(LowByte(x), high, 8 * (k + 1));
    StepsAdd(high, 8, 8 * k);
    HighBitsShift(high, 8);
    assert Shr(high, 8) == Shr(x, 8);
  }

  /** One byte at a time: the update of lines 77 and 98. */
  lemma ByteUpdate(crc: Word, b: Byte)
    ensures Xor(Table(0, Index(Xor(crc, Bits(b as int)))), Shr(crc, 8)) == DivideBits(crc, Bits(b as int)[..8])
  {
    var w := Bits(b as int);
    LookUpLowByte(Xor(crc, w), 0);
    DivideIsSteps(crc, w, 8);
    BitsOfByte(b as int);
    assert Shr(Xor(crc, w), 8) == Xor(Shr(crc, 8), Shr(w, 8)) == Shr(crc, 8);
    assert Xor(DivideBits(crc, w[..8]), Zero()) == DivideBits(crc, w[..8]);
  }

  /** The first m of the eight lookups of the fast loop. */
  function Slices(x: Word, m: nat): Word
    requires m <= 8
  {
    if m == 0 then Zero() else Xor(Slices(x, m - 1), Table(8 - m, Index(Shr(x, 8 * (m - 1)))))
  }

  lemma SlicesAreSteps(x: Word, m: nat, k: nat, n: nat)
    requires m + k == 8 && n == 64
    ensures Steps(x, n) == Sliced(x, m, k)
  {
    NothingSliced(x, m + k, n);
    SlicesAgree(x, m, k);
  }

  lemma {:induction false} SlicesAgree(x: Word, m: nat, k: nat)
    requires m + k == 8
    ensures Sliced(x, m, k) == Sliced(x, 0, m + k)
    decreases m
  {
    if m > 0 {
      SlicesAgree(x, m - 1, k + 1);
      SliceOff(x, m, k);
    }
  }

  /** The first m lookups together with the bits they have not reached. */
  function Sliced(x: Word, m: nat, k: nat): Word
    requires m + k == 8
  {
    Xor(Slices(x, m), Steps(Shr(x, 8 * m), 8 * k))
  }

  lemma NothingSliced(x: Word, k: nat, n: nat)
    requires k == 8 && n == 64
    ensures Steps(x, n) == Sliced(x, 0, k)
  {
    assert Shr(x, 0) == x;
    XorZero(Steps(x, n));
  }

  lemma SliceOff(x: Word, m: nat, k: nat)
    requires m + k == 8 && 1 <= m
    ensures Sliced(x, m - 1, k + 1) == Sliced(x, m, k)
  {
    var y := Shr(x, 8 * (m - 1));
    SliceStep(Slices(x, m - 1), y, k);
    SlicesUnfold(x, m - 1);
    ShrShr(x, 8 * (m - 1), 8);
  }

  lemma SliceStep(a: Word, y: Word, k: nat)
    ensures Xor(a, Steps(y, 8 * (k + 1))) == Xor(Xor(a, Table(k, Index(y))), Steps(Shr(y, 8), 8 * k))
  {
    LookUpLowByte(y, k);
    XorAssociative(a, Table(k, Index(y)), Steps(Shr(y, 8), 8 * k));
  }

  lemma XorZero(a: Word)
    ensures Xor(a, Zero()) == a == Xor(Zero(), a)
  {
  }

  lemma ShrAll(a: Word)
    ensures Shr(a, 64) == Zero()
  {
  }

  lemma XorAssociative(a: Word, b: Word, c: Word)
    ensures Xor(a, Xor(b, c)) == Xor(Xor(a, b), c)
  {
  }

  /** Eight bytes at a time: w is the little-endian load. */
  lemma WordUpdate(crc: Word, w: Word)
    ensures Slices(Xor(crc, w), 8) == DivideBits(crc, w)
  {
    var x, n := Xor(crc, w), 64;
    SlicesAreSteps(x, 8, 0, n);
    XorZero(Slices(x, 8));
    ShrAll(x);
    FullDivide(crc, w, n);
  }

  lemma FullDivide(r: Word, w: Word, n: nat)
    requires n == 64
    ensures DivideBits(r, w) == Steps(Xor(r, w), n)
  {
    DivideIsSteps(r, w, n);
    assert w[..n] == w;
    ShrAll(w);
    XorZero(DivideBits(r, w));
  }

  lemma {:induction false} MessageConcat(a: seq<Byte>, b: seq<Byte>)
    ensures Message(a + b) == Message(a) + Message(b)
    decreases |b|
  {
    if b == [] {
      assert a + b == a;
    } else {
      var b' := b[..|b| - 1];
      MessageConcat(a, b');
      assert (a + b)[..|a + b| - 1] == a + b';
    }
  }

  /** Each table row follows from the one before by one more byte of zeros. */
  lemma NextTable(n: nat, k: nat)
    requires 1 <= k
    ensures Table(k, n) == Xor(Table(0, Index(Table(k - 1, n))), Shr(Table(k - 1, n), 8))
  {
    StepsAdd(Bits(n), 8 * k, 8);
    LookUpLowByte(Table(k - 1, n), 0);
  }

  // ----- The code

  ghost predicate TableOk(t: array2<Word>)
    reads t
  {
    && t.Length0 == 8 && t.Length1 == 256
    && forall k, n :: 0 <= k < 8 && 0 <= n < 256 ==> t[k, n] == Table(k, n)
  }

  /** The static table and its init flag. */
  class Digest {
    var init: bool
    const table: array2<Word>

    ghost predicate Valid()
      reads this, table
    {
      table.Length0 == 8 && table.Length1 == 256 && (init ==> TableOk(table))
    }

    constructor ()
      ensures Valid() && fresh(table)
    {
      init := false;
      table := new Word[8, 256]((k, n) => Zero());
    }

    method InitTable()
      requires Valid()
      modifies this, table
      ensures Valid() && init
    {
      if !init {
        for n := 0 to 256
          invariant forall i :: 0 <= i < n ==> table[0, i] == Table(0, i)
        {
          table[0, n] := ByteTable(n);
        }
        for n := 0 to 256
          invariant forall i :: 0 <= i < 256 ==> table[0, i] == Table(0, i)
          invariant forall k, i :: 0 <= k < 8 && 0 <= i < n ==> table[k, i] == Table(k, i)
        {
          NestTable(n);
        }
        init := true;
      }
    }

    /** One column of the nested tables. */
    method NestTable(n: nat)
      requires table.Length0 == 8 && table.Length1 == 256 && n < 256
      requires forall i :: 0 <= i < 256 ==> table[0, i] == Table(0, i)
      modifies table
      ensures forall k :: 0 <= k < 8 ==> table[k, n] == Table(k, n)
      ensures forall k, i :: 0 <= k < 8 && 0 <= i < 256 && i != n ==> table[k, i] == old(table[k, i])
    {
      var crc := table[0, n];
      for k := 1 to 8
        invariant forall i :: 0 <= i < 256 ==> table[0, i] == Table(0, i)
        invariant forall k', i :: 0 <= k' < 8 && 0 <= i < 256 && i != n ==> table[k', i] == old(table[k', i])
        invariant forall k' :: 0 <= k' < k ==> table[k', n] == Table(k', n)
        invariant crc == Table(k - 1, n)
      {
        NextTable(n, k);
        crc := Xor(table[0, Index(crc)], Shr(crc, 8));
        table[k, n] := crc;
      }
    }

    /** The CRC of a single byte, bit by bit. */
    static method ByteTable(n: nat) returns (part: Word)
      requires n < 256
      ensures part == Table(0, n)
    {
      part := Bits(n);
      for j := 0 to 8
        invariant Steps(part, 8 - j) == Table(0, n)
      {
        if part[0] {
          part := Xor(Shr(part, 1), Poly());
        } else {
          part := Shr(part, 1);
        }
      }
    }

    /** `address` is where the data starts in memory: only its low three bits matter. */
    method Crc64(p: seq<Byte>, address: nat) returns (crc: Word)
      requires Valid()
      modifies this, table
      ensures Valid()
      ensures crc == Crc(p)
    {
      InitTable();
      crc := Zero();
      var i := 0;
      while i < |p| && (address + i) % 8 != 0
        invariant 0 <= i <= |p|
        invariant crc == Crc(p[..i])
        modifies {}
      {
        crc := PushByte(crc, p, i);
        i := i + 1;
      }
      while |p| - i >= 8
        invariant 0 <= i <= |p|
        invariant crc == Crc(p[..i])
        modifies {}
      {
        crc := PushWord(crc, p, i);
        i := i + 8;
      }
      while i < |p|
        invariant 0 <= i <= |p|
        invariant crc == Crc(p[..i])
        modifies {}
      {
        crc := PushByte(crc, p, i);
        i := i + 1;
      }
      assert p[..i] == p;
    }

    method PushByte(crc: Word, p: seq<Byte>, i: nat) returns (r: Word)
      requires TableOk(table)
      requires i < |p| && crc == Crc(p[..i])
      ensures r == Crc(p[..i + 1])
    {
      r := Xor(table[0, Index(Xor(crc, Bits(p[i] as int)))], Shr(crc, 8));
      ByteUpdate(crc, p[i]);
      assert p[..i + 1][..i] == p[..i];
      DivideConcat(Zero(), Message(p[..i]), Bits(p[i] as int)[..8]);
    }

    method PushWord(crc: Word, p: seq<Byte>, i: nat) returns (r: Word)
      requires TableOk(table)
      requires i + 8 <= |p| && crc == Crc(p[..i])
      ensures r == Crc(p[..i + 8])
    {
      MessageConcat(p[..i], p[i..i + 8]);
      assert p[..i] + p[i..i + 8] == p[..i + 8];
      var w: Word := Message(p[i..i + 8]);
      var x := Xor(crc, w);
      r := Xor(Xor(Xor(Xor(Xor(Xor(Xor(
              table[7, Index(x)],
              table[6, Index(Shr(x, 8))]),
              table[5, Index(Shr(x, 16))]),
              table[4, Index(Shr(x, 24))]),
              table[3, Index(Shr(x, 32))]),
              table[2, Index(Shr(x, 40))]),
              table[1, Index(Shr(x, 48))]),
              table[0, Index(Shr(x, 56))]);
      UnrollSlices(x);
      WordUpdate(crc, w);
      DivideConcat(Zero(), Message(p[..i]), w);
    }
  }

  lemma UnrollSlices(x: Word)
    ensures Slices(x, 8) ==
        Xor(Xor(Xor(Xor(Xor(Xor(Xor(
          Table(7, Index(x)),
          Table(6, Index(Shr(x, 8)))),
          Table(5, Index(Shr(x, 16)))),
          Table(4, Index(Shr(x, 24)))),
          Table(3, Index(Shr(x, 32)))),
          Table(2, Index(Shr(x, 40)))),
          Table(1, Index(Shr(x, 48)))),
          Table(0, Index(Shr(x, 56))))
  {
    assert Shr(x, 0) == x;
    XorZero(Table(7, Index(x)));
    assert Slices(x, 1) == Table(7, Index(x));
    SlicesUnfold(x, 1); SlicesUnfold(x, 2); SlicesUnfold(x, 3); SlicesUnfold(x, 4);
    SlicesUnfold(x, 5); SlicesUnfold(x, 6); SlicesUnfold(x, 7);
  }

  lemma SlicesUnfold(x: Word, m: nat)
    requires m < 8
    ensures Slices(x, m + 1) == Xor(Slices(x, m), Table(7 - m, Index(Shr(x, 8 * m))))
  {
  }

  // ----- What follows for the checksum

  lemma MulXInjective(a: Word, b: Word)
    requires MulX(a) == MulX(b)
    ensures a == b
  {
    assert MulX(a)[63] == a[0] && MulX(b)[63] == b[0];
    assert Shr(a, 1) == Shr(b, 1) by {
      if a[0] {
        XorCancel(Shr(a, 1), Poly());
        XorCancel(Shr(b, 1), Poly());
      }
    }
    assert a == [a[0]] + Shr(a, 1)[..63];
    assert b == [b[0]] + Shr(b, 1)[..63];
  }

  lemma MulXKeepsApart(a: Word, b: Word)
    ensures MulX(a) == MulX(b) ==> a == b
  {
    if MulX(a) == MulX(b) { MulXInjective(a, b); }
  }

  /** Two remainders that differ still differ after any number of steps. */
  lemma {:induction false} StepsInjective(a: Word, b: Word, n: nat)
    requires a != b
    ensures Steps(a, n) != Steps(b, n)
    decreases n
  {
    if n > 0 {
      MulXKeepsApart(a, b);
      StepsInjective(MulX(a), MulX(b), n - 1);
    }
  }

  lemma XorCancel(a: Word, b: Word)
    ensures Xor(Xor(a, b), b) == a
  {
  }

  /** Dividing by equal bits keeps remainders apart. */
  lemma {:induction false} SuffixKeepsApart(r: Word, s: Word, bits: seq<bool>)
    requires r != s
    ensures DivideBits(r, bits) != DivideBits(s, bits)
    decreases |bits|
  {
    if bits != [] {
      StepsInjective(r, s, 1);
      if bits[0] && Xor(MulX(r), Poly()) == Xor(MulX(s), Poly()) {
        XorCancel(MulX(r), Poly());
        XorCancel(MulX(s), Poly());
      }
      SuffixKeepsApart(DivideBit(r, bits[0]), DivideBit(s, bits[0]), bits[1..]);
    }
  }

  /** Any change confined to eight consecutive bytes, at any position, changes the checksum. */
  lemma BurstDetected(before: seq<Byte>, a: seq<Byte>, b: seq<Byte>, after: seq<Byte>)
    requires |a| == |b| <= 8 && a != b
    ensures Crc(before + a + after) != Crc(before + b + after)
  {
    CrcOfParts(before, a, after);
    CrcOfParts(before, b, after);
    MessageInjective(a, b);
    WindowKeepsApart(Crc(before), Message(a), Message(b), 8 * |a|);
    SuffixKeepsApart(DivideBits(Crc(before), Message(a)), DivideBits(Crc(before), Message(b)), Message(after));
  }

  lemma {:induction false} BitsInjective(x: nat, y: nat, n: nat)
    requires x < Pow2(n) && y < Pow2(n) && forall i :: 0 <= i < n ==> BitOf(x, i) == BitOf(y, i)
    ensures x == y
  {
    if n > 0 {
      assert BitOf(x, 0) == BitOf(y, 0);
      forall i | 0 <= i < n - 1 ensures BitOf(x / 2, i) == BitOf(y / 2, i) {
        assert BitOf(x, i + 1) == BitOf(y, i + 1);
      }
      BitsInjective(x / 2, y / 2, n - 1);
    }
  }

  lemma ByteInjective(x: Byte, y: Byte, n: nat)
    requires n == 8 && Bits(x as int)[..n] == Bits(y as int)[..n]
    ensures x == y
  {
    var a: nat, b: nat := x as int, y as int;
    forall i | 0 <= i < n ensures BitOf(a, i) == BitOf(b, i) {
      assert Bits(a)[..n][i] == Bits(b)[..n][i];
    }
    assert Pow2(4) == 16 && Pow2(8) == 256;
    BitsInjective(a, b, n);
  }

  /** Different bytes are different messages. */
  lemma {:induction false} MessageInjective(a: seq<Byte>, b: seq<Byte>)
    requires |a| == |b| && a != b
    ensures Message(a) != Message(b)
    decreases |a|
  {
    var n := |a| - 1;
    var ma, mb, x, y := Message(a[..n]), Message(b[..n]), Bits(a[n] as int)[..8], Bits(b[n] as int)[..8];
    assert Message(a) == ma + x && Message(b) == mb + y;
    if a[..n] != b[..n] {
      MessageInjective(a[..n], b[..n]);
      assert Message(a)[..8 * n] == ma && Message(b)[..8 * n] == mb;
    } else {
      assert a == a[..n] + [a[n]] && b == b[..n] + [b[n]];
      assert x != y by { if x == y { ByteInjective(a[n], b[n], 8); } }
      assert Message(a)[8 * n..] == x && Message(b)[8 * n..] == y;
    }
  }

  /** The bits as a word, zero-extended. */
  function Padded(u: seq<bool>): Word
    requires |u| <= 64
  {
    u + Zero()[|u|..]
  }

  lemma DividePadded(r: Word, u: seq<bool>)
    requires |u| <= 64
    ensures DivideBits(r, u) == Steps(Xor(r, Padded(u)), |u|)
  {
    var w := Padded(u);
    assert w[..|u|] == u;
    DivideIsSteps(r, w, |u|);
    assert Shr(w, |u|) == Zero();
    XorZero(DivideBits(r, u));
  }

  lemma WindowKeepsApart(r: Word, u: seq<bool>, v: seq<bool>, n: nat)
    requires u != v && |u| == |v| == n <= 64
    ensures DivideBits(r, u) != DivideBits(r, v)
  {
    DividePadded(r, u);
    DividePadded(r, v);
    var x, y := Padded(u), Padded(v);
    assert x[..n] == u && y[..n] == v;
    XorKeepsApart(r, x, y);
    StepsInjective(Xor(r, x), Xor(r, y), n);
  }

  lemma XorKeepsApart(r: Word, x: Word, y: Word)
    requires x != y
    ensures Xor(r, x) != Xor(r, y)
  {
    var i :| 0 <= i < 64 && x[i] != y[i];
    assert Xor(r, x)[i] != Xor(r, y)[i];
  }

  lemma CrcOfParts(a: seq<Byte>, b: seq<Byte>, c: seq<Byte>)
    ensures Crc(a + b + c) == DivideBits(DivideBits(Crc(a), Message(b)), Message(c))
  {
    MessageConcat(a + b, c);
    MessageConcat(a, b);
    DivideConcat(Zero(), Message(a) + Message(b), Message(c));
    DivideConcat(Zero(), Message(a), Message(b));
  }

  function XorBits(a: seq<bool>, b: seq<bool>): (r: seq<bool>)
    requires |a| == |b|
    ensures |r| == |a|
  {
    seq(|a|, i requires 0 <= i < |a| && |a| == |b| => a[i] != b[i])
  }

  /** The checksum is linear over xor of messages of one length. */
  lemma {:induction false} CrcLinear(r: Word, s: Word, a: seq<bool>, b: seq<bool>)
    requires |a| == |b|
    ensures DivideBits(Xor(r, s), XorBits(a, b)) == Xor(DivideBits(r, a), DivideBits(s, b))
    decreases |a|
  {
    if a != [] {
      MulXLinear(r, s);
      assert DivideBit(Xor(r, s), a[0] != b[0]) == Xor(DivideBit(r, a[0]), DivideBit(s, b[0]));
      assert XorBits(a, b)[1..] == XorBits(a[1..], b[1..]);
      CrcLinear(DivideBit(r, a[0]), DivideBit(s, b[0]), a[1..], b[1..]);
    }
  }

  /** x ^ y */
  function XorByte(x: Byte, y: Byte): Byte {
    Index(Xor(Bits(x as int), Bits(y as int))) as Byte
  }

  function XorBytes(a: seq<Byte>, b: seq<Byte>): (r: seq<Byte>)
    requires |a| == |b|
    ensures |r| == |a|
  {
    if a == [] then [] else XorBytes(a[..|a| - 1], b[..|b| - 1]) + [XorByte(a[|a| - 1], b[|b| - 1])]
  }

  lemma XorByteBits(x: Byte, y: Byte, u: Word, v: Word)
    requires u == Bits(x as int) && v == Bits(y as int)
    ensures Bits(XorByte(x, y) as int)[..8] == XorBits(u[..8], v[..8])
  {
    var w := Xor(u, v);
    forall i | 0 <= i < 8 ensures Bits(Index(w))[..8][i] == XorBits(u[..8], v[..8])[i] {
      BitOfValue(w[..8], i);
    }
  }

  lemma XorConcat(a: seq<bool>, b: seq<bool>, c: seq<bool>, d: seq<bool>)
    requires |a| == |b| && |c| == |d|
    ensures XorBits(a + c, b + d) == XorBits(a, b) + XorBits(c, d)
  {
  }

  lemma {:induction false} XorMessage(a: seq<Byte>, b: seq<Byte>)
    requires |a| == |b|
    ensures Message(XorBytes(a, b)) == XorBits(Message(a), Message(b))
    decreases |a|
  {
    if a != [] {
      var n := |a| - 1;
      XorMessage(a[..n], b[..n]);
      XorByteBits(a[n], b[n], Bits(a[n] as int), Bits(b[n] as int));
      XorConcat(Message(a[..n]), Message(b[..n]), Bits(a[n] as int)[..8], Bits(b[n] as int)[..8]);
      assert XorBytes(a, b)[..n] == XorBytes(a[..n], b[..n]);
    }
  }

  /** The same for bytes: the checksum of the xor is the xor of the checksums. */
  lemma CrcOfXor(a: seq<Byte>, b: seq<Byte>)
    requires |a| == |b|
    ensures Crc(XorBytes(a, b)) == Xor(Crc(a), Crc(b))
  {
    XorMessage(a, b);
    XorZero(Zero());
    CrcLinear(Zero(), Zero(), Message(a), Message(b));
  }

  /** All-zero data of any length hashes to zero. */
  lemma {:induction false} ZeroData(data: seq<Byte>)
    requires forall i :: 0 <= i < |data| ==> data[i] == 0
    ensures Crc(data) == Zero()
  {
    if data != [] {
      ZeroData(data[..|data| - 1]);
      var w := Bits(0);
      forall i | 0 <= i < 64 ensures !w[i] { BitOfZero(i); }
      assert w == Zero();
      DivideConcat(Zero(), Message(data[..|data| - 1]), w[..8]);
      HighBitsShift(Zero(), 8);
      DivideIsSteps(Zero(), w, 8);
      XorZero(Zero());
      XorZero(DivideBits(Zero(), w[..8]));
      assert Shr(Zero(), 8) == Zero();
    }
  }
}
