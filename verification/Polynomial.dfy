/**
 The register of Crc64 as arithmetic of polynomials over the field of two elements: it holds the
 remainder of the message times x^64, divided by x^64 + x^4 + x^3 + x + 1.
 */
module Polynomial {

  import opened Crc64

  /** The powers of x with coefficient one. */
  type Polynomial = set<nat>

  function Plus(a: Polynomial, b: Polynomial): (r: Polynomial)
    ensures forall e :: e in r <==> (e in a) != (e in b)
  {
    (a - b) + (b - a)
  }

  function Shift(a: Polynomial, n: nat): (r: Polynomial)
    ensures forall e :: e in r <==> e >= n && e - n in a
  {
    set e | e in a :: e + n
  }

  /** The polynomial of a bit string, highest power first. */
  function Of(bits: seq<bool>): Polynomial {
    if bits == [] then {} else Plus(Shift(Of(bits[..|bits| - 1]), 1), if bits[|bits| - 1] then {0} else {})
  }

  /** The polynomial of a bit string times p. */
  function Product(q: seq<bool>, p: Polynomial): Polynomial {
    if q == [] then {} else Plus(Shift(Product(q[..|q| - 1], p), 1), if q[|q| - 1] then p else {})
  }

  function Divisor(): Polynomial {
    {64, 4, 3, 1, 0}
  }

  /** Bit i of the register is the coefficient of x^(63 - i). */
  predicate Coefficient(w: Word, e: nat) {
    e < 64 && w[63 - e]
  }

  function Register(w: Word): (r: Polynomial)
    ensures forall e :: e in r <==> Coefficient(w, e)
  {
    set e: nat | e < 64 && Coefficient(w, e)
  }

  /** The digits of the quotient: what leaves the register, plus the message bit, at each step. */
  function Quotient(bits: seq<bool>): (q: seq<bool>)
    ensures |q| == |bits|
  {
    if bits == [] then []
    else
      var init := bits[..|bits| - 1];
      Quotient(init) + [DivideBits(Zero(), init)[0] != bits[|bits| - 1]]
  }

  /** One step: the register times x, plus the bit at x^64, is the divisor if a one leaves, plus the new register. */
  lemma StepDivides(r: Word, bit: bool)
    ensures Plus(Shift(Register(r), 1), if bit then {64} else {})
            == Plus(if r[0] != bit then Divisor() else {}, Register(DivideBit(r, bit)))
  {
    var top := r[0] != bit;
    var a, b := Plus(Shift(Register(r), 1), if bit then {64} else {}), Plus(if top then Divisor() else {}, Register(DivideBit(r, bit)));
    forall e: nat ensures e in a <==> e in b {
      StepCoefficient(r, bit, e);
      assert e in Shift(Register(r), 1) <==> e >= 1 && Coefficient(r, e - 1);
    }
  }

  lemma StepCoefficient(r: Word, bit: bool, e: nat)
    ensures ((e >= 1 && Coefficient(r, e - 1)) != (bit && e == 64))
            <==> (((r[0] != bit) && e in Divisor()) != Coefficient(DivideBit(r, bit), e))
  {
    if e < 64 { DivideBitAt(r, bit, 63 - e); }
  }

  lemma DivideBitAt(r: Word, bit: bool, i: nat)
    requires i < 64
    ensures DivideBit(r, bit)[i] == ((i < 63 && r[i + 1]) != ((r[0] != bit) && (i == 63 || i == 62 || i == 60 || i == 59)))
  {
  }

  lemma OfLast(init: seq<bool>, bit: bool)
    ensures Of(init + [bit]) == Plus(Shift(Of(init), 1), if bit then {0} else {})
  {
    assert (init + [bit])[..|init|] == init;
  }

  lemma ProductLast(q: seq<bool>, top: bool, p: Polynomial)
    ensures Product(q + [top], p) == Plus(Shift(Product(q, p), 1), if top then p else {})
  {
    assert (q + [top])[..|q|] == q;
  }

  lemma QuotientLast(init: seq<bool>, bit: bool)
    ensures Quotient(init + [bit]) == Quotient(init) + [DivideBits(Zero(), init)[0] != bit]
  {
    assert (init + [bit])[..|init|] == init;
  }

  /** The checksum register is the remainder: its degree is below 64, and the message times x^64 is the
      quotient times the divisor plus the register. */
  lemma {:induction false} DivisionIsExact(bits: seq<bool>)
    ensures Shift(Of(bits), 64) == Plus(Product(Quotient(bits), Divisor()), Register(DivideBits(Zero(), bits)))
    decreases |bits|
  {
    if bits == [] {
      assert Register(Zero()) == {};
    } else {
      var init, bit := bits[..|bits| - 1], bits[|bits| - 1];
      assert bits == init + [bit];
      DivisionIsExact(init);
      NextBitDivides(init, bit);
    }
  }

  lemma NextBitDivides(init: seq<bool>, bit: bool)
    requires Shift(Of(init), 64) == Plus(Product(Quotient(init), Divisor()), Register(DivideBits(Zero(), init)))
    ensures var bits := init + [bit];
            Shift(Of(bits), 64) == Plus(Product(Quotient(bits), Divisor()), Register(DivideBits(Zero(), bits)))
  {
    var r := DivideBits(Zero(), init);
    var q, top := Quotient(init), r[0] != bit;
    DivideLast(init, bit);
    StepDivides(r, bit);
    OfLast(init, bit);
    QuotientLast(init, bit);
    ProductLast(q, top, Divisor());
    Rearrange(Of(init), Product(q, Divisor()), Register(r), bit, if top then Divisor() else {}, Register(DivideBit(r, bit)));
  }

  lemma DivideLast(init: seq<bool>, bit: bool)
    ensures DivideBits(Zero(), init + [bit]) == DivideBit(DivideBits(Zero(), init), bit)
  {
    DivideConcat(Zero(), init, [bit]);
    assert [bit][1..] == [];
  }

  lemma Rearrange(m: Polynomial, qp: Polynomial, r: Polynomial, bit: bool, p: Polynomial, r': Polynomial)
    requires Shift(m, 64) == Plus(qp, r)
    requires Plus(Shift(r, 1), if bit then {64} else {}) == Plus(p, r')
    ensures Shift(Plus(Shift(m, 1), if bit then {0} else {}), 64) == Plus(Plus(Shift(qp, 1), p), r')
  {
    var a, b := Shift(Plus(Shift(m, 1), if bit then {0} else {}), 64), Plus(Plus(Shift(qp, 1), p), r');
    forall e: nat ensures e in a <==> e in b {
      assert (e in Plus(Shift(r, 1), if bit then {64} else {})) == (e in Plus(p, r'));
      if e >= 1 { assert (e - 1 in Shift(m, 64)) == (e - 1 in Plus(qp, r)); }
    }
  }

  // ----- There is only one remainder

  lemma {:induction false} ProductLinear(a: seq<bool>, b: seq<bool>, p: Polynomial)
    requires |a| == |b|
    ensures Product(XorBits(a, b), p) == Plus(Product(a, p), Product(b, p))
    decreases |a|
  {
    if a != [] {
      var n := |a| - 1;
      ProductLinear(a[..n], b[..n], p);
      assert XorBits(a, b)[..n] == XorBits(a[..n], b[..n]);
      PlusShift(Product(a[..n], p), Product(b[..n], p), if a[n] then p else {}, if b[n] then p else {}, if a[n] != b[n] then p else {});
    }
  }

  lemma PlusShift(a: Polynomial, b: Polynomial, u: Polynomial, v: Polynomial, w: Polynomial)
    requires w == Plus(u, v)
    ensures Plus(Shift(Plus(a, b), 1), w) == Plus(Plus(Shift(a, 1), u), Plus(Shift(b, 1), v))
  {
    var x, y := Plus(Shift(Plus(a, b), 1), w), Plus(Plus(Shift(a, 1), u), Plus(Shift(b, 1), v));
    forall e: nat ensures e in x <==> e in y {
      assert e in Shift(Plus(a, b), 1) <==> e >= 1 && e - 1 in Plus(a, b);
    }
  }

  function Falses(n: nat): seq<bool> {
    seq(n, _ => false)
  }

  /** Leading zeros do not count. */
  lemma {:induction false} ProductPadded(n: nat, q: seq<bool>, p: Polynomial)
    ensures Product(Falses(n) + q, p) == Product(q, p)
    decreases n + |q|
  {
    var z := Falses(n) + q;
    if q != [] {
      assert z[..|z| - 1] == Falses(n) + q[..|q| - 1];
      ProductPadded(n, q[..|q| - 1], p);
    } else if n > 0 {
      assert z[..|z| - 1] == Falses(n - 1) + [] && Falses(n - 1) + q == Falses(n - 1) + [];
      ProductPadded(n - 1, q, p);
      assert Shift({}, 1) == {};
    }
  }

  ghost predicate IsHigh(p: Polynomial) {
    exists e :: e in p && e >= 64
  }

  lemma ShiftIsHigh(p: Polynomial, top: bool)
    requires IsHigh(p)
    ensures IsHigh(Plus(Shift(p, 1), if top then Divisor() else {}))
  {
    var e :| e in p && e >= 64;
    var d := if top then Divisor() else {};
    assert e + 1 in Shift(p, 1) && e + 1 !in d;
    assert e + 1 in Plus(Shift(p, 1), d);
  }

  lemma FirstIsHigh(d: Polynomial)
    requires d == Divisor()
    ensures IsHigh(Plus(Shift({}, 1), d)) && Plus(Shift({}, 1), {}) == {}
  {
    assert 64 in d && 64 !in Shift({}, 1);
    assert 64 in Plus(Shift({}, 1), d);
  }

  /** A multiple of the divisor other than zero has a power of at least 64; zero has none. */
  lemma {:induction false} ProductIsHigh(z: seq<bool>, d: Polynomial)
    requires d == Divisor()
    ensures if true in z then IsHigh(Product(z, d)) else Product(z, d) == {}
    decreases |z|
  {
    if z != [] {
      var init, top := z[..|z| - 1], z[|z| - 1];
      assert z == init + [top];
      ProductIsHigh(init, d);
      if true in init { ShiftIsHigh(Product(init, d), top); } else { FirstIsHigh(d); }
    }
  }

  ghost predicate Below64(r: Polynomial) {
    forall e :: e in r ==> e < 64
  }

  lemma RemaindersAgree(q: seq<bool>, r: Polynomial, q': seq<bool>, r': Polynomial)
    requires |q| == |q'| && Below64(r) && Below64(r')
    requires Plus(Product(q, Divisor()), r) == Plus(Product(q', Divisor()), r')
    ensures r == r'
  {
    var a, b, z := Product(q, Divisor()), Product(q', Divisor()), XorBits(q, q');
    ProductLinear(q, q', Divisor());
    forall e: nat ensures (e in Plus(a, b)) == (e in Plus(r, r')) {
      assert (e in Plus(a, r)) == (e in Plus(b, r'));
    }
    ProductIsHigh(z, Divisor());
    assert !IsHigh(Plus(a, b)) by { assert !IsHigh(Plus(r, r')); }
    assert Plus(a, b) == {};
    forall e: nat ensures (e in r) == (e in r') {
      assert e !in Plus(r, r');
    }
  }

  lemma PaddedAgree(q: seq<bool>, r: Polynomial, q': seq<bool>, r': Polynomial)
    requires Below64(r) && Below64(r')
    requires Plus(Product(q, Divisor()), r) == Plus(Product(q', Divisor()), r')
    ensures r == r'
  {
    var m, n := if |q| < |q'| then |q'| - |q| else 0, if |q'| < |q| then |q| - |q'| else 0;
    ProductPadded(m, q, Divisor());
    ProductPadded(n, q', Divisor());
    RemaindersAgree(Falses(m) + q, r, Falses(n) + q', r');
  }

  /** Division with remainder has one answer: whatever quotient and polynomial of degree below 64 add up to
      the message times x^64, that polynomial is the checksum. */
  lemma RemainderIsUnique(bits: seq<bool>, q: seq<bool>, r: Polynomial)
    requires Below64(r) && Shift(Of(bits), 64) == Plus(Product(q, Divisor()), r)
    ensures r == Register(DivideBits(Zero(), bits))
  {
    DivisionIsExact(bits);
    PaddedAgree(q, r, Quotient(bits), Register(DivideBits(Zero(), bits)));
  }
}
