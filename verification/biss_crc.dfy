/** The BiSS CRC of hil_sensor.py and pru1_b2_serial/main.c: shift-register
    loop, polynomial division, and the errors it detects. */
module BissCrc {
  import opened BitVectors

  // ---- the shift register of the source ----

  /** The six register bits. */
  datatype Reg = Reg(b5: bool, b4: bool, b3: bool, b2: bool, b1: bool, b0: bool) {
    function Bits(): (b: seq<bool>)
      ensures |b| == 6
    {
      [b5, b4, b3, b2, b1, b0]
    }

    function Inverted(): Reg { Reg(!b5, !b4, !b3, !b2, !b1, !b0) }
  }

  const ZERO := Reg(false, false, false, false, false, false)
  const ONE := Reg(false, false, false, false, false, true)

  /** One turn of the loop: feedback from bit 5, polynomial x^6 + x + 1. */
  function CrcStep(r: Reg, bit: bool): Reg {
    var feedback := r.b5 != bit;
    Reg(r.b4, r.b3, r.b2, r.b1, r.b0 != feedback, feedback)
  }

  function Crc(message: seq<bool>): Reg {
    if message == [] then ZERO else CrcStep(Crc(message[..|message| - 1]), message[|message| - 1])
  }

  // ---- polynomials over GF(2), highest power first ----

  /** `q` times x^6 + x + 1. */
  function TimesGenerator(q: seq<bool>): (p: seq<bool>)
    ensures |p| == |q| + 6
  {
    XorBits(XorBits(q + Zeros(6), Zeros(5) + q + Zeros(1)), Zeros(6) + q)
  }

  /** `r` is `m` times x^6 modulo x^6 + x + 1: the two differ by a multiple. */
  ghost predicate IsRemainder(m: seq<bool>, r: seq<bool>) {
    |r| == 6 && exists q: seq<bool> :: Quotient(m, r, q)
  }

  ghost predicate Quotient(m: seq<bool>, r: seq<bool>, q: seq<bool>)
    requires |r| == 6
  {
    |q| == |m| && Dividend(m, r) == TimesGenerator(q)
  }

  lemma StepBits(r: Reg, bit: bool)
    ensures var a, f := r.Bits(), r.b5 != bit;
            CrcStep(r, bit).Bits() == [a[1], a[2], a[3], a[4], a[5] != f, f] && a[0] == r.b5
  {
  }

  lemma XorAt(a: seq<bool>, b: seq<bool>, k: nat)
    requires |a| == |b| && k < |a|
    ensures XorBits(a, b)[k] == (a[k] != b[k])
  {
  }

  predicate At(p: seq<bool>, k: int) {
    0 <= k < |p| && p[k]
  }

  lemma TimesAt(q: seq<bool>, k: nat)
    requires k < |q| + 6
    ensures TimesGenerator(q)[k] == ((At(q, k) != At(q, k - 5)) != At(q, k - 6))
  {
  }

  /** The shifted message plus a remainder. */
  function Dividend(m: seq<bool>, r: seq<bool>): (d: seq<bool>)
    requires |r| == 6
    ensures |d| == |m| + 6
  {
    XorBits(m + Zeros(6), Zeros(|m|) + r)
  }

  lemma DividendAt(m: seq<bool>, r: seq<bool>, k: nat)
    requires |r| == 6 && k < |m| + 6
    ensures Dividend(m, r)[k] == (At(m, k) != At(r, k - |m|))
  {
  }

  /** A bit more of message, and the quotient bit that the feedback is. */
  lemma QuotientGrows(m: seq<bool>, r: seq<bool>, q: seq<bool>, bit: bool)
    requires |r| == 6 && Quotient(m, r, q)
    ensures var f := r[0] != bit; Quotient(m + [bit], [r[1], r[2], r[3], r[4], r[5] != f, f], q + [f])
  {
    hide TimesGenerator, Dividend;
    var f := r[0] != bit;
    var s := [r[1], r[2], r[3], r[4], r[5] != f, f];
    var n := |m|;
    forall k | 0 <= k < n + 7 ensures Dividend(m + [bit], s)[k] == TimesGenerator(q + [f])[k] {
      DividendAt(m + [bit], s, k);
      TimesAt(q + [f], k);
      if k < n + 6 {
        DividendAt(m, r, k);
        TimesAt(q, k);
        assert Dividend(m, r)[k] == TimesGenerator(q)[k];
      }
    }
    assert Dividend(m + [bit], s) == TimesGenerator(q + [f]);
  }

  /** The loop divides: the register after the message is the message times x^6
      modulo x^6 + x + 1. */
  lemma {:induction false} CrcIsRemainder(message: seq<bool>)
    ensures IsRemainder(message, Crc(message).Bits())
  {
    hide Quotient, Reg.Bits;
    if message == [] {
      EmptyRemainder();
    } else {
      var m, bit := message[..|message| - 1], message[|message| - 1];
      CrcIsRemainder(m);
      var q :| Quotient(m, Crc(m).Bits(), q);
      QuotientGrows(m, Crc(m).Bits(), q, bit);
      StepBits(Crc(m), bit);
      assert m + [bit] == message;
    }
  }

  lemma EmptyRemainder()
    ensures Quotient([], Crc([]).Bits(), [])
  {
    assert ZERO.Bits() == Zeros(6);
    assert XorBits(Zeros(6), Zeros(6)) == Zeros(6);
  }

  /** The highest power of `q`. */
  lemma {:induction false} FirstOne(q: seq<bool>, k: nat) returns (i: nat)
    requires k < |q| && q[k]
    ensures i <= k && q[i] && forall j :: 0 <= j < i ==> !q[j]
  {
    if j :| 0 <= j < k && q[j] {
      i := FirstOne(q, j);
    } else {
      i := k;
    }
  }

  /** A multiple keeps the highest power of its quotient. */
  lemma LeadingBit(q: seq<bool>, i: nat)
    requires i < |q| && q[i] && forall j :: 0 <= j < i ==> !q[j]
    ensures TimesGenerator(q)[i]
  {
  }

  /** A multiple with nothing but a remainder in it is zero. */
  lemma MultipleIsZero(n: nat, r: seq<bool>, q: seq<bool>)
    requires |r| == 6 && |q| == n && Zeros(n) + r == TimesGenerator(q)
    ensures r == Zeros(6)
  {
    forall k | 0 <= k < n ensures !q[k] {
      if q[k] {
        var i := FirstOne(q, k);
        LeadingBit(q, i);
        assert false;
      }
    }
    assert q == Zeros(n);
    forall k | 0 <= k < 6 ensures !r[k] {
      assert r[k] == (Zeros(n) + r)[n + k];
    }
  }

  lemma RemainderUnique(m: seq<bool>, r: seq<bool>, s: seq<bool>)
    requires IsRemainder(m, r) && IsRemainder(m, s)
    ensures r == s
  {
    hide TimesGenerator, Dividend;
    var p :| Quotient(m, r, p);
    var q :| Quotient(m, s, q);
    var d, e := XorBits(r, s), XorBits(p, q);
    var word := Zeros(|m|) + d;
    forall k | 0 <= k < |m| + 6 ensures word[k] == TimesGenerator(e)[k] {
      DividendAt(m, r, k);
      DividendAt(m, s, k);
      TimesAt(p, k);
      TimesAt(q, k);
      TimesAt(e, k);
      assert Dividend(m, r)[k] == TimesGenerator(p)[k] && Dividend(m, s)[k] == TimesGenerator(q)[k];
    }
    assert word == TimesGenerator(e);
    MultipleIsZero(|m|, d, e);
    forall k | 0 <= k < 6 ensures r[k] == s[k] {
      XorAt(r, s, k);
    }
  }

  // ---- the code word and its errors ----

  /** `r` times x plus `bit`, modulo the polynomial: division one bit at a time. */
  function DivStep(r: Reg, bit: bool): Reg {
    Reg(r.b4, r.b3, r.b2, r.b1, r.b0 != r.b5, r.b5 != bit)
  }

  function Rem(word: seq<bool>): Reg {
    if word == [] then ZERO else DivStep(Rem(word[..|word| - 1]), word[|word| - 1])
  }

  function TimesX(r: Reg): Reg { DivStep(r, false) }

  function TimesX6(r: Reg): Reg {
    TimesX(TimesX(TimesX(TimesX(TimesX(TimesX(r))))))
  }

  function Sum(r: Reg, s: Reg): Reg {
    Reg(r.b5 != s.b5, r.b4 != s.b4, r.b3 != s.b3, r.b2 != s.b2, r.b1 != s.b1, r.b0 != s.b0)
  }

  lemma Six(r: Reg, bit: bool)
    ensures TimesX6(DivStep(r, bit)) == CrcStep(TimesX6(r), bit)
    ensures TimesX6(ZERO) == ZERO
  {
  }

  /** Dividing the message alone and the loop differ by x^6. */
  lemma {:induction false} CrcIsShifted(m: seq<bool>)
    ensures Crc(m) == TimesX6(Rem(m))
  {
    hide CrcStep, DivStep, TimesX6;
    Six(ZERO, false);
    if m == [] {
    } else {
      CrcIsShifted(m[..|m| - 1]);
      Six(Rem(m[..|m| - 1]), m[|m| - 1]);
    }
  }

  lemma RemSnoc(word: seq<bool>, bit: bool)
    ensures Rem(word + [bit]) == DivStep(Rem(word), bit)
  {
    hide DivStep;
    assert (word + [bit])[..|word|] == word;
  }

  lemma SixBits(r: Reg, c: Reg)
    ensures DivStep(DivStep(DivStep(DivStep(DivStep(DivStep(r, c.b5), c.b4), c.b3), c.b2), c.b1), c.b0) ==
            Sum(TimesX6(r), c)
  {
    hide DivStep, TimesX, Sum;
    SumZero(r);
    Push(r, ZERO, c.b5);
    Push(TimesX(r), Reg(false, false, false, false, false, c.b5), c.b4);
    Push(TimesX(TimesX(r)), Reg(false, false, false, false, c.b5, c.b4), c.b3);
    Push(TimesX(TimesX(TimesX(r))), Reg(false, false, false, c.b5, c.b4, c.b3), c.b2);
    Push(TimesX(TimesX(TimesX(TimesX(r)))), Reg(false, false, c.b5, c.b4, c.b3, c.b2), c.b1);
    Push(TimesX(TimesX(TimesX(TimesX(TimesX(r))))), Reg(false, c.b5, c.b4, c.b3, c.b2, c.b1), c.b0);
  }

  lemma SumZero(r: Reg)
    ensures Sum(r, ZERO) == r
  {
  }

  lemma Push(r: Reg, c: Reg, bit: bool)
    requires !c.b5
    ensures DivStep(Sum(r, c), bit) == Sum(TimesX(r), Reg(c.b4, c.b3, c.b2, c.b1, c.b0, bit))
  {
  }

  /** The remainder of a whole code word: zero exactly when its last six bits are
      the register after the rest. */
  lemma RemOfWord(m: seq<bool>, c: Reg)
    ensures Rem(m + c.Bits()) == Sum(Crc(m), c)
  {
    hide DivStep, Crc, Rem, TimesX6;
    RemSnoc(m, c.b5);
    RemSnoc(m + [c.b5], c.b4);
    RemSnoc(m + [c.b5] + [c.b4], c.b3);
    RemSnoc(m + [c.b5] + [c.b4] + [c.b3], c.b2);
    RemSnoc(m + [c.b5] + [c.b4] + [c.b3] + [c.b2], c.b1);
    RemSnoc(m + [c.b5] + [c.b4] + [c.b3] + [c.b2] + [c.b1], c.b0);
    assert m + c.Bits() == m + [c.b5] + [c.b4] + [c.b3] + [c.b2] + [c.b1] + [c.b0];
    SixBits(Rem(m), c);
    CrcIsShifted(m);
  }

  lemma DivLinear(r: Reg, s: Reg, a: bool, b: bool)
    ensures Sum(DivStep(r, a), DivStep(s, b)) == DivStep(Sum(r, s), a != b)
  {
  }

  lemma {:induction false} RemLinear(a: seq<bool>, b: seq<bool>)
    requires |a| == |b|
    ensures Rem(XorBits(a, b)) == Sum(Rem(a), Rem(b))
  {
    hide DivStep;
    if a != [] {
      var n := |a| - 1;
      RemLinear(a[..n], b[..n]);
      assert XorBits(a, b)[..n] == XorBits(a[..n], b[..n]);
      DivLinear(Rem(a[..n]), Rem(b[..n]), a[n], b[n]);
    } else {
      assert XorBits(a, b) == [];
    }
  }

  // ---- powers of x ----

  /** `r` times x^k. */
  function Raised(r: Reg, k: nat): Reg {
    if k == 0 then r else TimesX(Raised(r, k - 1))
  }

  lemma TimesXInjective(r: Reg, s: Reg)
    requires TimesX(r) == TimesX(s)
    ensures r == s
  {
  }

  lemma {:induction false} RaisedInjective(r: Reg, s: Reg, k: nat)
    requires Raised(r, k) == Raised(s, k)
    ensures r == s
  {
    hide TimesX;
    if k == 0 {
    } else {
      TimesXInjective(Raised(r, k - 1), Raised(s, k - 1));
      RaisedInjective(r, s, k - 1);
    }
  }

  lemma {:induction false} RaisedZero(k: nat)
    ensures Raised(ZERO, k) == ZERO
  {
    if k == 0 {
    } else {
      RaisedZero(k - 1);
    }
  }

  lemma {:induction false} RaisedSum(r: Reg, j: nat, k: nat)
    ensures Raised(Raised(r, j), k) == Raised(r, j + k)
  {
    hide TimesX;
    if k == 0 {
    } else {
      RaisedSum(r, j, k - 1);
    }
  }

  lemma RaisedNine(r: Reg)
    ensures Raised(r, 9) == TimesX(TimesX(TimesX(TimesX6(r))))
  {
    hide TimesX;
    assert Raised(r, 1) == TimesX(r) && Raised(r, 2) == TimesX(TimesX(r));
    RaisedSum(r, 2, 2);
    RaisedSum(r, 4, 2);
    RaisedSum(r, 6, 1);
    RaisedSum(r, 7, 2);
  }

  lemma NineMore(r: Reg, k: nat)
    ensures Raised(r, k + 9) == TimesX(TimesX(TimesX(TimesX6(Raised(r, k)))))
  {
    hide TimesX6, TimesX;
    RaisedNine(Raised(r, k));
    RaisedSum(r, k, 9);
  }

  /** Some powers of x. */
  lemma Milestones()
    ensures Raised(ONE, 9) != ONE && Raised(ONE, 21) != ONE && Raised(ONE, 63) == ONE
  {
    hide Raised;
    Unraised(ONE);
    NineMore(ONE, 0);
    assert Raised(ONE, 9) == Reg(false, true, true, false, false, false);
    NineMore(ONE, 9);
    assert Raised(ONE, 18) == Reg(false, false, true, true, true, true);
    NineMore(ONE, 18);
    assert Raised(ONE, 27) == Reg(false, false, true, true, true, false);
    NineMore(ONE, 27);
    assert Raised(ONE, 36) == Reg(false, true, false, true, true, false);
    NineMore(ONE, 36);
    assert Raised(ONE, 45) == Reg(false, true, true, false, false, true);
    NineMore(ONE, 45);
    assert Raised(ONE, 54) == Reg(false, true, false, true, true, true);
    NineMore(ONE, 54);
    assert Raised(ONE, 63) == Reg(false, false, false, false, false, true);
    RaisedSum(ONE, 18, 3);
    Thrice(Raised(ONE, 18));
  }

  lemma Unraised(r: Reg)
    ensures Raised(r, 0) == r
  {
  }

  lemma Thrice(r: Reg)
    ensures Raised(r, 3) == TimesX(TimesX(TimesX(r)))
  {
    assert Raised(r, 1) == TimesX(r);
  }

  /** Exponents that give one are closed under differences, so under greatest
      common divisors. */
  lemma {:induction false} CommonDivisor(a: nat, b: nat) returns (g: nat, p: nat, q: nat)
    requires a > 0 && b > 0 && Raised(ONE, a) == ONE && Raised(ONE, b) == ONE
    ensures g > 0 && Raised(ONE, g) == ONE && a == p * g && b == q * g
    decreases a + b, a
  {
    hide Raised, TimesX;
    if a == b {
      g, p, q := a, 1, 1;
    } else if a < b {
      RaisedSum(ONE, b - a, a);
      Unraised(ONE);
      RaisedSum(ONE, 0, a);
      RaisedInjective(Raised(ONE, b - a), ONE, a);
      g, p, q := CommonDivisor(a, b - a);
      assert (p + q) * g == p * g + q * g;
      q := p + q;
    } else {
      g, q, p := CommonDivisor(b, a);
    }
  }

  lemma Product(a: nat, b: nat, c: nat)
    requires a >= b
    ensures a * c >= b * c
  {
    assert a * c == b * c + (a - b) * c;
  }

  lemma Divisors(g: nat, q: nat)
    requires q * g == 63 && 0 < g < 63
    ensures g == 1 || g == 3 || g == 7 || g == 9 || g == 21
  {
    if g < 8 {
      assert g == 1 || g == 2 || g == 3 || g == 4 || g == 5 || g == 6 || g == 7;
    } else {
      if q >= 8 {
        Product(q, 8, g);
      }
      assert q == 0 || q == 1 || q == 2 || q == 3 || q == 4 || q == 5 || q == 6 || q == 7;
    }
  }

  lemma {:induction false} Multiples(g: nat, k: nat)
    requires Raised(ONE, g) == ONE
    ensures Raised(ONE, k * g) == ONE
  {
    hide Raised;
    if k == 0 {
      Unraised(ONE);
    } else {
      Multiples(g, k - 1);
      RaisedSum(ONE, (k - 1) * g, g);
      assert (k - 1) * g + g == k * g;
    }
  }

  /** x has order 63 modulo the polynomial. */
  lemma Order63(d: nat)
    requires 0 < d < 63
    ensures Raised(ONE, d) != ONE
  {
    hide Raised;
    Milestones();
    if Raised(ONE, d) == ONE {
      var g, p, q := CommonDivisor(d, 63);
      Product(p, if p == 0 then 0 else 1, g);
      Divisors(g, q);
      Multiples(g, if g == 7 then 3 else if g == 21 then 1 else 9 / g);
      assert false;
    }
  }

  // ---- what the CRC detects ----

  lemma {:induction false} RemZeros(n: nat)
    ensures Rem(Zeros(n)) == ZERO
  {
    if n == 0 {
    } else {
      RemZeros(n - 1);
      assert Zeros(n)[..n - 1] == Zeros(n - 1);
    }
  }

  lemma {:induction false} RemShift(word: seq<bool>, k: nat)
    ensures Rem(word + Zeros(k)) == Raised(Rem(word), k)
  {
    hide DivStep;
    if k == 0 {
      assert word + Zeros(0) == word;
    } else {
      RemShift(word, k - 1);
      assert word + Zeros(k) == word + Zeros(k - 1) + [false];
      RemSnoc(word + Zeros(k - 1), false);
    }
  }

  /** Leading zeros do not count. */
  lemma {:induction false} RemLeading(n: nat, word: seq<bool>)
    ensures Rem(Zeros(n) + word) == Rem(word)
  {
    hide DivStep;
    if word == [] {
      RemZeros(n);
      assert Zeros(n) + word == Zeros(n);
    } else {
      var rest, bit := word[..|word| - 1], word[|word| - 1];
      RemLeading(n, rest);
      assert Zeros(n) + word == Zeros(n) + rest + [bit];
      RemSnoc(Zeros(n) + rest, bit);
    }
  }

  /** Six bits or fewer are their own remainder. */
  lemma ShortRem(burst: seq<bool>)
    requires 1 <= |burst| <= 6 && burst[0]
    ensures Rem(burst) != ZERO
  {
    var pad := Zeros(6 - |burst|);
    var six := pad + burst;
    var c := Reg(six[0], six[1], six[2], six[3], six[4], six[5]);
    RemLeading(6 - |burst|, burst);
    assert [] + c.Bits() == six;
    RemOfWord([], c);
    SumZero(c);
    assert six[6 - |burst|];
  }

  /** Errors confined to six neighbouring positions, the first at `i`. */
  predicate IsBurst(e: seq<bool>, i: nat) {
    i < |e| && e[i] && (forall j :: 0 <= j < i ==> !e[j]) && (forall j :: i + 6 <= j < |e| ==> !e[j])
  }

  predicate OneError(e: seq<bool>, i: nat) {
    i < |e| && e == Zeros(|e|)[i := true]
  }

  predicate TwoErrors(e: seq<bool>, i: nat, j: nat) {
    i < j < |e| && e == Zeros(|e|)[i := true][j := true]
  }

  lemma BurstDetected(e: seq<bool>, i: nat)
    requires IsBurst(e, i)
    ensures Rem(e) != ZERO
  {
    var n := if |e| - i < 6 then |e| - i else 6;
    var burst, tail := e[i..i + n], |e| - i - n;
    assert e == (Zeros(i) + burst) + Zeros(tail);
    RemShift(Zeros(i) + burst, tail);
    RemLeading(i, burst);
    ShortRem(burst);
    hide Rem, Raised;
    RaisedZero(tail);
    if Rem(e) == ZERO {
      RaisedInjective(Rem(burst), ZERO, tail);
    }
  }

  lemma OneDetected(e: seq<bool>, i: nat)
    requires OneError(e, i)
    ensures Rem(e) != ZERO
  {
    BurstDetected(e, i);
  }

  lemma SinglePower(n: nat, i: nat)
    requires i < n
    ensures Rem(Zeros(n)[i := true]) == Raised(ONE, n - 1 - i)
  {
    hide Rem, Raised;
    assert Zeros(n)[i := true] == (Zeros(i) + [true]) + Zeros(n - 1 - i);
    RemShift(Zeros(i) + [true], n - 1 - i);
    RemLeading(i, [true]);
    OneIs();
  }

  lemma OneIs()
    ensures Rem([true]) == ONE
  {
    RemSnoc([], true);
    assert [] + [true] == [true];
  }

  /** Two errors less than 63 positions apart. */
  lemma TwoDetected(e: seq<bool>, i: nat, j: nat)
    requires |e| <= 63 && TwoErrors(e, i, j)
    ensures Rem(e) != ZERO
  {
    hide Rem, Raised, TimesX, DivStep;
    var n := |e|;
    var a, b := Zeros(n)[i := true], Zeros(n)[j := true];
    assert e == XorBits(a, b);
    RemLinear(a, b);
    SinglePower(n, i);
    SinglePower(n, j);
    if Rem(e) == ZERO {
      SumIsZero(Rem(a), Rem(b));
      RaisedSum(ONE, j - i, n - 1 - j);
      Unraised(ONE);
      RaisedInjective(Raised(ONE, j - i), ONE, n - 1 - j);
      Order63(j - i);
    }
  }

  lemma SumIsZero(r: Reg, s: Reg)
    ensures Sum(r, s) == ZERO <==> r == s
  {
  }

  // ---- the receiver ----

  /** A receiver recomputes the inverted CRC over all but the last six bits. */
  predicate Accepts(word: seq<bool>) {
    |word| >= 6 && word[|word| - 6..] == Crc(word[..|word| - 6]).Inverted().Bits()
  }

  /** The word the sender builds. */
  function CodeWord(message: seq<bool>): (w: seq<bool>)
    ensures |w| == |message| + 6
  {
    message + Crc(message).Inverted().Bits()
  }

  lemma XorConcat(a: seq<bool>, b: seq<bool>, c: seq<bool>, d: seq<bool>)
    requires |a| == |c| && |b| == |d|
    ensures XorBits(a + b, c + d) == XorBits(a, c) + XorBits(b, d)
  {
  }

  lemma SumBits(r: Reg, s: Reg)
    ensures XorBits(r.Bits(), s.Bits()) == Sum(r, s).Bits()
  {
    hide XorBits, Reg.Bits, Sum;
    var a, b := r.Bits(), s.Bits();
    BitsAre(r);
    BitsAre(s);
    XorAt(a, b, 0);
    XorAt(a, b, 1);
    XorAt(a, b, 2);
    XorAt(a, b, 3);
    XorAt(a, b, 4);
    XorAt(a, b, 5);
    SumParts(r, s);
    SixAlike(XorBits(a, b), Sum(r, s));
  }

  lemma BitsAre(r: Reg)
    ensures var a := r.Bits();
            a[0] == r.b5 && a[1] == r.b4 && a[2] == r.b3 && a[3] == r.b2 && a[4] == r.b1 && a[5] == r.b0
  {
  }

  lemma SumParts(r: Reg, s: Reg)
    ensures var t := Sum(r, s);
            && t.b5 == (r.b5 != s.b5) && t.b4 == (r.b4 != s.b4) && t.b3 == (r.b3 != s.b3)
            && t.b2 == (r.b2 != s.b2) && t.b1 == (r.b1 != s.b1) && t.b0 == (r.b0 != s.b0)
  {
  }

  lemma SixAlike(a: seq<bool>, r: Reg)
    requires |a| == 6 && a[0] == r.b5 && a[1] == r.b4 && a[2] == r.b3 && a[3] == r.b2 && a[4] == r.b1 && a[5] == r.b0
    ensures a == r.Bits()
  {
    assert a == [a[0], a[1], a[2], a[3], a[4], a[5]];
  }

  lemma AcceptsWord(m: seq<bool>, r: Reg)
    ensures Accepts(m + r.Bits()) <==> r == Crc(m).Inverted()
  {
    hide Crc, Reg.Inverted;
    var word := m + r.Bits();
    assert word[..|word| - 6] == m && word[|word| - 6..] == r.Bits();
    var a, b := r.Bits(), Crc(m).Inverted().Bits();
    if a == b {
      assert a[0] == b[0] && a[1] == b[1] && a[2] == b[2] && a[3] == b[3] && a[4] == b[4] && a[5] == b[5];
    }
  }

  lemma Cancels(r: Reg, s: Reg, t: Reg)
    ensures Sum(r.Inverted(), s) == Sum(r, t).Inverted() <==> Sum(t, s) == ZERO
  {
  }

  lemma SplitError(e: seq<bool>) returns (em: seq<bool>, ec: Reg)
    requires |e| >= 6
    ensures e == em + ec.Bits()
  {
    var n := |e| - 6;
    em, ec := e[..n], Reg(e[n], e[n + 1], e[n + 2], e[n + 3], e[n + 4], e[n + 5]);
  }

  /** The receiver accepts a word in error exactly when the error pattern is a
      multiple of the polynomial. */
  lemma AcceptsError(message: seq<bool>, e: seq<bool>)
    requires |e| == |message| + 6
    ensures Accepts(XorBits(CodeWord(message), e)) <==> Rem(e) == ZERO
  {
    hide Crc, Rem, Sum, XorBits, Reg.Inverted, Reg.Bits, Accepts;
    var em, ec := SplitError(e);
    RemOfWord(em, ec);
    XorConcat(message, Crc(message).Inverted().Bits(), em, ec.Bits());
    SumBits(Crc(message).Inverted(), ec);
    CrcLinear(message, em);
    AcceptsWord(XorBits(message, em), Sum(Crc(message).Inverted(), ec));
    Cancels(Crc(message), ec, Crc(em));
  }

  lemma {:induction false} CrcLinear(a: seq<bool>, b: seq<bool>)
    requires |a| == |b|
    ensures Crc(XorBits(a, b)) == Sum(Crc(a), Crc(b))
  {
    hide CrcStep;
    if a != [] {
      var n := |a| - 1;
      CrcLinear(a[..n], b[..n]);
      assert XorBits(a, b)[..n] == XorBits(a[..n], b[..n]);
      CrcStepLinear(Crc(a[..n]), Crc(b[..n]), a[n], b[n]);
    } else {
      assert XorBits(a, b) == [];
    }
  }

  lemma CrcStepLinear(r: Reg, s: Reg, a: bool, b: bool)
    ensures Sum(CrcStep(r, a), CrcStep(s, b)) == CrcStep(Sum(r, s), a != b)
  {
  }

  /** A recomputing receiver accepts what was sent, and in words of up to 63 bits
      notices every single-bit error, every two-bit error and every burst of up
      to six bits, in message and CRC alike. */
  lemma ErrorsDetected(message: seq<bool>, e: seq<bool>, i: nat, j: nat)
    requires |e| == |message| + 6 && |e| <= 63
    ensures Accepts(CodeWord(message))
    ensures OneError(e, i) || TwoErrors(e, i, j) || IsBurst(e, i) ==> !Accepts(XorBits(CodeWord(message), e))
  {
    hide Rem, Accepts, OneError, TwoErrors, IsBurst;
    AcceptsError(message, Zeros(|e|));
    RemZeros(|e|);
    assert XorBits(CodeWord(message), Zeros(|e|)) == CodeWord(message);
    AcceptsError(message, e);
    if OneError(e, i) {
      OneDetected(e, i);
    } else if TwoErrors(e, i, j) {
      TwoDetected(e, i, j);
    } else if IsBurst(e, i) {
      BurstDetected(e, i);
    }
  }
}
