/** Signed 32-bit words and Q16.16 products, as the plant's Verilog has them. */
module FixedPoint {
  const M: int := 0x1_0000
  const HALF_RANGE: int := 0x8000_0000

  type s32 = x: int | -0x8000_0000 <= x < 0x8000_0000

  predicate InS32(x: int) {
    -HALF_RANGE <= x < HALF_RANGE
  }

  /** The value a signed 32-bit net keeps. */
  function S32(x: int): (r: s32)
    ensures InS32(x) ==> r == x
  {
    var w := x % 0x1_0000_0000;
    if w >= 0x8000_0000 then w - 0x1_0000_0000 else w
  }

  /** `qmul`: 64-bit product, arithmetic shift right by 16, 32 bits kept. */
  function Qmul(a: s32, b: s32): s32 {
    S32(a * b / 0x1_0000)
  }

  /** Verilog's signed division truncates toward zero. */
  function Truncated(a: int, b: int): int
    requires b > 0
  {
    if a >= 0 then a / b else -(-a / b)
  }

  /** A product that fits is the exact product rounded down. */
  lemma QmulFloor(a: s32, b: s32, bound: int)
    requires -bound <= a <= bound && -M <= b <= M && 0 <= bound < HALF_RANGE
    ensures Qmul(a, b) * M <= a * b < Qmul(a, b) * M + M
    ensures -bound <= Qmul(a, b) <= bound
  {
    ProductBound(a, b, bound, M);
    FloorBound(a * b, bound);
  }

  lemma ProductBound(a: int, b: int, p: int, q: int)
    requires -p <= a <= p && -q <= b <= q
    ensures -(p * q) <= a * b <= p * q
  {
    assert (p - a) * (q + b) >= 0 && (p + a) * (q - b) >= 0;
    assert (p - a) * (q + b) + (p + a) * (q - b) == 2 * (p * q - a * b);
    assert (p - a) * (q - b) >= 0 && (p + a) * (q + b) >= 0;
    assert (p - a) * (q - b) + (p + a) * (q + b) == 2 * (p * q + a * b);
  }

  lemma FloorBound(x: int, bound: int)
    requires -(bound * M) <= x <= bound * M
    ensures -bound <= x / 0x1_0000 <= bound && x / 0x1_0000 * M <= x < x / 0x1_0000 * M + M
  {
  }
}

/** rtl/plant/averaged_inverter_abc_q16.v. */
module Inverter {
  import opened FixedPoint
  import opened Words

  datatype Phases = Phases(u: s32, v: s32, w: s32, common: s32)

  function CenteredDuty(duty: u32): s32 {
    S32((if duty > 0x1_0000 then 0x1_0000 else duty) - 0x8000)
  }

  function Leg(vbus: s32, duty: u32): s32 {
    Qmul(vbus, CenteredDuty(duty))
  }

  function Average(vbus: s32, dutyU: u32, dutyV: u32, dutyW: u32): Phases {
    var u, v, w := Leg(vbus, dutyU), Leg(vbus, dutyV), Leg(vbus, dutyW);
    var common := S32(Truncated(u + v + w, 3));
    Phases(S32(u - common), S32(v - common), S32(w - common), common)
  }

  /** A leg is vbus times the clamped duty minus one half, rounded down. */
  lemma LegExact(vbus: s32, duty: u32)
    ensures var x := 2 * vbus * ((if duty > M then M else duty) - M / 2);
            2 * M * Leg(vbus, duty) <= x < 2 * M * (Leg(vbus, duty) + 1)
    ensures -0x4000_0000 <= Leg(vbus, duty) <= 0x4000_0000
  {
    var c := CenteredDuty(duty);
    assert c == (if duty > M then M else duty) - M / 2 && -0x8000 <= c <= 0x8000;
    ProductBound(vbus, c, HALF_RANGE, 0x8000);
    assert -(0x4000_0000 * M) <= vbus * c <= 0x4000_0000 * M;
    FloorBound(vbus * c, 0x4000_0000);
    assert 2 * vbus * c == 2 * (vbus * c);
  }

  /** For every bus voltage and every three duties nothing overflows: the phase
      voltages are the legs minus the truncated common mode, so line voltages
      are exactly the legs' differences, and their sum is what the division by
      three leaves, between -2 and 2. */
  lemma NoOverflow(vbus: s32, dutyU: u32, dutyV: u32, dutyW: u32)
    ensures var p := Average(vbus, dutyU, dutyV, dutyW);
            var u, v, w := Leg(vbus, dutyU), Leg(vbus, dutyV), Leg(vbus, dutyW);
            && p.common == Truncated(u + v + w, 3) && p.u == u - p.common && p.v == v - p.common && p.w == w - p.common
            && p.u - p.v == u - v && p.v - p.w == v - w
            && -2 <= p.u + p.v + p.w <= 2 && (u + v + w >= 0 ==> p.u + p.v + p.w >= 0) &&
               (u + v + w <= 0 ==> p.u + p.v + p.w <= 0)
            && -0x5555_5556 <= p.u <= 0x5555_5556
  {
    LegExact(vbus, dutyU);
    LegExact(vbus, dutyV);
    LegExact(vbus, dutyW);
    hide Leg;
  }
}

/** rtl/plant/clarke_abc_q16.v and rtl/plant/inverse_clarke_q16.v. */
module Clarke {
  import opened FixedPoint

  datatype AlphaBeta = AlphaBeta(alpha: s32, beta: s32)

  datatype Abc = Abc(a: s32, b: s32, c: s32)

  const INV_SQRT3: s32 := 37837
  const SQRT3_HALF: s32 := 56756

  /** A 33-bit signed net. */
  function S33(x: int): (r: int)
    ensures -0x1_0000_0000 <= x < 0x1_0000_0000 ==> r == x
  {
    var w := x % 0x2_0000_0000;
    if w >= 0x1_0000_0000 then w - 0x2_0000_0000 else w
  }

  function Forward(p: Abc): AlphaBeta {
    AlphaBeta(p.a, Qmul(S32(S33(p.a + S33(2 * p.b))), INV_SQRT3))
  }

  function Inverse(x: AlphaBeta): Abc {
    var halfAlpha, betaTerm := Qmul(x.alpha, 0x8000), Qmul(x.beta, SQRT3_HALF);
    Abc(x.alpha, S32(-halfAlpha + betaTerm), S32(-halfAlpha - betaTerm))
  }

  /** The two constants are the nearest to 1 / sqrt(3) and sqrt(3) / 2 in Q16.16. */
  lemma NearestRoots()
    ensures var r: int := INV_SQRT3; 3 * (2 * r - 1) * (2 * r - 1) < 4 * M * M < 3 * (2 * r + 1) * (2 * r + 1)
    ensures var h: int := SQRT3_HALF; (2 * h - 1) * (2 * h - 1) < 3 * M * M < (2 * h + 1) * (2 * h + 1)
  {
  }

  const RANGE: int := 0x2000_0000

  predicate Small(x: AlphaBeta) {
    -RANGE <= x.alpha <= RANGE && -RANGE <= x.beta <= RANGE
  }

  function Abs(x: int): nat { if x < 0 then -x else x }

  /** Within 2^29 the inverse does not overflow, and its three outputs sum to the
      low bit of alpha: 0 or 1. */
  lemma InverseBalanced(x: AlphaBeta)
    requires Small(x)
    ensures var p := Inverse(x);
            && p.a == x.alpha && p.a + p.b + p.c == x.alpha % 2
            && p.b - p.c == 2 * Qmul(x.beta, SQRT3_HALF)
            && p.b == -(x.alpha / 2) + Qmul(x.beta, SQRT3_HALF)
  {
    HalfIs(x.alpha);
    QmulFloor(x.beta, SQRT3_HALF, RANGE);
    hide Qmul;
  }

  lemma HalfIs(alpha: s32)
    ensures Qmul(alpha, 0x8000) == alpha / 2
  {
  }

  /** One and a half constants: the product of the two is one within 2^-18. */
  lemma BetaError(beta: int, t: int, sum: int, r: int)
    requires t * M <= beta * SQRT3_HALF < t * M + M
    requires 2 * t <= sum <= 2 * t + 1
    requires r * M <= sum * INV_SQRT3 < r * M + M
    ensures Abs(r - beta) * 0x4_0000 <= Abs(beta) + 3 * 0x4_0000
  {
  }

  /** Forward after inverse returns alpha exactly and beta within
      |beta| / 2^18 + 3. */
  lemma ForwardUndoesInverse(x: AlphaBeta)
    requires Small(x)
    ensures var y := Forward(Inverse(x));
            y.alpha == x.alpha && Abs(y.beta - x.beta) * 0x4_0000 <= Abs(x.beta) + 3 * 0x4_0000
  {
    hide Qmul, Inverse, S32, S33, Abs;
    InverseBalanced(x);
    BetaTerm(x.beta);
    var t, p := Qmul(x.beta, SQRT3_HALF), Inverse(x);
    var sum: int := p.a + 2 * p.b;
    assert 2 * t <= sum <= 2 * t + 1;
    SumFits(p, sum);
    SumTerm(sum);
    BetaError(x.beta, t, sum, Qmul(sum, INV_SQRT3));
  }

  lemma SumTerm(sum: int)
    requires -0x4000_0000 <= sum <= 0x4000_0001
    ensures var r := Qmul(sum, INV_SQRT3); r * M <= sum * INV_SQRT3 < r * M + M
  {
    QmulFloor(sum, INV_SQRT3, 0x4000_0001);
  }

  lemma BetaTerm(beta: s32)
    requires -RANGE <= beta <= RANGE
    ensures var t := Qmul(beta, SQRT3_HALF); t * M <= beta * SQRT3_HALF < t * M + M && -RANGE <= t <= RANGE
  {
    QmulFloor(beta, SQRT3_HALF, RANGE);
  }

  lemma SumFits(p: Abc, sum: int)
    requires sum == p.a + 2 * p.b && -0x4000_0001 <= sum <= 0x4000_0001
    ensures S32(S33(p.a + S33(2 * p.b))) == sum
  {
    hide S32, S33;
  }
}

/** rtl/plant/sincos_lut_q16.v. */
module SinCos {
  import opened FixedPoint
  import opened Words

  datatype Angle = Angle(sin: s32, cos: s32)

  function Table(index: nat): (v: int)
    ensures 0 <= v <= M
  {
    match index
    case 0 => 0 case 1 => 1634 case 2 => 3267 case 3 => 4898
    case 4 => 6525 case 5 => 8149 case 6 => 9768 case 7 => 11380
    case 8 => 12986 case 9 => 14583 case 10 => 16171 case 11 => 17750
    case 12 => 19317 case 13 => 20872 case 14 => 22415 case 15 => 23943
    case 16 => 25456 case 17 => 26954 case 18 => 28435 case 19 => 29898
    case 20 => 31343 case 21 => 32768 case 22 => 34173 case 23 => 35556
    case 24 => 36918 case 25 => 38256 case 26 => 39571 case 27 => 40861
    case 28 => 42126 case 29 => 43364 case 30 => 44576 case 31 => 45760
    case 32 => 46915 case 33 => 48041 case 34 => 49138 case 35 => 50203
    case 36 => 51238 case 37 => 52241 case 38 => 53211 case 39 => 54148
    case 40 => 55052 case 41 => 55921 case 42 => 56756 case 43 => 57555
    case 44 => 58319 case 45 => 59046 case 46 => 59736 case 47 => 60390
    case 48 => 61006 case 49 => 61584 case 50 => 62123 case 51 => 62624
    case 52 => 63087 case 53 => 63509 case 54 => 63893 case 55 => 64237
    case 56 => 64540 case 57 => 64804 case 58 => 65027 case 59 => 65210
    case 60 => 65353 case 61 => 65455 case 62 => 65516 case _ => 65536  }

  function Quadrant(phase: u32): nat { phase / 0x4000_0000 }

  function Index(phase: u32): nat { phase / 0x100_0000 % 64 }

  function Lookup(phase: u32): Angle {
    var sin, cos := Table(Index(phase)), Table(63 - Index(phase));
    match Quadrant(phase)
    case 0 => Angle(sin, cos)
    case 1 => Angle(cos, -sin)
    case 2 => Angle(-sin, -cos)
    case _ => Angle(-cos, sin)
  }

  /** The worst |sin^2 + cos^2 - 1| of the table, in units of 2^-32. */
  const WORST: int := 72974

  predicate NearOne(a: Angle) {
    && -M <= a.sin <= M && -M <= a.cos <= M
    && -WORST <= a.sin * a.sin + a.cos * a.cos - M * M <= WORST
  }

  lemma TableNearOne(index: nat)
    requires index < 64
    ensures var s, c := Table(index), Table(63 - index);
            -WORST <= s * s + c * c - M * M <= WORST
  {
  }

  /** And the bound is met: no smaller one holds of the whole table. */
  lemma WorstIsMet(phase: u32)
    requires Index(phase) == 10 && Quadrant(phase) == 0
    ensures var a := Lookup(phase); a.sin * a.sin + a.cos * a.cos - M * M == -WORST
  {
  }

  /** Every angle's pair is near the unit circle. */
  lemma LookupNearOne(phase: u32)
    ensures NearOne(Lookup(phase))
  {
    hide Table;
    TableNearOne(Index(phase));
    var s, c := Table(Index(phase)), Table(63 - Index(phase));
    assert (-s) * (-s) == s * s && (-c) * (-c) == c * c;
  }

  /** A quarter turn rotates the pair exactly, in every quadrant and around the
      wrap of the phase. */
  lemma QuarterTurn(phase: u32)
    ensures var a, b := Lookup(phase), Lookup(Plus(phase, 0x4000_0000)); b.sin == a.cos && b.cos == -a.sin
  {
    hide Table, Index, Quadrant, Wrap;
    TurnIndex(phase);
  }

  // ---- which function is the sine, and which way the phase turns ----

  /** The turn starts at sine zero and cosine one. */
  lemma TurnStarts(phase: u32)
    requires phase < STEP
    ensures Lookup(phase) == Angle(0, M)
  {
  }

  /** Phase that leads from one table entry to the next. */
  const STEP: nat := 0x100_0000

  /** Lowest and highest sine and cosine of the angle between two entries, in units
      of 2^-32; the exact values for a 63rd of a quarter turn are 107076505.7 and
      4293632342.9. */
  const STEP_SIN: (int, int) := (107015504, 107125564)
  const STEP_COS: (int, int) := (4293575176, 4293688058)

  /** `b` is `a` turned counter-clockwise by one step. */
  predicate TurnedByStep(a: Angle, b: Angle) {
    && STEP_SIN.0 <= b.sin * a.cos - b.cos * a.sin <= STEP_SIN.1
    && STEP_COS.0 <= b.cos * a.cos + b.sin * a.sin <= STEP_COS.1
  }

  /** The first half of the table; the other half mirrors it. */
  lemma HalfTurns(index: nat)
    requires index < 32
    ensures var s, t, c, d := Table(index), Table(index + 1), Table(63 - index), Table(62 - index);
            STEP_SIN.0 <= t * c - d * s <= STEP_SIN.1 && STEP_COS.0 <= d * c + t * s <= STEP_COS.1
  {
  }

  lemma TableTurns(index: nat)
    requires index < 63
    ensures TurnedByStep(Angle(Table(index), Table(63 - index)), Angle(Table(index + 1), Table(62 - index)))
  {
    hide Table;
    HalfTurns(if index < 32 then index else 62 - index);
  }

  lemma TableRises(index: nat)
    requires index < 63
    ensures Table(index) < Table(index + 1)
  {
  }

  /** A quarter turn of both changes nothing between them. */
  function Quartered(a: Angle): Angle
    requires -M <= a.sin <= M
  {
    Angle(a.cos, -a.sin)
  }

  lemma QuarteredTurns(a: Angle, b: Angle)
    requires -M <= a.sin <= M && -M <= b.sin <= M && TurnedByStep(a, b)
    ensures TurnedByStep(Quartered(a), Quartered(b))
  {
    assert b.cos * (-a.sin) == -(b.cos * a.sin) && (-b.sin) * a.cos == -(b.sin * a.cos);
    assert (-b.sin) * (-a.sin) == b.sin * a.sin;
  }

  lemma InQuadrant(phase: u32)
    ensures var first := Angle(Table(Index(phase)), Table(63 - Index(phase)));
            Lookup(phase) ==
            match Quadrant(phase)
            case 0 => first
            case 1 => Quartered(first)
            case 2 => Quartered(Quartered(first))
            case _ => Quartered(Quartered(Quartered(first)))
  {
    hide Table;
  }

  /** From every phase one step on turns the pair counter-clockwise by the angle
      between two entries, within the table's rounding; from the last entry of a
      quadrant to the first of the next, which is the same angle, not at all. */
  lemma StepTurns(phase: u32)
    ensures var a, b := Lookup(phase), Lookup(Plus(phase, STEP));
            if Index(phase) < 63 then TurnedByStep(a, b) else b == a
  {
    NextIndex(phase);
    if Index(phase) < 63 {
      hide Table, Lookup, Index, Quadrant, TurnedByStep, Plus;
      InQuadrant(phase);
      InQuadrant(Plus(phase, STEP));
      TableTurns(Index(phase));
      var a := Angle(Table(Index(phase)), Table(63 - Index(phase)));
      var b := Angle(Table(Index(phase) + 1), Table(62 - Index(phase)));
      QuarteredTurns(a, b);
      QuarteredTurns(Quartered(a), Quartered(b));
      QuarteredTurns(Quartered(Quartered(a)), Quartered(Quartered(b)));
    } else {
      SeamStays(phase);
    }
  }

  lemma SeamStays(phase: u32)
    requires Index(phase) == 63
    ensures Lookup(Plus(phase, STEP)) == Lookup(phase)
  {
    hide Index, Quadrant, Plus;
    NextIndex(phase);
    assert Table(0) == 0 && Table(63) == M;
    TurnIndex(phase);
    hide Table;
  }

  lemma NextIndex(phase: u32)
    ensures var n := Plus(phase, STEP);
            if Index(phase) < 63 then Index(n) == Index(phase) + 1 && Quadrant(n) == Quadrant(phase)
            else Index(n) == 0 && Quadrant(n) == (Quadrant(phase) + 1) % 4
  {
    var q := phase / STEP;
    assert phase / 0x4000_0000 == q / 64;
    if phase < 0xFF00_0000 {
      assert (phase + STEP) / STEP == q + 1;
      assert (phase + STEP) / 0x4000_0000 == (q + 1) / 64;
    } else {
      assert q == 255 && Plus(phase, STEP) == phase - 0xFF00_0000;
    }
  }

  /** In the first quadrant the sine never falls and the cosine never rises as the
      phase grows. */
  lemma FirstQuadrant(p: u32, q: u32)
    requires p <= q < 0x4000_0000
    ensures Lookup(p).sin <= Lookup(q).sin && Lookup(q).cos <= Lookup(p).cos
    ensures 0 <= Lookup(p).sin && 0 <= Lookup(p).cos
  {
    hide Table;
    TableGrows(Index(p), Index(q));
    TableGrows(63 - Index(q), 63 - Index(p));
  }

  lemma {:induction false} TableGrows(i: nat, j: nat)
    requires i <= j < 64
    ensures Table(i) <= Table(j)
  {
    hide Table;
    if i == j {
    } else {
      TableGrows(i, j - 1);
      TableRises(j - 1);
    }
  }

  lemma TurnIndex(phase: u32)
    ensures var n := Plus(phase, 0x4000_0000); Index(n) == Index(phase) && Quadrant(n) == (Quadrant(phase) + 1) % 4
    ensures Quadrant(phase) < 4
  {
    var n := Plus(phase, 0x4000_0000);
    if phase < 0xC000_0000 {
      assert n == phase + 0x4000_0000;
      assert n / 0x100_0000 == phase / 0x100_0000 + 64;
    } else {
      assert n == phase - 0xC000_0000;
      assert n / 0x100_0000 == phase / 0x100_0000 - 192;
    }
  }
}

/** rtl/plant/park_alphabeta_q16.v and rtl/plant/inverse_park_q16.v. */
module Park {
  import opened FixedPoint
  import opened Words
  import opened SinCos
  import opened Clarke

  datatype Dq = Dq(d: s32, q: s32)

  function Rotated(x: AlphaBeta, a: Angle): Dq {
    hide Qmul;
    Dq(S32(Qmul(x.alpha, a.cos) + Qmul(x.beta, a.sin)), S32(Qmul(x.beta, a.cos) - Qmul(x.alpha, a.sin)))
  }

  function Unrotated(y: Dq, a: Angle): AlphaBeta {
    hide Qmul;
    AlphaBeta(S32(Qmul(y.d, a.cos) - Qmul(y.q, a.sin)), S32(Qmul(y.d, a.sin) + Qmul(y.q, a.cos)))
  }

  /** `p` is `x / 2^16` rounded down. */
  predicate Floored(p: int, x: int) {
    p * M <= x < p * M + M
  }

  /** One rotation within 2^29 does not overflow and is off by the rounding of
      its two products. */
  lemma RotateBounds(x: AlphaBeta, a: Angle)
    requires Small(x) && -M <= a.sin <= M && -M <= a.cos <= M
    ensures var y := Rotated(x, a);
            && -2 * RANGE <= y.d <= 2 * RANGE && -2 * RANGE <= y.q <= 2 * RANGE
            && 0 <= x.alpha * a.cos + x.beta * a.sin - y.d * M < 2 * M
            && -M < x.beta * a.cos - x.alpha * a.sin - y.q * M < M
  {
    QmulFloor(x.alpha, a.cos, RANGE);
    QmulFloor(x.beta, a.sin, RANGE);
    QmulFloor(x.alpha, a.sin, RANGE);
    QmulFloor(x.beta, a.cos, RANGE);
    hide Qmul;
  }

  lemma UnrotateBounds(y: Dq, a: Angle)
    requires -2 * RANGE <= y.d <= 2 * RANGE && -2 * RANGE <= y.q <= 2 * RANGE && -M <= a.sin <= M && -M <= a.cos <= M
    ensures var dc, qs, ds, qc := Qmul(y.d, a.cos), Qmul(y.q, a.sin), Qmul(y.d, a.sin), Qmul(y.q, a.cos);
            && Floored(dc, y.d * a.cos) && Floored(qs, y.q * a.sin) && Floored(ds, y.d * a.sin) &&
               Floored(qc, y.q * a.cos)
  {
    QmulFloor(y.d, a.cos, 2 * RANGE);
    QmulFloor(y.q, a.sin, 2 * RANGE);
    QmulFloor(y.d, a.sin, 2 * RANGE);
    QmulFloor(y.q, a.cos, 2 * RANGE);
  }

  /** Rotating back: the exact remainder of the round trip. */
  lemma RoundTrip(alpha: int, beta: int, s: int, c: int, d: int, q: int, dc: int, qs: int, ds: int, qc: int)
    requires -M <= s <= M && -M <= c <= M
    requires 0 <= alpha * c + beta * s - d * M < 2 * M && -M < beta * c - alpha * s - q * M < M
    requires Floored(dc, d * c) && Floored(qs, q * s) && Floored(ds, d * s) && Floored(qc, q * c)
    ensures var unit := s * s + c * c;
            && -4 * M * M <= (dc - qs) * M * M - alpha * unit <= 4 * M * M
            && -5 * M * M <= (ds + qc) * M * M - beta * unit <= 5 * M * M
  {
    var e, f := alpha * c + beta * s - d * M, beta * c - alpha * s - q * M;
    ProductBound(e, c, 2 * M, M);
    ProductBound(e, s, 2 * M, M);
    ProductBound(f, c, M, M);
    ProductBound(f, s, M, M);
    CosineBack(alpha, beta, s, c, d, q, e, f);
    SineBack(alpha, beta, s, c, d, q, e, f);
  }

  lemma CosineBack(alpha: int, beta: int, s: int, c: int, d: int, q: int, e: int, f: int)
    requires e == alpha * c + beta * s - d * M && f == beta * c - alpha * s - q * M
    ensures (d * c - q * s) * M == alpha * (s * s + c * c) - e * c + f * s
  {
    assert d * M == alpha * c + beta * s - e && q * M == beta * c - alpha * s - f;
    assert (d * c - q * s) * M == (d * M) * c - (q * M) * s;
    assert (alpha * c + beta * s - e) * c == alpha * (c * c) + beta * (s * c) - e * c;
    assert (beta * c - alpha * s - f) * s == beta * (s * c) - alpha * (s * s) - f * s;
    assert alpha * (s * s + c * c) == alpha * (s * s) + alpha * (c * c);
  }

  lemma SineBack(alpha: int, beta: int, s: int, c: int, d: int, q: int, e: int, f: int)
    requires e == alpha * c + beta * s - d * M && f == beta * c - alpha * s - q * M
    ensures (d * s + q * c) * M == beta * (s * s + c * c) - e * s - f * c
  {
    assert d * M == alpha * c + beta * s - e && q * M == beta * c - alpha * s - f;
    assert (d * s + q * c) * M == (d * M) * s + (q * M) * c;
    assert (alpha * c + beta * s - e) * s == alpha * (s * c) + beta * (s * s) - e * s;
    assert (beta * c - alpha * s - f) * c == beta * (c * c) - alpha * (s * c) - f * c;
    assert beta * (s * s + c * c) == beta * (s * s) + beta * (c * c);
  }

  /** `r` is `v` up to the table's deviation and rounding. */
  predicate Close(r: int, v: int) {
    Abs(r - v) * M * M <= Abs(v) * WORST + 5 * M * M
  }

  lemma Near(v: int, unit: int, r: int)
    requires -RANGE <= v <= RANGE && -WORST <= unit - M * M <= WORST
    requires -5 * M * M <= r * M * M - v * unit <= 5 * M * M
    ensures Close(r, v) && InS32(r)
  {
    var delta := unit - M * M;
    assert v * unit == v * M * M + v * delta;
    ProductBound(v, delta, Abs(v), WORST);
    assert (r - v) * M * M == r * M * M - v * M * M;
  }

  /** The four products of the way back, near the start. */
  lemma ProductsBack(x: AlphaBeta, a: Angle)
    requires Small(x) && NearOne(a)
    ensures var y := Rotated(x, a);
            && Close(Qmul(y.d, a.cos) - Qmul(y.q, a.sin), x.alpha) && InS32(Qmul(y.d, a.cos) - Qmul(y.q, a.sin))
            && Close(Qmul(y.d, a.sin) + Qmul(y.q, a.cos), x.beta) && InS32(Qmul(y.d, a.sin) + Qmul(y.q, a.cos))
  {
    hide Qmul, Rotated, Close, InS32, Floored;
    RotateBounds(x, a);
    var y := Rotated(x, a);
    UnrotateBounds(y, a);
    var dc: int, qs: int, ds: int, qc: int := Qmul(y.d, a.cos), Qmul(y.q, a.sin), Qmul(y.d, a.sin), Qmul(y.q, a.cos);
    RoundTrip(x.alpha, x.beta, a.sin, a.cos, y.d, y.q, dc, qs, ds, qc);
    Near(x.alpha, a.sin * a.sin + a.cos * a.cos, dc - qs);
    Near(x.beta, a.sin * a.sin + a.cos * a.cos, ds + qc);
  }

  /** Inverse Park after Park, for every phase: each component comes back within
      the table's worst deviation from the unit circle times its magnitude, plus
      five, in units of the last place (2^-16); nothing overflows. */
  lemma UnrotateUndoesRotate(x: AlphaBeta, phase: u32)
    requires Small(x)
    ensures var y := Unrotated(Rotated(x, Lookup(phase)), Lookup(phase));
            Close(y.alpha, x.alpha) && Close(y.beta, x.beta)
  {
    hide Lookup, Qmul, Rotated, Close, Small, NearOne;
    LookupNearOne(phase);
    ProductsBack(x, Lookup(phase));
  }
}
