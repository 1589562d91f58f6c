/** Numbers and their bits, most significant first. */
module BitNumbers {
  import opened Words
  import opened BitVectors

  function Number(bits: seq<bool>): (n: nat)
    ensures n < Pow2(|bits|)
  {
    if bits == [] then 0 else 2 * Number(bits[..|bits| - 1]) + if bits[|bits| - 1] then 1 else 0
  }

  lemma {:induction false} NumberBits(v: nat, n: nat)
    ensures Number(Bits(v, n)) == v % Pow2(n)
  {
    if n == 0 {
    } else {
      NumberBits(v / 2, n - 1);
      assert Bits(v, n)[..n - 1] == Bits(v / 2, n - 1);
      HalfModulo(v, Pow2(n - 1));
    }
  }

  lemma HalfModulo(v: nat, p: nat)
    requires p > 0
    ensures v % (2 * p) == 2 * (v / 2 % p) + v % 2
  {
    var h := v / 2;
    var q, r := h / p, h % p;
    assert h == q * p + r;
    assert v == q * (2 * p) + (2 * r + v % 2);
    Remainder(v, q, 2 * p, 2 * r + v % 2);
  }

  lemma Magnitude(x: int, m: int)
    requires m > 0
    ensures x >= 1 ==> x * m >= m
    ensures x <= -1 ==> x * m <= -m
  {
    if x >= 1 {
      assert x * m == (x - 1) * m + m && (x - 1) * m >= 0;
    } else if x <= -1 {
      assert x * m == (x + 1) * m - m && (x + 1) * m <= 0;
    }
  }

  lemma Remainder(v: nat, q: nat, m: nat, r: nat)
    requires v == q * m + r && r < m
    ensures v % m == r
  {
    var d, s := v / m, v % m;
    assert v == d * m + s;
    assert (q - d) * m == q * m - d * m;
    Magnitude(q - d, m);
  }

  lemma {:induction false} NumberConcat(a: seq<bool>, b: seq<bool>)
    ensures Number(a + b) == Number(a) * Pow2(|b|) + Number(b)
  {
    if b == [] {
      assert a + b == a;
    } else {
      var rest := b[..|b| - 1];
      NumberConcat(a, rest);
      NumberSnoc(a + rest, b[|b| - 1]);
      NumberSnoc(rest, b[|b| - 1]);
      assert a + b == a + rest + [b[|b| - 1]] && b == rest + [b[|b| - 1]];
      hide Number;
      Doubled(Number(a), |rest|);
    }
  }

  lemma NumberSnoc(a: seq<bool>, bit: bool)
    ensures Number(a + [bit]) == 2 * Number(a) + if bit then 1 else 0
  {
    assert (a + [bit])[..|a|] == a;
  }

  lemma Doubled(x: nat, n: nat)
    ensures x * Pow2(n + 1) == 2 * (x * Pow2(n))
  {
  }

  /** Bit `k` of the number, counting from the least significant. */
  lemma {:induction false} NumberBit(bits: seq<bool>, k: nat)
    requires k < |bits|
    ensures Bit(Number(bits), k) == bits[|bits| - 1 - k]
  {
    if k == 0 {
    } else {
      NumberBit(bits[..|bits| - 1], k - 1);
    }
  }

  lemma {:induction false} BitsAt(v: nat, n: nat, k: nat)
    requires k < n
    ensures Bits(v, n)[n - 1 - k] == Bit(v, k)
  {
    if k == 0 {
    } else {
      BitsAt(v / 2, n - 1, k - 1);
    }
  }

  lemma {:induction false} BitsModulo(v: nat, n: nat)
    ensures Bits(v % Pow2(n), n) == Bits(v, n)
  {
    if n == 0 {
    } else {
      var p := Pow2(n - 1);
      HalfModulo(v, p);
      BitsModulo(v / 2, n - 1);
      assert v % (2 * p) / 2 == v / 2 % p && v % (2 * p) % 2 == v % 2;
    }
  }
}

/** Frames as the sensor spells them: hil_sensor.py and the frame functions of
    pru1_b2_serial/main.c. */
module SerialFrame {
  import opened Words
  import opened BitVectors
  import opened BitNumbers
  import opened BissCrc

  datatype Mode = NoMode | Ssi | Biss | Spi

  /** What the CRC covers. */
  function Message(position: nat, positionBits: nat, errorOk: bool, warningOk: bool): (m: seq<bool>)
    ensures |m| == positionBits + 2
  {
    Bits(position, positionBits) + [errorOk, warningOk]
  }

  /** ACK, START, CDS, position, ERR, WARN, inverted CRC. */
  function BissBits(position: nat, positionBits: nat, errorOk: bool, warningOk: bool): (b: seq<bool>)
    ensures |b| == positionBits + 11
  {
    [false, true, false] + CodeWord(Message(position, positionBits, errorOk, warningOk))
  }

  function FrameBits(mode: Mode, dataBits: nat, value: u32, mask: u32, flags: u32): (b: seq<bool>)
    ensures |b| == if mode == Biss then dataBits + 11 else dataBits
  {
    var effective := if flags % 2 == 1 then Xor(value, mask) else value;
    if mode == Biss then BissBits(effective, dataBits, flags / 2 % 2 == 1, flags / 4 % 2 == 1)
        else Bits(effective, dataBits)
  }

  function Place(bit: bool, weight: nat): nat { if bit then weight else 0 }

  /** The register as an integer. */
  function Value(r: Reg): (v: nat)
    ensures v < 64
  {
    Place(r.b5, 32) + Place(r.b4, 16) + Place(r.b3, 8) + Place(r.b2, 4) + Place(r.b1, 2) + Place(r.b0, 1)
  }

  /** `crc = (crc << 1) & 0x3f`, then `^= 0x03` when the feedback is set. */
  method Feed(crc: nat, value: nat, count: nat, ghost before: seq<bool>) returns (r: nat)
    requires crc == Value(Crc(before))
    ensures r == Value(Crc(before + Bits(value, count)))
  {
    hide Value, Crc, Bits, CrcStep, Bit;
    r := crc;
    var bitIndex := count - 1;
    ghost var all := Bits(value, count);
    assert before + all[..0] == before;
    while bitIndex >= 0
      invariant -1 <= bitIndex < count
      invariant r == Value(Crc(before + all[..count - 1 - bitIndex]))
    {
      var bit := Bit(value, bitIndex);
      var feedback := (r / 32 % 2 == 1) != bit;
      RegStep(Crc(before + all[..count - 1 - bitIndex]), bit);
      r := r * 2 % 64;
      if feedback {
        r := if r / 2 % 2 == 1 then r - 1 else r + 3;
      }
      BitsAt(value, count, bitIndex);
      CrcSnoc(before + all[..count - 1 - bitIndex], bit);
      assert before + all[..count - bitIndex] == before + all[..count - 1 - bitIndex] + [bit];
      bitIndex := bitIndex - 1;
    }
    assert all[..count] == all;
  }

  lemma CrcSnoc(m: seq<bool>, bit: bool)
    ensures Crc(m + [bit]) == CrcStep(Crc(m), bit)
  {
    assert (m + [bit])[..|m|] == m;
  }

  /** The register after one turn, as an integer. */
  function Turned(crc: nat, bit: bool): int {
    var shifted := crc * 2 % 64;
    if (crc / 32 % 2 == 1) == bit then shifted else if shifted / 2 % 2 == 1 then shifted - 1 else shifted + 3
  }

  lemma Halves(r: Reg)
    ensures Value(r) / 32 % 2 == 1 <==> r.b5
    ensures Value(r) * 2 % 64 == 2 * Value(r.(b5 := false)) && Value(r.(b5 := false)) % 2 == Place(r.b0, 1)
  {
  }

  lemma RegStep(r: Reg, bit: bool)
    ensures Turned(Value(r), bit) == Value(CrcStep(r, bit))
  {
    Halves(r);
    var low := Value(r.(b5 := false));
    assert 2 * low / 2 % 2 == low % 2;
    if r.b5 == bit {
      assert Value(CrcStep(r, bit)) == 2 * low;
    } else if r.b0 {
      assert Value(CrcStep(r, bit)) == 2 * low - 1;
    } else {
      assert Value(CrcStep(r, bit)) == 2 * low + 3;
    }
  }

  lemma InvertedValue(r: Reg)
    ensures Value(r.Inverted()) == 63 - Value(r)
  {
  }

  lemma TwoBits(a: bool, b: bool)
    ensures Bits((if a then 2 else 0) + (if b then 1 else 0), 2) == [a, b]
  {
    var v := (if a then 2 else 0) + (if b then 1 else 0);
    assert Bits(v, 2) == Bits(v / 2, 1) + [b] && Bits(v / 2, 1) == Bits(v / 4, 0) + [a];
  }

  /** The firmware's `crc6_biss`; SERIAL_CONFIG only admits 1 to 32 bits. */
  method Crc6Biss(position: u32, positionBits: nat, errorOk: u32, warningOk: u32) returns (crc: nat)
    requires 1 <= positionBits <= 32
    ensures crc == Value(Crc(Message(position, positionBits, errorOk % 2 == 1, warningOk % 2 == 1)).Inverted())
  {
    hide Crc, Bits;
    assert [] + Bits(position, positionBits) == Bits(position, positionBits);
    EmptyCrc();
    crc := Feed(0, position, positionBits, []);
    var status := errorOk % 2 * 2 + warningOk % 2;
    TwoBits(errorOk % 2 == 1, warningOk % 2 == 1);
    crc := Feed(crc, status, 2, Bits(position, positionBits));
    InvertedValue(Crc(Message(position, positionBits, errorOk % 2 == 1, warningOk % 2 == 1)));
    crc := 63 - crc;
  }

  lemma EmptyCrc()
    ensures Value(Crc([])) == 0
  {
  }

  /** The host's `crc6_biss`; None where it raises ValueError. */
  method Crc6BissHost(position: int, positionBits: int, errorOk: int, warningOk: int) returns (crc: Option<nat>)
    ensures crc.None? <==> positionBits < 1 || positionBits > 32
    ensures crc.Some? ==>
              crc.value == Value(Crc(Message(position % Pow2(positionBits), positionBits, errorOk % 2 == 1,
                                             warningOk % 2 == 1)).Inverted())
  {
    hide Crc, Bits, Pow2;
    if !(1 <= positionBits <= 32) {
      return None;
    }
    var masked := position % Pow2(positionBits);
    assert [] + Bits(masked, positionBits) == Bits(masked, positionBits);
    EmptyCrc();
    var r := Feed(0, masked, positionBits, []);
    var status := errorOk % 2 * 2 + warningOk % 2;
    TwoBits(errorOk % 2 == 1, warningOk % 2 == 1);
    r := Feed(r, status, 2, Bits(masked, positionBits));
    InvertedValue(Crc(Message(masked, positionBits, errorOk % 2 == 1, warningOk % 2 == 1)));
    return Some(63 - r);
  }

  lemma {:induction false} RegNumber(r: Reg)
    ensures Number(r.Bits()) == Value(r)
  {
    hide Number;
    var b := r.Bits();
    assert b == [] + [r.b5] + [r.b4] + [r.b3] + [r.b2] + [r.b1] + [r.b0];
    NumberEmpty();
    NumberSnoc([], r.b5);
    NumberSnoc([] + [r.b5], r.b4);
    NumberSnoc([] + [r.b5] + [r.b4], r.b3);
    NumberSnoc([] + [r.b5] + [r.b4] + [r.b3], r.b2);
    NumberSnoc([] + [r.b5] + [r.b4] + [r.b3] + [r.b2], r.b1);
    NumberSnoc([] + [r.b5] + [r.b4] + [r.b3] + [r.b2] + [r.b1], r.b0);
  }

  lemma NumberEmpty()
    ensures Number([]) == 0
  {
  }

  lemma HeadNumber(position: nat, n: nat)
    requires position < Pow2(n)
    ensures Number([false, true, false] + Bits(position, n)) == 2 * Pow2(n) + position
  {
    hide Number, Bits, Pow2;
    NumberEmpty();
    NumberSnoc([], false);
    NumberSnoc([] + [false], true);
    NumberSnoc([] + [false] + [true], false);
    assert [] + [false] + [true] + [false] == [false, true, false];
    NumberConcat([false, true, false], Bits(position, n));
    NumberBits(position, n);
    Remainder(position, 0, Pow2(n), position);
  }

  lemma TailNumber(head: seq<bool>, errorOk: nat, warningOk: nat, r: Reg)
    requires errorOk < 2 && warningOk < 2
    ensures Number(head + [errorOk == 1] + [warningOk == 1] + r.Bits()) ==
            ((Number(head) * 2 + errorOk) * 2 + warningOk) * 64 + Value(r)
  {
    hide Number, Value, Reg.Bits, Pow2;
    NumberSnoc(head, errorOk == 1);
    NumberSnoc(head + [errorOk == 1], warningOk == 1);
    NumberConcat(head + [errorOk == 1] + [warningOk == 1], r.Bits());
    RegNumber(r);
    Pow2Six();
  }

  /** The shifts and ors that put a BiSS frame together, the same in both
      languages. */
  method Assemble(position: nat, positionBits: nat, errorOk: nat, warningOk: nat, crc: nat, ghost r: Reg)
      returns (frame: nat)
    requires position < Pow2(positionBits) && errorOk < 2 && warningOk < 2 && crc == Value(r)
    ensures frame == Number([false, true, false] + Bits(position, positionBits) + [errorOk == 1] + [warningOk == 1] +
                            r.Bits())
  {
    hide Number, Bits, Pow2, Value, Reg.Bits;
    frame := 0;
    frame := frame * 2;
    frame := frame * 2 + 1;
    frame := frame * 2;
    frame := frame * Pow2(positionBits) + position;
    frame := frame * 2 + errorOk;
    frame := frame * 2 + warningOk;
    frame := frame * 64 + crc;
    HeadNumber(position, positionBits);
    TailNumber([false, true, false] + Bits(position, positionBits), errorOk, warningOk, r);
  }

  lemma Pow2Six()
    ensures Pow2(6) == 64
  {
  }

  lemma Grouped(position: nat, n: nat, errorOk: bool, warningOk: bool)
    ensures var r := Crc(Message(position, n, errorOk, warningOk)).Inverted();
            [false, true, false] + Bits(position, n) + [errorOk] + [warningOk] + r.Bits() ==
                BissBits(position, n, errorOk, warningOk)
  {
    hide Crc, Bits, Reg.Inverted, Reg.Bits;
  }

  /** The firmware's `build_frame`, the frame as a number. */
  method BuildFrame(mode: Mode, dataBits: nat, value: u32, mask: u32, flags: u32) returns (frame: nat, totalBits: nat)
    requires 1 <= dataBits <= 32
    ensures totalBits == |FrameBits(mode, dataBits, value, mask, flags)|
    ensures frame == Number(FrameBits(mode, dataBits, value, mask, flags))
  {
    hide Xor, Number, Bits, Pow2, BissBits, Value, Crc;
    var effective := value;
    if flags % 2 == 1 {
      effective := Xor(effective, mask);
    }
    BitsModulo(effective, dataBits);
    NumberBits(effective, dataBits);
    Pow2Is32();
    SmallModulo(effective, dataBits);
    var masked: u32 := effective;
    if dataBits < 32 {
      masked := effective % Pow2(dataBits);
    }
    if mode == Biss {
      var errorOk, warningOk := flags / 2 % 2, flags / 4 % 2;
      var crc := Crc6Biss(masked, dataBits, errorOk, warningOk);
      ghost var r := Crc(Message(masked, dataBits, errorOk == 1, warningOk == 1)).Inverted();
      frame := Assemble(masked, dataBits, errorOk, warningOk, crc, r);
      Grouped(masked, dataBits, errorOk == 1, warningOk == 1);
      SameBiss(masked, effective, dataBits, errorOk == 1, warningOk == 1);
      totalBits := dataBits + 11;
    } else {
      frame, totalBits := masked, dataBits;
    }
  }

  lemma SmallModulo(v: u32, n: nat)
    requires n <= 32
    ensures v % Pow2(n) < M32 && (n == 32 ==> v % Pow2(n) == v)
  {
    hide Pow2;
    Pow2Is32();
    if n == 32 {
      Remainder(v, 0, Pow2(32), v);
    } else {
      ModuloBelow(v, Pow2(n));
    }
  }

  lemma ModuloBelow(v: nat, p: nat)
    requires p > 0
    ensures v % p <= v
  {
    if v >= p {
      assert v % p < p;
    } else {
      Remainder(v, 0, p, v);
    }
  }

  lemma SameBiss(a: nat, b: nat, n: nat, errorOk: bool, warningOk: bool)
    requires Bits(a, n) == Bits(b, n)
    ensures BissBits(a, n, errorOk, warningOk) == BissBits(b, n, errorOk, warningOk)
  {
  }

  /** The host's `build_biss_frame`; None where it raises ValueError. */
  method BuildBissFrame(position: int, positionBits: int, errorOk: int, warningOk: int) returns (r: Option<(nat, nat)>)
    ensures r.None? <==> positionBits < 1 || positionBits > 32
    ensures r.Some? ==>
              r.value == (Number(BissBits(position % Pow2(positionBits), positionBits, errorOk % 2 == 1,
                                          warningOk % 2 == 1)), positionBits + 11)
  {
    hide Number, Bits, Pow2, BissBits, Value, Crc;
    if !(1 <= positionBits <= 32) {
      return None;
    }
    var masked := position % Pow2(positionBits);
    var crc := Crc6BissHost(masked, positionBits, errorOk, warningOk);
    MaskedTwice(position, positionBits);
    ghost var register := Crc(Message(masked, positionBits, errorOk % 2 == 1, warningOk % 2 == 1)).Inverted();
    var frame := Assemble(masked, positionBits, errorOk % 2, warningOk % 2, crc.value, register);
    Grouped(masked, positionBits, errorOk % 2 == 1, warningOk % 2 == 1);
    return Some((frame, positionBits + 11));
  }

  lemma MaskedTwice(x: int, n: nat)
    ensures 0 <= x % Pow2(n) < Pow2(n) && x % Pow2(n) % Pow2(n) == x % Pow2(n)
  {
    Remainder(x % Pow2(n), 0, Pow2(n), x % Pow2(n));
  }

  /** The firmware's frame and the host's are the same number, for every width,
      value, fault mask and status. */
  lemma FramesEqual(dataBits: nat, value: u32, mask: u32, flags: u32)
    requires 1 <= dataBits <= 32
    ensures var position := if flags % 2 == 1 then Xor(value, mask) else value;
            Number(FrameBits(Biss, dataBits, value, mask, flags)) ==
            Number(BissBits(position % Pow2(dataBits), dataBits, flags / 2 % 2 == 1, flags / 4 % 2 == 1))
  {
    hide Xor, Number, Bits, Pow2;
    var position := if flags % 2 == 1 then Xor(value, mask) else value;
    BitsModulo(position, dataBits);
    SameBiss(position % Pow2(dataBits), position, dataBits, flags / 2 % 2 == 1, flags / 4 % 2 == 1);
  }

  /** `frame_bit`: shift right, keep one bit. */
  function FrameBit(frame: nat, totalBits: nat, index: nat): bool
    requires index < totalBits
  {
    Bit(frame, totalBits - 1 - index)
  }

  lemma FrameBitIs(bits: seq<bool>, index: nat)
    requires index < |bits|
    ensures FrameBit(Number(bits), |bits|, index) == bits[index]
  {
    NumberBit(bits, |bits| - 1 - index);
  }

  // ---- a receiver ----

  datatype Reading = Reading(position: nat, errorOk: bool, warningOk: bool)

  function Parse(bits: seq<bool>, positionBits: nat): Option<Reading> {
    if |bits| == positionBits + 11 && bits[..3] == [false, true, false] && Accepts(bits[3..]) then
      Some(Reading(Number(bits[3..3 + positionBits]), bits[3 + positionBits], bits[4 + positionBits]))
    else None
  }

  /** Parser undoes printer. */
  lemma ParseFrame(position: nat, n: nat, errorOk: bool, warningOk: bool)
    ensures Parse(BissBits(position, n, errorOk, warningOk), n) == Some(Reading(position % Pow2(n), errorOk, warningOk))
  {
    hide Crc, Bits, Pow2, Number, Reg.Bits, Reg.Inverted;
    var m := Message(position, n, errorOk, warningOk);
    var word := CodeWord(m);
    var bits := BissBits(position, n, errorOk, warningOk);
    assert bits[..3] == [false, true, false] && bits[3..] == word;
    assert word[..|word| - 6] == m && word[|word| - 6..] == Crc(m).Inverted().Bits();
    assert bits[3..3 + n] == Bits(position, n);
    NumberBits(position, n);
  }

  /** Any single-bit error, two-bit error or burst of up to six bits in position,
      status and CRC makes the receiver reject the frame. */
  lemma ParseRejects(position: nat, n: nat, errorOk: bool, warningOk: bool, e: seq<bool>, i: nat, j: nat)
    requires n <= 32 && |e| == n + 8 && (OneError(e, i) || TwoErrors(e, i, j) || IsBurst(e, i))
    ensures var bits := BissBits(position, n, errorOk, warningOk);
            Parse(bits[..3] + XorBits(bits[3..], e), n) == None
  {
    hide Crc, Bits, Number, Reg.Bits, Reg.Inverted, OneError, TwoErrors, IsBurst, Accepts, XorBits;
    var m := Message(position, n, errorOk, warningOk);
    var bits := BissBits(position, n, errorOk, warningOk);
    assert bits[3..] == CodeWord(m);
    ErrorsDetected(m, e, i, j);
    var got := bits[..3] + XorBits(CodeWord(m), e);
    assert got[3..] == XorBits(CodeWord(m), e);
  }
}
