/** 32-bit machine words as bounded integers: wrap-around arithmetic and the
    bitwise operators, each described by what it does to the single bits. */
module Words {
  const M32: nat := 0x1_0000_0000

  type u32 = x: int | 0 <= x < 0x1_0000_0000

  datatype Option<+T> = None | Some(value: T)

  /** The value a 32-bit register keeps of an unbounded integer. */
  function Wrap(x: int): u32 {
    x % 0x1_0000_0000
  }

  /** 32-bit addition and subtraction, wrapping. */
  function Plus(a: int, b: int): u32 {
    Wrap(a + b)
  }

  function Minus(a: int, b: int): u32 {
    Wrap(a - b)
  }

  lemma PlusWrap(a: int, b: int)
    ensures Plus(Wrap(a), b) == Wrap(a + b)
    ensures Minus(Wrap(a), b) == Wrap(a - b)
  {
    assert (Wrap(a) + b - (a + b)) % M32 == 0;
    assert (Wrap(a) - b - (a - b)) % M32 == 0;
  }

  /** The wrapped difference of two counters recovers their distance. */
  lemma WrapDistance(a: int, b: int)
    requires 0 <= b - a < M32
    ensures Minus(Wrap(b), Wrap(a)) == b - a
  {
    assert (Wrap(b) - Wrap(a) - (b - a)) % M32 == 0;
  }

  function Min(a: int, b: int): int {
    if a < b then a else b
  }

  function Max(a: int, b: int): int {
    if a < b then b else a
  }

  predicate Bit(x: nat, k: nat) {
    if k == 0 then x % 2 == 1 else Bit(x / 2, k - 1)
  }

  function Pow2(k: nat): (p: nat)
    ensures p >= 1
  {
    if k == 0 then 1 else 2 * Pow2(k - 1)
  }

  /** The word of `n` bits whose bit `k` is `p(k)`. */
  function Gather(n: nat, p: nat -> bool): (w: nat)
    ensures w < Pow2(n)
  {
    if n == 0 then 0
    else (if p(0) then 1 else 0) + 2 * Gather(n - 1, (k: nat) => p(k + 1))
  }

  lemma {:induction false} GatherBit(n: nat, p: nat -> bool, k: nat)
    ensures Bit(Gather(n, p), k) <==> k < n && p(k)
  {
    if n == 0 {
      ZeroBit(k);
    } else {
      var rest := Gather(n - 1, (j: nat) => p(j + 1));
      assert Gather(n, p) / 2 == rest;
      if k > 0 {
        GatherBit(n - 1, (j: nat) => p(j + 1), k - 1);
      }
    }
  }

  lemma ZeroBit(k: nat)
    ensures !Bit(0, k)
  {
    if k > 0 {
      ZeroBit(k - 1);
    }
  }

  lemma {:induction false} SameBits(n: nat, x: nat, y: nat)
    requires x < Pow2(n) && y < Pow2(n)
    requires forall k: nat :: k < n ==> (Bit(x, k) <==> Bit(y, k))
    ensures x == y
  {
    if n == 0 {
    } else {
      forall k: nat | k < n - 1 ensures Bit(x / 2, k) <==> Bit(y / 2, k) {
        assert Bit(x, k + 1) <==> Bit(y, k + 1);
      }
      SameBits(n - 1, x / 2, y / 2);
      assert Bit(x, 0) <==> Bit(y, 0);
    }
  }

  lemma Pow2Is32()
    ensures Pow2(32) == M32
  {
    assert Pow2(8) == 256;
    assert Pow2(16) == 65536;
    assert Pow2(24) == 16777216;
  }

  /** `w` has exactly the bits `p` among its 32. */
  predicate HasBits(w: u32, p: nat -> bool) {
    forall k: nat :: k < 32 ==> (Bit(w, k) <==> p(k))
  }

  lemma BitsExist(p: nat -> bool)
    ensures exists w: u32 :: HasBits(w, p)
    ensures forall v: u32, w: u32 :: HasBits(v, p) && HasBits(w, p) ==> v == w
  {
    Pow2Is32();
    var w: u32 := Gather(32, p);
    forall k: nat ensures Bit(w, k) <==> k < 32 && p(k) { GatherBit(32, p, k); }
    assert HasBits(w, p);
    forall v: u32, w: u32 | HasBits(v, p) && HasBits(w, p) ensures v == w {
      forall k: nat | k < 32 ensures Bit(v, k) <==> Bit(w, k) {
        assert (Bit(v, k) <==> p(k)) && (Bit(w, k) <==> p(k));
      }
      SameBits(32, v, w);
    }
  }

  /** The 32-bit word with exactly the bits `p`. */
  function FromBits(p: nat -> bool): (w: u32)
    ensures HasBits(w, p)
  {
    BitsExist(p);
    var w: u32 :| HasBits(w, p);
    w
  }

  lemma SameWord(x: u32, y: u32)
    requires forall k: nat :: k < 32 ==> (Bit(x, k) <==> Bit(y, k))
    ensures x == y
  {
    Pow2Is32();
    SameBits(32, x, y);
  }

  function Or(a: u32, b: u32): u32 {
    FromBits((k: nat) => Bit(a, k) || Bit(b, k))
  }

  function And(a: u32, b: u32): u32 {
    FromBits((k: nat) => Bit(a, k) && Bit(b, k))
  }

  /** `a & ~b`. */
  function AndNot(a: u32, b: u32): u32 {
    FromBits((k: nat) => Bit(a, k) && !Bit(b, k))
  }

  function Xor(a: u32, b: u32): u32 {
    FromBits((k: nat) => Bit(a, k) != Bit(b, k))
  }
}

/** 64-bit timestamps. */
module Timestamps {
  const M64: nat := 0x1_0000_0000_0000_0000

  type u64 = x: int | 0 <= x < 0x1_0000_0000_0000_0000

  function Delta(now: u64, at: u64): u64 { (now - at) % 0x1_0000_0000_0000_0000 }

  lemma DeltaIs(now: u64, at: u64)
    requires at <= now
    ensures Delta(now, at) == now - at
  {
  }
}

/** Vector registers as sequences of bits, most significant first. */
module BitVectors {
  function Zeros(n: nat): (z: seq<bool>)
    ensures |z| == n
  {
    seq(n, _ => false)
  }

  function XorBits(a: seq<bool>, b: seq<bool>): (r: seq<bool>)
    requires |a| == |b|
    ensures |r| == |a|
  {
    seq(|a|, k requires 0 <= k < |a| => a[k] != b[k])
  }

  /** The `width` low bits of `value`. */
  function Bits(value: nat, width: nat): (b: seq<bool>)
    ensures |b| == width
  {
    if width == 0 then [] else Bits(value / 2, width - 1) + [value % 2 == 1]
  }

  /** Words one after the other. */
  function Flat(words: seq<seq<bool>>): seq<bool> {
    if words == [] then [] else Flat(words[..|words| - 1]) + words[|words| - 1]
  }

  lemma FlatSnoc(words: seq<seq<bool>>, w: seq<bool>)
    ensures Flat(words + [w]) == Flat(words) + w
  {
    assert (words + [w])[..|words|] == words;
  }
}

/** One list inside another. */
module Sublists {
  /** `a` is `b` with some elements left out, order kept. */
  ghost predicate Subsequence<T>(a: seq<T>, b: seq<T>) {
    if b == [] then a == []
    else
      || Subsequence(a, b[..|b| - 1])
      || (a != [] && a[|a| - 1] == b[|b| - 1] && Subsequence(a[..|a| - 1], b[..|b| - 1]))
  }

  lemma SubsequenceGrows<T>(a: seq<T>, b: seq<T>, e: T)
    requires Subsequence(a, b)
    ensures Subsequence(a, b + [e]) && Subsequence(a + [e], b + [e])
  {
    assert (b + [e])[..|b|] == b && (a + [e])[..|a|] == a;
  }

  lemma {:induction false} SubsequenceShorter<T>(a: seq<T>, b: seq<T>)
    requires Subsequence(a, b)
    ensures |a| <= |b|
    ensures |a| == |b| ==> a == b
  {
    if b == [] {
    } else {
      var rest := b[..|b| - 1];
      if Subsequence(a, rest) {
        SubsequenceShorter(a, rest);
      } else {
        SubsequenceShorter(a[..|a| - 1], rest);
      }
    }
  }
}
