/** The 32-bit machine words that masked Python integers stand for: exclusive or, masked
    addition and rotation of integers are the machine's operations on bit vectors. */
module MachineWords {
  import opened Bits
  import opened Blake3Words
  import opened BitVectors

  // ----- Words of any kind -----

  /** Words that have a value and a lowest bit, can be halved, and have a full adder in every place. */
  datatype Machine<!T> = Machine(
    value: T -> nat, lowest: T -> nat, half: T -> T, stays: (T, T, T) -> T, carried: (T, T, T) -> T)

  predicate HalvesAt<T>(m: Machine<T>, x: T) {
    m.value(x) == m.lowest(x) + 2 * m.value(m.half(x)) && m.lowest(x) < 2
  }

  predicate AddsAt<T>(m: Machine<T>, x: T, y: T, c: T) {
    m.lowest(x) + m.lowest(y) + m.lowest(c) == m.lowest(m.stays(x, y, c)) + 2 * m.lowest(m.carried(x, y, c))
  }

  predicate StaysAt<T(==)>(m: Machine<T>, x: T, y: T, c: T) {
    m.half(m.stays(x, y, c)) == m.stays(m.half(x), m.half(y), m.half(c))
  }

  predicate CarriedAt<T(==)>(m: Machine<T>, x: T, y: T, c: T) {
    m.half(m.carried(x, y, c)) == m.carried(m.half(x), m.half(y), m.half(c))
  }

  predicate EmptyAt<T>(m: Machine<T>, x: T, y: T, c: T) {
    m.value(x) == m.value(y) == m.value(c) == 0 ==>
      m.value(m.stays(x, y, c)) == m.value(m.carried(x, y, c)) == 0
  }

  ghost predicate Regular<T(!new)>(m: Machine<T>) {
    && (forall x :: HalvesAt(m, x))
    && (forall x, y, c :: AddsAt(m, x, y, c))
    && (forall x, y, c :: StaysAt(m, x, y, c))
    && (forall x, y, c :: CarriedAt(m, x, y, c))
    && (forall x, y, c :: EmptyAt(m, x, y, c))
  }

  /** Three words sum up to what stays and twice what is carried. */
  lemma {:induction false} AdderAdds<T(!new)>(m: Machine<T>, x: T, y: T, c: T)
    requires Regular(m)
    ensures m.value(x) + m.value(y) + m.value(c) == m.value(m.stays(x, y, c)) + 2 * m.value(m.carried(x, y, c))
    decreases m.value(x) + m.value(y) + m.value(c)
  {
    assert EmptyAt(m, x, y, c);
    if m.value(x) + m.value(y) + m.value(c) > 0 {
      assert HalvesAt(m, x) && HalvesAt(m, y) && HalvesAt(m, c);
      AdderAdds(m, m.half(x), m.half(y), m.half(c));
      assert AddsAt(m, x, y, c) && StaysAt(m, x, y, c) && CarriedAt(m, x, y, c);
      assert HalvesAt(m, m.stays(x, y, c)) && HalvesAt(m, m.carried(x, y, c));
    }
  }

  lemma XorFromHalves(x: nat, y: nat, p: nat, q: nat, r: nat, a: nat, b: nat, s: nat)
    requires x == p + 2 * a && y == q + 2 * b && p < 2 && q < 2 && r < 2 && (r == 1 <==> p != q)
    requires Xor(a, b) == s
    ensures Xor(x, y) == r + 2 * s
  {
    assert x / 2 == a && y / 2 == b;
    XorHalf(x, y);
  }

  /** What stays of two words is their exclusive or. */
  lemma {:induction false} AdderDiffers<T(!new)>(m: Machine<T>, x: T, y: T, zero: T)
    requires Regular(m) && m.value(zero) == 0
    ensures Xor(m.value(x), m.value(y)) == m.value(m.stays(x, y, zero))
    decreases m.value(x) + m.value(y)
  {
    assert EmptyAt(m, x, y, zero);
    if m.value(x) + m.value(y) > 0 {
      var s := m.stays(x, y, zero);
      assert HalvesAt(m, x) && HalvesAt(m, y) && HalvesAt(m, zero) && HalvesAt(m, s);
      AdderDiffers(m, m.half(x), m.half(y), m.half(zero));
      assert AddsAt(m, x, y, zero) && StaysAt(m, x, y, zero);
      XorFromHalves(m.value(x), m.value(y), m.lowest(x), m.lowest(y), m.lowest(s), m.value(m.half(x)),
                    m.value(m.half(y)), m.value(m.half(s)));
    }
  }

  // ----- Bit vectors -----

  const BITS: Machine<bv32> := Machine(Value, LowestBit, Halve, Stays, Carried)

  lemma BitsAdd(x: bv32, y: bv32, c: bv32)
    ensures AddsAt(BITS, x, y, c)
  {
    LowestAdd(x, y, c);
  }

  lemma BitsStay(x: bv32, y: bv32, c: bv32)
    ensures StaysAt(BITS, x, y, c)
  {
    HalfStays(x, y, c);
  }

  lemma BitsCarry(x: bv32, y: bv32, c: bv32)
    ensures CarriedAt(BITS, x, y, c)
  {
    HalfCarried(x, y, c);
  }

  lemma BitsEmpty(x: bv32, y: bv32, c: bv32)
    ensures EmptyAt(BITS, x, y, c)
  {
    ValueBound(x);
    ValueBound(y);
    ValueBound(c);
    ZeroAdder();
  }

  lemma BitsHalve(x: bv32)
    ensures HalvesAt(BITS, x)
  {
    Halves(x);
  }

  lemma BitsRegular()
    ensures Regular(BITS)
  {
    forall x ensures HalvesAt(BITS, x) {
      BitsHalve(x);
    }
    forall x, y, c ensures AddsAt(BITS, x, y, c) {
      BitsAdd(x, y, c);
    }
    forall x, y, c ensures StaysAt(BITS, x, y, c) {
      BitsStay(x, y, c);
    }
    forall x, y, c ensures CarriedAt(BITS, x, y, c) {
      BitsCarry(x, y, c);
    }
    forall x, y, c ensures EmptyAt(BITS, x, y, c) {
      BitsEmpty(x, y, c);
    }
  }

  function WordOf(x: bv32): Word {
    ValueBound(x);
    Value(x)
  }

  /** Exclusive or of integers is exclusive or of machine words. */
  lemma XorIsMachine(x: bv32, y: bv32)
    ensures XorWord(WordOf(x), WordOf(y)) == WordOf(Differing(x, y))
  {
    BitsRegular();
    AdderDiffers(BITS, x, y, 0);
    DifferingStays(x, y);
  }

  lemma Wraps(x: nat, y: nat, c: nat, stays: nat, carried: nat, rest: nat, top: nat)
    requires x + y + c == stays + 2 * carried && c == 2 * rest && carried == rest + top
    requires (top == 0 || top == 0x8000_0000) && stays < 0x1_0000_0000
    ensures stays == (x + y) % 0x1_0000_0000
  {
  }

  function Carries(x: bv32, y: bv32): bv32 { Carried(x, y, Incoming(x, y)) }

  lemma CarriesValue(x: bv32, y: bv32)
    ensures Value(Incoming(x, y)) == 2 * Value(Rest(Carries(x, y)))
  {
    IncomingIs(x, y);
    DoubleValue(Carries(x, y));
  }

  lemma PlusAdds(x: bv32, y: bv32)
    ensures Value(x) + Value(y) + Value(Incoming(x, y)) == Value(Plus(x, y)) + 2 * Value(Carries(x, y))
  {
    BitsRegular();
    AdderAdds(BITS, x, y, Incoming(x, y));
    PlusStays(x, y);
  }

  /** Masked addition of integers is addition of machine words. */
  lemma AddIsMachine(x: bv32, y: bv32)
    ensures AddWord(WordOf(x), WordOf(y)) == WordOf(Plus(x, y))
  {
    var carries := Carries(x, y);
    PlusAdds(x, y);
    CarriesValue(x, y);
    TopValue(carries);
    ValueBound(Plus(x, y));
    Wraps(Value(x), Value(y), Value(Incoming(x, y)), Value(Plus(x, y)), Value(carries), Value(Rest(carries)),
          Value(Top(carries)));
  }

  // ----- Rotation -----

  lemma {:induction false} TopmostBit(x: nat, n: nat, top: bool, i: nat)
    requires x < Pow2(n) && i <= n
    ensures Bit(if top then x + Pow2(n) else x, i) == if i < n then Bit(x, i) else top
    decreases n
  {
    if i == 0 {
    } else {
      assert (x + Pow2(n)) / 2 == x / 2 + Pow2(n - 1);
      TopmostBit(x / 2, n - 1, top, i - 1);
    }
  }

  lemma RotateOnce(v: Word, low: nat, half: nat)
    requires v == low + 2 * half && low < 2
    ensures Rotate(v, 1) == half + 0x8000_0000 * low
  {
    var turned := half + 0x8000_0000 * low;
    WordIsPow2();
    assert Pow2(31) == 0x8000_0000;
    forall i: nat | i < 32 ensures Bit(turned, i) == Bit(Rotate(v, 1), i) {
      RotateBit(v, 1, i);
      TopmostBit(half, 31, low == 1, i);
    }
    SameBits(turned, Rotate(v, 1), 32);
  }

  lemma PlaceAfter(i: nat, n: nat)
    ensures ((i + 1) % 32 + n) % 32 == (i + (n + 1)) % 32
  {
  }

  lemma BitAgain(v: Word, n: nat, i: nat)
    requires 0 < n < 31 && i < 32
    ensures Bit(Rotate(Rotate(v, n), 1), i) == Bit(Rotate(v, n + 1), i)
  {
    RotateBit(Rotate(v, n), 1, i);
    RotateBit(v, n, (i + 1) % 32);
    RotateBit(v, n + 1, i);
    PlaceAfter(i, n);
  }

  lemma RotateAgain(v: Word, n: nat)
    requires 0 < n < 31
    ensures Rotate(Rotate(v, n), 1) == Rotate(v, n + 1)
  {
    WordIsPow2();
    forall i: nat | i < 32 ensures Bit(Rotate(Rotate(v, n), 1), i) == Bit(Rotate(v, n + 1), i) {
      BitAgain(v, n, i);
    }
    SameBits(Rotate(Rotate(v, n), 1), Rotate(v, n + 1), 32);
  }

  lemma TurnIsRotate(x: bv32)
    ensures Rotate(WordOf(x), 1) == WordOf(Turn(x))
  {
    Halves(x);
    TurnValue(x);
    RotateOnce(WordOf(x), LowestBit(x), Value(Halve(x)));
  }

  /** `n` turns of a machine word. */
  function Turns(x: bv32, n: nat): bv32 { if n == 0 then x else Turn(Turns(x, n - 1)) }

  lemma {:induction false} TurnsAreRotate(x: bv32, n: nat)
    requires 0 < n < 32
    ensures Rotate(WordOf(x), n) == WordOf(Turns(x, n))
  {
    TurnIsRotate(Turns(x, n - 1));
    if n > 1 {
      TurnsAreRotate(x, n - 1);
      RotateAgain(WordOf(x), n - 1);
    }
  }

  /** Rotation of integers by the four counts of a mix is that of machine words. */
  lemma RotateIsMachine(x: bv32)
    ensures Rotate(WordOf(x), 7) == WordOf(By7(x)) && Rotate(WordOf(x), 8) == WordOf(By8(x))
    ensures Rotate(WordOf(x), 12) == WordOf(By12(x)) && Rotate(WordOf(x), 16) == WordOf(By16(x))
  {
    TurnsAreRotate(x, 7);
    TurnsAreRotate(x, 8);
    TurnsAreRotate(x, 12);
    TurnsAreRotate(x, 16);
    TurnsAre(x);
  }

  lemma FourMoreTurns(x: bv32, n: nat)
    ensures Turns(x, n + 4) == Turn(Turn(Turn(Turn(Turns(x, n)))))
  {
    assert Turns(x, n + 2) == Turn(Turn(Turns(x, n)));
  }

  lemma TurnsAre(x: bv32)
    ensures Turns(x, 7) == By7(x) && Turns(x, 8) == By8(x) && Turns(x, 12) == By12(x) && Turns(x, 16) == By16(x)
  {
    FourMoreTurns(x, 0);
    FourMoreTurns(x, 4);
    FourMoreTurns(x, 8);
    FourMoreTurns(x, 12);
    FourTurns(x);
    FourTurns(By4(x));
    FourTurns(By8(x));
    FourTurns(By12(x));
    ByEight(x);
    ByTwelve(x);
    BySixteen(x);
    assert Turns(x, 6) == Turn(Turn(Turns(x, 4)));
    ThreeTurns(x);
  }
}
