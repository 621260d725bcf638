/** Facts about single operations on 32-bit vectors, each decided bit by bit. */
module BitVectors {

  function Value(x: bv32): nat { x as nat }

  function Halve(x: bv32): bv32 { x >> 1 }

  /** A full adder in every place: what stays there, and what is carried to the next. */
  function Stays(x: bv32, y: bv32, c: bv32): bv32 { x ^ y ^ c }

  function Carried(x: bv32, y: bv32, c: bv32): bv32 { (x & y) | (c & (x ^ y)) }

  // ----- Values -----

  lemma ValueBound(x: bv32)
    ensures Value(x) < 0x1_0000_0000
    ensures Value(x) == 0 <==> x == 0
  {
  }

  lemma ZeroAdder()
    ensures Stays(0, 0, 0) == 0 && Carried(0, 0, 0) == 0
  {
  }

  function Lowest(x: bv32): bv32 { x & 1 }

  function LowestBit(x: bv32): nat { Value(Lowest(x)) }

  /** The rotation by one, and back. */
  function Turn(x: bv32): bv32 { x.RotateRight(1) }

  function Return(x: bv32): bv32 { x.RotateRight(31) }

  function Highest(x: bv32): bv32 { x >> 31 }

  function Rest(x: bv32): bv32 { x & 0x7FFF_FFFF }

  lemma ReturnValue(x: bv32)
    ensures Value(Return(x)) == Value(Highest(x)) + 2 * Value(Rest(x))
  {
  }

  lemma TurnAndReturn(x: bv32)
    ensures Return(Turn(x)) == x && Highest(Turn(x)) == Lowest(x) && Rest(Turn(x)) == Halve(x)
  {
  }

  lemma LowestValue(x: bv32)
    ensures LowestBit(x) < 2
  {
  }

  lemma Halves(x: bv32)
    ensures Value(x) == LowestBit(x) + 2 * Value(Halve(x)) && LowestBit(x) < 2
  {
    TurnAndReturn(x);
    ReturnValue(Turn(x));
    LowestValue(x);
  }

  // ----- Adding -----

  lemma LowestAdd(x: bv32, y: bv32, c: bv32)
    ensures LowestBit(x) + LowestBit(y) + LowestBit(c) ==
            LowestBit(Stays(x, y, c)) + 2 * LowestBit(Carried(x, y, c))
  {
  }

  lemma HalfStays(x: bv32, y: bv32, c: bv32)
    ensures Halve(Stays(x, y, c)) == Stays(Halve(x), Halve(y), Halve(c))
  {
  }

  lemma HalfCarried(x: bv32, y: bv32, c: bv32)
    ensures Halve(Carried(x, y, c)) == Carried(Halve(x), Halve(y), Halve(c))
  {
  }

  function Double(x: bv32): bv32 { x << 1 }

  lemma DoubleValue(x: bv32)
    ensures Value(Double(x)) == 2 * Value(Rest(x))
  {
  }

  function Top(x: bv32): bv32 { x & 0x8000_0000 }

  lemma TopValue(x: bv32)
    ensures Value(x) == Value(Rest(x)) + Value(Top(x)) && (Value(Top(x)) == 0 || Value(Top(x)) == 0x8000_0000)
  {
  }

  /** What comes into a sum from below, in every place. */
  function Incoming(x: bv32, y: bv32): bv32 { (x + y) ^ x ^ y }

  function Doubled(x: bv32, y: bv32, c: bv32): bv32 { ((x & y) | (c & (x ^ y))) << 1 }

  predicate Agree(x: bv32, y: bv32, mask: bv32) { x & mask == y & mask }

  lemma ComesInFirst(x: bv32, y: bv32)
    ensures Agree(Incoming(x, y), Doubled(x, y, Incoming(x, y)), 0xFF)
  {
  }

  lemma ComesInSecond(x: bv32, y: bv32)
    ensures Agree(Incoming(x, y), Doubled(x, y, Incoming(x, y)), 0xFF00)
  {
  }

  lemma ComesInThird(x: bv32, y: bv32)
    ensures Agree(Incoming(x, y), Doubled(x, y, Incoming(x, y)), 0xFF_0000)
  {
  }

  lemma ComesInFourth(x: bv32, y: bv32)
    ensures Agree(Incoming(x, y), Doubled(x, y, Incoming(x, y)), 0xFF00_0000)
  {
  }

  lemma SamePlaces(x: bv32, y: bv32)
    requires Agree(x, y, 0xFF) && Agree(x, y, 0xFF00) && Agree(x, y, 0xFF_0000) && Agree(x, y, 0xFF00_0000)
    ensures x == y
  {
  }

  lemma DoubledIs(x: bv32, y: bv32, c: bv32)
    ensures Doubled(x, y, c) == Double(Carried(x, y, c))
  {
  }

  lemma IncomingIs(x: bv32, y: bv32)
    ensures Incoming(x, y) == Double(Carried(x, y, Incoming(x, y)))
  {
    ComesInFirst(x, y);
    ComesInSecond(x, y);
    ComesInThird(x, y);
    ComesInFourth(x, y);
    SamePlaces(Incoming(x, y), Doubled(x, y, Incoming(x, y)));
    DoubledIs(x, y, Incoming(x, y));
  }

  function Plus(x: bv32, y: bv32): bv32 { x + y }

  lemma PlusStays(x: bv32, y: bv32)
    ensures Plus(x, y) == Stays(x, y, Incoming(x, y))
  {
  }

  function Differing(x: bv32, y: bv32): bv32 { x ^ y }

  lemma DifferingStays(x: bv32, y: bv32)
    ensures Differing(x, y) == Stays(x, y, 0)
  {
  }

  // ----- Rotating -----

  lemma TurnValue(x: bv32)
    ensures Value(Turn(x)) == Value(Halve(x)) + 0x8000_0000 * LowestBit(x)
  {
  }

  function By4(x: bv32): bv32 { x.RotateRight(4) }

  function By7(x: bv32): bv32 { x.RotateRight(7) }

  function By8(x: bv32): bv32 { x.RotateRight(8) }

  function By12(x: bv32): bv32 { x.RotateRight(12) }

  function By16(x: bv32): bv32 { x.RotateRight(16) }

  lemma FourTurns(x: bv32)
    ensures Turn(Turn(Turn(Turn(x)))) == By4(x)
  {
  }

  lemma ThreeTurns(x: bv32)
    ensures Turn(Turn(Turn(By4(x)))) == By7(x)
  {
  }

  lemma ByEight(x: bv32)
    ensures By4(By4(x)) == By8(x)
  {
  }

  lemma ByTwelve(x: bv32)
    ensures By4(By8(x)) == By12(x)
  {
  }

  lemma BySixteen(x: bv32)
    ensures By4(By12(x)) == By16(x)
  {
  }
}
