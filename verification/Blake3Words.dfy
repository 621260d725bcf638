/** The words and the quarter round of BLAKE3 as the onboarding harness computes it, on unbounded
    integers with masks, against sections 2.2 and 2.4 of the BLAKE3 paper. */
module Blake3Words {
  import opened Bits

  const MASK: nat := 0xFFFF_FFFF

  type Word = x: int | 0 <= x < 0x1_0000_0000

  type State = s: seq<Word> | |s| == 16 witness seq(16, _ => 0)

  type ChainingValue = s: seq<Word> | |s| == 8 witness seq(8, _ => 0)

  const IV: ChainingValue := [
    0x6A09E667, 0xBB67AE85, 0x3C6EF372, 0xA54FF53A,
    0x510E527F, 0x9B05688C, 0x1F83D9AB, 0x5BE0CD19
  ]

  const PERMUTATION: seq<nat> := [2, 6, 3, 10, 7, 0, 4, 13, 1, 11, 12, 5, 9, 14, 15, 8]

  // ----- Words -----

  lemma WordIsPow2()
    ensures Pow2(32) == 0x1_0000_0000
  {
    assert Pow2(8) == 0x100;
    assert Pow2(16) == 0x1_0000;
    assert Pow2(24) == 0x100_0000;
  }

  /** `x & 0xFFFF_FFFF` is reduction modulo 2^32. */
  lemma MaskWord(x: nat)
    ensures And(x, MASK) == x % 0x1_0000_0000
  {
    WordIsPow2();
    MaskIsModulo(x, 32);
  }

  /** `_rotate_right_32`, on a Python integer. */
  function RotateRight32(value: nat, count: nat): nat
    requires count <= 32
  {
    And(Or(Shr(value, count), Shl(value, 32 - count)), MASK)
  }

  lemma MaskBit(i: nat)
    ensures Bit(MASK, i) <==> i < 32
  {
    if i >= 32 {
      WordIsPow2();
      HighBitClear(MASK, 32, i);
    } else {
      OnesBit(32, i);
      WordIsPow2();
    }
  }

  lemma {:induction false} OnesBit(n: nat, i: nat)
    requires i < n
    ensures Bit(Pow2(n) - 1, i)
    decreases i
  {
    assert (Pow2(n) - 1) % 2 == 1 && (Pow2(n) - 1) / 2 == Pow2(n - 1) - 1;
    if i > 0 {
      OnesBit(n - 1, i - 1);
    }
  }

  /** The masked shifts rotate the 32 bits: bit i of the result is bit i + count. */
  lemma RotateBit(value: Word, count: nat, i: nat)
    requires 0 < count < 32 && i < 32
    ensures Bit(RotateRight32(value, count), i) == Bit(value, (i + count) % 32)
  {
    var right, left := Shr(value, count), Shl(value, 32 - count);
    AndBit(Or(right, left), MASK, i);
    MaskBit(i);
    OrBit(right, left, i);
    ShrBit(value, count, i);
    ShlBit(value, 32 - count, i);
    if i + count >= 32 {
      WordIsPow2();
      HighBitClear(value, 32, i + count);
    }
  }

  lemma RotateInRange(value: nat, count: nat)
    requires count <= 32
    ensures RotateRight32(value, count) < 0x1_0000_0000
  {
    MaskWord(Or(Shr(value, count), Shl(value, 32 - count)));
  }

  function Rotate(value: Word, count: nat): Word
    requires 0 < count < 32
  {
    RotateInRange(value, count);
    RotateRight32(value, count)
  }

  lemma RotateIndex(i: nat, count: nat)
    requires i < 32 && 0 < count < 32
    ensures ((i + (32 - count)) % 32 + count) % 32 == i
  {
  }

  lemma RotateUndo(value: Word, count: nat)
    requires 0 < count < 32
    ensures Rotate(Rotate(value, count), 32 - count) == value
  {
    var back := Rotate(Rotate(value, count), 32 - count);
    WordIsPow2();
    forall i: nat | i < 32 ensures Bit(back, i) == Bit(value, i) {
      var j := (i + (32 - count)) % 32;
      RotateBit(Rotate(value, count), 32 - count, i);
      RotateBit(value, count, j);
      RotateIndex(i, count);
    }
    SameBits(back, value, 32);
  }

  function XorWord(a: Word, b: Word): Word {
    WordIsPow2();
    XorBelow(a, b, 32);
    Xor(a, b)
  }

  lemma XorWordUndo(a: Word, b: Word)
    ensures XorWord(XorWord(a, b), b) == a
  {
    XorCancels(a, b);
  }

  function AddWord(a: int, b: int): Word {
    (a + b) % 0x1_0000_0000
  }

  function SubWord(a: int, b: int): Word {
    (a - b) % 0x1_0000_0000
  }

  lemma WrapsBack(a: Word, k: int)
    ensures (a + 0x1_0000_0000 * k) % 0x1_0000_0000 == a
  {
  }

  lemma AddWordUndo(a: Word, b: int)
    ensures SubWord(AddWord(a, b), b) == a
    ensures AddWord(SubWord(a, b), b) == a
  {
    var up, down := (a + b) / 0x1_0000_0000, (a - b) / 0x1_0000_0000;
    assert AddWord(a, b) - b == a + 0x1_0000_0000 * -up;
    WrapsBack(a, -up);
    assert SubWord(a, b) + b == a + 0x1_0000_0000 * -down;
    WrapsBack(a, -down);
  }

  // ----- The quarter round -----

  /** The bitwise operations mixing is built from. Everything above the word level
      is stated for any lawful triple and used at `PYTHON`. */
  datatype WordOps = WordOps(mask: nat -> Word, xor: (Word, Word) -> Word, rotate: (Word, nat) -> Word)

  /** What mixing needs of them: masking reduces modulo 2^32, and exclusive or and
      rotation can be undone. */
  ghost predicate Lawful(ops: WordOps) {
    && (forall x: nat :: ops.mask(x) == x % 0x1_0000_0000)
    && (forall a, b :: ops.xor(ops.xor(a, b), b) == a)
    && (forall v, r: nat :: 0 < r < 32 ==> ops.rotate(ops.rotate(v, r), 32 - r) == v)
  }

  function RotateAny(value: Word, count: nat): Word {
    if 0 < count < 32 then Rotate(value, count) else value
  }

  function MaskTo(x: nat): Word {
    MaskWord(x);
    And(x, MASK)
  }

  const PYTHON: WordOps := WordOps(MaskTo, XorWord, RotateAny)

  /** The masked integer operations of the source are lawful. */
  lemma PythonLawful()
    ensures Lawful(PYTHON)
  {
    forall x: nat ensures PYTHON.mask(x) == x % 0x1_0000_0000 {
      MaskWord(x);
    }
    forall a, b ensures PYTHON.xor(PYTHON.xor(a, b), b) == a {
      XorWordUndo(a, b);
    }
    forall v, r: nat | 0 < r < 32 ensures PYTHON.rotate(PYTHON.rotate(v, r), 32 - r) == v {
      RotateUndo(v, r);
    }
  }

  datatype Quad = Quad(a: Word, b: Word, c: Word, d: Word)

  function Half(ops: WordOps, q: Quad, m: Word, r1: nat, r2: nat): Quad {
    var a := AddWord(q.a, q.b + m);
    var d := ops.rotate(ops.xor(q.d, a), r1);
    var c := AddWord(q.c, d);
    var b := ops.rotate(ops.xor(q.b, c), r2);
    Quad(a, b, c, d)
  }

  function Unhalf(ops: WordOps, q: Quad, m: Word, r1: nat, r2: nat): Quad
    requires r1 < 32 && r2 < 32
  {
    var b := ops.xor(ops.rotate(q.b, 32 - r2), q.c);
    var c := SubWord(q.c, q.d);
    var d := ops.xor(ops.rotate(q.d, 32 - r1), q.a);
    var a := SubWord(q.a, b + m);
    Quad(a, b, c, d)
  }

  lemma UnhalfHalf(ops: WordOps, q: Quad, m: Word, r1: nat, r2: nat)
    requires Lawful(ops) && 0 < r1 < 32 && 0 < r2 < 32
    ensures Unhalf(ops, Half(ops, q, m, r1, r2), m, r1, r2) == q
  {
    AddWordUndo(q.c, Half(ops, q, m, r1, r2).d);
    AddWordUndo(q.a, q.b + m);
  }

  lemma HalfUnhalf(ops: WordOps, q: Quad, m: Word, r1: nat, r2: nat)
    requires Lawful(ops) && 0 < r1 < 32 && 0 < r2 < 32
    ensures Half(ops, Unhalf(ops, q, m, r1, r2), m, r1, r2) == q
  {
    AddWordUndo(q.a, Unhalf(ops, q, m, r1, r2).b + m);
    AddWordUndo(q.c, q.d);
    assert ops.rotate(ops.rotate(q.d, 32 - r1), 32 - (32 - r1)) == q.d;
    assert ops.rotate(ops.rotate(q.b, 32 - r2), 32 - (32 - r2)) == q.b;
  }

  function Quarter(ops: WordOps, q: Quad, first: Word, second: Word): Quad {
    Half(ops, Half(ops, q, first, 16, 12), second, 8, 7)
  }

  function Unquarter(ops: WordOps, q: Quad, first: Word, second: Word): Quad {
    Unhalf(ops, Unhalf(ops, q, second, 8, 7), first, 16, 12)
  }

  lemma QuarterInverse(ops: WordOps, q: Quad, first: Word, second: Word)
    requires Lawful(ops)
    ensures Unquarter(ops, Quarter(ops, q, first, second), first, second) == q
    ensures Quarter(ops, Unquarter(ops, q, first, second), first, second) == q
  {
    UnhalfHalf(ops, q, first, 16, 12);
    UnhalfHalf(ops, Half(ops, q, first, 16, 12), second, 8, 7);
    HalfUnhalf(ops, q, second, 8, 7);
    HalfUnhalf(ops, Unhalf(ops, q, second, 8, 7), first, 16, 12);
  }
}
