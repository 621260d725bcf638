/** The rounds of BLAKE3 on machine words, and that the integer rounds of the harness compute
    the same. */
module Blake3Machine {
  import opened Blake3Words
  import opened Blake3Compress

  /** Words that stand for integers, and the operations of a mix on them. */
  datatype Arithmetic<!T> = Arithmetic(
    word: T -> Word, plus: (T, T) -> T, differ: (T, T) -> T,
    by16: T -> T, by12: T -> T, by8: T -> T, by7: T -> T)

  ghost predicate Adds<T(!new)>(m: Arithmetic<T>) {
    forall x, y :: m.word(m.plus(x, y)) == AddWord(m.word(x), m.word(y))
  }

  ghost predicate Differs<T(!new)>(m: Arithmetic<T>, ops: WordOps) {
    forall x, y :: m.word(m.differ(x, y)) == ops.xor(m.word(x), m.word(y))
  }

  ghost predicate Rotates<T(!new)>(m: Arithmetic<T>, ops: WordOps, turn: T -> T, count: nat) {
    forall x :: m.word(turn(x)) == ops.rotate(m.word(x), count)
  }

  /** The operations are those of the integers. */
  ghost predicate Exact<T(!new)>(m: Arithmetic<T>, ops: WordOps) {
    && Adds(m) && Differs(m, ops) && Rotates(m, ops, m.by16, 16) && Rotates(m, ops, m.by12, 12)
    && Rotates(m, ops, m.by8, 8) && Rotates(m, ops, m.by7, 7)
  }

  /** Four words: a row of the state, or what one mix works on. */
  datatype Four<T> = Four(w: T, x: T, y: T, z: T)

  /** A state, or a message, in rows of four. */
  datatype Rows<T> = Rows(a: Four<T>, b: Four<T>, c: Four<T>, d: Four<T>)

  function HalfMix<T>(m: Arithmetic<T>, q: Four<T>, word: T, f: T -> T, g: T -> T): Four<T> {
    var a := m.plus(m.plus(q.w, q.x), word);
    var d := f(m.differ(q.z, a));
    var c := m.plus(q.y, d);
    Four(a, g(m.differ(q.x, c)), c, d)
  }

  function MachineMix<T>(m: Arithmetic<T>, q: Four<T>, first: T, second: T): Four<T> {
    HalfMix(m, HalfMix(m, q, first, m.by16, m.by12), second, m.by8, m.by7)
  }

  function MachineColumns<T>(m: Arithmetic<T>, s: Rows<T>, k: Rows<T>): Rows<T> {
    var p := MachineMix(m, Four(s.a.w, s.b.w, s.c.w, s.d.w), k.a.w, k.a.x);
    var q := MachineMix(m, Four(s.a.x, s.b.x, s.c.x, s.d.x), k.a.y, k.a.z);
    var r := MachineMix(m, Four(s.a.y, s.b.y, s.c.y, s.d.y), k.b.w, k.b.x);
    var t := MachineMix(m, Four(s.a.z, s.b.z, s.c.z, s.d.z), k.b.y, k.b.z);
    Rows(Four(p.w, q.w, r.w, t.w), Four(p.x, q.x, r.x, t.x), Four(p.y, q.y, r.y, t.y), Four(p.z, q.z, r.z, t.z))
  }

  function MachineDiagonals<T>(m: Arithmetic<T>, s: Rows<T>, k: Rows<T>): Rows<T> {
    var p := MachineMix(m, Four(s.a.w, s.b.x, s.c.y, s.d.z), k.c.w, k.c.x);
    var q := MachineMix(m, Four(s.a.x, s.b.y, s.c.z, s.d.w), k.c.y, k.c.z);
    var r := MachineMix(m, Four(s.a.y, s.b.z, s.c.w, s.d.x), k.d.w, k.d.x);
    var t := MachineMix(m, Four(s.a.z, s.b.w, s.c.x, s.d.y), k.d.y, k.d.z);
    Rows(Four(p.w, q.w, r.w, t.w), Four(t.x, p.x, q.x, r.x), Four(r.y, t.y, p.y, q.y), Four(q.z, r.z, t.z, p.z))
  }

  function MachineRound<T>(m: Arithmetic<T>, s: Rows<T>, k: Rows<T>): Rows<T> {
    MachineDiagonals(m, MachineColumns(m, s, k), k)
  }

  // ----- Agreement with the integer rounds -----

  function QuadOf<T>(m: Arithmetic<T>, q: Four<T>): Quad { Quad(m.word(q.w), m.word(q.x), m.word(q.y), m.word(q.z)) }

  function Listed<T>(m: Arithmetic<T>, s: Rows<T>): State {
    [m.word(s.a.w), m.word(s.a.x), m.word(s.a.y), m.word(s.a.z),
     m.word(s.b.w), m.word(s.b.x), m.word(s.b.y), m.word(s.b.z),
     m.word(s.c.w), m.word(s.c.x), m.word(s.c.y), m.word(s.c.z),
     m.word(s.d.w), m.word(s.d.x), m.word(s.d.y), m.word(s.d.z)]
  }

  lemma Wrapped(x: int, k: int)
    ensures (x + 0x1_0000_0000 * k) % 0x1_0000_0000 == x % 0x1_0000_0000
  {
  }

  lemma AddThree(a: int, b: int, c: int)
    ensures AddWord(a, b + c) == AddWord(AddWord(a, b), c)
  {
    Wrapped(AddWord(a, b) + c, (a + b) / 0x1_0000_0000);
  }

  lemma AddsThree<T(!new)>(m: Arithmetic<T>, x: T, y: T, z: T)
    requires Adds(m)
    ensures m.word(m.plus(m.plus(x, y), z)) == AddWord(m.word(x), m.word(y) + m.word(z))
  {
    AddsTwo(m, x, y);
    AddsTwo(m, m.plus(x, y), z);
    AddThree(m.word(x), m.word(y), m.word(z));
  }

  lemma AddsTwo<T(!new)>(m: Arithmetic<T>, x: T, y: T)
    requires Adds(m)
    ensures m.word(m.plus(x, y)) == AddWord(m.word(x), m.word(y))
  {
  }

  lemma TurnsDifference<T(!new)>(m: Arithmetic<T>, ops: WordOps, turn: T -> T, count: nat, x: T, y: T)
    requires Differs(m, ops) && Rotates(m, ops, turn, count)
    ensures m.word(turn(m.differ(x, y))) == ops.rotate(ops.xor(m.word(x), m.word(y)), count)
  {
  }

  lemma HalfIs(ops: WordOps, q: Quad, word: Word, r1: nat, r2: nat, a: Word, b: Word, c: Word, d: Word)
    requires a == AddWord(q.a, q.b + word) && d == ops.rotate(ops.xor(q.d, a), r1)
    requires c == AddWord(q.c, d) && b == ops.rotate(ops.xor(q.b, c), r2)
    ensures Half(ops, q, word, r1, r2) == Quad(a, b, c, d)
  {
  }

  lemma HalfWords<T(!new)>(m: Arithmetic<T>, ops: WordOps, q: Four<T>, word: T, f: T -> T, r1: nat, g: T -> T, r2: nat,
                           r: Four<T>)
    requires Adds(m) && Differs(m, ops) && Rotates(m, ops, f, r1) && Rotates(m, ops, g, r2)
    requires r == HalfMix(m, q, word, f, g)
    ensures m.word(r.w) == AddWord(m.word(q.w), m.word(q.x) + m.word(word))
    ensures m.word(r.z) == ops.rotate(ops.xor(m.word(q.z), m.word(r.w)), r1)
    ensures m.word(r.y) == AddWord(m.word(q.y), m.word(r.z))
    ensures m.word(r.x) == ops.rotate(ops.xor(m.word(q.x), m.word(r.y)), r2)
  {
    AddsThree(m, q.w, q.x, word);
    TurnsDifference(m, ops, f, r1, q.z, r.w);
    AddsTwo(m, q.y, r.z);
    TurnsDifference(m, ops, g, r2, q.x, r.y);
  }

  lemma HalfExact<T(!new)>(m: Arithmetic<T>, ops: WordOps, q: Four<T>, word: T, f: T -> T, r1: nat, g: T -> T, r2: nat)
    requires Adds(m) && Differs(m, ops) && Rotates(m, ops, f, r1) && Rotates(m, ops, g, r2)
    ensures Half(ops, QuadOf(m, q), m.word(word), r1, r2) == QuadOf(m, HalfMix(m, q, word, f, g))
  {
    var r := HalfMix(m, q, word, f, g);
    HalfWords(m, ops, q, word, f, r1, g, r2, r);
    HalfIs(ops, QuadOf(m, q), m.word(word), r1, r2, m.word(r.w), m.word(r.x), m.word(r.y), m.word(r.z));
  }

  lemma MixExact<T(!new)>(m: Arithmetic<T>, ops: WordOps, q: Four<T>, first: T, second: T)
    requires Exact(m, ops)
    ensures Quarter(ops, QuadOf(m, q), m.word(first), m.word(second)) == QuadOf(m, MachineMix(m, q, first, second))
  {
    HalfExact(m, ops, q, first, m.by16, 16, m.by12, 12);
    HalfExact(m, ops, HalfMix(m, q, first, m.by16, m.by12), second, m.by8, 8, m.by7, 7);
  }

  lemma ColumnsExact<T(!new)>(m: Arithmetic<T>, ops: WordOps, s: Rows<T>, k: Rows<T>)
    requires Exact(m, ops)
    ensures MixedColumns(ops, Listed(m, s), Listed(m, k)) == Listed(m, MachineColumns(m, s, k))
  {
    MixExact(m, ops, Four(s.a.w, s.b.w, s.c.w, s.d.w), k.a.w, k.a.x);
    MixExact(m, ops, Four(s.a.x, s.b.x, s.c.x, s.d.x), k.a.y, k.a.z);
    MixExact(m, ops, Four(s.a.y, s.b.y, s.c.y, s.d.y), k.b.w, k.b.x);
    MixExact(m, ops, Four(s.a.z, s.b.z, s.c.z, s.d.z), k.b.y, k.b.z);
  }

  lemma DiagonalsExact<T(!new)>(m: Arithmetic<T>, ops: WordOps, s: Rows<T>, k: Rows<T>)
    requires Exact(m, ops)
    ensures MixedDiagonals(ops, Listed(m, s), Listed(m, k)) == Listed(m, MachineDiagonals(m, s, k))
  {
    MixExact(m, ops, Four(s.a.w, s.b.x, s.c.y, s.d.z), k.c.w, k.c.x);
    MixExact(m, ops, Four(s.a.x, s.b.y, s.c.z, s.d.w), k.c.y, k.c.z);
    MixExact(m, ops, Four(s.a.y, s.b.z, s.c.w, s.d.x), k.d.w, k.d.x);
    MixExact(m, ops, Four(s.a.z, s.b.w, s.c.x, s.d.y), k.d.y, k.d.z);
  }

  /** An integer round computes what a machine's round does. */
  lemma RoundExact<T(!new)>(m: Arithmetic<T>, ops: WordOps, s: Rows<T>, k: Rows<T>)
    requires Exact(m, ops)
    ensures Round(ops, Listed(m, s), Listed(m, k)) == Listed(m, MachineRound(m, s, k))
  {
    RoundWrittenOut(ops, Listed(m, s), Listed(m, k));
    ColumnsExact(m, ops, s, k);
    DiagonalsExact(m, ops, MachineColumns(m, s, k), k);
  }
}
