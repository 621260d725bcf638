/** The seven rounds of BLAKE3 and its compression function (section 2.2 of the
    BLAKE3 paper), and the in-place loops that compute them. */
module Blake3Compress {
  import opened Blake3Words

  /** The four state positions one mix works on. */
  datatype Lane = Lane(a: nat, b: nat, c: nat, d: nat)

  predicate IsLane(l: Lane) {
    && l.a < 16 && l.b < 16 && l.c < 16 && l.d < 16
    && l.a != l.b && l.a != l.c && l.a != l.d && l.b != l.c && l.b != l.d && l.c != l.d
  }

  predicate Apart(l: Lane, k: Lane) {
    && l.a !in [k.a, k.b, k.c, k.d] && l.b !in [k.a, k.b, k.c, k.d]
    && l.c !in [k.a, k.b, k.c, k.d] && l.d !in [k.a, k.b, k.c, k.d]
  }

  /** The eight mixes of a round: four columns, then four diagonals. */
  function RoundLane(i: nat): (l: Lane)
    requires i < 8
    ensures IsLane(l)
  {
    match i
    case 0 => Lane(0, 4, 8, 12)
    case 1 => Lane(1, 5, 9, 13)
    case 2 => Lane(2, 6, 10, 14)
    case 3 => Lane(3, 7, 11, 15)
    case 4 => Lane(0, 5, 10, 15)
    case 5 => Lane(1, 6, 11, 12)
    case 6 => Lane(2, 7, 8, 13)
    case _ => Lane(3, 4, 9, 14)
  }

  function Get(s: State, l: Lane): Quad
    requires IsLane(l)
  {
    Quad(s[l.a], s[l.b], s[l.c], s[l.d])
  }

  function Put(s: State, l: Lane, q: Quad): State
    requires IsLane(l)
  {
    s[l.a := q.a][l.b := q.b][l.c := q.c][l.d := q.d]
  }

  lemma PutGet(s: State, l: Lane, q: Quad, r: Quad)
    requires IsLane(l)
    ensures Get(Put(s, l, q), l) == q
    ensures Put(s, l, Get(s, l)) == s
    ensures Put(Put(s, l, q), l, r) == Put(s, l, r)
  {
  }

  lemma PutsCommute(s: State, l: Lane, q: Quad, k: Lane, r: Quad)
    requires IsLane(l) && IsLane(k) && Apart(l, k)
    ensures Put(Put(s, l, q), k, r) == Put(Put(s, k, r), l, q)
    ensures Get(Put(s, l, q), k) == Get(s, k)
    ensures Get(Put(s, k, r), l) == Get(s, l)
  {
  }

  function Mix(ops: WordOps, s: State, l: Lane, first: Word, second: Word): State
    requires IsLane(l)
  {
    Put(s, l, Quarter(ops, Get(s, l), first, second))
  }

  function Unmix(ops: WordOps, s: State, l: Lane, first: Word, second: Word): State
    requires IsLane(l)
  {
    Put(s, l, Unquarter(ops, Get(s, l), first, second))
  }

  lemma MixInverse(ops: WordOps, s: State, l: Lane, first: Word, second: Word)
    requires Lawful(ops)
    requires IsLane(l)
    ensures Unmix(ops, Mix(ops, s, l, first, second), l, first, second) == s
    ensures Mix(ops, Unmix(ops, s, l, first, second), l, first, second) == s
  {
    var q := Get(s, l);
    var up, down := Quarter(ops, q, first, second), Unquarter(ops, q, first, second);
    QuarterInverse(ops, q, first, second);
    PutGet(s, l, up, q);
    PutGet(s, l, down, q);
  }

  /** Mixes on disjoint lanes commute; in particular the four columns of a round
      do, and so do the four diagonals. */
  lemma MixesCommute(ops: WordOps, s: State, i: nat, j: nat, m1: Word, m2: Word, n1: Word, n2: Word)
    requires i != j && ((i < 4 && j < 4) || (4 <= i < 8 && 4 <= j < 8))
    ensures Mix(ops, Mix(ops, s, RoundLane(i), m1, m2), RoundLane(j), n1, n2)
         == Mix(ops, Mix(ops, s, RoundLane(j), n1, n2), RoundLane(i), m1, m2)
  {
    var l, k := RoundLane(i), RoundLane(j);
    assert Apart(l, k);
    PutsCommute(s, l, Quarter(ops, Get(s, l), m1, m2), k, Quarter(ops, Get(s, k), n1, n2));
  }

  // ----- Undoing repeated steps -----

  /** Steps 0 to n - 1 in order. */
  function Fold<S>(n: nat, step: (S, nat) -> S, s: S): S
    decreases n, s
  {
    if n == 0 then s else step(Fold(n - 1, step, s), n - 1)
  }

  function Unfold<S>(n: nat, back: (S, nat) -> S, s: S): S
    decreases n, s
  {
    if n == 0 then s else Unfold(n - 1, back, back(s, n - 1))
  }

  lemma {:induction false} FoldInverse<S(!new)>(n: nat, step: (S, nat) -> S, back: (S, nat) -> S, s: S)
    requires forall s, i :: back(step(s, i), i) == s
    requires forall s, i :: step(back(s, i), i) == s
    ensures Unfold(n, back, Fold(n, step, s)) == s
    ensures Fold(n, step, Unfold(n, back, s)) == s
    decreases n
  {
    if n > 0 {
      FoldInverse(n - 1, step, back, s);
      FoldInverse(n - 1, step, back, back(s, n - 1));
    }
  }

  /** `n` applications under a key that changes from one to the next. */
  function Iterate<S, M>(n: nat, f: (S, M) -> S, next: M -> M, s: S, m: M): S
    decreases n, s, m
  {
    if n == 0 then s else Iterate(n - 1, f, next, f(s, m), next(m))
  }

  function Unwind<S, M>(n: nat, g: (S, M) -> S, next: M -> M, s: S, m: M): S
    decreases n, s, m
  {
    if n == 0 then s else g(Unwind(n - 1, g, next, s, next(m)), m)
  }

  lemma {:induction false} IterateInverse<S(!new), M(!new)>(
    n: nat, f: (S, M) -> S, g: (S, M) -> S, next: M -> M, s: S, m: M)
    requires forall s, m :: g(f(s, m), m) == s
    requires forall s, m :: f(g(s, m), m) == s
    ensures Unwind(n, g, next, Iterate(n, f, next, s, m), m) == s
    ensures Iterate(n, f, next, Unwind(n, g, next, s, m), m) == s
    decreases n
  {
    if n > 0 {
      IterateInverse(n - 1, f, g, next, f(s, m), next(m));
      IterateInverse(n - 1, f, g, next, s, next(m));
    }
  }

  /** Step i under the i-th key. */
  function Keyed<S, M>(n: nat, f: (S, M) -> S, keys: nat -> M, s: S): S
    decreases n
  {
    if n == 0 then s else f(Keyed(n - 1, f, keys, s), keys(n - 1))
  }

  lemma {:induction false} KeyedFollows<S, M>(r: nat, n: nat, limit: nat, f: (S, M) -> S, next: M -> M, keys: nat -> M,
                                              s: S)
    requires r + n <= limit
    requires forall i: nat :: i + 1 < limit ==> next(keys(i)) == keys(i + 1)
    ensures Iterate(n, f, next, Keyed(r, f, keys, s), keys(r)) == Keyed(r + n, f, keys, s)
    decreases n
  {
    if n > 1 {
      KeyedFollows(r + 1, n - 1, limit, f, next, keys, s);
    }
  }

  // ----- Rounds -----

  /** Mix number `i` of a round consumes words 2i and 2i + 1 of the message. */
  function MixAt(ops: WordOps, m: State, s: State, i: nat): State {
    if i < 8 then Mix(ops, s, RoundLane(i), m[2 * i], m[2 * i + 1]) else s
  }

  function UnmixAt(ops: WordOps, m: State, s: State, i: nat): State {
    if i < 8 then Unmix(ops, s, RoundLane(i), m[2 * i], m[2 * i + 1]) else s
  }

  function MixWith(ops: WordOps, m: State): (State, nat) -> State {
    (s: State, i: nat) => MixAt(ops, m, s, i)
  }

  function UnmixWith(ops: WordOps, m: State): (State, nat) -> State {
    (s: State, i: nat) => UnmixAt(ops, m, s, i)
  }

  /** The first `n` mixes of a round. */
  function Mixes(ops: WordOps, s: State, m: State, n: nat): State {
    Fold(n, MixWith(ops, m), s)
  }

  function Unmixes(ops: WordOps, s: State, m: State, n: nat): State {
    Unfold(n, UnmixWith(ops, m), s)
  }

  lemma MixAtInverse(ops: WordOps, m: State, s: State, i: nat)
    requires Lawful(ops)
    ensures UnmixAt(ops, m, MixAt(ops, m, s, i), i) == s
    ensures MixAt(ops, m, UnmixAt(ops, m, s, i), i) == s
  {
    if i < 8 {
      MixInverse(ops, s, RoundLane(i), m[2 * i], m[2 * i + 1]);
    }
  }

  lemma MixesInverse(ops: WordOps, s: State, m: State, n: nat)
    requires Lawful(ops)
    ensures Unmixes(ops, Mixes(ops, s, m, n), m, n) == s
    ensures Mixes(ops, Unmixes(ops, s, m, n), m, n) == s
  {
    forall s: State, i: nat
      ensures UnmixWith(ops, m)(MixWith(ops, m)(s, i), i) == s
      ensures MixWith(ops, m)(UnmixWith(ops, m)(s, i), i) == s
    {
      MixAtInverse(ops, m, s, i);
    }
    FoldInverse(n, MixWith(ops, m), UnmixWith(ops, m), s);
  }

  /** A whole round consumes the message two words at a time. */
  function Round(ops: WordOps, s: State, m: State): State {
    Mixes(ops, s, m, 8)
  }

  function Unround(ops: WordOps, s: State, m: State): State {
    Unmixes(ops, s, m, 8)
  }

  function RoundWith(ops: WordOps): (State, State) -> State {
    (s: State, m: State) => Round(ops, s, m)
  }

  function UnroundWith(ops: WordOps): (State, State) -> State {
    (s: State, m: State) => Unround(ops, s, m)
  }

  function Permute(m: State): State {
    seq(16, i requires 0 <= i < 16 => m[PERMUTATION[i]])
  }

  /** `n` rounds, the message permuted between one and the next. */
  function Rounds(ops: WordOps, s: State, m: State, n: nat): State {
    Iterate(n, RoundWith(ops), Permute, s, m)
  }

  /** The reverse rounds. */
  function Unrounds(ops: WordOps, s: State, m: State, n: nat): State {
    Unwind(n, UnroundWith(ops), Permute, s, m)
  }

  // ----- The message schedule -----

  type Index = i: nat | i < 16

  /** Where round `r` takes its message words from, the seven rounds written out. */
  function Schedule(r: nat): (row: seq<Index>)
    ensures |row| == 16
  {
    match r
    case 0 => [0, 1, 2, 3, 4, 5, 6, 7, 8, 9, 10, 11, 12, 13, 14, 15]
    case 1 => [2, 6, 3, 10, 7, 0, 4, 13, 1, 11, 12, 5, 9, 14, 15, 8]
    case 2 => [3, 4, 10, 12, 13, 2, 7, 14, 6, 5, 9, 0, 11, 15, 8, 1]
    case 3 => [10, 7, 12, 9, 14, 3, 13, 15, 4, 0, 11, 2, 5, 8, 1, 6]
    case 4 => [12, 13, 9, 11, 15, 10, 14, 8, 7, 2, 5, 3, 0, 1, 6, 4]
    case 5 => [9, 14, 11, 5, 8, 12, 15, 1, 13, 3, 0, 10, 2, 6, 4, 7]
    case _ => [11, 15, 5, 0, 1, 9, 8, 6, 14, 10, 2, 12, 3, 4, 7, 13]
  }

  function Reordered(row: seq<Index>): (next: seq<Index>)
    requires |row| == 16
  {
    [row[2], row[6], row[3], row[10], row[7], row[0], row[4], row[13],
     row[1], row[11], row[12], row[5], row[9], row[14], row[15], row[8]]
  }

  lemma ScheduleNext(r: nat)
    requires r < 6
    ensures Reordered(Schedule(r)) == Schedule(r + 1)
  {
  }

  lemma ReorderedAt(row: seq<Index>, k: nat)
    requires |row| == 16 && k < 16
    ensures Reordered(row)[k] == row[PERMUTATION[k]]
  {
  }

  function Scheduled(block: State, row: seq<Index>): State
    requires |row| == 16
  {
    seq(16, k requires 0 <= k < 16 => block[row[k]])
  }

  lemma ScheduledNext(block: State, row: seq<Index>)
    requires |row| == 16
    ensures Permute(Scheduled(block, row)) == Scheduled(block, Reordered(row))
  {
    forall k | 0 <= k < 16 ensures Permute(Scheduled(block, row))[k] == Scheduled(block, Reordered(row))[k] {
      ReorderedAt(row, k);
    }
  }

  lemma ScheduledFirst(block: State)
    ensures Scheduled(block, Schedule(0)) == block
  {
  }

  /** The message of round `r`. */
  function Message(block: State, r: nat): State { Scheduled(block, Schedule(r)) }

  lemma MessageNext(block: State, r: nat)
    requires r < 6
    ensures Permute(Message(block, r)) == Message(block, r + 1)
  {
    ScheduledNext(block, Schedule(r));
    ScheduleNext(r);
  }

  /** The block permuted `r` times. */
  function Permuted(block: State, r: nat): State { if r == 0 then block else Permute(Permuted(block, r - 1)) }

  lemma {:induction false} PermutedIsMessage(block: State, r: nat)
    requires r < ROUNDS
    ensures Permuted(block, r) == Message(block, r)
  {
    if r == 0 {
      ScheduledFirst(block);
    } else {
      PermutedIsMessage(block, r - 1);
      MessageNext(block, r - 1);
    }
  }

  /** Word k of round r's message is the word of the block that the schedule names. */
  lemma MessageAt(block: State, r: nat, k: nat)
    requires r < 7 && k < 16
    ensures Permuted(block, r)[k] == block[Schedule(r)[k]]
  {
    PermutedIsMessage(block, r);
  }

  function Messages(block: State): nat -> State { (r: nat) => Message(block, r) }

  lemma MessagesFollow(block: State)
    ensures forall r: nat :: r + 1 < ROUNDS ==> Permute(Messages(block)(r)) == Messages(block)(r + 1)
    ensures Messages(block)(0) == block
  {
    forall r: nat | r + 1 < ROUNDS ensures Permute(Messages(block)(r)) == Messages(block)(r + 1) {
      MessageNext(block, r);
    }
    ScheduledFirst(block);
  }

  /** Rounds 0 to n - 1, each on the words the schedule names. */
  function ScheduledRounds(ops: WordOps, s: State, block: State, n: nat): State {
    Keyed(n, RoundWith(ops), Messages(block), s)
  }

  /** The rounds that permute the message in between are those that follow the schedule. */
  lemma RoundsFollowSchedule(ops: WordOps, s: State, block: State, n: nat)
    requires n <= ROUNDS
    ensures Rounds(ops, s, block, n) == ScheduledRounds(ops, s, block, n)
  {
    MessagesFollow(block);
    KeyedFollows(0, n, ROUNDS, RoundWith(ops), Permute, Messages(block), s);
  }

  /** For every message, any number of rounds is a bijection on states, with the
      reverse rounds as its two-sided inverse; up to seven they follow the schedule. */
  lemma RoundsBijective(ops: WordOps, s: State, m: State, n: nat)
    requires Lawful(ops)
    ensures Unrounds(ops, Rounds(ops, s, m, n), m, n) == s
    ensures Rounds(ops, Unrounds(ops, s, m, n), m, n) == s
    ensures n <= ROUNDS ==> Rounds(ops, s, m, n) == ScheduledRounds(ops, s, m, n)
  {
    if n <= ROUNDS {
      RoundsFollowSchedule(ops, s, m, n);
    }
    forall s: State, m: State
      ensures UnroundWith(ops)(RoundWith(ops)(s, m), m) == s
      ensures RoundWith(ops)(UnroundWith(ops)(s, m), m) == s
    {
      MixesInverse(ops, s, m, 8);
    }
    IterateInverse(n, RoundWith(ops), UnroundWith(ops), Permute, s, m);
  }

  // ----- A round written out -----

  function Columns(p0: Quad, p1: Quad, p2: Quad, p3: Quad): State {
    [p0.a, p1.a, p2.a, p3.a, p0.b, p1.b, p2.b, p3.b, p0.c, p1.c, p2.c, p3.c, p0.d, p1.d, p2.d, p3.d]
  }

  function Diagonals(q0: Quad, q1: Quad, q2: Quad, q3: Quad): State {
    [q0.a, q1.a, q2.a, q3.a, q3.b, q0.b, q1.b, q2.b, q2.c, q3.c, q0.c, q1.c, q1.d, q2.d, q3.d, q0.d]
  }

  /** The four columns of the state, mixed. */
  function MixedColumns(ops: WordOps, s: State, m: State): State {
    var p0 := Quarter(ops, Quad(s[0], s[4], s[8], s[12]), m[0], m[1]);
    var p1 := Quarter(ops, Quad(s[1], s[5], s[9], s[13]), m[2], m[3]);
    var p2 := Quarter(ops, Quad(s[2], s[6], s[10], s[14]), m[4], m[5]);
    var p3 := Quarter(ops, Quad(s[3], s[7], s[11], s[15]), m[6], m[7]);
    Columns(p0, p1, p2, p3)
  }

  /** The four diagonals of the state, mixed. */
  function MixedDiagonals(ops: WordOps, s: State, m: State): State {
    var q0 := Quarter(ops, Quad(s[0], s[5], s[10], s[15]), m[8], m[9]);
    var q1 := Quarter(ops, Quad(s[1], s[6], s[11], s[12]), m[10], m[11]);
    var q2 := Quarter(ops, Quad(s[2], s[7], s[8], s[13]), m[12], m[13]);
    var q3 := Quarter(ops, Quad(s[3], s[4], s[9], s[14]), m[14], m[15]);
    Diagonals(q0, q1, q2, q3)
  }

  /** What `f` makes of a lane. */
  function Worked(s: State, i: nat, f: Quad -> Quad): State
    requires i < 8
  {
    Put(s, RoundLane(i), f(Get(s, RoundLane(i))))
  }

  lemma ColumnsApart(s: State, f0: Quad -> Quad, f1: Quad -> Quad, f2: Quad -> Quad, f3: Quad -> Quad)
    ensures Worked(Worked(Worked(Worked(s, 0, f0), 1, f1), 2, f2), 3, f3) ==
            Columns(f0(Quad(s[0], s[4], s[8], s[12])), f1(Quad(s[1], s[5], s[9], s[13])),
                    f2(Quad(s[2], s[6], s[10], s[14])), f3(Quad(s[3], s[7], s[11], s[15])))
  {
  }

  lemma DiagonalsApart(s: State, f0: Quad -> Quad, f1: Quad -> Quad, f2: Quad -> Quad, f3: Quad -> Quad)
    ensures Worked(Worked(Worked(Worked(s, 4, f0), 5, f1), 6, f2), 7, f3) ==
            Diagonals(f0(Quad(s[0], s[5], s[10], s[15])), f1(Quad(s[1], s[6], s[11], s[12])),
                      f2(Quad(s[2], s[7], s[8], s[13])), f3(Quad(s[3], s[4], s[9], s[14])))
  {
  }

  function Mixer(ops: WordOps, first: Word, second: Word): Quad -> Quad { q => Quarter(ops, q, first, second) }

  lemma MixWorks(ops: WordOps, m: State, s: State, i: nat)
    requires i < 8
    ensures MixWith(ops, m)(s, i) == Worked(s, i, Mixer(ops, m[2 * i], m[2 * i + 1]))
  {
  }

  lemma FourMore<S>(n: nat, step: (S, nat) -> S, s: S)
    ensures Fold(n + 4, step, s) == step(step(step(step(Fold(n, step, s), n), n + 1), n + 2), n + 3)
  {
    assert Fold(n + 2, step, s) == step(step(Fold(n, step, s), n), n + 1);
  }

  lemma FourMixes(ops: WordOps, s: State, m: State, n: nat, s1: State, s2: State, s3: State)
    requires n <= 4
    requires s1 == Worked(Mixes(ops, s, m, n), n, Mixer(ops, m[2 * n], m[2 * n + 1]))
    requires s2 == Worked(s1, n + 1, Mixer(ops, m[2 * n + 2], m[2 * n + 3]))
    requires s3 == Worked(s2, n + 2, Mixer(ops, m[2 * n + 4], m[2 * n + 5]))
    ensures Mixes(ops, s, m, n + 4) == Worked(s3, n + 3, Mixer(ops, m[2 * n + 6], m[2 * n + 7]))
  {
    FourMore(n, MixWith(ops, m), s);
    MixWorks(ops, m, Mixes(ops, s, m, n), n);
    MixWorks(ops, m, s1, n + 1);
    MixWorks(ops, m, s2, n + 2);
    MixWorks(ops, m, s3, n + 3);
  }

  lemma FirstHalf(ops: WordOps, s: State, m: State)
    ensures Mixes(ops, s, m, 4) == MixedColumns(ops, s, m)
  {
    var f0, f1 := Mixer(ops, m[0], m[1]), Mixer(ops, m[2], m[3]);
    var f2, f3 := Mixer(ops, m[4], m[5]), Mixer(ops, m[6], m[7]);
    var s1 := Worked(s, 0, f0);
    var s2 := Worked(s1, 1, f1);
    FourMixes(ops, s, m, 0, s1, s2, Worked(s2, 2, f2));
    ColumnsApart(s, f0, f1, f2, f3);
  }

  lemma SecondHalf(ops: WordOps, s: State, m: State)
    ensures Round(ops, s, m) == MixedDiagonals(ops, Mixes(ops, s, m, 4), m)
  {
    var half := Mixes(ops, s, m, 4);
    var f0, f1 := Mixer(ops, m[8], m[9]), Mixer(ops, m[10], m[11]);
    var f2, f3 := Mixer(ops, m[12], m[13]), Mixer(ops, m[14], m[15]);
    var s1 := Worked(half, 4, f0);
    var s2 := Worked(s1, 5, f1);
    FourMixes(ops, s, m, 4, s1, s2, Worked(s2, 6, f2));
    DiagonalsApart(half, f0, f1, f2, f3);
  }

  /** The columns are mixed first, each on its own, and then the diagonals. */
  lemma RoundWrittenOut(ops: WordOps, s: State, m: State)
    ensures Round(ops, s, m) == MixedDiagonals(ops, MixedColumns(ops, s, m), m)
  {
    FirstHalf(ops, s, m);
    SecondHalf(ops, s, m);
  }

  // ----- Compression -----

  const ROUNDS: nat := 7

  function InitialState(cv: ChainingValue, length: Word, flags: Word): State {
    cv + IV[..4] + [0, 0, length, flags]
  }

  function FinalState(ops: WordOps, cv: ChainingValue, block: State, length: Word, flags: Word): State {
    Rounds(ops, InitialState(cv, length, flags), block, ROUNDS)
  }

  function FeedForward(ops: WordOps, s: State, cv: ChainingValue): State {
    seq(8, i requires 0 <= i < 8 => ops.xor(s[i], s[i + 8]))
    + seq(8, i requires 0 <= i < 8 => ops.xor(s[i + 8], cv[i]))
  }

  function Compress(ops: WordOps, cv: ChainingValue, block: State, length: Word, flags: Word): State {
    FeedForward(ops, FinalState(ops, cv, block, length, flags), cv)
  }

  /** The state behind an output, given the chaining value. */
  function Recover(ops: WordOps, output: State, cv: ChainingValue): State {
    var high := seq(8, i requires 0 <= i < 8 => ops.xor(output[i + 8], cv[i]));
    seq(8, i requires 0 <= i < 8 => ops.xor(output[i], high[i])) + high
  }

  lemma FeedForwardInvertible(ops: WordOps, s: State, cv: ChainingValue)
    requires Lawful(ops)
    ensures Recover(ops, FeedForward(ops, s, cv), cv) == s
  {
    var r := Recover(ops, FeedForward(ops, s, cv), cv);
    forall j | 0 <= j < 16 ensures r[j] == s[j] {
      var i := j % 8;
    }
  }

  lemma FeedForwardInjective(ops: WordOps, s1: State, s2: State, cv: ChainingValue)
    requires Lawful(ops)
    requires FeedForward(ops, s1, cv) == FeedForward(ops, s2, cv)
    ensures s1 == s2
  {
    FeedForwardInvertible(ops, s1, cv);
    FeedForwardInvertible(ops, s2, cv);
  }

  lemma RoundsInjective(ops: WordOps, s1: State, s2: State, m: State, n: nat)
    requires Lawful(ops)
    requires Rounds(ops, s1, m, n) == Rounds(ops, s2, m, n)
    ensures s1 == s2
  {
    RoundsBijective(ops, s1, m, n);
    RoundsBijective(ops, s2, m, n);
  }

  lemma InitialStateInjective(cv: ChainingValue, len1: Word, flags1: Word, len2: Word, flags2: Word)
    requires InitialState(cv, len1, flags1) == InitialState(cv, len2, flags2)
    ensures len1 == len2 && flags1 == flags2
  {
    var s1, s2 := InitialState(cv, len1, flags1), InitialState(cv, len2, flags2);
    assert s1[14] == len1 && s1[15] == flags1 && s2[14] == len2 && s2[15] == flags2;
  }

  /** Block length and flags are never absorbed: with the same chaining value and
      message words, compressions that differ in either differ in output. */
  lemma CompressSeparates(ops: WordOps, cv: ChainingValue, block: State, len1: Word, flags1: Word, len2: Word,
                          flags2: Word)
    requires Lawful(ops)
    requires Compress(ops, cv, block, len1, flags1) == Compress(ops, cv, block, len2, flags2)
    ensures len1 == len2 && flags1 == flags2
  {
    FeedForwardInjective(ops, FinalState(ops, cv, block, len1, flags1), FinalState(ops, cv, block, len2, flags2), cv);
    RoundsInjective(ops, InitialState(cv, len1, flags1), InitialState(cv, len2, flags2), block, ROUNDS);
    InitialStateInjective(cv, len1, flags1, len2, flags2);
  }

  // ----- The in-place code -----

  /** `_blake3_mix`: the masked integer updates of a state list. */
  method MixInPlace(ops: WordOps, state: array<Word>, l: Lane, first: Word, second: Word)
    requires Lawful(ops)
    requires state.Length == 16 && IsLane(l)
    modifies state
    ensures state[..] == Mix(ops, old(state[..]), l, first, second)
  {
    ghost var q := Get(state[..], l);
    HalfInPlace(ops, state, l, first, 16, 12);
    PutGet(old(state[..]), l, Half(ops, q, first, 16, 12), Quarter(ops, q, first, second));
    HalfInPlace(ops, state, l, second, 8, 7);
  }

  /** Python's unbounded addition. */
  function Sum(a: nat, b: nat): nat { a + b }

  /** One half of the mix, four masked updates. */
  method HalfInPlace(ops: WordOps, state: array<Word>, l: Lane, m: Word, r1: nat, r2: nat)
    requires Lawful(ops)
    requires state.Length == 16 && IsLane(l) && 0 < r1 < 32 && 0 < r2 < 32
    modifies state
    ensures state[..] == Put(old(state[..]), l, Half(ops, Get(old(state[..]), l), m, r1, r2))
  {
    ghost var s0 := state[..];
    var first := Sum(Sum(state[l.a], state[l.b]), m);
    state[l.a] := ops.mask(first);
    assert state[..] == s0[l.a := AddWord(s0[l.a], s0[l.b] + m)];
    ghost var s1 := state[..];
    state[l.d] := ops.rotate(ops.xor(state[l.d], state[l.a]), r1);
    assert state[..] == s1[l.d := ops.rotate(ops.xor(s0[l.d], s1[l.a]), r1)];
    ghost var s2 := state[..];
    var second := Sum(state[l.c], state[l.d]);
    state[l.c] := ops.mask(second);
    assert state[..] == s2[l.c := AddWord(s0[l.c], s2[l.d])];
    ghost var s3 := state[..];
    state[l.b] := ops.rotate(ops.xor(state[l.b], state[l.c]), r2);
    assert state[..] == s3[l.b := ops.rotate(ops.xor(s0[l.b], s3[l.c]), r2)];
    UpdateOrder(s0, l, Half(ops, Get(s0, l), m, r1, r2));
  }

  lemma UpdateOrder(s: State, l: Lane, q: Quad)
    requires IsLane(l)
    ensures s[l.a := q.a][l.d := q.d][l.c := q.c][l.b := q.b] == Put(s, l, q)
  {
  }

  /** The calls of one round. */
  method MixesInPlace(ops: WordOps, state: array<Word>, message: State, count: nat)
    requires Lawful(ops)
    requires state.Length == 16 && count <= 8
    modifies state
    ensures state[..] == Mixes(ops, old(state[..]), message, count)
  {
    var i := 0;
    while i < count
      invariant 0 <= i <= count
      invariant state[..] == Mixes(ops, old(state[..]), message, i)
    {
      MixInPlace(ops, state, RoundLane(i), message[2 * i], message[2 * i + 1]);
      MixesStep(ops, old(state[..]), message, i);
      i := i + 1;
    }
  }

  lemma MixesStep(ops: WordOps, s: State, m: State, n: nat)
    requires n < 8
    ensures Mixes(ops, s, m, n + 1) == Mix(ops, Mixes(ops, s, m, n), RoundLane(n), m[2 * n], m[2 * n + 1])
  {
    assert MixWith(ops, m)(Mixes(ops, s, m, n), n) == MixAt(ops, m, Mixes(ops, s, m, n), n);
  }

  /** The round loop, with the message list replaced after every round. */
  method RoundsInPlace(ops: WordOps, state: array<Word>, block: State, count: nat)
    requires Lawful(ops)
    requires state.Length == 16
    modifies state
    ensures state[..] == Rounds(ops, old(state[..]), block, count)
    ensures count <= ROUNDS ==> state[..] == ScheduledRounds(ops, old(state[..]), block, count)
  {
    if count <= ROUNDS {
      RoundsFollowSchedule(ops, state[..], block, count);
    }
    var message := block;
    for round := 0 to count
      invariant Rounds(ops, state[..], message, count - round) == Rounds(ops, old(state[..]), block, count)
    {
      MixesInPlace(ops, state, message, 8);
      message := Permute(message);
    }
  }

  /** `_blake3_compress`. */
  method CompressInPlace(ops: WordOps, cv: ChainingValue, block: State, length: Word, flags: Word)
      returns (output: State)
    requires Lawful(ops)
    ensures output == Compress(ops, cv, block, length, flags)
    ensures output == FeedForward(ops, ScheduledRounds(ops, InitialState(cv, length, flags), block, 7), cv)
  {
    var start := InitialState(cv, length, flags);
    var state := new Word[16](i requires 0 <= i < 16 => start[i]);
    assert state[..] == start;
    RoundsInPlace(ops, state, block, ROUNDS);
    output := FeedForward(ops, state[..], cv);
  }
}
