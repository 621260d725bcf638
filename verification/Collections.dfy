/** Facts about finite sets, multisets and sequences shared by the models. */
module Collections {

  datatype Option<T> = None | Some(value: T)

  type Byte = b: int | 0 <= b < 256

  function Min(a: int, b: int): int { if a <= b then a else b }

  lemma Member<T>(s: set<T>) returns (x: T)
    requires s != {}
    ensures x in s
  {
    x :| x in s;
  }

  lemma SubsetSize<T>(small: set<T>, large: set<T>)
    requires small <= large
    ensures |small| <= |large|
  {
    assert large == small + (large - small);
  }

  lemma SameSizeSubset<T>(small: set<T>, large: set<T>)
    requires small <= large && |small| >= |large|
    ensures small == large
  {
    assert large == small + (large - small);
  }

  function Elements<T>(s: seq<T>): set<T> {
    set x | x in s
  }

  ghost predicate Distinct<T>(s: seq<T>) {
    forall i, j :: 0 <= i < j < |s| ==> s[i] != s[j]
  }

  lemma DistinctAppend<T>(s: seq<T>, x: T)
    ensures Elements(s + [x]) == Elements(s) + {x}
    ensures Distinct(s + [x]) <==> Distinct(s) && x !in s
  {
    assert (s + [x])[..|s|] == s && (s + [x])[|s|] == x;
    if Distinct(s + [x]) {
      forall i, j | 0 <= i < j < |s| ensures s[i] != s[j] {
        assert (s + [x])[i] != (s + [x])[j];
      }
    }
  }

  /** As many elements as positions, exactly when nothing repeats. */
  lemma {:induction false} DistinctSize<T>(s: seq<T>)
    ensures |Elements(s)| <= |s|
    ensures |Elements(s)| == |s| <==> Distinct(s)
  {
    if s != [] {
      var init, last := s[..|s| - 1], s[|s| - 1];
      DistinctSize(init);
      DistinctAppend(init, last);
      assert s == init + [last];
      if last in init {
        assert Elements(s) == Elements(init);
      }
    }
  }

  lemma PrefixGrows<T>(s: seq<T>, i: nat)
    requires i < |s|
    ensures s[..i] + [s[i]] == s[..i + 1] && s[..i + 1] + s[i + 1..] == s
  {
  }

  lemma LastSplit<T>(s: seq<T>)
    requires s != []
    ensures s == s[..|s| - 1] + [s[|s| - 1]]
  {
  }

  lemma Regroup<T>(a: seq<T>, b: seq<T>, c: seq<T>, bc: seq<T>, all: seq<T>)
    requires bc == b + c && a + bc == all
    ensures (a + b) + c == all
  {
  }

  /** Element `n` of a sequence stands in relation `p` to those before it. */
  ghost predicate StepAt<T(!new)>(s: seq<T>, p: (seq<T>, T) -> bool, n: int) {
    0 <= n < |s| && p(s[..n], s[n])
  }

  ghost predicate SomeStep<T(!new)>(s: seq<T>, p: (seq<T>, T) -> bool) {
    exists n :: StepAt(s, p, n)
  }

  /** Such a step lies before the last element, or is the last. */
  lemma StepLater<T(!new)>(s: seq<T>, p: (seq<T>, T) -> bool)
    requires s != []
    ensures SomeStep(s, p) <==> SomeStep(s[..|s| - 1], p) || p(s[..|s| - 1], s[|s| - 1])
  {
    var init := s[..|s| - 1];
    forall n | 0 <= n < |init| ensures StepAt(s, p, n) <==> StepAt(init, p, n) {
      assert s[..n] == init[..n];
    }
    if n :| StepAt(s, p, n) {
      assert n < |init| ==> StepAt(init, p, n);
    }
    if n :| StepAt(init, p, n) {
      assert StepAt(s, p, n);
    }
    if p(init, s[|s| - 1]) {
      assert StepAt(s, p, |init|);
    }
  }

  /** The concatenation of `f` over a sequence. */
  function Image<T, U>(s: seq<T>, f: T -> seq<U>): seq<U> {
    if s == [] then [] else f(s[0]) + Image(s[1..], f)
  }

  function SumBy<T>(s: seq<T>, f: T -> int): int {
    if s == [] then 0 else f(s[0]) + SumBy(s[1..], f)
  }

  lemma {:induction false} ImageConcat<T, U>(a: seq<T>, b: seq<T>, f: T -> seq<U>)
    ensures Image(a + b, f) == Image(a, f) + Image(b, f)
  {
    if a == [] {
      assert a + b == b;
    } else {
      ImageConcat(a[1..], b, f);
      assert (a + b)[1..] == a[1..] + b;
      Regroup(f(a[0]), Image(a[1..], f), Image(b, f), Image(a[1..] + b, f), f(a[0]) + Image(a[1..] + b, f));
    }
  }

  lemma {:induction false} SumConcat<T>(a: seq<T>, b: seq<T>, f: T -> int)
    ensures SumBy(a + b, f) == SumBy(a, f) + SumBy(b, f)
  {
    if a == [] {
      assert a + b == b;
    } else {
      SumConcat(a[1..], b, f);
      assert (a + b)[1..] == a[1..] + b;
    }
  }

  /** Sums of non-negative terms are non-negative, and zero exactly when every term is. */
  lemma {:induction false} SumSign<T>(s: seq<T>, f: T -> int)
    requires forall i :: 0 <= i < |s| ==> f(s[i]) >= 0
    ensures SumBy(s, f) >= 0
    ensures SumBy(s, f) == 0 <==> forall i :: 0 <= i < |s| ==> f(s[i]) == 0
  {
    if s != [] {
      var rest := s[1..];
      forall i | 0 <= i < |rest| ensures rest[i] == s[i + 1] {
      }
      SumSign(rest, f);
      if SumBy(s, f) == 0 {
        forall i | 0 < i < |s| ensures f(s[i]) == 0 {
          assert rest[i - 1] == s[i];
        }
      }
    }
  }

  lemma SumAppend<T>(s: seq<T>, x: T, f: T -> int)
    ensures SumBy(s + [x], f) == SumBy(s, f) + f(x)
  {
    SumConcat(s, [x], f);
    assert [x][1..] == [];
  }

  lemma ImageAppend<T, U>(s: seq<T>, x: T, f: T -> seq<U>)
    ensures Image(s + [x], f) == Image(s, f) + f(x)
  {
    ImageConcat(s, [x], f);
    assert [x][1..] == [] && f(x) + [] == f(x);
  }

  function Without<T>(s: seq<T>, i: nat): seq<T>
    requires i < |s|
  {
    s[..i] + s[i + 1..]
  }

  lemma WithoutOne<T>(s: seq<T>, i: nat)
    requires i < |s|
    ensures multiset(Without(s, i)) == multiset(s) - multiset{s[i]}
  {
    assert s == s[..i] + [s[i]] + s[i + 1..];
  }

  lemma {:induction false} ImageWithout<T, U>(s: seq<T>, i: nat, f: T -> seq<U>)
    requires i < |s|
    ensures multiset(Image(s, f)) == multiset(f(s[i])) + multiset(Image(Without(s, i), f))
  {
    var tail := [s[i]] + s[i + 1..];
    ImageConcat(s[..i], tail, f);
    ImageConcat(s[..i], s[i + 1..], f);
    assert tail[1..] == s[i + 1..];
    assert s == s[..i] + tail;
  }

  lemma {:induction false} SumWithout<T>(s: seq<T>, i: nat, f: T -> int)
    requires i < |s|
    ensures SumBy(s, f) == f(s[i]) + SumBy(Without(s, i), f)
  {
    var tail := [s[i]] + s[i + 1..];
    SumConcat(s[..i], tail, f);
    SumConcat(s[..i], s[i + 1..], f);
    assert tail[1..] == s[i + 1..];
    assert s == s[..i] + tail;
  }

  /** The position in `b` of the first element of a permutation of `b`. */
  lemma Counterpart<T>(a: seq<T>, b: seq<T>) returns (i: nat)
    requires multiset(a) == multiset(b) && a != []
    ensures i < |b| && b[i] == a[0]
    ensures multiset(a[1..]) == multiset(Without(b, i))
  {
    assert a[0] in multiset(b);
    i :| 0 <= i < |b| && b[i] == a[0];
    WithoutOne(b, i);
    assert a == [a[0]] + a[1..];
  }

  lemma EmptyPermutation<T>(b: seq<T>)
    requires multiset(b) == multiset{}
    ensures b == []
  {
    assert |multiset(b)| == |b|;
  }

  /** A permuted input gives a permuted image. */
  lemma {:induction false} ImageIgnoresOrder<T, U>(a: seq<T>, b: seq<T>, f: T -> seq<U>)
    requires multiset(a) == multiset(b)
    ensures multiset(Image(a, f)) == multiset(Image(b, f))
  {
    if a == [] {
      EmptyPermutation(b);
    } else {
      var i := Counterpart(a, b);
      ImageIgnoresOrder(a[1..], Without(b, i), f);
      ImageWithout(b, i, f);
    }
  }

  /** A permuted input gives the same sum. */
  lemma {:induction false} SumIgnoresOrder<T>(a: seq<T>, b: seq<T>, f: T -> int)
    requires multiset(a) == multiset(b)
    ensures SumBy(a, f) == SumBy(b, f)
  {
    if a == [] {
      EmptyPermutation(b);
    } else {
      var i := Counterpart(a, b);
      SumIgnoresOrder(a[1..], Without(b, i), f);
      SumWithout(b, i, f);
    }
  }

  lemma PermutationMembers<T>(a: seq<T>, b: seq<T>)
    requires multiset(a) == multiset(b)
    ensures |a| == |b| && forall x :: x in a <==> x in b
  {
    assert |multiset(a)| == |a| && |multiset(b)| == |b|;
    forall x ensures x in a <==> x in b {
      assert x in a <==> x in multiset(a);
      assert x in b <==> x in multiset(b);
    }
  }

  lemma DistinctIgnoresOrder<T>(a: seq<T>, b: seq<T>)
    requires multiset(a) == multiset(b) && Distinct(a)
    ensures Distinct(b)
  {
    PermutationMembers(a, b);
    DistinctSize(a);
    DistinctSize(b);
    assert Elements(a) == Elements(b);
  }

  /** A sequence without repetition holds each of its elements once. */
  lemma {:induction false} OnceEach<T>(s: seq<T>, x: T)
    requires Distinct(s)
    ensures multiset(s)[x] == if x in s then 1 else 0
  {
    if s != [] {
      var init, last := s[..|s| - 1], s[|s| - 1];
      LastSplit(s);
      DistinctAppend(init, last);
      OnceEach(init, x);
    }
  }

  /** A list as long as one without repetition has the same elements exactly when it is
      a permutation of it. */
  lemma SameElementsIff<T>(a: seq<T>, b: seq<T>)
    requires Distinct(b) && |a| == |b|
    ensures Elements(a) == Elements(b) <==> multiset(a) == multiset(b)
  {
    if Elements(a) == Elements(b) {
      DistinctSize(a);
      DistinctSize(b);
      forall x ensures multiset(a)[x] == multiset(b)[x] {
        assert x in a <==> x in Elements(a);
        OnceEach(a, x);
        OnceEach(b, x);
      }
    }
    if multiset(a) == multiset(b) {
      PermutationMembers(a, b);
    }
  }
}
