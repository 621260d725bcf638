/** `sorted`: what a stable sort by a key returns, and why the order of
    its input cannot show. */
module Sorting {

  ghost predicate TotalPreorder<T(!new)>(le: (T, T) -> bool) {
    && (forall x, y :: le(x, y) || le(y, x))
    && (forall x, y, z :: le(x, y) && le(y, z) ==> le(x, z))
  }

  /** Elements of `s` that the order cannot tell apart are equal. */
  ghost predicate Distinguishes<T>(le: (T, T) -> bool, s: seq<T>) {
    forall x, y :: x in s && y in s && le(x, y) && le(y, x) ==> x == y
  }

  predicate IsSorted<T>(s: seq<T>, le: (T, T) -> bool) {
    forall i, j :: 0 <= i < j < |s| ==> le(s[i], s[j])
  }

  function Insert<T>(x: T, s: seq<T>, le: (T, T) -> bool): seq<T> {
    if s == [] || le(x, s[0]) then [x] + s else [s[0]] + Insert(x, s[1..], le)
  }

  function Sorted<T>(s: seq<T>, le: (T, T) -> bool): seq<T> {
    if s == [] then [] else Insert(s[0], Sorted(s[1..], le), le)
  }

  lemma {:induction false} InsertKeeps<T>(x: T, s: seq<T>, le: (T, T) -> bool)
    ensures multiset(Insert(x, s, le)) == multiset{x} + multiset(s)
  {
    if s != [] && !le(x, s[0]) {
      InsertKeeps(x, s[1..], le);
      assert s == [s[0]] + s[1..];
    }
  }

  lemma {:induction false} SortedKeeps<T>(s: seq<T>, le: (T, T) -> bool)
    ensures multiset(Sorted(s, le)) == multiset(s)
    ensures |Sorted(s, le)| == |s|
  {
    if s != [] {
      SortedKeeps(s[1..], le);
      InsertKeeps(s[0], Sorted(s[1..], le), le);
      assert s == [s[0]] + s[1..];
    }
    assert |multiset(Sorted(s, le))| == |Sorted(s, le)|;
  }

  lemma {:induction false} InsertSorts<T(!new)>(x: T, s: seq<T>, le: (T, T) -> bool)
    requires TotalPreorder(le) && IsSorted(s, le)
    ensures IsSorted(Insert(x, s, le), le)
  {
    if s != [] && !le(x, s[0]) {
      var rest := Insert(x, s[1..], le);
      InsertSorts(x, s[1..], le);
      InsertKeeps(x, s[1..], le);
      forall j | 0 <= j < |rest| ensures le(s[0], rest[j]) {
        assert rest[j] in multiset(rest);
        assert rest[j] == x || rest[j] in s[1..];
      }
    }
  }

  lemma {:induction false} SortedSorts<T(!new)>(s: seq<T>, le: (T, T) -> bool)
    requires TotalPreorder(le)
    ensures IsSorted(Sorted(s, le), le)
  {
    if s != [] {
      SortedSorts(s[1..], le);
      InsertSorts(s[0], Sorted(s[1..], le), le);
    }
  }

  /** A multiset has one sorted listing. */
  lemma {:induction false} SortedUnique<T(!new)>(a: seq<T>, b: seq<T>, le: (T, T) -> bool)
    requires TotalPreorder(le) && Distinguishes(le, a)
    requires IsSorted(a, le) && IsSorted(b, le) && multiset(a) == multiset(b)
    ensures a == b
  {
    assert |multiset(a)| == |a| && |multiset(b)| == |b|;
    if a != [] {
      assert a[0] in multiset(b) && b[0] in multiset(a);
      assert a[0] in a && b[0] in a;
      assert le(a[0], b[0]) && le(b[0], a[0]) by {
        Smallest(a, b[0], le);
        Smallest(b, a[0], le);
      }
      assert a == [a[0]] + a[1..] && b == [b[0]] + b[1..];
      assert multiset(a[1..]) == multiset(a) - multiset{a[0]};
      assert multiset(b[1..]) == multiset(b) - multiset{b[0]};
      SortedUnique(a[1..], b[1..], le);
    }
  }

  lemma Smallest<T(!new)>(s: seq<T>, x: T, le: (T, T) -> bool)
    requires TotalPreorder(le) && IsSorted(s, le) && x in s
    ensures le(s[0], x)
  {
    var i :| 0 <= i < |s| && s[i] == x;
    assert le(x, x);
  }

  /** Inputs with the same elements sort to the same sequence. */
  lemma SortedIgnoresOrder<T(!new)>(a: seq<T>, b: seq<T>, le: (T, T) -> bool)
    requires TotalPreorder(le) && Distinguishes(le, a) && multiset(a) == multiset(b)
    ensures Sorted(a, le) == Sorted(b, le)
  {
    SortedKeeps(a, le);
    SortedKeeps(b, le);
    SortedSorts(a, le);
    SortedSorts(b, le);
    forall x | x in Sorted(a, le) ensures x in a {
      assert x in multiset(Sorted(a, le));
    }
    SortedUnique(Sorted(a, le), Sorted(b, le), le);
  }

  /** Python's order on strings: by code point, a proper prefix first. */
  predicate TextLe(a: string, b: string) {
    a == [] || (b != [] && (a[0] < b[0] || (a[0] == b[0] && TextLe(a[1..], b[1..]))))
  }

  lemma {:induction false} TextLeTotal(a: string, b: string)
    ensures TextLe(a, b) || TextLe(b, a)
    ensures TextLe(a, b) && TextLe(b, a) ==> a == b
  {
    if a != [] && b != [] && a[0] == b[0] {
      TextLeTotal(a[1..], b[1..]);
      assert a == [a[0]] + a[1..] && b == [b[0]] + b[1..];
    }
  }

  lemma {:induction false} TextLeTransitive(a: string, b: string, c: string)
    requires TextLe(a, b) && TextLe(b, c)
    ensures TextLe(a, c)
  {
    if a != [] && a[0] == b[0] && b[0] == c[0] {
      TextLeTransitive(a[1..], b[1..], c[1..]);
    }
  }

  /** The first difference decides. */
  lemma {:induction false} TextLeDiffer(a: string, b: string, k: nat)
    requires k < |a| && k < |b| && a[..k] == b[..k] && a[k] < b[k]
    ensures TextLe(a, b)
  {
    if k > 0 {
      assert a[0] == a[..k][0] && b[0] == b[..k][0];
      assert a[1..][..k - 1] == a[..k][1..] && b[1..][..k - 1] == b[..k][1..];
      TextLeDiffer(a[1..], b[1..], k - 1);
    }
  }

  /** Sorting records by a text key. */
  lemma TextKeyOrders<T(!new)>(le: (T, T) -> bool, key: T -> string)
    requires forall x, y :: le(x, y) == TextLe(key(x), key(y))
    ensures TotalPreorder(le)
    ensures forall x, y :: le(x, y) && le(y, x) ==> key(x) == key(y)
  {
    forall x, y
      ensures le(x, y) || le(y, x)
      ensures le(x, y) && le(y, x) ==> key(x) == key(y)
    {
      TextLeTotal(key(x), key(y));
    }
    forall x, y, z | le(x, y) && le(y, z) ensures le(x, z) {
      TextLeTransitive(key(x), key(y), key(z));
    }
  }
}
