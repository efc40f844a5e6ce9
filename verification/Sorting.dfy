/** Stable sorting by a strict weak order, and the order on strings. */
module Sorting {

  ghost predicate StrictWeakOrder<T(!new)>(less: (T, T) -> bool) {
    && (forall x :: !less(x, x))
    && (forall x, y, z :: less(x, y) && less(y, z) ==> less(x, z))
    && (forall x, y, z :: !less(x, y) && !less(y, z) ==> !less(x, z))
  }

  ghost predicate Sorted<T>(less: (T, T) -> bool, s: seq<T>) {
    forall i, j :: 0 <= i < j < |s| ==> !less(s[j], s[i])
  }

  /** Puts `x` in front of the first element that is not smaller than it. */
  function Insert<T>(less: (T, T) -> bool, x: T, s: seq<T>): seq<T> {
    if s == [] then [x]
    else if less(s[0], x) then [s[0]] + Insert(less, x, s[1..])
    else [x] + s
  }

  function StableSort<T>(less: (T, T) -> bool, s: seq<T>): seq<T> {
    if s == [] then [] else Insert(less, s[0], StableSort(less, s[1..]))
  }

  lemma {:induction false} InsertPermutes<T>(less: (T, T) -> bool, x: T, s: seq<T>)
    ensures multiset(Insert(less, x, s)) == multiset{x} + multiset(s)
    ensures |Insert(less, x, s)| == |s| + 1
  {
    if s != [] && less(s[0], x) {
      InsertPermutes(less, x, s[1..]);
      assert s == [s[0]] + s[1..];
    }
  }

  lemma InMultiset<T>(s: seq<T>, t: seq<T>)
    requires multiset(s) == multiset(t)
    ensures forall x :: x in s <==> x in t
  {
    forall x
      ensures x in s <==> x in t
    {
      assert x in s <==> x in multiset(s);
      assert x in t <==> x in multiset(t);
    }
  }

  lemma {:induction false} InsertSorted<T(!new)>(less: (T, T) -> bool, x: T, s: seq<T>)
    requires StrictWeakOrder(less) && Sorted(less, s)
    ensures Sorted(less, Insert(less, x, s))
  {
    if s == [] {
    } else if less(s[0], x) {
      var rest := Insert(less, x, s[1..]);
      InsertSorted(less, x, s[1..]);
      InsertPermutes(less, x, s[1..]);
      InMultiset(rest, [x] + s[1..]);
      forall y | y in rest
        ensures !less(y, s[0])
      {
        if y != x {
          var i :| 1 <= i < |s| && s[i] == y;
        }
      }
    } else {
      forall j | 0 <= j < |s|
        ensures !less(s[j], x)
      {
        if j > 0 { assert !less(s[j], s[0]); }
      }
    }
  }

  lemma {:induction false} StableSortSorts<T(!new)>(less: (T, T) -> bool, s: seq<T>)
    requires StrictWeakOrder(less)
    ensures Sorted(less, StableSort(less, s))
    ensures multiset(StableSort(less, s)) == multiset(s)
    ensures |StableSort(less, s)| == |s|
  {
    if s != [] {
      StableSortSorts(less, s[1..]);
      InsertSorted(less, s[0], StableSort(less, s[1..]));
      InsertPermutes(less, s[0], StableSort(less, s[1..]));
      assert s == [s[0]] + s[1..];
    }
  }

  /** The head of the sorted list is the first element that nothing precedes. */
  lemma {:induction false} StableSortHead<T(!new)>(less: (T, T) -> bool, s: seq<T>) returns (i: nat)
    requires StrictWeakOrder(less) && s != []
    ensures i < |s| && |StableSort(less, s)| == |s| && StableSort(less, s)[0] == s[i]
    ensures forall j :: 0 <= j < |s| ==> !less(s[j], s[i])
    ensures forall j :: 0 <= j < i ==> less(s[i], s[j])
  {
    StableSortSorts(less, s);
    if |s| == 1 {
      i := 0;
      assert StableSort(less, s[1..]) == [];
    } else {
      var t := s[1..];
      StableSortSorts(less, t);
      var k := StableSortHead(less, t);
      var head := StableSort(less, t)[0];
      if less(head, s[0]) {
        i := k + 1;
        assert s[i] == t[k];
        forall j | 0 <= j < |s|
          ensures !less(s[j], s[i])
          ensures j < i ==> less(s[i], s[j])
        {
          if j > 0 { assert s[j] == t[j - 1]; }
        }
      } else {
        i := 0;
        forall j | 0 <= j < |s|
          ensures !less(s[j], s[0])
        {
          if j > 0 { assert s[j] == t[j - 1]; assert !less(t[j - 1], head); }
        }
      }
    }
  }

  lemma InsertFront<T(!new)>(less: (T, T) -> bool, x: T, s: seq<T>)
    requires forall y :: y in s ==> !less(y, x)
    ensures Insert(less, x, s) == [x] + s
  {
  }

  /** Removing the chosen head from the input leaves the tail of the sorted list. */
  lemma {:induction false} StableSortTail<T(!new)>(less: (T, T) -> bool, s: seq<T>, i: nat)
    requires StrictWeakOrder(less) && i < |s|
    requires forall j :: 0 <= j < |s| ==> !less(s[j], s[i])
    requires forall j :: 0 <= j < i ==> less(s[i], s[j])
    ensures StableSort(less, s) == [s[i]] + StableSort(less, s[..i] + s[i + 1..])
    decreases |s|, 1
  {
    var t := s[1..];
    if i == 0 {
      assert s[..0] + s[1..] == t;
      StableSortSorts(less, t);
      InMultiset(StableSort(less, t), t);
      InsertFront(less, s[0], StableSort(less, t));
    } else {
      TailStep(less, s, i);
    }
  }

  lemma {:induction false} TailStep<T(!new)>(less: (T, T) -> bool, s: seq<T>, i: nat)
    requires StrictWeakOrder(less) && 0 < i < |s|
    requires forall j :: 0 <= j < |s| ==> !less(s[j], s[i])
    requires forall j :: 0 <= j < i ==> less(s[i], s[j])
    ensures StableSort(less, s) == [s[i]] + StableSort(less, s[..i] + s[i + 1..])
    decreases |s|, 0
  {
    var t := s[1..];
    StableSortTail(less, t, i - 1);
    var rest := t[..i - 1] + t[i..];
    assert s[..i] + s[i + 1..] == [s[0]] + rest;
    var sorted := StableSort(less, rest);
    assert ([s[0]] + rest)[1..] == rest;
    assert ([s[i]] + sorted)[1..] == sorted;
  }

  /** `[y]` when `y` compares equal to `x`, and nothing otherwise. */
  function IfEquivalent<T>(less: (T, T) -> bool, x: T, y: T): seq<T> {
    if !less(x, y) && !less(y, x) then [y] else []
  }

  /** The elements that compare equal to `x`, in order. */
  function Equivalents<T>(less: (T, T) -> bool, x: T, s: seq<T>): seq<T> {
    if s == [] then [] else IfEquivalent(less, x, s[0]) + Equivalents(less, x, s[1..])
  }

  lemma EquivalentsCons<T>(less: (T, T) -> bool, x: T, y: T, s: seq<T>)
    ensures Equivalents(less, x, [y] + s) == IfEquivalent(less, x, y) + Equivalents(less, x, s)
  {
    assert ([y] + s)[1..] == s;
  }

  lemma NotBothEquivalent<T(!new)>(less: (T, T) -> bool, x: T, y: T, z: T)
    requires StrictWeakOrder(less) && less(y, z)
    ensures IfEquivalent(less, x, y) == [] || IfEquivalent(less, x, z) == []
  {
    assert !less(y, x) && !less(x, z) ==> !less(y, z);
  }

  lemma {:induction false} InsertStable<T>(less: (T, T) -> bool, y: T, x: T, s: seq<T>)
    requires forall i :: 0 <= i < |s| && less(s[i], y) ==>
               IfEquivalent(less, x, s[i]) == [] || IfEquivalent(less, x, y) == []
    ensures Equivalents(less, x, Insert(less, y, s)) == IfEquivalent(less, x, y) + Equivalents(less, x, s)
  {
    if s == [] {
      EquivalentsCons(less, x, y, []);
      assert [y] + [] == [y];
    } else if less(s[0], y) {
      assert forall i :: 0 <= i < |s[1..]| ==> s[1..][i] == s[i + 1];
      InsertStable(less, y, x, s[1..]);
      assert Insert(less, y, s) == [s[0]] + Insert(less, y, s[1..]);
      EquivalentsCons(less, x, s[0], Insert(less, y, s[1..]));
      var here, added, rest := IfEquivalent(less, x, s[0]), IfEquivalent(less, x, y), Equivalents(less, x, s[1..]);
      assert here == [] || added == [];
      assert here + (added + rest) == added + (here + rest);
    } else {
      EquivalentsCons(less, x, y, s);
    }
  }

  /** Sorting keeps the order of elements that compare equal. */
  lemma {:induction false} StableSortStable<T(!new)>(less: (T, T) -> bool, x: T, s: seq<T>)
    requires StrictWeakOrder(less)
    ensures Equivalents(less, x, StableSort(less, s)) == Equivalents(less, x, s)
  {
    if s != [] {
      StableSortStable(less, x, s[1..]);
      var rest := StableSort(less, s[1..]);
      forall i | 0 <= i < |rest| && less(rest[i], s[0])
        ensures IfEquivalent(less, x, rest[i]) == [] || IfEquivalent(less, x, s[0]) == []
      {
        NotBothEquivalent(less, x, rest[i], s[0]);
      }
      InsertStable(less, s[0], x, rest);
    }
  }

  /** Byte-wise order on strings. */
  predicate StrLess(a: string, b: string) {
    if b == [] then false
    else if a == [] then true
    else a[0] < b[0] || (a[0] == b[0] && StrLess(a[1..], b[1..]))
  }

  lemma {:induction false} StrLessTotal(a: string, b: string)
    ensures StrLess(a, b) || StrLess(b, a) || a == b
    ensures !(StrLess(a, b) && StrLess(b, a))
    ensures !StrLess(a, a)
  {
    if a != [] {
      StrLessTotal(a[1..], a[1..]);
      if b != [] {
        StrLessTotal(a[1..], b[1..]);
        assert a == [a[0]] + a[1..] && b == [b[0]] + b[1..];
      }
    }
  }

  lemma {:induction false} StrLessTransitive(a: string, b: string, c: string)
    requires StrLess(a, b) && StrLess(b, c)
    ensures StrLess(a, c)
  {
    if a != [] && a[0] == b[0] == c[0] {
      StrLessTransitive(a[1..], b[1..], c[1..]);
    }
  }

  lemma StrLessIsOrder()
    ensures StrictWeakOrder(StrLess)
  {
    forall x: string, y: string, z: string
      ensures !StrLess(x, x)
      ensures StrLess(x, y) && StrLess(y, z) ==> StrLess(x, z)
      ensures !StrLess(x, y) && !StrLess(y, z) ==> !StrLess(x, z)
    {
      StrLessTotal(x, y);
      StrLessTotal(y, z);
      StrLessTotal(x, z);
      if StrLess(x, y) && StrLess(y, z) { StrLessTransitive(x, y, z); }
      if StrLess(z, y) && StrLess(y, x) { StrLessTransitive(z, y, x); }
    }
  }
}
