/**
 * `[...xs].sort(compare)`: a copy of the input, sorted by a comparator.
 * `Array.prototype.sort` is stable (section 23.1.3.30 of ECMA-262), so
 * elements the comparator ties keep their input order. The comparator is
 * given as `before(a, b)`, true when `compare(a, b) <= 0`, that is when `a`
 * may stay ahead of `b`.
 *
 * The model is insertion sort; the contracts pin the result down (sorted,
 * a permutation, stable), so any stable sort gives the same sequence.
 * Sequences are values: the input is never changed.
 */
module Sorting {

  /** `before` is a total preorder: any two elements compare, and it is transitive. */
  ghost predicate TotalPreorder<T(!new)>(before: (T, T) -> bool)
  {
    && (forall a, b :: before(a, b) || before(b, a))
    && (forall a, b, c :: before(a, b) && before(b, c) ==> before(a, c))
  }

  ghost predicate SortedBy<T>(s: seq<T>, before: (T, T) -> bool)
  {
    forall i, j :: 0 <= i < j < |s| ==> before(s[i], s[j])
  }

  predicate Tied<T>(a: T, b: T, before: (T, T) -> bool)
  {
    before(a, b) && before(b, a)
  }

  /** The elements of `s` the comparator ties with `v`, in their order in `s`. */
  function Ties<T>(s: seq<T>, before: (T, T) -> bool, v: T): seq<T>
  {
    if |s| == 0 then [] else (if Tied(s[0], v, before) then [s[0]] else []) + Ties(s[1..], before, v)
  }

  /** Puts `x` ahead of the first element it may precede. */
  function Insert<T>(x: T, s: seq<T>, before: (T, T) -> bool): seq<T>
  {
    if |s| == 0 then [x]
    else if before(x, s[0]) then [x] + s
    else [s[0]] + Insert(x, s[1..], before)
  }

  function SortBy<T>(s: seq<T>, before: (T, T) -> bool): seq<T>
  {
    if |s| == 0 then [] else Insert(s[0], SortBy(s[1..], before), before)
  }

  lemma {:induction false} InsertPermutes<T>(x: T, s: seq<T>, before: (T, T) -> bool)
    ensures multiset(Insert(x, s, before)) == multiset(s) + multiset{x}
  {
    if |s| > 0 && !before(x, s[0]) {
      InsertPermutes(x, s[1..], before);
      assert s == [s[0]] + s[1..];
    }
  }

  lemma {:induction false} InsertSorted<T(!new)>(x: T, s: seq<T>, before: (T, T) -> bool)
    requires TotalPreorder(before)
    requires SortedBy(s, before)
    ensures SortedBy(Insert(x, s, before), before)
  {
    if |s| > 0 && !before(x, s[0]) {
      InsertSorted(x, s[1..], before);
      InsertPermutes(x, s[1..], before);
      var rest := Insert(x, s[1..], before);
      forall j | 0 <= j < |rest| ensures before(s[0], rest[j]) {
        assert rest[j] in multiset(rest);
        assert rest[j] == x || rest[j] in s[1..];
      }
    }
  }

  /** `x` goes ahead of every element it ties with, so the ties of `v` keep their order. */
  lemma {:induction false} InsertTies<T(!new)>(x: T, s: seq<T>, before: (T, T) -> bool, v: T)
    requires TotalPreorder(before)
    ensures Ties(Insert(x, s, before), before, v)
         == (if Tied(x, v, before) then [x] else []) + Ties(s, before, v)
  {
    if |s| > 0 {
      if before(x, s[0]) {
        assert ([x] + s)[1..] == s;
      } else {
        InsertTies(x, s[1..], before, v);
        var rest := Insert(x, s[1..], before);
        assert ([s[0]] + rest)[1..] == rest;
        var headTie := if Tied(s[0], v, before) then [s[0]] else [];
        var xTie := if Tied(x, v, before) then [x] else [];
        assert Ties(Insert(x, s, before), before, v) == headTie + (xTie + Ties(s[1..], before, v));
        assert Ties(s, before, v) == headTie + Ties(s[1..], before, v);
        if Tied(x, v, before) {
          assert !Tied(s[0], v, before);
          assert headTie == [];
        } else {
          assert xTie == [];
        }
      }
    }
  }

  lemma {:induction false} SortByCorrect<T(!new)>(s: seq<T>, before: (T, T) -> bool)
    requires TotalPreorder(before)
    ensures SortedBy(SortBy(s, before), before)
    ensures multiset(SortBy(s, before)) == multiset(s)
    ensures forall v :: Ties(SortBy(s, before), before, v) == Ties(s, before, v)
  {
    if |s| > 0 {
      SortByCorrect(s[1..], before);
      InsertSorted(s[0], SortBy(s[1..], before), before);
      InsertPermutes(s[0], SortBy(s[1..], before), before);
      assert s == [s[0]] + s[1..];
      forall v ensures Ties(SortBy(s, before), before, v) == Ties(s, before, v) {
        InsertTies(s[0], SortBy(s[1..], before), before, v);
      }
    }
  }

  /** `b.key - a.key` as a comparator: descending by a number. */
  function Descending<T>(key: T -> real): (T, T) -> bool
  {
    (a, b) => key(a) >= key(b)
  }

  lemma DescendingIsPreorder<T(!new)>(key: T -> real)
    ensures TotalPreorder(Descending(key))
  {
  }

  /** An integer key read as a number, for comparators that subtract counts. */
  function IntKey<T>(key: T -> int): T -> real
  {
    x => key(x) as real
  }

  /**
   * A copy of the summaries sorted with the comparison "b minus a" on `key`: the same elements,
   * non-increasing in `key`, with equal keys in input order.
   */
  function SortDescending<T(!new)>(summaries: seq<T>, key: T -> real): (r: seq<T>)
    ensures multiset(r) == multiset(summaries)
    ensures forall i, j :: 0 <= i < j < |r| ==> key(r[i]) >= key(r[j])
    ensures forall v :: Ties(r, Descending(key), v) == Ties(summaries, Descending(key), v)
  {
    DescendingIsPreorder(key);
    SortByCorrect(summaries, Descending(key));
    SortBy(summaries, Descending(key))
  }
}
