/**
 * Sequence operations that JavaScript code gets from its built-ins:
 * `Array.from(new Set(...))` (an insertion-ordered set) and the stable
 * `Array.prototype.sort` with a comparator.
 */
module Seqs {

  /** No element occurs twice. */
  predicate NoDup<T(==)>(s: seq<T>)
  {
    forall i, j :: 0 <= i < j < |s| ==> s[i] != s[j]
  }

  /** Two duplicate-free sequences with no common element concatenate without duplicates. */
  lemma NoDupConcat<T>(a: seq<T>, b: seq<T>)
    requires NoDup(a) && NoDup(b)
    requires forall x :: x in a ==> x !in b
    ensures NoDup(a + b)
  {
    forall i, j | 0 <= i < j < |a + b|
      ensures (a + b)[i] != (a + b)[j]
    {
      if i < |a| && j >= |a| {
        assert (a + b)[i] in a && (a + b)[j] == b[j - |a|];
      }
    }
  }

  /** `set.add(x)` on an insertion-ordered set held as a sequence. */
  function Add<T(==)>(acc: seq<T>, x: T): seq<T>
  {
    if x in acc then acc else acc + [x]
  }

  /**
   * Adding every element of `xs`, in order, to the insertion-ordered set `acc`:
   * `acc` stays a prefix, and what is appended are the elements of `xs` not
   * already present, each once.
   */
  function AddAll<T(==,!new)>(acc: seq<T>, xs: seq<T>): (r: seq<T>)
    ensures |acc| <= |r| && r[..|acc|] == acc
    ensures forall x :: x in r <==> x in acc || x in xs
    ensures forall i :: |acc| <= i < |r| ==> r[i] !in acc
    ensures NoDup(acc) ==> NoDup(r)
  {
    if xs == [] then acc else Add(AddAll(acc, xs[..|xs| - 1]), xs[|xs| - 1])
  }

  lemma AddAllSnoc<T(!new)>(acc: seq<T>, xs: seq<T>, x: T)
    ensures AddAll(acc, xs + [x]) == Add(AddAll(acc, xs), x)
  {
    assert (xs + [x])[..|xs|] == xs;
  }

  /** `Array.from(new Set(xs))`: the distinct elements of `xs` in order of first occurrence. */
  function Distinct<T(==,!new)>(xs: seq<T>): (r: seq<T>)
    ensures NoDup(r)
    ensures forall x :: x in r <==> x in xs
  {
    AddAll([], xs)
  }

  /** Adding two batches one after the other is adding their concatenation. */
  lemma {:induction false} AddAllConcat<T(!new)>(acc: seq<T>, xs: seq<T>, ys: seq<T>)
    ensures AddAll(acc, xs + ys) == AddAll(AddAll(acc, xs), ys)
  {
    if ys == [] {
      assert xs + ys == xs;
    } else {
      assert (xs + ys)[..|xs + ys| - 1] == xs + ys[..|ys| - 1];
      AddAllConcat(acc, xs, ys[..|ys| - 1]);
    }
  }

  /** Adding elements that are all present already changes nothing. */
  lemma {:induction false} AddAllPresent<T(!new)>(acc: seq<T>, xs: seq<T>)
    requires forall x :: x in xs ==> x in acc
    ensures AddAll(acc, xs) == acc
  {
    if xs != [] {
      assert xs[|xs| - 1] in xs;
      AddAllPresent(acc, xs[..|xs| - 1]);
    }
  }

  /** A sequence without duplicates is its own `Array.from(new Set(...))`. */
  lemma {:induction false} DistinctOfNoDup<T(!new)>(xs: seq<T>)
    requires NoDup(xs)
    ensures Distinct(xs) == xs
  {
    if xs != [] {
      var init := xs[..|xs| - 1];
      assert NoDup(init);
      DistinctOfNoDup(init);
      assert xs[|xs| - 1] !in init;
      assert init + [xs[|xs| - 1]] == xs;
    }
  }

  /** Deduplicating keeps the length exactly when there was no duplicate. */
  lemma {:induction false} DistinctLength<T(!new)>(xs: seq<T>)
    ensures |Distinct(xs)| == |xs| <==> NoDup(xs)
  {
    if NoDup(xs) {
      DistinctOfNoDup(xs);
    } else {
      DistinctShorter(xs);
    }
  }

  lemma {:induction false} DistinctShorter<T(!new)>(xs: seq<T>)
    requires !NoDup(xs)
    ensures |Distinct(xs)| < |xs|
  {
    var init, x := xs[..|xs| - 1], xs[|xs| - 1];
    if !NoDup(init) {
      DistinctShorter(init);
    } else {
      DistinctOfNoDup(init);
      var i, j :| 0 <= i < j < |xs| && xs[i] == xs[j];
      assert j == |xs| - 1 && init[i] == x;
    }
  }

  /** Appending an element not yet present keeps a sequence duplicate-free. */
  lemma NoDupSnoc<T>(s: seq<T>, x: T)
    requires NoDup(s) && x !in s
    ensures NoDup(s + [x])
  {
    var r := s + [x];
    forall i, j | 0 <= i < j < |r| ensures r[i] != r[j] {
      if j == |s| {
        assert r[i] == s[i];
      } else {
        assert r[i] == s[i] && r[j] == s[j];
      }
    }
  }

  /** In a sequence without duplicates every element occurs at most once. */
  lemma {:induction false} NoDupOnce<T>(s: seq<T>, x: T)
    requires NoDup(s)
    ensures multiset(s)[x] <= 1
  {
    if s != [] {
      var init := s[..|s| - 1];
      assert NoDup(init);
      NoDupOnce(init, x);
      assert s == init + [s[|s| - 1]];
      assert s[|s| - 1] !in init;
    }
  }

  /** A permutation of a sequence without duplicates has none either. */
  lemma NoDupPerm<T>(a: seq<T>, b: seq<T>)
    requires NoDup(a) && multiset(a) == multiset(b)
    ensures NoDup(b)
  {
    forall i, j | 0 <= i < j < |b|
      ensures b[i] != b[j]
    {
      if b[i] == b[j] {
        var x := b[i];
        assert b == b[..j] + [b[j]] + b[j + 1..];
        assert x in b[..j];
        assert multiset(b)[x] >= 2;
        NoDupOnce(a, x);
      }
    }
  }

  /** `s.indexOf(x)`: the first position of `x` in `s`, or -1. */
  function FirstIndex<T(==)>(s: seq<T>, x: T): (r: int)
    ensures -1 <= r < |s|
    ensures r == -1 <==> x !in s
    ensures r >= 0 ==> s[r] == x && forall j :: 0 <= j < r ==> s[j] != x
  {
    if s == [] then -1
    else if s[0] == x then 0
    else var k := FirstIndex(s[1..], x); if k == -1 then -1 else k + 1
  }

  /** `s.splice(k, 1)` */
  function RemoveAt<T>(s: seq<T>, k: nat): (r: seq<T>)
    requires k < |s|
    ensures |r| == |s| - 1
    ensures forall i :: 0 <= i < k ==> r[i] == s[i]
    ensures forall i :: k <= i < |r| ==> r[i] == s[i + 1]
  {
    s[..k] + s[k + 1..]
  }

  /** A non-empty sequence is its front followed by its last element. */
  lemma FrontAndLast<T>(s: seq<T>)
    requires s != []
    ensures s == s[..|s| - 1] + [s[|s| - 1]]
  {
  }

  /** An element appended to a sequence without it is found last, and removing it gives the sequence back. */
  lemma AppendedFoundLast<T>(s: seq<T>, x: T)
    requires x !in s
    ensures FirstIndex(s + [x], x) == |s|
    ensures RemoveAt(s + [x], |s|) == s
  {
    assert (s + [x])[..|s|] == s;
  }

  /** Removing one element keeps a duplicate-free sequence duplicate-free. */
  lemma RemoveAtNoDup<T>(s: seq<T>, k: nat)
    requires k < |s| && NoDup(s)
    ensures NoDup(RemoveAt(s, k))
  {
    var r := RemoveAt(s, k);
    forall i, j | 0 <= i < j < |r| ensures r[i] != r[j] {
      var i' := if i < k then i else i + 1;
      var j' := if j < k then j else j + 1;
      assert r[i] == s[i'] && r[j] == s[j'];
    }
  }

  // ----- sums -----

  /** The sum of `f` over the elements of `s` (an accumulation with `+=`). */
  function SumOf<T>(s: seq<T>, f: T -> int): int
  {
    if s == [] then 0 else SumOf(s[..|s| - 1], f) + f(s[|s| - 1])
  }

  /** Extending a prefix by one element adds that element's value. */
  lemma SumPrefixStep<T>(s: seq<T>, i: nat, f: T -> int)
    requires i < |s|
    ensures SumOf(s[..i + 1], f) == SumOf(s[..i], f) + f(s[i])
  {
    assert s[..i + 1][..i] == s[..i];
  }

  lemma {:induction false} SumConcat<T>(a: seq<T>, b: seq<T>, f: T -> int)
    ensures SumOf(a + b, f) == SumOf(a, f) + SumOf(b, f)
    decreases |b|
  {
    if b != [] {
      var init := b[..|b| - 1];
      var last := b[|b| - 1];
      assert a + b == (a + init) + [last];
      assert (a + b)[..|a + b| - 1] == a + init;
      assert SumOf(a + b, f) == SumOf(a + init, f) + f(last);
      assert b == init + [last];
      assert SumOf(b, f) == SumOf(init, f) + f(last);
      SumConcat(a, init, f);
    } else {
      assert a + b == a;
    }
  }

  /** Removing the last element of `a` and its first occurrence in a permutation `b` leaves permutations. */
  lemma PermRemoveLast<T>(a: seq<T>, b: seq<T>)
    requires a != [] && multiset(a) == multiset(b)
    ensures 0 <= FirstIndex(b, a[|a| - 1])
    ensures var k := FirstIndex(b, a[|a| - 1]);
      multiset(a[..|a| - 1]) == multiset(b[..k] + b[k + 1..])
  {
    var x, init := a[|a| - 1], a[..|a| - 1];
    assert a == init + [x];
    assert x in multiset(b);
    var k := FirstIndex(b, x);
    var rest := b[..k] + b[k + 1..];
    assert b == b[..k] + [x] + b[k + 1..];
    assert multiset(b) == multiset(rest) + multiset{x};
    assert multiset(a) == multiset(init) + multiset{x};
    MultisetCancel(multiset(init), multiset(rest), x);
  }

  lemma MultisetCancel<T>(m1: multiset<T>, m2: multiset<T>, x: T)
    requires m1 + multiset{x} == m2 + multiset{x}
    ensures m1 == m2
  {
    assert m1 == (m1 + multiset{x}) - multiset{x};
    assert m2 == (m2 + multiset{x}) - multiset{x};
  }

  /** A sum does not depend on the order of the summands. */
  lemma {:induction false} SumPerm<T>(a: seq<T>, b: seq<T>, f: T -> int)
    requires multiset(a) == multiset(b)
    ensures SumOf(a, f) == SumOf(b, f)
    decreases |a|
  {
    if a == [] {
      assert |b| == |multiset(b)|;
    } else {
      var x, init := a[|a| - 1], a[..|a| - 1];
      PermRemoveLast(a, b);
      var k := FirstIndex(b, x);
      SumPerm(init, b[..k] + b[k + 1..], f);
      SumRemoveAt(b, k, f);
    }
  }

  /** Taking one element out of a sequence takes its value out of the sum. */
  lemma SumRemoveAt<T>(b: seq<T>, k: nat, f: T -> int)
    requires k < |b|
    ensures SumOf(b, f) == SumOf(b[..k] + b[k + 1..], f) + f(b[k])
  {
    var pre, x, post := b[..k], b[k], b[k + 1..];
    assert b == pre + [x] + post;
    SumConcat(pre + [x], post, f);
    SumSnoc(pre, x, f);
    SumConcat(pre, post, f);
  }

  lemma SumSnoc<T>(s: seq<T>, x: T, f: T -> int)
    ensures SumOf(s + [x], f) == SumOf(s, f) + f(x)
  {
    assert (s + [x])[..|s|] == s;
  }

  // ----- stable sort -----

  /** A comparator `le(a, b)` ("a may come before b") that is total and transitive. */
  ghost predicate TotalPreorder<T(!new)>(le: (T, T) -> bool)
  {
    (forall a, b :: le(a, b) || le(b, a))
    && (forall a, b, c :: le(a, b) && le(b, c) ==> le(a, c))
  }

  predicate Sorted<T>(s: seq<T>, le: (T, T) -> bool)
  {
    forall i, j :: 0 <= i < j < |s| ==> le(s[i], s[j])
  }

  /** `a` and `b` compare equal: the comparator returns 0 for them. */
  predicate Tie<T>(le: (T, T) -> bool, a: T, b: T)
  {
    le(a, b) && le(b, a)
  }

  /** The elements of `s` that compare equal to `e`, in their order in `s`. */
  function Ties<T>(s: seq<T>, le: (T, T) -> bool, e: T): seq<T>
  {
    if s == [] then [] else (if Tie(le, s[0], e) then [s[0]] else []) + Ties(s[1..], le, e)
  }

  /** Insert `x` into the sorted `s` after every element that does not compare greater than it. */
  function Insert<T>(x: T, s: seq<T>, le: (T, T) -> bool): (r: seq<T>)
    ensures |r| == |s| + 1
  {
    if s == [] then [x]
    else if !le(s[0], x) then [x] + s
    else [s[0]] + Insert(x, s[1..], le)
  }

  /** `s.sort(cmp)`: JavaScript's sort is stable, which insertion from the left reproduces. */
  function Sort<T>(s: seq<T>, le: (T, T) -> bool): (r: seq<T>)
    ensures |r| == |s|
  {
    if s == [] then [] else Insert(s[|s| - 1], Sort(s[..|s| - 1], le), le)
  }

  lemma {:induction false} InsertPerm<T>(x: T, s: seq<T>, le: (T, T) -> bool)
    ensures multiset(Insert(x, s, le)) == multiset(s) + multiset{x}
  {
    if s != [] && le(s[0], x) {
      InsertPerm(x, s[1..], le);
      assert s == [s[0]] + s[1..];
    }
  }

  lemma {:induction false} InsertSorted<T(!new)>(x: T, s: seq<T>, le: (T, T) -> bool)
    requires TotalPreorder(le)
    requires Sorted(s, le)
    ensures Sorted(Insert(x, s, le), le)
  {
    if s == [] {
    } else if !le(s[0], x) {
      assert le(x, s[0]);
    } else {
      var t := s[1..];
      InsertSorted(x, t, le);
      InsertPerm(x, t, le);
      var r := Insert(x, t, le);
      forall j | 0 <= j < |r|
        ensures le(s[0], r[j])
      {
        assert r[j] in multiset(r);
        assert r[j] == x || r[j] in t;
      }
    }
  }

  /** The sorted result is a permutation of the input. */
  lemma {:induction false} SortPerm<T>(s: seq<T>, le: (T, T) -> bool)
    ensures multiset(Sort(s, le)) == multiset(s)
  {
    if s != [] {
      var init := s[..|s| - 1];
      SortPerm(init, le);
      InsertPerm(s[|s| - 1], Sort(init, le), le);
      assert s == init + [s[|s| - 1]];
    }
  }

  /** The sorted result is in comparator order. */
  lemma {:induction false} SortSorted<T(!new)>(s: seq<T>, le: (T, T) -> bool)
    requires TotalPreorder(le)
    ensures Sorted(Sort(s, le), le)
  {
    if s != [] {
      SortSorted(s[..|s| - 1], le);
      InsertSorted(s[|s| - 1], Sort(s[..|s| - 1], le), le);
    }
  }

  lemma {:induction false} TiesConcat<T>(a: seq<T>, b: seq<T>, le: (T, T) -> bool, e: T)
    ensures Ties(a + b, le, e) == Ties(a, le, e) + Ties(b, le, e)
  {
    if a == [] {
      assert a + b == b;
    } else {
      var head: seq<T> := if Tie(le, a[0], e) then [a[0]] else [];
      assert (a + b)[0] == a[0] && (a + b)[1..] == a[1..] + b;
      assert Ties(a + b, le, e) == head + Ties(a[1..] + b, le, e);
      assert Ties(a, le, e) == head + Ties(a[1..], le, e);
      TiesConcat(a[1..], b, le, e);
    }
  }

  lemma {:induction false} TiesNone<T>(s: seq<T>, le: (T, T) -> bool, e: T)
    requires forall i :: 0 <= i < |s| ==> !Tie(le, s[i], e)
    ensures Ties(s, le, e) == []
  {
    if s != [] {
      TiesNone(s[1..], le, e);
    }
  }

  lemma {:induction false} InsertTies<T(!new)>(x: T, s: seq<T>, le: (T, T) -> bool, e: T)
    requires TotalPreorder(le)
    requires Sorted(s, le)
    ensures Ties(Insert(x, s, le), le, e) == Ties(s, le, e) + (if Tie(le, x, e) then [x] else [])
  {
    if s == [] {
    } else if !le(s[0], x) {
      var r := [x] + s;
      assert r[0] == x && r[1..] == s;
      assert Ties(r, le, e) == (if Tie(le, x, e) then [x] else []) + Ties(s, le, e);
      if Tie(le, x, e) {
        forall i | 0 <= i < |s|
          ensures !Tie(le, s[i], e)
        {
          if i > 0 {
            assert le(s[0], s[i]);
          }
        }
        TiesNone(s, le, e);
      }
    } else {
      var t := s[1..];
      assert Sorted(t, le);
      InsertTies(x, t, le, e);
      var r := [s[0]] + Insert(x, t, le);
      assert r[0] == s[0] && r[1..] == Insert(x, t, le);
      assert Ties(r, le, e) == (if Tie(le, s[0], e) then [s[0]] else []) + Ties(Insert(x, t, le), le, e);
    }
  }

  /**
   * Stability: the elements that compare equal to any `e` keep their relative
   * order from the input.
   */
  lemma {:induction false} SortStable<T(!new)>(s: seq<T>, le: (T, T) -> bool, e: T)
    requires TotalPreorder(le)
    ensures Ties(Sort(s, le), le, e) == Ties(s, le, e)
  {
    if s != [] {
      var init, x := s[..|s| - 1], s[|s| - 1];
      SortStable(init, le, e);
      SortSorted(init, le);
      InsertTies(x, Sort(init, le), le, e);
      assert s == init + [x];
      TiesConcat(init, [x], le, e);
    }
  }

  /** A sort by an integer key (`(a, b) => key(a) - key(b)`) compares with a total preorder. */
  lemma KeyOrderTotal<T(!new)>(key: T -> int)
    ensures TotalPreorder((a: T, b: T) => key(a) <= key(b))
  {
  }

  // ----- lexicographic string order -----

  /** `a <= b` in JavaScript's default string comparison (code unit by code unit). */
  predicate LexLe(a: string, b: string)
  {
    if a == [] then true
    else if b == [] then false
    else if a[0] != b[0] then a[0] < b[0]
    else LexLe(a[1..], b[1..])
  }

  lemma {:induction false} LexLeTotal(a: string, b: string)
    ensures LexLe(a, b) || LexLe(b, a)
  {
    if a != [] && b != [] && a[0] == b[0] {
      LexLeTotal(a[1..], b[1..]);
    }
  }

  lemma {:induction false} LexLeTrans(a: string, b: string, c: string)
    requires LexLe(a, b) && LexLe(b, c)
    ensures LexLe(a, c)
  {
    if a != [] && b != [] && c != [] && a[0] == b[0] && b[0] == c[0] {
      LexLeTrans(a[1..], b[1..], c[1..]);
    }
  }

  lemma {:induction false} LexLeAntisym(a: string, b: string)
    requires LexLe(a, b) && LexLe(b, a)
    ensures a == b
  {
    if a != [] && b != [] {
      LexLeAntisym(a[1..], b[1..]);
      assert a == [a[0]] + a[1..] && b == [b[0]] + b[1..];
    }
  }

  /** The default string comparison is a total preorder (indeed a total order). */
  lemma LexOrderTotal()
    ensures TotalPreorder(LexLe)
  {
    forall a, b
      ensures LexLe(a, b) || LexLe(b, a)
    {
      LexLeTotal(a, b);
    }
    forall a, b, c | LexLe(a, b) && LexLe(b, c)
      ensures LexLe(a, c)
    {
      LexLeTrans(a, b, c);
    }
  }

  /** `strings.sort()` without a comparator. */
  function SortLex(s: seq<string>): (r: seq<string>)
    ensures |r| == |s|
  {
    Sort(s, LexLe)
  }

  /** `strings.sort()` gives an ordered permutation of its input. */
  lemma SortLexCorrect(s: seq<string>)
    ensures multiset(SortLex(s)) == multiset(s)
    ensures forall i, j :: 0 <= i < j < |s| ==> LexLe(SortLex(s)[i], SortLex(s)[j])
  {
    SortPerm(s, LexLe);
    LexOrderTotal();
    SortSorted(s, LexLe);
  }

  /** After a lexicographic sort the first element is the least and the last the greatest. */
  lemma SortLexEnds(s: seq<string>)
    requires s != []
    ensures SortLex(s)[0] in s && SortLex(s)[|s| - 1] in s
    ensures forall x :: x in s ==> LexLe(SortLex(s)[0], x) && LexLe(x, SortLex(s)[|s| - 1])
  {
    SortLexCorrect(s);
    var r := SortLex(s);
    assert r[0] in multiset(r) && r[|s| - 1] in multiset(r);
    forall x | x in s
      ensures LexLe(r[0], x) && LexLe(x, r[|s| - 1])
    {
      assert x in multiset(r);
      var k :| 0 <= k < |r| && r[k] == x;
      LexLeRefl(x);
    }
  }

  lemma {:induction false} LexLeRefl(a: string)
    ensures LexLe(a, a)
  {
    if a != [] {
      LexLeRefl(a[1..]);
    }
  }
}
