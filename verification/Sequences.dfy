/** Facts about filtering, ordering and deduplicating sequences. */
module Sequences {

  /** The elements of `s` that satisfy `p`, in their original order. */
  function Filter<T>(p: T -> bool, s: seq<T>): (r: seq<T>)
    ensures |r| <= |s|
    ensures forall x :: x in r ==> x in s && p(x)
    ensures forall x :: x in s && p(x) ==> x in r
  {
    if s == [] then [] else (if p(s[0]) then [s[0]] else []) + Filter(p, s[1..])
  }

  /** `at` lists positions in `all`, in order, and `kept` is what is there. */
  ghost predicate IsSubsequence<T>(all: seq<T>, kept: seq<T>, at: seq<nat>) {
    && StrictlyIncreasing(at)
    && |at| == |kept|
    && forall i | 0 <= i < |at| :: at[i] < |all| && kept[i] == all[at[i]]
  }

  /** What was kept are exactly the wanted elements, each where and as often as it was. */
  ghost predicate IsSelection<T>(wanted: T -> bool, all: seq<T>, kept: seq<T>, at: seq<nat>) {
    && IsSubsequence(all, kept, at)
    && forall k: nat | k < |all| :: wanted(all[k]) <==> k in at
  }

  lemma SelectedIff<T>(wanted: T -> bool, all: seq<T>, kept: seq<T>, at: seq<nat>, k: nat)
    requires IsSelection(wanted, all, kept, at) && k < |all|
    ensures k in at <==> wanted(all[k])
  {
  }

  function Shifted(at: seq<nat>): (r: seq<nat>)
    ensures |r| == |at| && forall i | 0 <= i < |at| :: r[i] == at[i] + 1
    ensures forall k: nat :: k + 1 in r <==> k in at
    ensures 0 !in r
  {
    var r := seq(|at|, i requires 0 <= i < |at| => at[i] + 1);
    assert forall i | 0 <= i < |at| :: r[i] in r;
    r
  }

  lemma SubsequenceOfMore<T>(first: T, rest: seq<T>, kept: seq<T>, at: seq<nat>)
    requires IsSubsequence(rest, kept, at)
    ensures IsSubsequence([first] + rest, kept, Shifted(at))
  {
    var all, later := [first] + rest, Shifted(at);
    forall i | 0 <= i < |at| ensures later[i] < |all| && kept[i] == all[later[i]] {
      assert all[later[i]] == rest[at[i]];
    }
  }

  lemma SubsequenceWithFirst<T>(first: T, rest: seq<T>, kept: seq<T>, at: seq<nat>)
    requires IsSubsequence(rest, kept, at)
    ensures IsSubsequence([first] + rest, [first] + kept, [0] + Shifted(at))
  {
    SubsequenceOfMore(first, rest, kept, at);
    var all, later, keeping := [first] + rest, [0] + Shifted(at), [first] + kept;
    assert forall y | y in Shifted(at) :: 0 < y;
    PrependSmaller(0, Shifted(at));
    forall i | 0 <= i < |later| ensures later[i] < |all| && keeping[i] == all[later[i]] {
      if i > 0 {
        assert later[i] == Shifted(at)[i - 1] && keeping[i] == kept[i - 1];
      }
    }
  }

  lemma SelectsOneMore<T>(wanted: T -> bool, first: T, rest: seq<T>, kept: seq<T>, at: seq<nat>)
    requires IsSelection(wanted, rest, kept, at)
    ensures wanted(first) ==> IsSelection(wanted, [first] + rest, [first] + kept, [0] + Shifted(at))
    ensures !wanted(first) ==> IsSelection(wanted, [first] + rest, kept, Shifted(at))
  {
    var all := [first] + rest;
    SubsequenceOfMore(first, rest, kept, at);
    SubsequenceWithFirst(first, rest, kept, at);
    forall k: nat | 0 < k < |all| ensures wanted(all[k]) <==> k in Shifted(at) {
      assert all[k] == rest[k - 1] && k - 1 + 1 == k;
    }
  }

  /** A filter keeps exactly the wanted elements, each where and as often as it was. */
  lemma {:induction false} FilterSelects<T>(wanted: T -> bool, all: seq<T>) returns (at: seq<nat>)
    ensures IsSelection(wanted, all, Filter(wanted, all), at)
  {
    if all == [] {
      at := [];
    } else {
      var tail := FilterSelects(wanted, all[1..]);
      SelectsOneMore(wanted, all[0], all[1..], Filter(wanted, all[1..]), tail);
      assert all == [all[0]] + all[1..];
      at := (if wanted(all[0]) then [0] else []) + Shifted(tail);
      assert [] + Shifted(tail) == Shifted(tail) && [] + Filter(wanted, all[1..]) == Filter(wanted, all[1..]);
    }
  }

  lemma {:induction false} FilterConcat<T>(p: T -> bool, a: seq<T>, b: seq<T>)
    ensures Filter(p, a + b) == Filter(p, a) + Filter(p, b)
  {
    if a == [] {
      assert a + b == b;
    } else {
      assert (a + b)[1..] == a[1..] + b;
      FilterConcat(p, a[1..], b);
    }
  }

  /** Two filters can be applied in either order. */
  lemma {:induction false} FilterCommutes<T>(p: T -> bool, q: T -> bool, s: seq<T>)
    ensures Filter(p, Filter(q, s)) == Filter(q, Filter(p, s))
  {
    if s != [] {
      FilterCommutes(p, q, s[1..]);
      FilterConcat(p, if q(s[0]) then [s[0]] else [], Filter(q, s[1..]));
      FilterConcat(q, if p(s[0]) then [s[0]] else [], Filter(p, s[1..]));
    }
  }

  function RemoveAt<T>(s: seq<T>, i: nat): seq<T>
    requires i < |s|
  {
    s[..i] + s[i + 1..]
  }

  lemma RemoveAtContents<T>(s: seq<T>, i: nat)
    requires i < |s|
    ensures multiset(s) == multiset{s[i]} + multiset(RemoveAt(s, i))
  {
    assert s == s[..i] + [s[i]] + s[i + 1..];
  }

  /** The concatenation of what `f` makes of each element. */
  function FlatMap<T, U>(f: T -> seq<U>, s: seq<T>): seq<U> {
    if s == [] then [] else f(s[0]) + FlatMap(f, s[1..])
  }

  lemma {:induction false} FlatMapConcat<T, U>(f: T -> seq<U>, a: seq<T>, b: seq<T>)
    ensures FlatMap(f, a + b) == FlatMap(f, a) + FlatMap(f, b)
  {
    if a == [] {
      assert a + b == b;
    } else {
      assert (a + b)[1..] == a[1..] + b;
      FlatMapConcat(f, a[1..], b);
    }
  }

  lemma FlatMapOne<T, U>(f: T -> seq<U>, x: T)
    ensures FlatMap(f, [x]) == f(x)
  {
    assert FlatMap(f, [x]) == f(x) + FlatMap(f, []);
  }

  /** The elements of a flattened sequence come from somewhere, and all of them are there. */
  lemma {:induction false} FlatMapMembers<T, U>(f: T -> seq<U>, s: seq<T>)
    ensures forall y :: y in FlatMap(f, s) <==> exists x :: x in s && y in f(x)
  {
    if s != [] {
      FlatMapMembers(f, s[1..]);
      assert s == [s[0]] + s[1..];
    }
  }

  lemma MovedToFront<T>(a: seq<T>, b: seq<T>, c: seq<T>)
    ensures multiset(a + (b + c)) == multiset(b) + multiset(a + c)
  {
  }

  lemma FlatMapAround<T, U>(f: T -> seq<U>, a: seq<T>, x: T, b: seq<T>)
    ensures FlatMap(f, a + ([x] + b)) == FlatMap(f, a) + (f(x) + FlatMap(f, b))
  {
    FlatMapConcat(f, a, [x] + b);
    FlatMapConcat(f, [x], b);
    FlatMapOne(f, x);
  }

  lemma RemoveAtFlatMap<T, U>(f: T -> seq<U>, s: seq<T>, i: nat)
    requires i < |s|
    ensures multiset(FlatMap(f, s)) == multiset(f(s[i])) + multiset(FlatMap(f, RemoveAt(s, i)))
  {
    var a, x, b := s[..i], s[i], s[i + 1..];
    assert s == a + ([x] + b);
    FlatMapAround(f, a, x, b);
    FlatMapConcat(f, a, b);
    MovedToFront(FlatMap(f, a), f(x), FlatMap(f, b));
  }

  lemma {:induction false} FlatMapPermutation<T, U>(f: T -> seq<U>, a: seq<T>, b: seq<T>)
    requires multiset(a) == multiset(b)
    ensures multiset(FlatMap(f, a)) == multiset(FlatMap(f, b))
  {
    if a == [] {
      assert |multiset(b)| == |b|;
    } else {
      assert a[0] in multiset(b);
      var i :| 0 <= i < |b| && b[i] == a[0];
      RemoveAtContents(a, 0);
      RemoveAtContents(b, i);
      assert multiset(RemoveAt(a, 0)) == multiset(a) - multiset{a[0]};
      assert multiset(RemoveAt(b, i)) == multiset(b) - multiset{a[0]};
      FlatMapPermutation(f, RemoveAt(a, 0), RemoveAt(b, i));
      RemoveAtFlatMap(f, a, 0);
      RemoveAtFlatMap(f, b, i);
    }
  }

  function Kept<T>(p: T -> bool): T -> seq<T> {
    (x: T) => if p(x) then [x] else []
  }

  lemma {:induction false} FilterIsFlatMap<T>(p: T -> bool, s: seq<T>)
    ensures Filter(p, s) == FlatMap(Kept(p), s)
  {
    if s != [] {
      FilterIsFlatMap(p, s[1..]);
    }
  }

  /** Permuting a sequence permutes what a filter keeps; in particular the count is the same. */
  lemma FilterPermutation<T>(p: T -> bool, a: seq<T>, b: seq<T>)
    requires multiset(a) == multiset(b)
    ensures multiset(Filter(p, a)) == multiset(Filter(p, b))
    ensures |Filter(p, a)| == |Filter(p, b)|
  {
    FilterIsFlatMap(p, a);
    FilterIsFlatMap(p, b);
    FlatMapPermutation(Kept(p), a, b);
    assert |multiset(Filter(p, a))| == |Filter(p, a)|;
    assert |multiset(Filter(p, b))| == |Filter(p, b)|;
  }

  /** Permuting what each element is mapped to permutes the whole. */
  lemma {:induction false} FlatMapPointwise<T, U>(f: T -> seq<U>, a: seq<T>, b: seq<T>)
    requires |a| == |b| && forall i | 0 <= i < |a| :: multiset(f(a[i])) == multiset(f(b[i]))
    ensures multiset(FlatMap(f, a)) == multiset(FlatMap(f, b))
  {
    if a != [] {
      assert forall i | 0 <= i < |a[1..]| :: a[1..][i] == a[i + 1] && b[1..][i] == b[i + 1];
      FlatMapPointwise(f, a[1..], b[1..]);
    }
  }

  // ---------------------------------------------------------------- keys

  predicate DistinctBy<T, K(==)>(key: T -> K, s: seq<T>) {
    forall i, j | 0 <= i < j < |s| :: key(s[i]) != key(s[j])
  }

  /** An element occurs at two places exactly when it is counted twice. */
  lemma TwiceInMultiset<T>(s: seq<T>, i: nat, j: nat)
    requires i < j < |s| && s[i] == s[j]
    ensures multiset(s)[s[i]] >= 2
  {
    RemoveAtContents(s, i);
    assert RemoveAt(s, i)[j - 1] == s[j];
    assert s[j] in multiset(RemoveAt(s, i));
  }

  lemma TwiceInSequence<T>(s: seq<T>, x: T) returns (i: nat, j: nat)
    requires multiset(s)[x] >= 2
    ensures i < j < |s| && s[i] == s[j] == x
  {
    assert x in multiset(s);
    i :| 0 <= i < |s| && s[i] == x;
    RemoveAtContents(s, i);
    assert x in multiset(RemoveAt(s, i));
    var k :| 0 <= k < |s| - 1 && RemoveAt(s, i)[k] == x;
    j := if k < i then k else k + 1;
    if j < i {
      i, j := j, i;
    }
  }

  lemma TwiceIsNotDistinct<T, K>(key: T -> K, s: seq<T>, x: T)
    requires multiset(s)[x] >= 2
    ensures !DistinctBy(key, s)
  {
    var i, j := TwiceInSequence(s, x);
    assert key(s[i]) == key(s[j]);
  }

  /** Distinctness of keys does not depend on the order. */
  lemma DistinctByPermutation<T, K>(key: T -> K, a: seq<T>, b: seq<T>)
    requires multiset(a) == multiset(b) && DistinctBy(key, a)
    ensures DistinctBy(key, b)
  {
    forall i, j | 0 <= i < j < |b| ensures key(b[i]) != key(b[j]) {
      if b[i] == b[j] {
        TwiceInMultiset(b, i, j);
        TwiceIsNotDistinct(key, a, b[i]);
      } else {
        assert b[i] in multiset(a) && b[j] in multiset(a);
        var k :| 0 <= k < |a| && a[k] == b[i];
        var m :| 0 <= m < |a| && a[m] == b[j];
      }
    }
  }

  lemma PermutationMembers<T>(a: seq<T>, b: seq<T>)
    requires multiset(a) == multiset(b)
    ensures forall x :: x in a <==> x in b
  {
    forall x ensures x in a <==> x in b {
      assert x in a <==> x in multiset(a);
      assert x in b <==> x in multiset(b);
    }
  }

  ghost predicate StrictlyIncreasing(s: seq<nat>) {
    forall i, j :: 0 <= i < j < |s| ==> s[i] < s[j]
  }

  lemma TailIsGreater(s: seq<nat>)
    requires StrictlyIncreasing(s) && s != []
    ensures StrictlyIncreasing(s[1..])
    ensures forall y :: y in s[1..] ==> s[0] < y
    ensures forall y :: y in s <==> y == s[0] || y in s[1..]
  {
    assert s == [s[0]] + s[1..];
  }

  lemma PrependSmaller(x: nat, s: seq<nat>)
    requires StrictlyIncreasing(s) && forall y :: y in s ==> x < y
    ensures StrictlyIncreasing([x] + s)
  {
    assert forall k :: 0 <= k < |s| ==> s[k] in s;
  }

  /** Puts `x` at its place in a strictly increasing sequence, unless it is already there. */
  function InsertId(x: nat, s: seq<nat>): (r: seq<nat>)
    requires StrictlyIncreasing(s)
    ensures StrictlyIncreasing(r)
    ensures forall y :: y in r <==> y == x || y in s
  {
    if s == [] then [x]
    else
      TailIsGreater(s);
      if x < s[0] then
        PrependSmaller(x, s);
        [x] + s
      else if x == s[0] then s
      else
        var rest := InsertId(x, s[1..]);
        PrependSmaller(s[0], rest);
        [s[0]] + rest
  }

  /** What sorting and then removing adjacent repeats leaves. */
  function SortDedup(s: seq<nat>): (r: seq<nat>)
    ensures StrictlyIncreasing(r)
    ensures forall y :: y in r <==> y in s
  {
    if s == [] then [] else InsertId(s[0], SortDedup(s[1..]))
  }

  lemma NonEmptyHasMember(s: seq<nat>)
    ensures s != [] ==> exists x :: x in s
  {
    if s != [] {
      assert s[0] in s;
    }
  }

  /** A strictly increasing sequence is determined by its elements. */
  lemma {:induction false} SortedUnique(a: seq<nat>, b: seq<nat>)
    requires StrictlyIncreasing(a) && StrictlyIncreasing(b)
    requires forall x :: x in a <==> x in b
    ensures a == b
  {
    NonEmptyHasMember(a);
    NonEmptyHasMember(b);
    if a != [] && b != [] {
      assert a[0] in a && b[0] in b;
      assert a[0] == b[0];
      forall x ensures x in a[1..] <==> x in b[1..] {
        assert x in a[1..] <==> x in a && x != a[0];
        assert x in b[1..] <==> x in b && x != b[0];
      }
      SortedUnique(a[1..], b[1..]);
      assert a == [a[0]] + a[1..] && b == [b[0]] + b[1..];
    }
  }
}
