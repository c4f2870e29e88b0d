/** Small facts about sequences and sets used throughout. */
module Seqs {

  function Elements<T>(s: seq<T>): set<T> {
    set x | x in s
  }

  ghost predicate Distinct<T>(s: seq<T>) {
    forall i, j :: 0 <= i < j < |s| ==> s[i] != s[j]
  }

  lemma DistinctMultiset<T>(s: seq<T>, t: seq<T>)
    requires Distinct(s) && multiset(s) == multiset(t)
    ensures Distinct(t)
  {
    forall i, j | 0 <= i < j < |t| ensures t[i] != t[j] {
      if t[i] == t[j] {
        assert t == t[..i] + [t[i]] + t[i + 1..j] + [t[j]] + t[j + 1..];
        assert multiset(s)[t[i]] >= 2;
        CountAtMostOne(s, t[i]);
      }
    }
  }

  lemma {:induction false} CountAtMostOne<T>(s: seq<T>, x: T)
    requires Distinct(s)
    ensures multiset(s)[x] <= 1
  {
    if s != [] {
      CountAtMostOne(s[1..], x);
      assert s == [s[0]] + s[1..];
      if x == s[0] {
        assert x !in s[1..];
        assert multiset(s[1..])[x] == 0;
      }
    }
  }

  lemma SmallerSet<T>(a: set<T>, b: set<T>)
    requires a < b
    ensures |a| < |b|
  {
    var x :| x in b && x !in a;
    SubsetSize(a, b - {x});
  }

  lemma {:induction false} SubsetSize<T>(a: set<T>, b: set<T>)
    requires a <= b
    ensures |a| <= |b|
  {
    if x :| x in a {
      SubsetSize(a - {x}, b - {x});
    }
  }

  function Decimal(n: nat): string {
    var digit := ['0' + (n % 10) as char];
    if n < 10 then digit else Decimal(n / 10) + digit
  }

  /** The parts with the separator between them. */
  function JoinWith(parts: seq<string>, separator: char): string {
    if parts == [] then ""
    else if |parts| == 1 then parts[0]
    else parts[0] + [separator] + JoinWith(parts[1..], separator)
  }

  function Range(n: nat): (r: seq<nat>)
    ensures |r| == n && forall i :: 0 <= i < n ==> r[i] == i
  {
    seq(n, i => i)
  }

  lemma PopFront<T>(q: seq<T>)
    requires q != [] && Distinct(q)
    ensures Distinct(q[1..]) && Elements(q[1..]) == Elements(q) - {q[0]} && q[0] in Elements(q)
  {
    assert q == [q[0]] + q[1..];
  }

  lemma PushBack<T>(q: seq<T>, x: T)
    ensures Elements(q + [x]) == Elements(q) + {x}
    ensures Distinct(q) && x !in q ==> Distinct(q + [x])
  {
  }

  lemma {:induction false} DistinctSize<T>(s: seq<T>)
    requires Distinct(s)
    ensures |Elements(s)| == |s|
  {
    if s != [] {
      PopFront(s);
      DistinctSize(s[1..]);
      assert s[0] !in s[1..];
      assert Elements(s) == Elements(s[1..]) + {s[0]};
    }
  }

  /** The combined contribution of all elements. */
  function Sum<A, B>(s: seq<A>, f: A -> multiset<B>): multiset<B> {
    if s == [] then multiset{} else Sum(s[..|s| - 1], f) + f(s[|s| - 1])
  }

  lemma SumPush<A, B>(s: seq<A>, x: A, f: A -> multiset<B>)
    ensures Sum(s + [x], f) == Sum(s, f) + f(x)
  {
    assert (s + [x])[..|s|] == s;
  }

  lemma {:induction false} InSum<A, B>(s: seq<A>, f: A -> multiset<B>, y: B)
    ensures y in Sum(s, f) <==> exists x :: x in s && y in f(x)
  {
    if s != [] {
      InSum(s[..|s| - 1], f, y);
      assert forall x :: x in s <==> x in s[..|s| - 1] || x == s[|s| - 1];
    }
  }

  lemma {:induction false} InRangeSum<B>(n: nat, f: nat -> multiset<B>, y: B)
    ensures y in Sum<nat, B>(Range(n), f) <==> exists i: nat :: i < n && y in f(i)
  {
    if 0 < n {
      RangePush(n - 1);
      SumPush<nat, B>(Range(n - 1), n - 1, f);
      InRangeSum(n - 1, f, y);
    }
  }

  /** Increasing positions below `n`. */
  ghost predicate Ascending(at: seq<nat>, n: nat) {
    && (forall i :: 0 <= i < |at| ==> at[i] < n)
    && forall i, j :: 0 <= i < j < |at| ==> at[i] < at[j]
  }

  /** The elements at these positions. */
  function Picked<T>(s: seq<T>, at: seq<nat>): seq<T>
    requires forall i :: 0 <= i < |at| ==> at[i] < |s|
  {
    seq(|at|, i requires 0 <= i < |at| => s[at[i]])
  }

  lemma PickedPush<T>(s: seq<T>, x: T, at: seq<nat>)
    requires forall i :: 0 <= i < |at| ==> at[i] < |s|
    ensures Picked(s + [x], at) == Picked(s, at)
    ensures Picked(s + [x], at + [|s|]) == Picked(s, at) + [x]
  {
  }

  function Without<A>(s: seq<A>, k: nat): seq<A>
    requires k < |s|
  {
    s[..k] + s[k + 1..]
  }

  lemma TakePush<A>(s: seq<A>, k: nat)
    requires k < |s|
    ensures s[..k + 1] == s[..k] + [s[k]]
  {
  }

  lemma ConsPush<A>(first: A, init: seq<A>, last: A)
    ensures [first] + (init + [last]) == [first] + init + [last]
  {
  }

  lemma SplitLast<A>(s: seq<A>)
    requires s != []
    ensures s == s[..|s| - 1] + [s[|s| - 1]]
  {
  }

  lemma RangePush(n: nat)
    ensures Range(n + 1) == Range(n) + [n]
  {
  }

  lemma {:induction false} SumByIndex<A, B>(s: seq<A>, n: nat, f: nat -> multiset<B>, g: A -> multiset<B>)
    requires n <= |s| && forall i: nat :: i < |s| ==> f(i) == g(s[i])
    ensures Sum<nat, B>(Range(n), f) == Sum(s[..n], g)
  {
    if 0 < n {
      SumByIndex(s, n - 1, f, g);
      RangePush(n - 1);
      TakePush(s, n - 1);
      SumPush<nat, B>(Range(n - 1), n - 1, f);
      SumPush(s[..n - 1], s[n - 1], g);
    }
  }

  lemma {:induction false} SumAlike<A, B, C>(a: seq<A>, b: seq<B>, f: A -> multiset<C>, g: B -> multiset<C>)
    requires |a| == |b| && forall i :: 0 <= i < |a| ==> f(a[i]) == g(b[i])
    ensures Sum(a, f) == Sum(b, g)
  {
    if a != [] {
      SumAlike(a[..|a| - 1], b[..|b| - 1], f, g);
    }
  }

  lemma {:induction false} SumSame<A, B>(s: seq<A>, f: A -> multiset<B>, g: A -> multiset<B>)
    requires forall x :: x in s ==> f(x) == g(x)
    ensures Sum(s, f) == Sum(s, g)
  {
    if s != [] {
      SumSame(s[..|s| - 1], f, g);
    }
  }

  /** Taking an element out of a longer sequence leaves the end in place. */
  lemma WithoutPush<A>(s: seq<A>, x: A, k: nat)
    requires k <= |s|
    ensures Without(s + [x], k) == if k == |s| then s else Without(s, k) + [x]
  {
  }

  lemma {:induction false} SumWithout<A, B>(s: seq<A>, k: nat, f: A -> multiset<B>)
    requires k < |s|
    ensures Sum(s, f) == Sum(Without(s, k), f) + f(s[k])
  {
    var init, last := s[..|s| - 1], s[|s| - 1];
    assert s == init + [last];
    WithoutPush(init, last, k);
    if k < |init| {
      SumWithout(init, k, f);
      SumPush(Without(init, k), last, f);
    }
  }

  lemma MultisetWithout<A>(s: seq<A>, k: nat)
    requires k < |s|
    ensures multiset(s) == multiset(Without(s, k)) + multiset{s[k]}
  {
    assert s == s[..k] + [s[k]] + s[k + 1..];
  }

  lemma FindIn<A>(s: seq<A>, t: seq<A>, x: A) returns (k: nat)
    requires multiset(s) == multiset(t) && x in s
    ensures k < |t| && t[k] == x
  {
    assert x in multiset(t);
    k :| 0 <= k < |t| && t[k] == x;
  }

  lemma DropFromBoth<A>(a: seq<A>, b: seq<A>, k: nat)
    requires a != [] && multiset(a) == multiset(b) && k < |b| && b[k] == a[|a| - 1]
    ensures multiset(a[..|a| - 1]) == multiset(Without(b, k))
  {
    MultisetWithout(a, |a| - 1);
    MultisetWithout(b, k);
    assert Without(a, |a| - 1) == a[..|a| - 1];
    assert multiset(a[..|a| - 1]) == multiset(a) - multiset{b[k]} == multiset(Without(b, k));
  }

  /** Contributions add up alike in any order. */
  lemma {:induction false} SumPermutation<A, B>(a: seq<A>, b: seq<A>, f: A -> multiset<B>)
    requires multiset(a) == multiset(b)
    ensures Sum(a, f) == Sum(b, f)
    decreases |a|
  {
    if a == [] {
      assert |multiset(b)| == 0;
    } else {
      var k := FindIn(a, b, a[|a| - 1]);
      DropFromBoth(a, b, k);
      SumWithout(b, k, f);
      SumPermutation(a[..|a| - 1], Without(b, k), f);
    }
  }

  lemma SameElementsSameMultiset<T>(a: seq<T>, b: seq<T>)
    requires Distinct(a) && Distinct(b) && Elements(a) == Elements(b)
    ensures multiset(a) == multiset(b)
  {
    forall x ensures multiset(a)[x] == multiset(b)[x] {
      CountAtMostOne(a, x);
      CountAtMostOne(b, x);
      assert (x in a <==> x in Elements(a)) && (x in b <==> x in Elements(b));
    }
  }
}
