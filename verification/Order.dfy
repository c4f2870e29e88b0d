/** Lexicographic order on strings (Rust's `Ord` for `String`) and the stable sort built on it. */
module Order {
  import opened Seqs

  predicate Less(a: string, b: string) {
    if b == [] then false
    else if a == [] then true
    else if a[0] == b[0] then Less(a[1..], b[1..])
    else a[0] < b[0]
  }

  /** The strings agree up to `k`, where `a` ends or has the smaller character. */
  predicate DivergeAt(a: string, b: string, k: nat) {
    k <= |a| && k < |b| && a[..k] == b[..k] && (k == |a| || a[k] < b[k])
  }

  ghost predicate Precedes(a: string, b: string) {
    exists k :: DivergeAt(a, b, k)
  }

  /** A string is less than another when it ends, or has the smaller character, where they first differ. */
  lemma {:induction false} LessIff(a: string, b: string)
    ensures Less(a, b) <==> Precedes(a, b)
  {
    if a == [] && b != [] {
      assert DivergeAt(a, b, 0);
    } else if a != [] && b != [] && a[0] == b[0] {
      LessIff(a[1..], b[1..]);
      DivergeLater(a, b);
    } else if a != [] && b != [] && a[0] < b[0] {
      assert DivergeAt(a, b, 0);
    }
  }

  lemma DivergeLater(a: string, b: string)
    requires a != [] && b != [] && a[0] == b[0]
    ensures Precedes(a, b) <==> Precedes(a[1..], b[1..])
  {
    if k: nat :| DivergeAt(a, b, k) {
      assert a[1..][..k - 1] == a[..k][1..] && b[1..][..k - 1] == b[..k][1..];
      assert DivergeAt(a[1..], b[1..], k - 1);
    }
    if k: nat :| DivergeAt(a[1..], b[1..], k) {
      assert a[..k + 1] == [a[0]] + a[1..][..k] && b[..k + 1] == [b[0]] + b[1..][..k];
      assert DivergeAt(a, b, k + 1);
    }
  }

  lemma {:induction false} Trichotomy(a: string, b: string)
    ensures Less(a, b) || Less(b, a) || a == b
    ensures !(Less(a, b) && Less(b, a))
    ensures Less(a, b) ==> a != b
  {
    if a != [] && b != [] && a[0] == b[0] {
      Trichotomy(a[1..], b[1..]);
      assert a == [a[0]] + a[1..] && b == [b[0]] + b[1..];
    }
  }

  lemma {:induction false} Transitive(a: string, b: string, c: string)
    requires !Less(b, a) && !Less(c, b)
    ensures !Less(c, a)
  {
    if a != [] && b != [] && c != [] && a[0] == b[0] == c[0] {
      Transitive(a[1..], b[1..], c[1..]);
    }
  }

  /** Nondecreasing in the key. */
  ghost predicate SortedBy<T(!new)>(s: seq<T>, key: T -> string) {
    forall i, j :: 0 <= i < j < |s| ==> !Less(key(s[j]), key(s[i]))
  }

  ghost predicate StrictlySorted(s: seq<string>) {
    forall i, j :: 0 <= i < j < |s| ==> Less(s[i], s[j])
  }

  /** Place `x` in front of the first element whose key is not smaller. */
  function Insert<T>(x: T, s: seq<T>, key: T -> string): seq<T> {
    if s == [] then [x]
    else if Less(key(s[0]), key(x)) then [s[0]] + Insert(x, s[1..], key)
    else [x] + s
  }

  /** Stable sort by key. */
  function Sort<T>(s: seq<T>, key: T -> string): seq<T> {
    if s == [] then [] else Insert(s[0], Sort(s[1..], key), key)
  }

  /** No element has a smaller key. */
  ghost predicate NoneBelow<T(!new)>(x: T, s: seq<T>, key: T -> string) {
    forall z :: z in s ==> !Less(key(z), key(x))
  }

  lemma ConsSorted<T(!new)>(x: T, s: seq<T>, key: T -> string)
    requires SortedBy(s, key) && NoneBelow(x, s, key)
    ensures SortedBy([x] + s, key)
  {
  }

  lemma FirstIsLeast<T(!new)>(x: T, s: seq<T>, key: T -> string)
    requires SortedBy(s, key) && s != [] && !Less(key(s[0]), key(x))
    ensures NoneBelow(x, s, key)
  {
    forall z | z in s ensures !Less(key(z), key(x)) {
      var j :| 0 <= j < |s| && s[j] == z;
      if j > 0 {
        Transitive(key(x), key(s[0]), key(z));
      }
    }
  }

  lemma {:induction false} InsertKeeps<T(!new)>(x: T, s: seq<T>, key: T -> string)
    requires SortedBy(s, key)
    ensures SortedBy(Insert(x, s, key), key)
    ensures multiset(Insert(x, s, key)) == multiset{x} + multiset(s)
  {
    if s == [] {
    } else if Less(key(s[0]), key(x)) {
      var t := Insert(x, s[1..], key);
      InsertKeeps(x, s[1..], key);
      assert s == [s[0]] + s[1..];
      Trichotomy(key(s[0]), key(x));
      assert forall z :: z in t ==> z in multiset(t);
      assert NoneBelow(s[0], t, key);
      ConsSorted(s[0], t, key);
    } else {
      FirstIsLeast(x, s, key);
      ConsSorted(x, s, key);
    }
  }

  lemma {:induction false} SortSorts<T(!new)>(s: seq<T>, key: T -> string)
    ensures SortedBy(Sort(s, key), key)
    ensures multiset(Sort(s, key)) == multiset(s)
  {
    if s != [] {
      SortSorts(s[1..], key);
      InsertKeeps(s[0], Sort(s[1..], key), key);
      assert s == [s[0]] + s[1..];
    }
  }

  function SortStrings(s: seq<string>): seq<string> {
    Sort(s, (x: string) => x)
  }

  /** Sorting distinct strings lists them in strictly increasing order. */
  lemma SortStringsStrict(s: seq<string>)
    requires Distinct(s)
    ensures StrictlySorted(SortStrings(s))
    ensures multiset(SortStrings(s)) == multiset(s)
  {
    var t := SortStrings(s);
    SortSorts(s, (x: string) => x);
    DistinctMultiset(s, t);
    forall i, j | 0 <= i < j < |t| ensures Less(t[i], t[j]) {
      Trichotomy(t[i], t[j]);
    }
  }

  /** A set has one strictly increasing enumeration. */
  lemma {:induction false} StrictlySortedUnique(s: seq<string>, t: seq<string>)
    requires StrictlySorted(s) && StrictlySorted(t)
    requires forall x :: x in s <==> x in t
    ensures s == t
  {
    if s == [] {
      assert forall i :: 0 <= i < |t| ==> t[i] in t;
    } else {
      assert s[0] in t;
      assert t[0] in s;
      var i :| 0 <= i < |t| && t[i] == s[0];
      var j :| 0 <= j < |s| && s[j] == t[0];
      Trichotomy(s[0], t[0]);
      assert s[0] == t[0];
      forall x ensures x in s[1..] <==> x in t[1..] {
        Trichotomy(s[0], s[0]);
        assert x in s <==> x == s[0] || x in s[1..];
        assert x in t <==> x == t[0] || x in t[1..];
      }
      StrictlySortedUnique(s[1..], t[1..]);
      assert s == [s[0]] + s[1..] && t == [t[0]] + t[1..];
    }
  }

  /** The keys in iteration order. */
  ghost function KeyOrder(keys: set<string>): (names: seq<string>)
    ensures StrictlySorted(names) && Elements(names) == keys
  {
    var list := SomeListing(keys);
    SortStringsStrict(list);
    assert forall x :: x in SortStrings(list) <==> x in multiset(SortStrings(list));
    assert forall x :: x in list <==> x in multiset(list);
    SortStrings(list)
  }

  ghost function SomeListing(keys: set<string>): (list: seq<string>)
    ensures Distinct(list) && Elements(list) == keys
  {
    if keys == {} then []
    else
      var x :| x in keys;
      var rest := SomeListing(keys - {x});
      assert Elements([x] + rest) == {x} + Elements(rest);
      [x] + rest
  }

  /** The keys as iteration over an ordered map yields them. */
  method InKeyOrder(keys: set<string>) returns (names: seq<string>)
    ensures names == KeyOrder(keys)
  {
    var list := [];
    var left := keys;
    while left != {}
      invariant left <= keys && Distinct(list) && Elements(list) == keys - left
    {
      var x :| x in left;
      PushBack(list, x);
      assert x !in Elements(list);
      list := list + [x];
      left := left - {x};
    }
    SortStringsStrict(list);
    names := SortStrings(list);
    assert forall x :: x in names <==> x in multiset(names);
    assert forall x :: x in list <==> x in multiset(list);
    assert forall x :: x in names <==> x in Elements(list);
    assert forall x :: x in KeyOrder(keys) <==> x in Elements(KeyOrder(keys));
    StrictlySortedUnique(names, KeyOrder(keys));
  }
}
