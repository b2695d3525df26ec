// Go's order on strings, and sorting by a string key.
module Ordering {
  predicate Less(a: string, b: string) {
    b != "" && (a == "" || a[0] < b[0] || (a[0] == b[0] && Less(a[1..], b[1..])))
  }

  // At the first place where two strings differ the earlier one has ended or has the smaller character.
  ghost predicate Precedes(a: string, b: string) {
    exists k: nat :: PrecedesAt(a, b, k)
  }

  ghost predicate PrecedesAt(a: string, b: string, k: nat) {
    k <= |a| && k < |b| && a[..k] == b[..k] && (k == |a| || a[k] < b[k])
  }

  lemma {:induction false} LessIsPrecedes(a: string, b: string)
    ensures Less(a, b) <==> Precedes(a, b)
  {
    if b == "" {
    } else if a == "" || a[0] < b[0] {
      assert PrecedesAt(a, b, 0);
    } else {
      LessIsPrecedes(a[1..], b[1..]);
      if a[0] == b[0] && Precedes(a[1..], b[1..]) {
        var k: nat :| PrecedesAt(a[1..], b[1..], k);
        assert a[..k + 1] == [a[0]] + a[1..][..k] && b[..k + 1] == [b[0]] + b[1..][..k];
        assert PrecedesAt(a, b, k + 1);
      }
      if k: nat :| PrecedesAt(a, b, k) {
        assert k > 0 && a[0] == a[..k][0] == b[..k][0] == b[0];
        assert a[1..][..k - 1] == a[..k][1..] == b[..k][1..] == b[1..][..k - 1];
        assert PrecedesAt(a[1..], b[1..], k - 1);
      }
    }
  }

  lemma {:induction false} LessTransitive(a: string, b: string, c: string)
    requires Less(a, b) && Less(b, c)
    ensures Less(a, c)
  {
    if a != "" && a[0] == b[0] == c[0] {
      LessTransitive(a[1..], b[1..], c[1..]);
    }
  }

  lemma {:induction false} LessIrreflexive(a: string)
    ensures !Less(a, a)
  {
    if a != "" {
      LessIrreflexive(a[1..]);
    }
  }

  lemma {:induction false} LessTotal(a: string, b: string)
    ensures Less(a, b) || Less(b, a) || a == b
  {
    if a != "" && b != "" && a[0] == b[0] {
      LessTotal(a[1..], b[1..]);
      assert a == [a[0]] + a[1..] && b == [b[0]] + b[1..];
    }
  }

  function Insert<T>(x: T, xs: seq<T>, key: T -> string): seq<T> {
    if xs == [] then [x]
    else if Less(key(xs[0]), key(x)) then [xs[0]] + Insert(x, xs[1..], key)
    else [x] + xs
  }

  function SortBy<T>(xs: seq<T>, key: T -> string): seq<T> {
    if xs == [] then [] else Insert(xs[0], SortBy(xs[1..], key), key)
  }

  ghost predicate Sorted<T>(xs: seq<T>, key: T -> string) {
    forall i, j :: 0 <= i < j < |xs| ==> !Less(key(xs[j]), key(xs[i]))
  }

  ghost predicate DistinctKeys<T>(xs: seq<T>, key: T -> string) {
    forall i, j :: 0 <= i < j < |xs| ==> key(xs[i]) != key(xs[j])
  }

  lemma {:induction false} InsertSorted<T>(x: T, xs: seq<T>, key: T -> string)
    requires Sorted(xs, key)
    ensures Sorted(Insert(x, xs, key), key)
    ensures multiset(Insert(x, xs, key)) == multiset(xs) + multiset{x}
  {
    if xs == [] {
    } else if Less(key(xs[0]), key(x)) {
      var rest := Insert(x, xs[1..], key);
      InsertSorted(x, xs[1..], key);
      assert xs == [xs[0]] + xs[1..];
      forall k | 0 <= k < |rest| ensures !Less(key(rest[k]), key(xs[0])) {
        assert rest[k] in multiset(rest);
        assert rest[k] in xs[1..] || rest[k] == x;
        if rest[k] == x && Less(key(x), key(xs[0])) {
          LessTransitive(key(xs[0]), key(x), key(xs[0]));
          LessIrreflexive(key(xs[0]));
        }
      }
    } else {
      forall k | 0 <= k < |xs| ensures !Less(key(xs[k]), key(x)) {
        if Less(key(xs[k]), key(x)) {
          LessTotal(key(xs[0]), key(xs[k]));
          if Less(key(xs[0]), key(xs[k])) { LessTransitive(key(xs[0]), key(xs[k]), key(x)); }
        }
      }
    }
  }

  lemma {:induction false} SortBySorts<T>(xs: seq<T>, key: T -> string)
    ensures Sorted(SortBy(xs, key), key)
    ensures multiset(SortBy(xs, key)) == multiset(xs)
    ensures |SortBy(xs, key)| == |xs|
  {
    if xs != [] {
      SortBySorts(xs[1..], key);
      InsertSorted(xs[0], SortBy(xs[1..], key), key);
      assert xs == [xs[0]] + xs[1..];
      assert |multiset(SortBy(xs, key))| == |multiset(xs)|;
    }
  }

  lemma HeadsAgree<T>(a: seq<T>, b: seq<T>, key: T -> string)
    requires Sorted(a, key) && Sorted(b, key) && DistinctKeys(a, key) && DistinctKeys(b, key)
    requires a != [] && b != [] && multiset(a) == multiset(b)
    ensures a[0] == b[0]
  {
    assert a[0] in multiset(b) && b[0] in multiset(a);
    var i :| 0 <= i < |b| && b[i] == a[0];
    var j :| 0 <= j < |a| && a[j] == b[0];
    if i != 0 && j != 0 {
      LessTotal(key(a[0]), key(b[0]));
    }
  }

  lemma TailsMatch<T>(a: seq<T>, b: seq<T>)
    requires a != [] && b != [] && a[0] == b[0] && multiset(a) == multiset(b)
    ensures multiset(a[1..]) == multiset(b[1..])
  {
    assert a == [a[0]] + a[1..] && b == [b[0]] + b[1..];
    assert multiset(a[1..]) == multiset(a) - multiset{a[0]};
    assert multiset(b[1..]) == multiset(b) - multiset{b[0]};
  }

  // With distinct keys there is only one sorted arrangement.
  lemma {:induction false} SortedIsUnique<T>(a: seq<T>, b: seq<T>, key: T -> string)
    requires Sorted(a, key) && Sorted(b, key) && DistinctKeys(a, key) && DistinctKeys(b, key)
    requires multiset(a) == multiset(b)
    ensures a == b
  {
    assert |multiset(a)| == |a| && |multiset(b)| == |b|;
    if a != [] {
      HeadsAgree(a, b, key);
      TailsMatch(a, b);
      SortedIsUnique(a[1..], b[1..], key);
    }
  }

  lemma DistinctKeysPermute<T>(a: seq<T>, b: seq<T>, key: T -> string)
    requires DistinctKeys(a, key) && multiset(a) == multiset(b)
    ensures DistinctKeys(b, key)
  {
    forall i, j | 0 <= i < j < |b| ensures key(b[i]) != key(b[j]) {
      if key(b[i]) == key(b[j]) {
        assert b[i] in multiset(a) && b[j] in multiset(a);
        var k :| 0 <= k < |a| && a[k] == b[i];
        var m :| 0 <= m < |a| && a[m] == b[j];
        assert k == m;
        OnceInDistinct(a, k, key);
        TwiceCounts(b, i, j);
      }
    }
  }

  lemma {:induction false} OnceInDistinct<T>(a: seq<T>, k: nat, key: T -> string)
    requires k < |a| && DistinctKeys(a, key)
    ensures multiset(a)[a[k]] == 1
  {
    assert a == a[..k] + [a[k]] + a[k + 1..];
    assert a[k] !in a[..k] && a[k] !in a[k + 1..];
  }

  lemma TwiceCounts<T>(b: seq<T>, i: nat, j: nat)
    requires i < j < |b| && b[i] == b[j]
    ensures multiset(b)[b[i]] >= 2
  {
    assert b == b[..i] + [b[i]] + b[i + 1..j] + [b[j]] + b[j + 1..];
  }

  // A sort does not depend on the order in which distinct items arrive.
  lemma SortIgnoresOrder<T>(a: seq<T>, b: seq<T>, key: T -> string)
    requires DistinctKeys(a, key) && multiset(a) == multiset(b)
    ensures SortBy(a, key) == SortBy(b, key)
    ensures DistinctKeys(SortBy(a, key), key)
  {
    SortBySorts(a, key);
    SortBySorts(b, key);
    DistinctKeysPermute(a, SortBy(a, key), key);
    DistinctKeysPermute(a, SortBy(b, key), key);
    SortedIsUnique(SortBy(a, key), SortBy(b, key), key);
  }
}
