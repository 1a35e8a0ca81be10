/** Finite lists and sets of positions: the vocabulary shared by the cluster modules. */
module Lists {

  ghost predicate Distinct<T>(s: seq<T>) {
    forall i, j :: 0 <= i < j < |s| ==> s[i] != s[j]
  }

  function ToSet<T>(s: seq<T>): set<T> { set x | x in s }

  /** The elements of `s` outside `b`, in their original order. */
  function Without<T>(s: seq<T>, b: set<T>): seq<T> {
    if s == [] then []
    else if s[0] in b then Without(s[1..], b)
    else [s[0]] + Without(s[1..], b)
  }

  function Flatten<T>(parts: seq<seq<T>>): seq<T> {
    if parts == [] then [] else parts[0] + Flatten(parts[1..])
  }

  function Reverse<T>(s: seq<T>): (r: seq<T>)
    ensures |r| == |s|
  {
    if s == [] then [] else Reverse(s[1..]) + [s[0]]
  }

  /** `BitSet::First`: the smallest element. */
  function First(s: set<nat>): (m: nat)
    requires s != {}
    ensures m in s && forall x :: x in s ==> m <= x
  {
    SmallestExists(s);
    var m :| m in s && forall x :: x in s ==> m <= x;
    m
  }

  /** `BitSet::Last`: the largest element. */
  function Last(s: set<nat>): (m: nat)
    requires s != {}
    ensures m in s && forall x :: x in s ==> x <= m
  {
    LargestExists(s);
    var m :| m in s && forall x :: x in s ==> x <= m;
    m
  }

  lemma {:induction false} SmallestExists(s: set<nat>)
    requires s != {}
    ensures exists m :: m in s && forall x :: x in s ==> m <= x
  {
    var m :| m in s;
    var below := set x | x in s && x < m;
    while below != {}
      invariant m in s && below == set x | x in s && x < m
      decreases m
    {
      m :| m in below;
      below := set x | x in s && x < m;
    }
    forall x | x in s ensures m <= x { assert x !in below; }
  }

  lemma {:induction false} LargestExists(s: set<nat>)
    requires s != {}
    ensures exists m :: m in s && forall x :: x in s ==> x <= m
  {
    var m :| m in s;
    var above := set x | x in s && m < x;
    while above != {}
      invariant m in s && above == set x | x in s && m < x
      decreases above
    {
      m :| m in above;
      above := set x | x in s && m < x;
    }
    forall x | x in s ensures x <= m { assert x !in above; }
  }

  lemma {:induction false} DistinctConcat<T>(a: seq<T>, b: seq<T>)
    ensures Distinct(a + b) <==> Distinct(a) && Distinct(b) && ToSet(a) !! ToSet(b)
  {
    var c := a + b;
    if Distinct(c) {
      forall i, j | 0 <= i < j < |b| ensures b[i] != b[j] { assert c[|a| + i] == b[i] && c[|a| + j] == b[j]; }
      forall i, j | 0 <= i < j < |a| ensures a[i] != a[j] { assert c[i] == a[i] && c[j] == a[j]; }
      forall x | x in a ensures x !in b {
        var i :| 0 <= i < |a| && a[i] == x;
        assert c[i] == x;
        forall j | 0 <= j < |b| ensures b[j] != x { assert c[|a| + j] == b[j]; }
      }
    }
    if Distinct(a) && Distinct(b) && ToSet(a) !! ToSet(b) {
      forall i, j | 0 <= i < j < |c| ensures c[i] != c[j] {
        if i < |a| <= j {
          assert c[i] == a[i] && a[i] in ToSet(a);
          assert c[j] == b[j - |a|] && b[j - |a|] in ToSet(b);
        }
      }
    }
  }

  lemma {:induction false} ToSetConcat<T>(a: seq<T>, b: seq<T>)
    ensures ToSet(a + b) == ToSet(a) + ToSet(b)
  {
  }

  lemma {:induction false} DistinctCard<T>(s: seq<T>)
    requires Distinct(s)
    ensures |ToSet(s)| == |s|
  {
    if s != [] {
      assert s == s[..|s| - 1] + [s[|s| - 1]];
      DistinctConcat(s[..|s| - 1], [s[|s| - 1]]);
      DistinctCard(s[..|s| - 1]);
      assert ToSet(s) == ToSet(s[..|s| - 1]) + {s[|s| - 1]};
    }
  }

  lemma {:induction false} WithoutConcat<T>(a: seq<T>, c: seq<T>, b: set<T>)
    ensures Without(a + c, b) == Without(a, b) + Without(c, b)
  {
    if a == [] {
      assert a + c == c;
    } else {
      assert (a + c)[1..] == a[1..] + c;
      WithoutConcat(a[1..], c, b);
    }
  }

  lemma {:induction false} WithoutSet<T>(s: seq<T>, b: set<T>)
    ensures ToSet(Without(s, b)) == ToSet(s) - b
    ensures Distinct(s) ==> Distinct(Without(s, b))
  {
    if s != [] {
      WithoutSet(s[1..], b);
      assert s == [s[0]] + s[1..];
      ToSetConcat([s[0]], s[1..]);
      DistinctConcat([s[0]], s[1..]);
      DistinctConcat([s[0]], Without(s[1..], b));
      ToSetConcat([s[0]], Without(s[1..], b));
    }
  }

  lemma {:induction false} WithoutTwice<T>(s: seq<T>, a: set<T>, b: set<T>)
    ensures Without(Without(s, a), b) == Without(s, a + b)
  {
    if s != [] { WithoutTwice(s[1..], a, b); }
  }

  lemma {:induction false} WithoutNone<T>(s: seq<T>, b: set<T>)
    requires ToSet(s) !! b
    ensures Without(s, b) == s
  {
    if s != [] {
      assert s[0] in ToSet(s);
      assert ToSet(s[1..]) <= ToSet(s);
      WithoutNone(s[1..], b);
    }
  }

  lemma {:induction false} WithoutAll<T>(s: seq<T>, b: set<T>)
    requires ToSet(s) <= b
    ensures Without(s, b) == []
  {
    if s != [] {
      assert s[0] in ToSet(s);
      assert ToSet(s[1..]) <= ToSet(s);
      WithoutAll(s[1..], b);
    }
  }

  lemma {:induction false} FlattenConcat<T>(a: seq<seq<T>>, b: seq<seq<T>>)
    ensures Flatten(a + b) == Flatten(a) + Flatten(b)
  {
    if a == [] {
      assert a + b == b;
    } else {
      assert (a + b)[1..] == a[1..] + b;
      FlattenConcat(a[1..], b);
    }
  }

  lemma {:induction false} FlattenOne<T>(p: seq<T>)
    ensures Flatten([p]) == p
  {
  }

  /** Flattening the first `m` parts gives a prefix of the whole. */
  lemma {:induction false} FlattenSplit<T>(parts: seq<seq<T>>, m: nat)
    requires m <= |parts|
    ensures Flatten(parts) == Flatten(parts[..m]) + Flatten(parts[m..])
  {
    assert parts == parts[..m] + parts[m..];
    FlattenConcat(parts[..m], parts[m..]);
  }

  lemma {:induction false} PrefixSet<T>(s: seq<T>, k: nat)
    requires k <= |s|
    ensures ToSet(s[..k]) + ToSet(s[k..]) == ToSet(s)
    ensures Distinct(s) ==> ToSet(s[..k]) !! ToSet(s[k..]) && Distinct(s[..k]) && Distinct(s[k..])
  {
    assert s == s[..k] + s[k..];
    ToSetConcat(s[..k], s[k..]);
    DistinctConcat(s[..k], s[k..]);
  }

  lemma {:induction false} ReverseConcat<T>(a: seq<T>, b: seq<T>)
    ensures Reverse(a + b) == Reverse(b) + Reverse(a)
  {
    if a == [] {
      assert a + b == b;
      assert Reverse(b) + Reverse(a) == Reverse(b);
    } else {
      assert (a + b)[1..] == a[1..] + b;
      ReverseConcat(a[1..], b);
    }
  }

  lemma {:induction false} ReverseAt<T>(s: seq<T>, k: nat)
    requires k < |s|
    ensures Reverse(s)[k] == s[|s| - 1 - k]
  {
    if k < |s| - 1 { ReverseAt(s[1..], k); }
  }

  lemma {:induction false} ReverseTwice<T>(s: seq<T>)
    ensures Reverse(Reverse(s)) == s
  {
    forall k | 0 <= k < |s| ensures Reverse(Reverse(s))[k] == s[k] {
      ReverseAt(Reverse(s), k);
      ReverseAt(s, |s| - 1 - k);
    }
  }

  lemma {:induction false} ReverseSet<T>(s: seq<T>)
    ensures ToSet(Reverse(s)) == ToSet(s)
    ensures Distinct(s) ==> Distinct(Reverse(s))
  {
    forall x | x in s ensures x in Reverse(s) {
      var i :| 0 <= i < |s| && s[i] == x;
      ReverseAt(s, |s| - 1 - i);
    }
    forall x | x in Reverse(s) ensures x in s {
      var i :| 0 <= i < |s| && Reverse(s)[i] == x;
      ReverseAt(s, i);
    }
    forall i, j | 0 <= i < j < |s| && Distinct(s) ensures Reverse(s)[i] != Reverse(s)[j] {
      ReverseAt(s, i);
      ReverseAt(s, j);
    }
  }

  lemma {:induction false} SubsetCard<T>(a: set<T>, b: set<T>)
    requires a <= b
    ensures |a| <= |b|
    ensures a < b ==> |a| < |b|
  {
    assert b == a + (b - a);
    assert |b| == |a| + |b - a|;
    if a < b {
      var x :| x in b && x !in a;
      assert x in b - a;
    }
  }
}
