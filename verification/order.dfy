/** The ordering the formatter sorts keys by: Go's `<` on strings, which is
    what `sort.Strings` uses. Go compares the UTF-8 bytes of the two strings;
    for Unicode scalar values (Dafny's `char`) comparing code points gives the
    same answer, so the model compares characters. */
module Order {

  /** Lexicographic "strictly less": a proper prefix is smaller, otherwise the
      first position where the strings differ decides. */
  predicate Less(a: string, b: string)
    decreases |a|
  {
    if |a| == 0 then |b| > 0
    else if |b| == 0 then false
    else if a[0] != b[0] then a[0] < b[0]
    else Less(a[1..], b[1..])
  }

  predicate LessEq(a: string, b: string) {
    a == b || Less(a, b)
  }

  lemma LessIrreflexive(a: string)
    ensures !Less(a, a)
    decreases |a|
  {
    if |a| > 0 {
      LessIrreflexive(a[1..]);
    }
  }

  lemma LessAsymmetric(a: string, b: string)
    ensures !(Less(a, b) && Less(b, a))
    decreases |a|
  {
    if |a| > 0 && |b| > 0 && a[0] == b[0] {
      LessAsymmetric(a[1..], b[1..]);
    }
  }

  lemma LessTransitive(a: string, b: string, c: string)
    requires Less(a, b) && Less(b, c)
    ensures Less(a, c)
    decreases |a|
  {
    if |a| > 0 && a[0] == b[0] && b[0] == c[0] {
      LessTransitive(a[1..], b[1..], c[1..]);
    }
  }

  lemma LessTotal(a: string, b: string)
    ensures a == b || Less(a, b) || Less(b, a)
    decreases |a|
  {
    if |a| > 0 && |b| > 0 && a[0] == b[0] {
      LessTotal(a[1..], b[1..]);
      if a[1..] == b[1..] {
        assert a == [a[0]] + a[1..];
        assert b == [b[0]] + b[1..];
      }
    }
  }

  lemma LessEqTransitive(a: string, b: string, c: string)
    requires LessEq(a, b) && LessEq(b, c)
    ensures LessEq(a, c)
  {
    if a != b && b != c {
      LessTransitive(a, b, c);
    }
  }

  /** Every element is smaller than every later one, so no element repeats. */
  predicate StrictlyAscending(xs: seq<string>) {
    forall i, j :: 0 <= i < j < |xs| ==> Less(xs[i], xs[j])
  }

  /** The order `sort.Strings` leaves its argument in. */
  predicate Ascending(xs: seq<string>) {
    forall i, j :: 0 <= i < j < |xs| ==> LessEq(xs[i], xs[j])
  }

  predicate Distinct(xs: seq<string>) {
    forall i, j :: 0 <= i < j < |xs| ==> xs[i] != xs[j]
  }

  /** `k` is the smallest element of `s`. */
  predicate IsLeast(k: string, s: set<string>) {
    k in s && forall j :: j in s && j != k ==> Less(k, j)
  }

  lemma LeastExists(s: set<string>)
    requires s != {}
    ensures exists k :: IsLeast(k, s)
    decreases s
  {
    var x :| x in s;
    if s == {x} {
      assert IsLeast(x, s);
    } else {
      LeastExists(s - {x});
      var y :| IsLeast(y, s - {x});
      LessTotal(x, y);
      if Less(x, y) {
        forall j | j in s && j != x
          ensures Less(x, j)
        {
          if j != y {
            LessTransitive(x, y, j);
          }
        }
        assert IsLeast(x, s);
      } else {
        assert IsLeast(y, s);
      }
    }
  }

  lemma LeastUnique(s: set<string>)
    ensures forall a, b :: IsLeast(a, s) && IsLeast(b, s) ==> a == b
  {
    forall a, b | IsLeast(a, s) && IsLeast(b, s)
      ensures a == b
    {
      if a != b {
        LessAsymmetric(a, b);
      }
    }
  }

  /** The keys of a map in the order the formatter emits them: the unique
      strictly ascending enumeration of the set. */
  function SortedKeys(keys: set<string>): (ks: seq<string>)
    ensures StrictlyAscending(ks)
    ensures forall k :: k in ks <==> k in keys
    ensures |ks| == |keys|
    decreases keys
  {
    if keys == {} then []
    else
      LeastExists(keys);
      LeastUnique(keys);
      var k :| IsLeast(k, keys);
      [k] + SortedKeys(keys - {k})
  }

  lemma HeadIsMember(xs: seq<string>)
    ensures xs != [] ==> xs[0] in xs
  {
  }

  /** Two strictly ascending sequences with the same elements are equal. */
  lemma {:induction false} AscendingUnique(xs: seq<string>, ys: seq<string>)
    requires StrictlyAscending(xs) && StrictlyAscending(ys)
    requires forall k :: k in xs <==> k in ys
    ensures xs == ys
    decreases |xs|
  {
    if xs == [] {
      HeadIsMember(ys);
    } else {
      assert ys != [] by { assert xs[0] in ys; }
      var s := set k | k in xs;
      assert IsLeast(xs[0], s) by {
        forall j | j in s && j != xs[0]
          ensures Less(xs[0], j)
        {
          var i :| 0 <= i < |xs| && xs[i] == j;
        }
      }
      assert IsLeast(ys[0], s) by {
        forall j | j in s && j != ys[0]
          ensures Less(ys[0], j)
        {
          var i :| 0 <= i < |ys| && ys[i] == j;
        }
      }
      LeastUnique(s);
      forall k
        ensures k in xs[1..] <==> k in ys[1..]
      {
        if k in xs[1..] {
          var i :| 0 <= i < |xs[1..]| && xs[1..][i] == k;
          assert Less(xs[0], xs[i + 1]);
          LessIrreflexive(k);
          assert k in xs;
          assert k in ys;
          var j :| 0 <= j < |ys| && ys[j] == k;
          assert j != 0;
          assert ys[1..][j - 1] == k;
        }
        if k in ys[1..] {
          var i :| 0 <= i < |ys[1..]| && ys[1..][i] == k;
          assert Less(ys[0], ys[i + 1]);
          LessIrreflexive(k);
          assert k in ys;
          assert k in xs;
          var j :| 0 <= j < |xs| && xs[j] == k;
          assert j != 0;
          assert xs[1..][j - 1] == k;
        }
      }
      AscendingUnique(xs[1..], ys[1..]);
      assert xs == [xs[0]] + xs[1..];
      assert ys == [ys[0]] + ys[1..];
    }
  }

  /** Any strictly ascending enumeration of a set is the one `SortedKeys` gives. */
  lemma SortedKeysUnique(keys: set<string>, ks: seq<string>)
    requires StrictlyAscending(ks)
    requires forall k :: k in ks <==> k in keys
    ensures SortedKeys(keys) == ks
  {
    AscendingUnique(SortedKeys(keys), ks);
  }

  /** Insertion of one string into an ascending sequence. */
  function Insert(x: string, xs: seq<string>): (r: seq<string>)
    requires Ascending(xs)
    ensures Ascending(r)
    ensures multiset(r) == multiset(xs) + multiset{x}
  {
    if xs == [] then [x]
    else if LessEq(x, xs[0]) then
      assert forall j :: 0 <= j < |xs| ==> LessEq(x, xs[j]) by {
        forall j | 0 <= j < |xs|
          ensures LessEq(x, xs[j])
        {
          if j > 0 {
            LessEqTransitive(x, xs[0], xs[j]);
          }
        }
      }
      [x] + xs
    else
      LessTotal(x, xs[0]);
      var t := Insert(x, xs[1..]);
      assert xs == [xs[0]] + xs[1..];
      assert forall j :: 0 <= j < |t| ==> LessEq(xs[0], t[j]) by {
        forall j | 0 <= j < |t|
          ensures LessEq(xs[0], t[j])
        {
          assert t[j] in multiset(t);
          if t[j] != x {
            assert t[j] in multiset(xs[1..]);
            var i :| 0 <= i < |xs[1..]| && xs[1..][i] == t[j];
            assert xs[i + 1] == t[j];
          }
        }
      }
      [xs[0]] + t
  }

  /** Go's `sort.Strings`: an ascending permutation of its argument. */
  function SortStrings(xs: seq<string>): (r: seq<string>)
    ensures Ascending(r)
    ensures multiset(r) == multiset(xs)
  {
    if xs == [] then []
    else
      assert xs == [xs[0]] + xs[1..];
      Insert(xs[0], SortStrings(xs[1..]))
  }

  /** A sequence has no repeated element exactly when no element occurs twice
      in its multiset. */
  lemma {:induction false} DistinctCounts(xs: seq<string>)
    ensures Distinct(xs) <==> forall x :: multiset(xs)[x] <= 1
  {
    if xs != [] {
      var t := xs[1..];
      assert xs == [xs[0]] + t;
      DistinctCounts(t);
      if Distinct(xs) {
        assert Distinct(t) by {
          forall i, j | 0 <= i < j < |t|
            ensures t[i] != t[j]
          {
            assert t[i] == xs[i + 1] && t[j] == xs[j + 1];
          }
        }
        assert xs[0] !in t by {
          forall i | 0 <= i < |t|
            ensures t[i] != xs[0]
          {
            assert t[i] == xs[i + 1];
          }
        }
      }
      if forall x :: multiset(xs)[x] <= 1 {
        assert multiset(xs)[xs[0]] == 1 + multiset(t)[xs[0]];
        forall x
          ensures multiset(t)[x] <= 1
        {
          assert multiset(xs)[x] <= 1;
        }
        forall i, j | 0 <= i < j < |xs|
          ensures xs[i] != xs[j]
        {
          if i == 0 {
            assert xs[j] in t;
          } else {
            assert xs[i] == t[i - 1] && xs[j] == t[j - 1];
          }
        }
      }
    }
  }

  /** `sort.Strings` applied to the keys of a map, collected in whatever order
      the map's iteration produced them, always yields `SortedKeys`. */
  lemma SortIgnoresIterationOrder(keys: set<string>, iteration: seq<string>)
    requires Distinct(iteration)
    requires forall k :: k in iteration <==> k in keys
    ensures SortStrings(iteration) == SortedKeys(keys)
  {
    var r := SortStrings(iteration);
    DistinctCounts(iteration);
    DistinctCounts(r);
    forall k
      ensures k in r <==> k in keys
    {
      assert k in r <==> k in multiset(r);
      assert k in iteration <==> k in multiset(iteration);
    }
    assert StrictlyAscending(r) by {
      forall i, j | 0 <= i < j < |r|
        ensures Less(r[i], r[j])
      {
        assert LessEq(r[i], r[j]);
      }
    }
    SortedKeysUnique(keys, r);
  }
}
