/**
 First-seen ordering. Both Gantt scripts build their tables by inserting a key
 only on its first appearance, so a key's position in the table is the number
 of distinct keys seen before it. This module defines that order on sequences
 and proves the facts the layout relies on: positions never change once given,
 and the table holds exactly the distinct values seen.
 */
module FirstSeen {

  /** The element at position `i`. Distinctness is stated through it, so that a
      proof draws on distinctness only at the positions it names. */
  ghost function At<K>(s: seq<K>, i: nat): K
    requires i < |s|
  {
    s[i]
  }

  /** No element occurs twice. */
  ghost predicate Distinct<K>(s: seq<K>)
  {
    forall i: nat, j: nat :: i < j < |s| ==> At(s, i) != At(s, j)
  }

  /** Two different positions of a sequence without repetitions hold different elements. */
  lemma DistinctAt<K>(s: seq<K>, i: nat, j: nat)
    requires Distinct(s) && i < |s| && j < |s| && i != j
    ensures s[i] != s[j]
  {
    if i < j {
      assert At(s, i) != At(s, j);
    } else {
      assert At(s, j) != At(s, i);
    }
  }

  /** Appending an element that does not occur yet keeps a sequence free of repetitions. */
  lemma DistinctSnoc<K>(s: seq<K>, k: K)
    requires Distinct(s) && k !in s
    ensures Distinct(s + [k])
  {
    var r := s + [k];
    forall i: nat, j: nat | i < j < |r|
      ensures At(r, i) != At(r, j)
    {
      if j < |s| {
        DistinctAt(s, i, j);
      }
    }
  }

  /** The part before the last element has no repetitions and does not hold the last element. */
  lemma DistinctInit<K>(s: seq<K>)
    requires Distinct(s) && s != []
    ensures Distinct(s[..|s| - 1]) && s[|s| - 1] !in s[..|s| - 1]
  {
    var init := s[..|s| - 1];
    forall i: nat, j: nat | i < j < |init|
      ensures At(init, i) != At(init, j)
    {
      DistinctAt(s, i, j);
    }
    if s[|s| - 1] in init {
      var i :| 0 <= i < |init| && init[i] == s[|s| - 1];
      DistinctAt(s, i, |s| - 1);
    }
  }

  /** Insert `k` unless it is already present; a new key takes the next unused position. */
  function Remember<K(==)>(keys: seq<K>, k: K): (r: seq<K>)
    ensures keys <= r && k in r
    ensures forall x :: x in r ==> x in keys || x == k
    ensures k !in keys ==> |r| == |keys| + 1 && r[|keys|] == k
    ensures k in keys ==> r == keys
  {
    if k in keys then keys else keys + [k]
  }

  /** Remembering a key keeps a table free of repetitions. */
  lemma RememberDistinct<K>(keys: seq<K>, k: K)
    requires Distinct(keys)
    ensures Distinct(Remember(keys, k))
  {
    if k !in keys {
      DistinctSnoc(keys, k);
    }
  }

  /** The distinct elements of `xs`, in the order of their first occurrence. */
  function Order<K(==)>(xs: seq<K>): (r: seq<K>)
    ensures Distinct(r)
    ensures forall x :: x in r ==> x in xs
    ensures forall x :: x in xs ==> x in r
    ensures |r| <= |xs|
    decreases |xs|
  {
    if xs == [] then []
    else
      assert xs == xs[..|xs| - 1] + [xs[|xs| - 1]];
      RememberDistinct(Order(xs[..|xs| - 1]), xs[|xs| - 1]);
      Remember(Order(xs[..|xs| - 1]), xs[|xs| - 1])
  }

  /** A member of a sequence has a first occurrence. */
  lemma {:induction false} FirstOccurrence<K>(s: seq<K>, k: K)
    requires k in s
    ensures exists i :: 0 <= i < |s| && s[i] == k && k !in s[..i]
    decreases |s|
  {
    if s[0] == k {
      assert s[..0] == [];
    } else {
      FirstOccurrence(s[1..], k);
      var j :| 0 <= j < |s| - 1 && s[1..][j] == k && k !in s[1..][..j];
      assert s[..j + 1] == [s[0]] + s[1..][..j];
    }
  }

  /** Position of the first occurrence of `k` in `s`. */
  ghost function IndexOf<K>(s: seq<K>, k: K): (i: nat)
    requires k in s
    ensures i < |s| && s[i] == k && k !in s[..i]
  {
    FirstOccurrence(s, k);
    var i :| 0 <= i < |s| && s[i] == k && k !in s[..i];
    i
  }

  /** In a sequence without repetitions, the element at `i` is first found at `i`. */
  lemma IndexOfAt<K>(s: seq<K>, i: nat)
    requires Distinct(s) && i < |s|
    ensures IndexOf(s, s[i]) == i
  {
    var k := IndexOf(s, s[i]);
    if k != i {
      DistinctAt(s, k, i);
    }
  }

  /** The 1-based rank of `k` in a first-seen table. */
  ghost function Rank<K>(keys: seq<K>, k: K): (n: nat)
    requires k in keys
    ensures 1 <= n <= |keys| && keys[n - 1] == k
  {
    IndexOf(keys, k) + 1
  }

  /** Different keys of a table have different ranks. */
  lemma RankIdentifies<K>(keys: seq<K>, a: K, b: K)
    requires a in keys && b in keys
    ensures Rank(keys, a) == Rank(keys, b) <==> a == b
  {
  }

  /** Appending one element to the input extends the order by at most that element. */
  lemma OrderSnoc<K>(xs: seq<K>, x: K)
    ensures Order(xs + [x]) == Remember(Order(xs), x)
  {
    assert (xs + [x])[..|xs|] == xs;
  }

  /** Being a prefix is transitive. */
  lemma PrefixTrans<K>(a: seq<K>, b: seq<K>, c: seq<K>)
    requires a <= b && b <= c
    ensures a <= c
  {
    assert a == b[..|a|] && b == c[..|b|];
    assert a == c[..|a|];
  }

  /** One more element of input extends the order, never reshuffles it. */
  lemma OrderGrows<K>(xs: seq<K>, k: nat)
    requires k < |xs|
    ensures Order(xs[..k]) <= Order(xs[..k + 1])
  {
    assert xs[..k + 1] == xs[..k] + [xs[k]];
    OrderSnoc(xs[..k], xs[k]);
  }

  /** Later input never disturbs the order already established: the order of a
      prefix of the input is a prefix of the order of the input. */
  lemma {:induction false} OrderOfPrefix<K>(xs: seq<K>, k: nat)
    requires k <= |xs|
    ensures Order(xs[..k]) <= Order(xs)
    decreases |xs| - k
  {
    if k == |xs| {
      assert xs[..k] == xs;
    } else {
      OrderOfPrefix(xs, k + 1);
      OrderGrows(xs, k);
      PrefixTrans(Order(xs[..k]), Order(xs[..k + 1]), Order(xs));
    }
  }

  /** A key's position is the same in any table that extends the one it was found in. */
  lemma IndexOfPrefix<K>(s: seq<K>, t: seq<K>, k: K)
    requires s <= t && k in s
    ensures IndexOf(t, k) == IndexOf(s, k)
  {
    var i, j := IndexOf(s, k), IndexOf(t, k);
    forall m | 0 <= m < j
      ensures t[m] != k
    {
      assert t[m] in t[..j];
    }
    forall m | 0 <= m < i
      ensures s[m] != k
    {
      assert s[m] in s[..i];
    }
    assert t[i] == s[i];
  }

  /** A key appended to a table it was missing from sits at the end. */
  lemma IndexOfAppended<K>(keys: seq<K>, k: K)
    requires k !in keys
    ensures IndexOf(keys + [k], k) == |keys|
  {
    forall m | 0 <= m < |keys|
      ensures (keys + [k])[m] != k
    {
      assert (keys + [k])[m] == keys[m];
    }
  }

  /** An element occurring for the first time at `j` takes the next unused position:
      the number of distinct elements before it. */
  lemma {:induction false} NewKeyPosition<K>(xs: seq<K>, j: nat)
    requires j < |xs| && xs[j] !in xs[..j]
    ensures xs[j] in Order(xs)
    ensures IndexOf(Order(xs), xs[j]) == |Order(xs[..j])|
  {
    var before := Order(xs[..j]);
    assert xs[..j + 1] == xs[..j] + [xs[j]];
    OrderSnoc(xs[..j], xs[j]);
    var upto := Order(xs[..j + 1]);
    assert upto == before + [xs[j]];
    assert IndexOf(upto, xs[j]) == |before| by {
      forall m | 0 <= m < |before|
        ensures upto[m] != xs[j]
      {
        assert upto[m] == before[m];
      }
    }
    OrderOfPrefix(xs, j + 1);
    IndexOfPrefix(upto, Order(xs), xs[j]);
  }

  /** An element occurring for the first time adds one entry to the order. */
  lemma NewKeyGrowsOrder<K>(xs: seq<K>, i: nat)
    requires i < |xs| && xs[i] !in xs[..i]
    ensures |Order(xs[..i + 1])| == |Order(xs[..i])| + 1
  {
    assert xs[..i + 1] == xs[..i] + [xs[i]];
    OrderSnoc(xs[..i], xs[i]);
    assert xs[i] !in Order(xs[..i]);
  }

  /** The order of a shorter prefix is a prefix of the order of a longer one. */
  lemma OrderOfPrefixes<K>(xs: seq<K>, a: nat, b: nat)
    requires a <= b <= |xs|
    ensures Order(xs[..a]) <= Order(xs[..b])
    ensures |Order(xs[..a])| <= |Order(xs[..b])|
  {
    assert xs[..b][..a] == xs[..a];
    OrderOfPrefix(xs[..b], a);
  }

  /** Fewer distinct elements occur before an element's first occurrence than
      before any later position. */
  lemma FewerBefore<K>(xs: seq<K>, i: nat, j: nat)
    requires i < j <= |xs| && xs[i] !in xs[..i]
    ensures |Order(xs[..i])| < |Order(xs[..j])|
  {
    NewKeyGrowsOrder(xs, i);
    OrderOfPrefixes(xs, i + 1, j);
  }

  /** Positions follow first appearance: an element whose first occurrence comes
      earlier gets a strictly smaller position. */
  lemma FirstAppearanceOrder<K>(xs: seq<K>, i: nat, j: nat)
    requires i < j < |xs|
    requires xs[i] !in xs[..i] && xs[j] !in xs[..j]
    ensures xs[i] in Order(xs) && xs[j] in Order(xs)
    ensures IndexOf(Order(xs), xs[i]) < IndexOf(Order(xs), xs[j])
  {
    NewKeyPosition(xs, i);
    NewKeyPosition(xs, j);
    FewerBefore(xs, i, j);
  }

  /** A sequence without repetitions has as many elements as its set. */
  lemma {:induction false} DistinctCardinality<K>(s: seq<K>)
    requires Distinct(s)
    ensures |set x | x in s| == |s|
    decreases |s|
  {
    if s != [] {
      var init := s[..|s| - 1];
      var last := s[|s| - 1];
      DistinctInit(s);
      DistinctCardinality(init);
      assert (set x | x in s) == (set x | x in init) + {last} by {
        assert s == init + [last];
      }
    }
  }

  /** The order holds exactly one entry per distinct element of the input. */
  lemma OrderCardinality<K>(xs: seq<K>)
    ensures |Order(xs)| == |set x | x in xs|
  {
    var r := Order(xs);
    DistinctCardinality(r);
    assert (set x | x in r) == (set x | x in xs);
  }
}
