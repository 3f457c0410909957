/**
 * Relational building blocks shared by the fact store and the views:
 * SQL NULL as an Option, SUM over a column, GROUP BY keys (where NULL is one group),
 * COUNT(DISTINCT ...) (which ignores NULL), primary-key lookups and deletions on
 * id-keyed tables, and ROUND(a / n, 2) on integer cents.
 *
 * Every recursive definition peels off the LAST element, which matches how the
 * source accumulates rows one at a time.
 */
module Relational {

  /** A nullable SQL value. */
  datatype Option<T> = None | Some(value: T)

  /** No element occurs twice. */
  ghost predicate Distinct<K(!new)>(ks: seq<K>)
  {
    forall i, j :: 0 <= i < j < |ks| ==> ks[i] != ks[j]
  }

  /** Keys strictly increase along the table: SERIAL ids appended in order. */
  ghost predicate Increasing<T(!new)>(s: seq<T>, key: T -> int)
  {
    forall i, j :: 0 <= i < j < |s| ==> key(s[i]) < key(s[j])
  }

  // ---------------------------------------------------------------------------
  // SUM and COUNT
  // ---------------------------------------------------------------------------

  /** SUM(f(x)) over the rows of s; the empty sum is 0 (the source's `or 0`). */
  function Sum<T(!new)>(s: seq<T>, f: T -> int): int
  {
    if |s| == 0 then 0 else Sum(s[..|s| - 1], f) + f(s[|s| - 1])
  }

  /** COUNT(*) of the rows satisfying p. */
  function Count<T(!new)>(s: seq<T>, p: T -> bool): (n: nat)
    ensures n <= |s|
    ensures n == 0 <==> forall x :: x in s ==> !p(x)
  {
    if |s| == 0 then 0
    else
      var n' := Count(s[..|s| - 1], p);
      assert forall x :: x in s <==> x in s[..|s| - 1] || x == s[|s| - 1];
      n' + (if p(s[|s| - 1]) then 1 else 0)
  }

  /** COUNT over a concatenation is the sum of the two counts. */
  lemma {:induction false} CountConcat<T(!new)>(a: seq<T>, b: seq<T>, p: T -> bool)
    ensures Count(a + b, p) == Count(a, p) + Count(b, p)
    decreases |b|
  {
    if |b| == 0 {
      assert a + b == a;
    } else {
      assert (a + b)[..|a + b| - 1] == a + b[..|b| - 1];
      CountConcat(a, b[..|b| - 1], p);
    }
  }

  /** Two conditions that agree on every row count the same rows. */
  lemma {:induction false} CountCongruent<T(!new)>(s: seq<T>, p: T -> bool, q: T -> bool)
    requires forall x :: x in s ==> (p(x) <==> q(x))
    ensures Count(s, p) == Count(s, q)
  {
    if |s| > 0 {
      assert forall x :: x in s[..|s| - 1] ==> x in s;
      CountCongruent(s[..|s| - 1], p, q);
    }
  }

  /** WHERE p: the rows of s that satisfy p, in table order. */
  function Where<T(!new)>(s: seq<T>, p: T -> bool): (r: seq<T>)
    ensures |r| <= |s|
    ensures forall x :: x in r <==> x in s && p(x)
  {
    if |s| == 0 then []
    else
      var q := s[..|s| - 1];
      var x := s[|s| - 1];
      assert forall y :: y in s <==> y in q || y == x;
      Where(q, p) + (if p(x) then [x] else [])
  }

  /** Appending a row the filter rejects does not change the filtered sequence. */
  lemma WhereAppendRejected<T(!new)>(s: seq<T>, x: T, p: T -> bool)
    requires !p(x)
    ensures Where(s + [x], p) == Where(s, p)
  {
    assert (s + [x])[..|s|] == s;
  }

  /** Filtering keeps the table order, so increasing keys stay increasing. */
  lemma {:induction false} WhereIncreasing<T(!new)>(s: seq<T>, key: T -> int, p: T -> bool)
    requires Increasing(s, key)
    ensures Increasing(Where(s, p), key)
  {
    if |s| > 0 {
      var q := s[..|s| - 1];
      var x := s[|s| - 1];
      WhereIncreasing(q, key, p);
      var w := Where(q, p);
      forall y | y in w ensures key(y) < key(x) {
        var k :| 0 <= k < |q| && q[k] == y;
        assert s[k] == y;
      }
    }
  }

  lemma {:induction false} SumConcat<T(!new)>(a: seq<T>, b: seq<T>, f: T -> int)
    ensures Sum(a + b, f) == Sum(a, f) + Sum(b, f)
    decreases |b|
  {
    if |b| == 0 {
      assert a + b == a;
    } else {
      assert (a + b)[..|a + b| - 1] == a + b[..|b| - 1];
      SumConcat(a, b[..|b| - 1], f);
    }
  }

  /** Appending one row adds its value to the sum. */
  lemma SumAppend<T(!new)>(a: seq<T>, x: T, f: T -> int)
    ensures Sum(a + [x], f) == Sum(a, f) + f(x)
  {
    assert (a + [x])[..|a|] == a;
  }

  /** A column whose every value is at least 1 sums to at least the row count. */
  lemma {:induction false} SumAtLeastCount<T(!new)>(s: seq<T>, f: T -> int)
    requires forall x :: x in s ==> f(x) >= 1
    ensures Sum(s, f) >= |s|
  {
    if |s| > 0 {
      assert forall x :: x in s[..|s| - 1] ==> x in s;
      SumAtLeastCount(s[..|s| - 1], f);
    }
  }

  /** A column of non-negative values has a non-negative sum. */
  lemma {:induction false} SumNonNegative<T(!new)>(s: seq<T>, f: T -> int)
    requires forall x :: x in s ==> f(x) >= 0
    ensures Sum(s, f) >= 0
  {
    if |s| > 0 {
      assert forall x :: x in s[..|s| - 1] ==> x in s;
      SumNonNegative(s[..|s| - 1], f);
    }
  }

  /** Two columns that agree on every row have the same sum. */
  lemma {:induction false} SumCongruent<T(!new)>(s: seq<T>, f: T -> int, g: T -> int)
    requires forall x :: x in s ==> f(x) == g(x)
    ensures Sum(s, f) == Sum(s, g)
  {
    if |s| > 0 {
      assert forall x :: x in s[..|s| - 1] ==> x in s;
      SumCongruent(s[..|s| - 1], f, g);
    }
  }

  /** A column that is constant c sums to c times the row count. */
  lemma {:induction false} SumConstant<T(!new)>(s: seq<T>, f: T -> int, c: int)
    requires forall x :: x in s ==> f(x) == c
    ensures Sum(s, f) == c * |s|
  {
    if |s| > 0 {
      assert forall x :: x in s[..|s| - 1] ==> x in s;
      SumConstant(s[..|s| - 1], f, c);
    }
  }

  // ---------------------------------------------------------------------------
  // GROUP BY
  // ---------------------------------------------------------------------------

  /**
   * The distinct grouping keys of s, in order of first occurrence.
   * NULL (None) is a key like any other, as in GROUP BY.
   */
  function GroupKeys<T(!new), K(==,!new)>(s: seq<T>, key: T -> K): (ks: seq<K>)
    ensures Distinct(ks)
    ensures |ks| <= |s|
    ensures forall x :: x in s ==> key(x) in ks
    ensures forall k :: k in ks ==> exists x :: x in s && key(x) == k
  {
    if |s| == 0 then []
    else
      var p := s[..|s| - 1];
      var x := s[|s| - 1];
      var ks := GroupKeys(p, key);
      assert forall y :: y in s <==> y in p || y == x;
      if key(x) in ks then ks else ks + [key(x)]
  }

  /** The rows of s whose grouping key is k, in table order. */
  function Group<T(!new), K(==,!new)>(s: seq<T>, key: T -> K, k: K): (g: seq<T>)
    ensures |g| <= |s|
    ensures forall x :: x in g <==> x in s && key(x) == k
  {
    if |s| == 0 then []
    else
      var p := s[..|s| - 1];
      var x := s[|s| - 1];
      assert forall y :: y in s <==> y in p || y == x;
      Group(p, key, k) + (if key(x) == k then [x] else [])
  }

  /** The group of a key that GROUP BY produced has at least one row. */
  lemma GroupOfKey<T(!new), K(!new)>(s: seq<T>, key: T -> K, k: K)
    requires k in GroupKeys(s, key)
    ensures |Group(s, key, k)| > 0
  {
    var w :| w in s && key(w) == k;
    assert w in Group(s, key, k);
  }

  /** Sum of f over each group named in ks, added up. */
  function SumOverGroups<T(!new), K(==,!new)>(s: seq<T>, key: T -> K, ks: seq<K>, f: T -> int): int
  {
    if |ks| == 0 then 0
    else SumOverGroups(s, key, ks[..|ks| - 1], f) + Sum(Group(s, key, ks[|ks| - 1]), f)
  }

  lemma SumSingleton<T(!new)>(x: T, f: T -> int)
    ensures Sum([x], f) == f(x)
  {
    assert [x][..0] == [];
  }

  lemma GroupAppend<T(!new), K(!new)>(p: seq<T>, x: T, key: T -> K, k: K)
    ensures Group(p + [x], key, k) == Group(p, key, k) + (if key(x) == k then [x] else [])
  {
    assert (p + [x])[..|p|] == p;
  }

  /** Appending one row x changes the sum over distinct groups ks by f(x) exactly when x's key is among ks. */
  lemma {:induction false} SumOverGroupsAppend<T(!new), K(!new)>(p: seq<T>, x: T, key: T -> K, ks: seq<K>, f: T -> int)
    requires Distinct(ks)
    ensures SumOverGroups(p + [x], key, ks, f)
            == SumOverGroups(p, key, ks, f) + (if key(x) in ks then f(x) else 0)
  {
    if |ks| > 0 {
      var ks' := ks[..|ks| - 1];
      var k := ks[|ks| - 1];
      assert ks == ks' + [k];
      assert Distinct(ks');
      SumOverGroupsAppend(p, x, key, ks', f);
      GroupAppend(p, x, key, k);
      if key(x) == k {
        SumConcat(Group(p, key, k), [x], f);
        SumSingleton(x, f);
        assert key(x) !in ks';
      } else {
        assert Group(p + [x], key, k) == Group(p, key, k);
        assert key(x) in ks <==> key(x) in ks';
      }
    }
  }

  /** A key that no row carries has an empty group. */
  lemma {:induction false} GroupAbsent<T(!new), K(!new)>(s: seq<T>, key: T -> K, k: K)
    requires forall y :: y in s ==> key(y) != k
    ensures Group(s, key, k) == []
  {
    if |s| > 0 {
      assert s[|s| - 1] in s;
      assert forall y :: y in s[..|s| - 1] ==> y in s;
      GroupAbsent(s[..|s| - 1], key, k);
    }
  }

  /**
   * Grouping partitions the rows: summing a column group by group over the
   * distinct keys gives the column's total. No row is lost or counted twice.
   */
  lemma {:induction false} PartitionSum<T(!new), K(!new)>(s: seq<T>, key: T -> K, f: T -> int)
    ensures SumOverGroups(s, key, GroupKeys(s, key), f) == Sum(s, f)
  {
    if |s| > 0 {
      var p := s[..|s| - 1];
      var x := s[|s| - 1];
      assert s == p + [x];
      var ks := GroupKeys(p, key);
      PartitionSum(p, key, f);
      SumOverGroupsAppend(p, x, key, ks, f);
      if key(x) !in ks {
        var ks2 := ks + [key(x)];
        assert GroupKeys(s, key) == ks2;
        assert ks2[..|ks2| - 1] == ks;
        GroupAbsent(p, key, key(x));
        GroupAppend(p, x, key, key(x));
        SumSingleton(x, f);
      }
    }
  }

  /**
   * Rows built one per key, each carrying its group's sum of f, add up to the
   * sum over the groups.
   */
  lemma {:induction false} SumRowsOverGroups<R(!new), T(!new), K(!new)>(
    rows: seq<R>, g: R -> int, s: seq<T>, key: T -> K, ks: seq<K>, f: T -> int)
    requires |rows| == |ks|
    requires forall i :: 0 <= i < |ks| ==> g(rows[i]) == Sum(Group(s, key, ks[i]), f)
    ensures Sum(rows, g) == SumOverGroups(s, key, ks, f)
  {
    if |ks| > 0 {
      SumRowsOverGroups(rows[..|rows| - 1], g, s, key, ks[..|ks| - 1], f);
    }
  }

  /** Summing over distinct keys that cover every row's key gives the total too. */
  lemma {:induction false} PartitionSumCover<T(!new), K(!new)>(s: seq<T>, key: T -> K, ks: seq<K>, f: T -> int)
    requires Distinct(ks)
    requires forall x :: x in s ==> key(x) in ks
    ensures SumOverGroups(s, key, ks, f) == Sum(s, f)
  {
    if |s| == 0 {
      SumOverGroupsEmpty(key, ks, f);
    } else {
      var p := s[..|s| - 1];
      var x := s[|s| - 1];
      assert s == p + [x];
      assert forall y :: y in p ==> y in s;
      PartitionSumCover(p, key, ks, f);
      SumOverGroupsAppend(p, x, key, ks, f);
    }
  }

  lemma {:induction false} SumOverGroupsEmpty<T(!new), K(!new)>(key: T -> K, ks: seq<K>, f: T -> int)
    ensures SumOverGroups([], key, ks, f) == 0
  {
    if |ks| > 0 {
      SumOverGroupsEmpty(key, ks[..|ks| - 1], f);
    }
  }

  // ---------------------------------------------------------------------------
  // COUNT(DISTINCT ...)
  // ---------------------------------------------------------------------------

  /** The distinct non-NULL values of a column, in order of first occurrence. */
  function DistinctValues<T(!new), K(==,!new)>(s: seq<T>, key: T -> Option<K>): (vs: seq<K>)
    ensures Distinct(vs)
    ensures |vs| <= |s|
    ensures forall x :: x in s && key(x).Some? ==> key(x).value in vs
    ensures forall v :: v in vs ==> exists x :: x in s && key(x) == Some(v)
  {
    if |s| == 0 then []
    else
      var p := s[..|s| - 1];
      var x := s[|s| - 1];
      var vs := DistinctValues(p, key);
      assert forall y :: y in s <==> y in p || y == x;
      match key(x)
      case None => vs
      case Some(v) => if v in vs then vs else vs + [v]
  }

  /** COUNT(DISTINCT key(x)): NULLs are not counted. */
  function CountDistinct<T(!new), K(==,!new)>(s: seq<T>, key: T -> Option<K>): (n: nat)
    ensures n <= |s|
    ensures n == 0 <==> forall x :: x in s ==> key(x) == None
  {
    var vs := DistinctValues(s, key);
    assert |vs| > 0 ==> vs[0] in vs;
    |vs|
  }

  // ---------------------------------------------------------------------------
  // Tables keyed by a primary key
  // ---------------------------------------------------------------------------

  /** SELECT key FROM t ORDER BY key: the keys in table order. */
  function KeysOf<T>(s: seq<T>, key: T -> int): (ks: seq<int>)
    ensures |ks| == |s|
    ensures forall i :: 0 <= i < |s| ==> ks[i] == key(s[i])
  {
    seq(|s|, i requires 0 <= i < |s| => key(s[i]))
  }

  /** The first row whose key is k, or None: a primary-key lookup. */
  function Lookup<T(!new)>(s: seq<T>, key: T -> int, k: int): (r: Option<T>)
    ensures r.Some? ==> r.value in s && key(r.value) == k
    ensures r.None? <==> forall x :: x in s ==> key(x) != k
  {
    if |s| == 0 then None
    else if key(s[0]) == k then Some(s[0])
    else
      assert forall y :: y in s <==> y == s[0] || y in s[1..];
      Lookup(s[1..], key, k)
  }

  /** With unique keys, a lookup of a present row's key finds that row. */
  lemma {:induction false} LookupFinds<T(!new)>(s: seq<T>, key: T -> int, x: T)
    requires Increasing(s, key)
    requires x in s
    ensures Lookup(s, key, key(x)) == Some(x)
  {
    if s[0] != x {
      assert x in s[1..];
      var j :| 0 <= j < |s| && s[j] == x;
      assert j > 0 && key(s[0]) < key(x);
      LookupFinds(s[1..], key, x);
    }
  }

  /** Appending a row with a fresh key does not change existing lookups. */
  lemma LookupAppend<T(!new)>(s: seq<T>, key: T -> int, x: T, k: int)
    requires key(x) != k
    ensures Lookup(s + [x], key, k) == Lookup(s, key, k)
  {
    if |s| > 0 {
      assert (s + [x])[1..] == s[1..] + [x];
    }
  }

  /** A key is present after an append exactly when it was present before or is the new row's. */
  lemma LookupSomeAppend<T(!new)>(s: seq<T>, key: T -> int, x: T, k: int)
    ensures Lookup(s + [x], key, k).Some? <==> Lookup(s, key, k).Some? || key(x) == k
  {
    assert forall y :: y in s + [x] <==> y in s || y == x;
  }

  /** Replacing a row by one with the same key keeps the set of present keys. */
  lemma LookupSomeReplace<T(!new)>(s: seq<T>, key: T -> int, i: nat, x: T, k: int)
    requires i < |s| && key(x) == key(s[i])
    ensures Lookup(s[i := x], key, k).Some? <==> Lookup(s, key, k).Some?
  {
    var t := s[i := x];
    if Lookup(s, key, k).Some? {
      var y := Lookup(s, key, k).value;
      var j :| 0 <= j < |s| && s[j] == y;
      assert key(t[j]) == k;
      assert t[j] in t;
    }
    if Lookup(t, key, k).Some? {
      var y := Lookup(t, key, k).value;
      var j :| 0 <= j < |t| && t[j] == y;
      assert key(s[j]) == k;
      assert s[j] in s;
    }
  }

  /** Deleting rows whose key is not k leaves a lookup of id j present exactly when it was. */
  lemma LookupSomeWithout<T(!new), K(!new)>(s: seq<T>, id: T -> int, key: T -> K, k: K, j: int)
    requires forall x :: x in s && id(x) == j ==> key(x) != k
    ensures Lookup(WithoutKey(s, key, k), id, j).Some? <==> Lookup(s, id, j).Some?
  {
    if Lookup(s, id, j).Some? {
      assert Lookup(s, id, j).value in WithoutKey(s, key, k);
    }
  }

  /** Position of the row with key k, if any. */
  function IndexOf<T(!new)>(s: seq<T>, key: T -> int, k: int): (r: Option<nat>)
    ensures r.Some? ==> r.value < |s| && key(s[r.value]) == k
    ensures r.None? <==> forall x :: x in s ==> key(x) != k
  {
    if |s| == 0 then None
    else if key(s[|s| - 1]) == k then Some(|s| - 1)
    else
      assert forall y :: y in s <==> y in s[..|s| - 1] || y == s[|s| - 1];
      IndexOf(s[..|s| - 1], key, k)
  }

  /** Replacing a row by one with the same key keeps the other lookups and finds the new row. */
  lemma {:induction false} LookupReplace<T(!new)>(s: seq<T>, key: T -> int, i: nat, x: T, k: int)
    requires Increasing(s, key)
    requires i < |s| && key(x) == key(s[i])
    ensures Lookup(s[i := x], key, k) == if k == key(x) then Some(x) else Lookup(s, key, k)
  {
    if i == 0 {
      assert s[i := x][1..] == s[1..];
    } else {
      assert s[i := x][1..] == s[1..][i - 1 := x];
      assert key(s[0]) < key(s[i]);
      LookupReplace(s[1..], key, i - 1, x, k);
    }
  }

  /** DELETE ... WHERE key = k: the rows of s whose key is not k, in table order. */
  function WithoutKey<T(!new), K(==,!new)>(s: seq<T>, key: T -> K, k: K): (r: seq<T>)
    ensures |r| <= |s|
    ensures forall x :: x in r <==> x in s && key(x) != k
  {
    if |s| == 0 then []
    else
      var p := s[..|s| - 1];
      var x := s[|s| - 1];
      assert forall y :: y in s <==> y in p || y == x;
      WithoutKey(p, key, k) + (if key(x) != k then [x] else [])
  }

  /** Deleting rows keeps the survivors in their original order, so keys stay increasing. */
  lemma {:induction false} WithoutKeyIncreasing<T(!new), K(!new)>(s: seq<T>, id: T -> int, key: T -> K, k: K)
    requires Increasing(s, id)
    ensures Increasing(WithoutKey(s, key, k), id)
  {
    if |s| > 0 {
      var p := s[..|s| - 1];
      WithoutKeyIncreasing(p, id, key, k);
      var r := WithoutKey(p, key, k);
      forall y | y in r ensures id(y) < id(s[|s| - 1]) {
        var j :| 0 <= j < |p| && p[j] == y;
      }
    }
  }

  /** Deleting rows whose key is not the looked-up one leaves lookups unchanged. */
  lemma {:induction false} LookupWithout<T(!new), K(!new)>(s: seq<T>, id: T -> int, key: T -> K, k: K, j: int)
    requires Increasing(s, id)
    requires forall x :: x in s && id(x) == j ==> key(x) != k
    ensures Lookup(WithoutKey(s, key, k), id, j) == Lookup(s, id, j)
  {
    var r := WithoutKey(s, key, k);
    WithoutKeyIncreasing(s, id, key, k);
    match Lookup(s, id, j)
    case None =>
    case Some(x) =>
      assert x in r;
      LookupFinds(r, id, x);
  }

  // ---------------------------------------------------------------------------
  // ROUND(a / n, 2) on integer cents
  // ---------------------------------------------------------------------------

  /**
   * a / n rounded to a whole number of cents, half away from zero, as
   * PostgreSQL's ROUND(numeric, 2) does for a quotient of two amounts in cents.
   * The result is within half a cent of the quotient, and an exact tie goes
   * to the neighbour farther from zero.
   */
  function RoundHalfAway(a: int, n: int): (r: int)
    requires n > 0
    ensures -n <= 2 * (r * n - a) <= n
    ensures a > 0 ==> -n < 2 * (r * n - a)
    ensures a < 0 ==> 2 * (r * n - a) < n
    ensures a >= 0 ==> r >= 0
    ensures a <= 0 ==> r <= 0
  {
    if a >= 0 then
      var q := (2 * a + n) / (2 * n);
      DivBounds(2 * a + n, 2 * n);
      q
    else
      var q := (-2 * a + n) / (2 * n);
      DivBounds(-2 * a + n, 2 * n);
      -q
  }

  /** Euclidean division pins the quotient between two multiples of the divisor. */
  lemma DivBounds(x: int, d: int)
    requires d > 0
    ensures d * (x / d) <= x < d * (x / d) + d
  {
  }

  // ---------------------------------------------------------------------------
  // Prefixes of sequences
  // ---------------------------------------------------------------------------

  /** A sequence is its prefix followed by the rest. */
  lemma SplitAt<T>(s: seq<T>, n: nat)
    requires n <= |s|
    ensures s == s[..n] + s[n..]
  {
  }

  /** Taking one more element of s. */
  lemma PrefixStep<T>(s: seq<T>, k: nat)
    requires k < |s|
    ensures s[..k + 1] == s[..k] + [s[k]]
  {
  }

  /** Overwriting the row just appended is appending the new value instead. */
  lemma ReplaceLast<T>(base: seq<T>, x: T, y: T)
    ensures (base + [x])[|base| := y] == base + [y]
  {
  }

  /** Appending one row keeps the rows before it and extends the new ones. */
  lemma AppendKeepsPrefix<T>(base: seq<T>, prev: seq<T>, next: seq<T>, x: T)
    requires |base| <= |prev| && prev[..|base|] == base && next == prev + [x]
    ensures |base| <= |next| && next[..|base|] == base
    ensures next[|base|..] == prev[|base|..] + [x]
  {
  }
}
