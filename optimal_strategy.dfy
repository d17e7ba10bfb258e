/** The efficiency frontier and the choice of the cost-effective strategy
    (optimal_strategy.py): the strategies' (name, QALYs, cost) rows are
    sorted, simply dominated rows are deleted, rows that break the
    monotonicity of the incremental cost-effectiveness ratios (ICERs) are
    deleted, and the highest-QALY frontier row whose ICER is below the
    willingness-to-pay threshold is chosen. */
module OptimalStrategy {
  import opened Numeric

  /** A cell of the results tables: a number, or the text 'N/A'. */
  datatype Value = NA | Num(x: real)

  /** One strategy with its integrated QALYs and cost. */
  datatype Row = Row(name: string, qaly: real, cost: real)

  /** A frontier row with the ICER appended to it ('N/A' for the first). */
  datatype TaggedRow = TaggedRow(row: Row, icer: Value)

  /** What choosing the optimal strategy ends in. The source loops for ever
      when fewer than two rows reach the ICER phase, and raises a division by
      zero when two adjacent rows of that phase have the same QALYs. */
  datatype Selection = Selected(location: string) | NoTermination | DivisionByZero

  // ---------------------------------------------------------------------
  // Formatting the results
  // ---------------------------------------------------------------------

  /** Every strategy has a number for its cost and for its QALYs. */
  predicate Priced(costs: map<string, Value>, qalys: map<string, Value>, strategies: seq<string>)
  {
    forall l :: l in strategies ==> l in costs && l in qalys && costs[l].Num? && qalys[l].Num?
  }

  function Names(rows: seq<Row>): (ls: seq<string>)
    ensures |ls| == |rows|
  {
    if rows == [] then [] else Names(rows[..|rows| - 1]) + [rows[|rows| - 1].name]
  }

  /** The row of one strategy: its name with its QALYs and cost. */
  function RowOf(costs: map<string, Value>, qalys: map<string, Value>, name: string): Row
    requires name in costs && name in qalys && costs[name].Num? && qalys[name].Num?
  {
    Row(name, qalys[name].x, costs[name].x)
  }

  /** The rows of the strategies, in the order they are listed. */
  function FormattedRows(costs: map<string, Value>, qalys: map<string, Value>, strategies: seq<string>): (rows: seq<Row>)
    requires Priced(costs, qalys, strategies)
    ensures Names(rows) == strategies
  {
    if strategies == [] then []
    else
      var n := |strategies| - 1;
      FormattedRows(costs, qalys, strategies[..n]) + [RowOf(costs, qalys, strategies[n])]
  }

  /** The name of every row is among `Names`. */
  lemma {:induction false} NamesMembership(rows: seq<Row>, r: Row)
    requires r in rows
    ensures r.name in Names(rows)
  {
    var n := |rows| - 1;
    if rows[n] != r {
      LastSplit(rows);
      NamesMembership(rows[..n], r);
    }
  }

  /** Builds one row per strategy, in their order. */
  method FormatResults(costs: map<string, Value>, qalys: map<string, Value>, strategies: seq<string>)
    returns (data: seq<Row>)
    requires Priced(costs, qalys, strategies)
    ensures data == FormattedRows(costs, qalys, strategies)
  {
    data := [];
    for k := 0 to |strategies|
      invariant data == FormattedRows(costs, qalys, strategies[..k])
    {
      var name := strategies[k];
      var y := costs[name].x;
      var x := qalys[name].x;
      FormattedRowsNext(costs, qalys, strategies, k);
      data := data + [Row(name, x, y)];
    }
    assert strategies[..|strategies|] == strategies;
  }

  lemma FormattedRowsNext(costs: map<string, Value>, qalys: map<string, Value>, strategies: seq<string>, k: nat)
    requires Priced(costs, qalys, strategies) && k < |strategies|
    ensures Priced(costs, qalys, strategies[..k]) && Priced(costs, qalys, strategies[..k + 1])
    ensures FormattedRows(costs, qalys, strategies[..k + 1])
      == FormattedRows(costs, qalys, strategies[..k]) + [RowOf(costs, qalys, strategies[k])]
  {
    var p := strategies[..k + 1];
    assert p[..k] == strategies[..k] && p[k] == strategies[k];
  }

  // ---------------------------------------------------------------------
  // Sorting by (QALYs, cost)
  // ---------------------------------------------------------------------

  /** The sort key (QALYs, cost), compared lexicographically. */
  predicate KeyLess(a: Row, b: Row)
  {
    a.qaly < b.qaly || (a.qaly == b.qaly && a.cost < b.cost)
  }

  predicate SameKey(a: Row, b: Row)
  {
    a.qaly == b.qaly && a.cost == b.cost
  }

  predicate SortedByKey(s: seq<Row>)
  {
    forall i, j :: 0 <= i < j < |s| ==> !KeyLess(s[j], s[i])
  }

  /** Inserts `x` after every row whose key is not above its own. */
  function Insert(t: seq<Row>, x: Row): (r: seq<Row>)
    ensures |r| == |t| + 1
  {
    if t == [] then [x]
    else if KeyLess(x, t[0]) then [x] + t
    else [t[0]] + Insert(t[1..], x)
  }

  /** Insertion adds `x` and loses nothing. */
  lemma {:induction false} InsertPermutes(t: seq<Row>, x: Row)
    ensures multiset(Insert(t, x)) == multiset(t) + multiset{x}
  {
    if t != [] {
      assert t == [t[0]] + t[1..];
      if !KeyLess(x, t[0]) {
        InsertPermutes(t[1..], x);
      }
    }
  }

  /** The stable sort of the rows by key (Python's `list.sort` with a key):
      insertion of each row in turn, in input order. */
  function SortByKey(s: seq<Row>): (r: seq<Row>)
    ensures |r| == |s|
  {
    if s == [] then []
    else Insert(SortByKey(s[..|s| - 1]), s[|s| - 1])
  }

  lemma {:induction false} InsertSorted(t: seq<Row>, x: Row)
    requires SortedByKey(t)
    ensures SortedByKey(Insert(t, x))
  {
    if t != [] && !KeyLess(x, t[0]) {
      InsertSorted(t[1..], x);
      InsertPermutes(t[1..], x);
      var rest := Insert(t[1..], x);
      forall j | 0 <= j < |rest|
        ensures !KeyLess(rest[j], t[0])
      {
        assert rest[j] in multiset(rest);
        assert rest[j] in multiset(t[1..]) || rest[j] == x;
        if rest[j] != x {
          var m :| 0 <= m < |t[1..]| && t[1..][m] == rest[j];
          assert t[m + 1] == rest[j];
        }
      }
    }
  }

  /** The sort orders the rows by key and is a permutation of them. */
  lemma {:induction false} SortSorted(s: seq<Row>)
    ensures SortedByKey(SortByKey(s))
    ensures multiset(SortByKey(s)) == multiset(s)
  {
    if s != [] {
      var n := |s| - 1;
      SortSorted(s[..n]);
      InsertSorted(SortByKey(s[..n]), s[n]);
      InsertPermutes(SortByKey(s[..n]), s[n]);
      LastSplit(s);
      assert multiset(s[..n] + [s[n]]) == multiset(s[..n]) + multiset{s[n]};
    }
  }

  lemma LastSplit<T>(s: seq<T>)
    requires 1 <= |s|
    ensures s == s[..|s| - 1] + [s[|s| - 1]]
  {
  }

  /** The rows with a given key, in their order. */
  function WithKey(s: seq<Row>, k: Row): (r: seq<Row>)
    ensures |r| <= |s|
  {
    if s == [] then [] else KeepKey(s[0], k) + WithKey(s[1..], k)
  }

  /** `[x]` when `x` has the key of `k`, otherwise nothing. */
  function KeepKey(x: Row, k: Row): seq<Row>
  {
    if SameKey(x, k) then [x] else []
  }

  lemma SortedTail(t: seq<Row>)
    requires 1 <= |t| && SortedByKey(t)
    ensures SortedByKey(t[1..])
  {
    forall i, j | 0 <= i < j < |t| - 1
      ensures !KeyLess(t[1..][j], t[1..][i])
    {
      assert t[1..][j] == t[j + 1] && t[1..][i] == t[i + 1];
    }
  }

  lemma {:induction false} WithKeyConcat(a: seq<Row>, b: seq<Row>, k: Row)
    ensures WithKey(a + b, k) == WithKey(a, k) + WithKey(b, k)
  {
    if a == [] {
      assert a + b == b;
    } else {
      var ab := a + b;
      assert ab[0] == a[0] && ab[1..] == a[1..] + b;
      WithKeyConcat(a[1..], b, k);
      ConcatAssoc(KeepKey(a[0], k), WithKey(a[1..], k), WithKey(b, k));
    }
  }

  lemma {:induction false} WithKeyNone(t: seq<Row>, k: Row)
    requires forall j :: 0 <= j < |t| ==> !SameKey(t[j], k)
    ensures WithKey(t, k) == []
  {
    if t != [] {
      WithKeyNone(t[1..], k);
    }
  }

  /** A row sorted before the first of `t` shares its key with no row of `t`. */
  lemma BelowFirstNoKey(t: seq<Row>, x: Row, k: Row)
    requires 1 <= |t| && SortedByKey(t) && KeyLess(x, t[0]) && SameKey(x, k)
    ensures WithKey(t, k) == []
  {
    forall j | 0 <= j < |t|
      ensures !SameKey(t[j], k)
    {
      if j > 0 {
        assert !KeyLess(t[j], t[0]);
      }
    }
    WithKeyNone(t, k);
  }

  lemma {:induction false} InsertWithKey(t: seq<Row>, x: Row, k: Row)
    requires SortedByKey(t)
    ensures WithKey(Insert(t, x), k) == WithKey(t, k) + KeepKey(x, k)
    decreases |t|
  {
    var i := Insert(t, x);
    if t == [] {
      assert i == [x] && i[1..] == [];
      assert WithKey(i, k) == KeepKey(x, k) + WithKey([], k);
    } else if KeyLess(x, t[0]) {
      assert i == [x] + t;
      assert i[0] == x && i[1..] == t;
      assert WithKey(i, k) == KeepKey(x, k) + WithKey(t, k);
      if SameKey(x, k) {
        BelowFirstNoKey(t, x, k);
      }
    } else {
      SortedTail(t);
      InsertWithKey(t[1..], x, k);
      InsertLater(t, x, k);
    }
  }

  lemma InsertLater(t: seq<Row>, x: Row, k: Row)
    requires 1 <= |t| && !KeyLess(x, t[0])
    requires WithKey(Insert(t[1..], x), k) == WithKey(t[1..], k) + KeepKey(x, k)
    ensures WithKey(Insert(t, x), k) == WithKey(t, k) + KeepKey(x, k)
  {
    var j := Insert(t[1..], x);
    var a, w, c := KeepKey(t[0], k), WithKey(t[1..], k), KeepKey(x, k);
    assert Insert(t, x) == [t[0]] + j;
    WithKeyCons(t[0], j, k);
    assert WithKey(Insert(t, x), k) == a + (w + c);
    assert WithKey(t, k) == a + w;
    ConcatAssoc(a, w, c);
  }

  lemma ConcatAssoc<T>(a: seq<T>, b: seq<T>, c: seq<T>)
    ensures a + (b + c) == (a + b) + c
  {
  }

  lemma WithKeyCons(y: Row, rest: seq<Row>, k: Row)
    ensures WithKey([y] + rest, k) == KeepKey(y, k) + WithKey(rest, k)
  {
    var c := [y] + rest;
    assert c[0] == y && c[1..] == rest;
  }

  /** The sort is stable: the rows that share a key keep their input order. */
  lemma {:induction false} SortStable(s: seq<Row>, k: Row)
    ensures WithKey(SortByKey(s), k) == WithKey(s, k)
  {
    if s != [] {
      var n := |s| - 1;
      var t := SortByKey(s[..n]);
      var last := KeepKey(s[n], k);
      calc {
        WithKey(SortByKey(s), k);
        WithKey(Insert(t, s[n]), k);
        { SortSorted(s[..n]); InsertWithKey(t, s[n], k); }
        WithKey(t, k) + last;
        { SortStable(s[..n], k); }
        WithKey(s[..n], k) + last;
        { assert [s[n]][1..] == []; }
        WithKey(s[..n], k) + WithKey([s[n]], k);
        { WithKeyConcat(s[..n], [s[n]], k); }
        WithKey(s[..n] + [s[n]], k);
        { assert s[..n] + [s[n]] == s; }
        WithKey(s, k);
      }
    }
  }

  // ---------------------------------------------------------------------
  // Row deletion
  // ---------------------------------------------------------------------

  /** `s` with the row at `i` deleted (`del data[i]`). */
  function Without(s: seq<Row>, i: nat): (r: seq<Row>)
    requires i < |s|
    ensures |r| == |s| - 1
    ensures forall j :: 0 <= j < i ==> r[j] == s[j]
    ensures forall j :: i <= j < |r| ==> r[j] == s[j + 1]
  {
    s[..i] + s[i + 1..]
  }

  lemma WithoutMembers(s: seq<Row>, i: nat)
    requires i < |s|
    ensures forall x :: x in Without(s, i) ==> x in s
  {
    forall x | x in Without(s, i)
      ensures x in s
    {
      var j :| 0 <= j < |Without(s, i)| && Without(s, i)[j] == x;
      if j >= i {
        assert s[j + 1] == x;
      }
    }
  }

  lemma WithoutSorted(s: seq<Row>, i: nat)
    requires i < |s| && SortedByKey(s)
    ensures SortedByKey(Without(s, i))
  {
    var r := Without(s, i);
    forall a, b | 0 <= a < b < |r|
      ensures !KeyLess(r[b], r[a])
    {
      var a', b' := if a < i then a else a + 1, if b < i then b else b + 1;
      assert r[a] == s[a'] && r[b] == s[b'];
    }
  }

  // ---------------------------------------------------------------------
  // Phase 1: simple dominance
  // ---------------------------------------------------------------------

  /** `b` is dominated by the row before it: no more QALYs, higher cost. */
  predicate Dominates(a: Row, b: Row)
  {
    a.qaly >= b.qaly && a.cost < b.cost
  }

  predicate NoAdjacentDominated(s: seq<Row>)
  {
    forall i :: 0 <= i < |s| - 1 ==> !Dominates(s[i], s[i + 1])
  }

  /** The first index from `j` on whose successor it dominates, or the last
      index when there is none: where the scan of one pass stops. */
  function FirstDominated(s: seq<Row>, j: nat): (k: nat)
    requires j < |s|
    ensures j <= k < |s|
    ensures k < |s| - 1 ==> Dominates(s[k], s[k + 1])
    ensures forall m :: j <= m < k ==> !Dominates(s[m], s[m + 1])
    decreases |s| - j
  {
    if j == |s| - 1 then j
    else if Dominates(s[j], s[j + 1]) then j
    else FirstDominated(s, j + 1)
  }

  lemma {:induction false} FirstDominatedAt(s: seq<Row>, j: nat, k: nat)
    requires j <= k < |s|
    requires forall m :: j <= m < k ==> !Dominates(s[m], s[m + 1])
    requires k == |s| - 1 || Dominates(s[k], s[k + 1])
    ensures FirstDominated(s, j) == k
    decreases k - j
  {
    if j < k {
      FirstDominatedAt(s, j + 1, k);
    }
  }

  /** Phase 1 as a function: delete the first dominated row and restart,
      until no row is dominated by its predecessor. */
  function Phase1(s: seq<Row>): (r: seq<Row>)
    requires 1 <= |s| && SortedByKey(s)
    ensures 1 <= |r| <= |s| && r[0] == s[0]
    ensures SortedByKey(r) && NoAdjacentDominated(r)
    ensures forall x :: x in r ==> x in s
    decreases |s|
  {
    var k := FirstDominated(s, 0);
    if k == |s| - 1 then s
    else
      WithoutSorted(s, k + 1);
      WithoutMembers(s, k + 1);
      Phase1(Without(s, k + 1))
  }

  /** `x` costs no more than any row with its QALYs. */
  predicate Cheapest(x: Row, s: seq<Row>)
  {
    forall y :: y in s && y.qaly == x.qaly ==> x.cost <= y.cost
  }

  /** The rows of `t` that are cheapest for their QALYs within `s`. */
  function CheapestRows(t: seq<Row>, s: seq<Row>): (r: seq<Row>)
    ensures |r| <= |t|
  {
    if t == [] then [] else KeepCheapest(t[0], s) + CheapestRows(t[1..], s)
  }

  /** `[x]` when `x` is cheapest within `s`, otherwise nothing. */
  function KeepCheapest(x: Row, s: seq<Row>): seq<Row>
  {
    if Cheapest(x, s) then [x] else []
  }

  lemma {:induction false} CheapestRowsConcat(a: seq<Row>, b: seq<Row>, s: seq<Row>)
    ensures CheapestRows(a + b, s) == CheapestRows(a, s) + CheapestRows(b, s)
  {
    if a == [] {
      assert a + b == b;
    } else {
      var ab := a + b;
      assert ab[0] == a[0] && ab[1..] == a[1..] + b;
      CheapestRowsConcat(a[1..], b, s);
      calc {
        CheapestRows(ab, s);
        KeepCheapest(a[0], s) + CheapestRows(a[1..] + b, s);
        KeepCheapest(a[0], s) + (CheapestRows(a[1..], s) + CheapestRows(b, s));
        { ConcatAssoc(KeepCheapest(a[0], s), CheapestRows(a[1..], s), CheapestRows(b, s)); }
        (KeepCheapest(a[0], s) + CheapestRows(a[1..], s)) + CheapestRows(b, s);
        CheapestRows(a, s) + CheapestRows(b, s);
      }
    }
  }

  lemma {:induction false} CheapestRowsCongruent(t: seq<Row>, s: seq<Row>, s': seq<Row>)
    requires forall x :: Cheapest(x, s) == Cheapest(x, s')
    ensures CheapestRows(t, s) == CheapestRows(t, s')
  {
    if t != [] {
      CheapestRowsCongruent(t[1..], s, s');
    }
  }

  lemma {:induction false} CheapestRowsAll(t: seq<Row>, s: seq<Row>)
    requires forall j :: 0 <= j < |t| ==> Cheapest(t[j], s)
    ensures CheapestRows(t, s) == t
  {
    if t != [] {
      CheapestRowsAll(t[1..], s);
    }
  }

  lemma {:induction false} CheapestRowsMembership(t: seq<Row>, s: seq<Row>, x: Row)
    ensures x in CheapestRows(t, s) <==> x in t && Cheapest(x, s)
  {
    if t != [] {
      CheapestRowsMembership(t[1..], s, x);
      assert x in t <==> x == t[0] || x in t[1..];
    }
  }

  /** In a sorted list with no adjacent dominance, rows with the same QALYs
      have the same cost. */
  lemma {:induction false} EqualQalyEqualCost(s: seq<Row>, j: nat, i: nat)
    requires SortedByKey(s) && NoAdjacentDominated(s)
    requires j <= i < |s| && s[j].qaly == s[i].qaly
    ensures s[i].cost == s[j].cost
    decreases i - j
  {
    if j < i {
      assert !KeyLess(s[i - 1], s[j]) && !KeyLess(s[i], s[i - 1]);
      EqualQalyEqualCost(s, j, i - 1);
      assert !Dominates(s[i - 1], s[i]);
    }
  }

  lemma AllCheapest(s: seq<Row>)
    requires SortedByKey(s) && NoAdjacentDominated(s)
    ensures forall i :: 0 <= i < |s| ==> Cheapest(s[i], s)
  {
    forall i | 0 <= i < |s|
      ensures Cheapest(s[i], s)
    {
      forall y | y in s && y.qaly == s[i].qaly
        ensures s[i].cost <= y.cost
      {
        var j :| 0 <= j < |s| && s[j] == y;
        if j < i {
          EqualQalyEqualCost(s, j, i);
        } else if i < j {
          assert !KeyLess(s[j], s[i]);
        }
      }
    }
  }

  /** Deleting a dominated row changes no row's being cheapest. */
  lemma CheapestAfterDelete(s: seq<Row>, k: nat)
    requires SortedByKey(s) && k + 1 < |s| && Dominates(s[k], s[k + 1])
    ensures forall x :: Cheapest(x, s) == Cheapest(x, Without(s, k + 1))
  {
    var s' := Without(s, k + 1);
    WithoutMembers(s, k + 1);
    assert s[k] == s'[k];
    forall x
      ensures Cheapest(x, s) == Cheapest(x, s')
    {
      if Cheapest(x, s') && s[k + 1].qaly == x.qaly {
        assert !KeyLess(s[k + 1], s[k]);
        assert s[k] in s';
      }
      if Cheapest(x, s) {
        forall y | y in s' && y.qaly == x.qaly
          ensures x.cost <= y.cost
        {
          assert y in s;
        }
      }
    }
  }

  lemma DominatedNotCheapest(s: seq<Row>, k: nat)
    requires SortedByKey(s) && k + 1 < |s| && Dominates(s[k], s[k + 1])
    ensures !Cheapest(s[k + 1], s)
  {
    assert !KeyLess(s[k + 1], s[k]);
    assert s[k] in s;
  }

  /** The dominated row is not cheapest, so it is the only row the deletion
      takes out of the cheapest rows. */
  lemma CheapestRowsAfterDelete(s: seq<Row>, k: nat)
    requires SortedByKey(s) && k + 1 < |s| && Dominates(s[k], s[k + 1])
    ensures CheapestRows(Without(s, k + 1), s) == CheapestRows(s, s)
  {
    var d := s[k + 1];
    DominatedNotCheapest(s, k);
    var front, back := s[..k + 1], s[k + 2..];
    assert CheapestRows([d], s) == KeepCheapest(d, s) + CheapestRows([], s) by {
      assert [d][0] == d && [d][1..] == [];
    }
    assert s == front + ([d] + back) by {
      assert s == s[..k + 1] + s[k + 1..];
      assert s[k + 1..] == [d] + back;
    }
    calc {
      CheapestRows(s, s);
      CheapestRows(front + ([d] + back), s);
      { CheapestRowsConcat(front, [d] + back, s); }
      CheapestRows(front, s) + CheapestRows([d] + back, s);
      { CheapestRowsConcat([d], back, s); }
      CheapestRows(front, s) + (CheapestRows([d], s) + CheapestRows(back, s));
      CheapestRows(front, s) + ([] + CheapestRows(back, s));
      { assert [] + CheapestRows(back, s) == CheapestRows(back, s); }
      CheapestRows(front, s) + CheapestRows(back, s);
      { CheapestRowsConcat(front, back, s); }
      CheapestRows(front + back, s);
    }
  }

  /** Phase 1 keeps exactly the rows that are cheapest for their QALYs, in
      their sorted order: a dominated row is deleted, and rows with the same
      QALYs and cost are all kept. */
  lemma {:induction false} Phase1KeepsCheapest(s: seq<Row>)
    requires 1 <= |s| && SortedByKey(s)
    ensures Phase1(s) == CheapestRows(s, s)
    decreases |s|
  {
    var k := FirstDominated(s, 0);
    if k == |s| - 1 {
      AllCheapest(s);
      CheapestRowsAll(s, s);
    } else {
      var s' := Without(s, k + 1);
      WithoutSorted(s, k + 1);
      Phase1KeepsCheapest(s');
      CheapestAfterDelete(s, k);
      CheapestRowsCongruent(s', s', s);
      CheapestRowsAfterDelete(s, k);
    }
  }

  /** A row survives phase 1 exactly when it is an input row that is cheapest
      for its QALYs among all input rows. */
  lemma Phase1Membership(rows: seq<Row>, x: Row)
    requires 1 <= |rows|
    ensures SortedByKey(SortByKey(rows)) && |SortByKey(rows)| == |rows|
    ensures x in Phase1(SortByKey(rows)) <==> x in rows && Cheapest(x, rows)
  {
    var s := SortByKey(rows);
    SortSorted(rows);
    assert |s| == |multiset(s)| == |multiset(rows)| == |rows|;
    Phase1KeepsCheapest(s);
    CheapestRowsMembership(s, s, x);
    forall y
      ensures y in s <==> y in rows
    {
      assert y in s <==> y in multiset(s);
      assert y in rows <==> y in multiset(rows);
    }
  }

  /** The loop of phase 1: scan from the top, delete the first row dominated
      by its predecessor and restart, until a scan reaches the last row. */
  method RemoveDominated(sorted: seq<Row>) returns (data: seq<Row>)
    requires 1 <= |sorted| && SortedByKey(sorted)
    ensures data == Phase1(sorted)
  {
    data := sorted;
    while true
      invariant 1 <= |data| && SortedByKey(data)
      invariant Phase1(data) == Phase1(sorted)
      decreases |data|
    {
      var end := false;
      ghost var before := data;
      for index := 0 to |data|
        invariant data == before
        invariant index <= |data| - 1
        invariant forall m :: 0 <= m < index ==> !Dominates(data[m], data[m + 1])
      {
        if index == |data| - 1 {
          FirstDominatedAt(data, 0, index);
          end := true;
          break;
        } else if Dominates(data[index], data[index + 1]) {
          FirstDominatedAt(data, 0, index);
          WithoutSorted(data, index + 1);
          data := Without(data, index + 1);
          break;
        }
      }
      if end {
        break;
      }
    }
  }

  // ---------------------------------------------------------------------
  // Phase 2: extended dominance
  // ---------------------------------------------------------------------

  /** The rows at `i` and `i + 1` differ in QALYs. */
  predicate DistinctAt(s: seq<Row>, i: int)
    requires 0 <= i < |s| - 1
  {
    s[i].qaly != s[i + 1].qaly
  }

  predicate AdjacentDistinct(s: seq<Row>)
  {
    forall i :: 0 <= i < |s| - 1 ==> DistinctAt(s, i)
  }

  predicate StrictlyIncreasingQaly(s: seq<Row>)
  {
    forall i, j :: 0 <= i < j < |s| ==> s[i].qaly < s[j].qaly
  }

  /** The incremental cost per QALY of `b` against `a`. */
  function Icer(a: Row, b: Row): real
    requires a.qaly != b.qaly
  {
    (b.cost - a.cost) / (b.qaly - a.qaly)
  }

  /** The ICER of each row against the one before it. */
  function Icers(s: seq<Row>): (a: seq<real>)
    requires AdjacentDistinct(s)
    ensures |a| == if |s| == 0 then 0 else |s| - 1
  {
    if |s| == 0 then []
    else seq(|s| - 1, i requires 0 <= i < |s| - 1 => assert DistinctAt(s, i); Icer(s[i], s[i + 1]))
  }

  /** After phase 1 the rows are sorted, so two adjacent rows differ in
      QALYs exactly when the QALYs strictly increase. */
  lemma DistinctIsIncreasing(s: seq<Row>)
    requires SortedByKey(s)
    ensures AdjacentDistinct(s) <==> StrictlyIncreasingQaly(s)
  {
    if AdjacentDistinct(s) {
      forall i, j | 0 <= i < j < |s|
        ensures s[i].qaly < s[j].qaly
      {
        assert !KeyLess(s[j], s[j - 1]) && DistinctAt(s, j - 1);
        if i < j - 1 {
          assert !KeyLess(s[j - 1], s[i]);
        }
      }
    } else {
      var i :| 0 <= i < |s| - 1 && !DistinctAt(s, i);
      assert !(s[i].qaly < s[i + 1].qaly);
    }
  }

  /** The ICERs of the rows, one per adjacent pair; the source raises a
      division by zero when two adjacent rows have equal QALYs. */
  method GetIcers(data: seq<Row>) returns (icers: seq<real>)
    requires AdjacentDistinct(data)
    ensures icers == Icers(data)
  {
    ghost var all := Icers(data);
    icers := [];
    var i := 1;
    while i < |data|
      invariant 1 <= i && i - 1 <= |all|
      invariant icers == all[..i - 1]
    {
      assert DistinctAt(data, i - 1);
      var icer := Icer(data[i - 1], data[i]);
      assert all[i - 1] == icer;
      TakeNext(all, i - 1);
      icers := icers + [icer];
      i := i + 1;
    }
    assert icers == all[..|all|];
  }

  lemma TakeNext<T>(s: seq<T>, i: nat)
    requires i < |s|
    ensures s[..i + 1] == s[..i] + [s[i]]
  {
  }

  /** The ICER at `m` does not exceed the next one. */
  predicate NoDropAt(a: seq<real>, m: int)
    requires 0 <= m < |a| - 1
  {
    !(a[m] > a[m + 1])
  }

  predicate NonDecreasing(a: seq<real>)
  {
    forall i :: 0 <= i < |a| - 1 ==> NoDropAt(a, i)
  }

  /** The first index from `j` on whose ICER exceeds the next, or the last
      index when there is none. */
  function FirstDecrease(a: seq<real>, j: nat): (k: nat)
    requires j < |a|
    ensures j <= k < |a|
    ensures k < |a| - 1 ==> !NoDropAt(a, k)
    ensures forall m :: j <= m < k ==> NoDropAt(a, m)
    decreases |a| - j
  {
    if j == |a| - 1 then j
    else if a[j] > a[j + 1] then j
    else FirstDecrease(a, j + 1)
  }

  lemma {:induction false} FirstDecreaseAt(a: seq<real>, j: nat, k: nat)
    requires j <= k < |a|
    requires forall m :: j <= m < k ==> NoDropAt(a, m)
    requires k == |a| - 1 || !NoDropAt(a, k)
    ensures FirstDecrease(a, j) == k
    decreases k - j
  {
    if j < k {
      FirstDecreaseAt(a, j + 1, k);
    }
  }

  lemma WithoutIncreasing(s: seq<Row>, i: nat)
    requires i < |s| && StrictlyIncreasingQaly(s)
    ensures StrictlyIncreasingQaly(Without(s, i))
  {
  }

  lemma IncreasingIsDistinct(s: seq<Row>)
    requires StrictlyIncreasingQaly(s)
    ensures AdjacentDistinct(s)
  {
    forall i | 0 <= i < |s| - 1
      ensures DistinctAt(s, i)
    {
      assert s[i].qaly < s[i + 1].qaly;
    }
  }

  lemma NoDecreaseIsNonDecreasing(a: seq<real>)
    requires 1 <= |a| && FirstDecrease(a, 0) == |a| - 1
    ensures NonDecreasing(a)
  {
  }

  /** Phase 2 as a function: delete the row between the first pair of ICERs
      that decreases and restart, until the ICERs never decrease. */
  function Phase2(s: seq<Row>): (r: seq<Row>)
    requires 2 <= |s| && StrictlyIncreasingQaly(s)
    ensures 2 <= |r| <= |s|
    decreases |s|
  {
    IncreasingIsDistinct(s);
    var a := Icers(s);
    var k := FirstDecrease(a, 0);
    if k == |a| - 1 then s
    else
      WithoutIncreasing(s, k + 1);
      Phase2(Without(s, k + 1))
  }

  /** What phase 2 leaves is a frontier: the QALYs still increase, the ICERs
      never decrease, and the rows with the fewest and the most QALYs are
      never deleted. */
  lemma {:induction false} Phase2Frontier(s: seq<Row>)
    requires 2 <= |s| && StrictlyIncreasingQaly(s)
    ensures Phase2(s)[0] == s[0] && Phase2(s)[|Phase2(s)| - 1] == s[|s| - 1]
    ensures StrictlyIncreasingQaly(Phase2(s)) && AdjacentDistinct(Phase2(s))
    ensures NonDecreasing(Icers(Phase2(s)))
    decreases |s|
  {
    IncreasingIsDistinct(s);
    var k := FirstDecrease(Icers(s), 0);
    if k == |Icers(s)| - 1 {
      Phase2Done(s);
      NoDecreaseIsNonDecreasing(Icers(s));
    } else {
      Phase2Step(s, k);
      Phase2Frontier(Without(s, k + 1));
    }
  }

  /** Phase 2 only deletes rows. */
  lemma {:induction false} Phase2Members(s: seq<Row>)
    requires 2 <= |s| && StrictlyIncreasingQaly(s)
    ensures forall x :: x in Phase2(s) ==> x in s
    decreases |s|
  {
    IncreasingIsDistinct(s);
    var k := FirstDecrease(Icers(s), 0);
    if k < |Icers(s)| - 1 {
      Phase2Step(s, k);
      Phase2Members(Without(s, k + 1));
      WithoutMembers(s, k + 1);
    }
  }

  /** When no pair of ICERs decreases, phase 2 keeps every row. */
  lemma Phase2Done(s: seq<Row>)
    requires 2 <= |s| && StrictlyIncreasingQaly(s)
    requires FirstDecrease(Icers(s), 0) == |Icers(s)| - 1
    ensures Phase2(s) == s
  {
  }

  /** Otherwise it deletes the row between the first decreasing pair. */
  lemma Phase2Step(s: seq<Row>, k: nat)
    requires 2 <= |s| && StrictlyIncreasingQaly(s)
    requires k == FirstDecrease(Icers(s), 0) && k < |Icers(s)| - 1
    ensures StrictlyIncreasingQaly(Without(s, k + 1))
    ensures Phase2(s) == Phase2(Without(s, k + 1))
  {
    IncreasingIsDistinct(s);
    WithoutIncreasing(s, k + 1);
    var a := Icers(s);
    assert FirstDecrease(a, 0) == k && k != |a| - 1;
  }

  /** The loop of phase 2: recompute the ICERs, delete the row between the
      first decreasing pair and restart, until a scan reaches the last ICER;
      the ICERs of the final rows are returned with them. */
  method RemoveExtendedDominated(front: seq<Row>) returns (data: seq<Row>, icers: seq<real>)
    requires 2 <= |front| && StrictlyIncreasingQaly(front)
    ensures data == Phase2(front) && AdjacentDistinct(data) && icers == Icers(data)
  {
    data := front;
    while true
      invariant 2 <= |data| && StrictlyIncreasingQaly(data)
      invariant Phase2(data) == Phase2(front)
      decreases |data|
    {
      IncreasingIsDistinct(data);
      icers := GetIcers(data);
      var index := ScanIcers(icers);
      if index == |icers| - 1 {
        Phase2Done(data);
        return;
      }
      Phase2Step(data, index);
      data := Without(data, index + 1);
    }
  }

  /** The scan of one pass of phase 2: the first index whose ICER exceeds
      the next one, or the last index when there is none. */
  method ScanIcers(icers: seq<real>) returns (index: nat)
    requires 1 <= |icers|
    ensures index == FirstDecrease(icers, 0)
  {
    index := 0;
    while index < |icers| - 1 && !(icers[index] > icers[index + 1])
      invariant index <= |icers| - 1
      invariant forall m :: 0 <= m < index ==> NoDropAt(icers, m)
    {
      index := index + 1;
    }
    FirstDecreaseAt(icers, 0, index);
  }

  // ---------------------------------------------------------------------
  // Tagging and the threshold choice
  // ---------------------------------------------------------------------

  /** Appends to every row its ICER: 'N/A' to the first, the ICER against
      its predecessor to each later one. */
  method TagRows(data: seq<Row>, icers: seq<real>) returns (tagged: seq<TaggedRow>)
    requires 1 <= |data| && |icers| == |data| - 1
    ensures |tagged| == |data|
    ensures forall i :: 0 <= i < |data| ==> tagged[i].row == data[i]
    ensures tagged[0].icer == NA
    ensures forall i :: 1 <= i < |data| ==> tagged[i].icer == Num(icers[i - 1])
  {
    tagged := [TaggedRow(data[0], NA)];
    for i := 1 to |data|
      invariant |tagged| == i
      invariant forall j :: 0 <= j < i ==> tagged[j].row == data[j]
      invariant tagged[0].icer == NA
      invariant forall j :: 1 <= j < i ==> tagged[j].icer == Num(icers[j - 1])
    {
      tagged := tagged + [TaggedRow(data[i], Num(icers[i - 1]))];
    }
  }

  /** The row chosen among rows 0..k: the highest whose ICER (that of row
      j is `icers[j - 1]`) is below the threshold, or row 0. Every ICER of a
      row above the chosen one is at or above the threshold. */
  function Choose(icers: seq<real>, threshold: real, k: nat): (c: nat)
    requires k <= |icers|
    ensures c <= k
    ensures 0 < c ==> icers[c - 1] < threshold
    ensures forall j :: c <= j < k ==> threshold <= icers[j]
  {
    if k == 0 then 0
    else if icers[k - 1] < threshold then k
    else Choose(icers, threshold, k - 1)
  }

  /** Any row index with the two properties of `Choose` is its choice. */
  lemma {:induction false} ChooseUnique(icers: seq<real>, threshold: real, k: nat, c: nat)
    requires c <= k <= |icers|
    requires 0 < c ==> icers[c - 1] < threshold
    requires forall j :: c <= j < k ==> threshold <= icers[j]
    ensures Choose(icers, threshold, k) == c
  {
    if c < k {
      ChooseUnique(icers, threshold, k - 1, c);
    }
  }

  /** Scans the tagged rows from the most QALYs down and returns the name of
      the first that is 'N/A' or has an ICER below the threshold. */
  method SelectLocation(tagged: seq<TaggedRow>, icers: seq<real>, threshold: real) returns (name: string)
    requires |tagged| == |icers| + 1 && tagged[0].icer == NA
    requires forall i :: 1 <= i < |tagged| ==> tagged[i].icer == Num(icers[i - 1])
    ensures name == tagged[Choose(icers, threshold, |icers|)].row.name
  {
    var i := |tagged| - 1;
    while true
      invariant 0 <= i < |tagged|
      invariant forall j :: i <= j < |icers| ==> threshold <= icers[j]
      decreases i
    {
      var icer := tagged[i].icer;
      if icer == NA || icer.x < threshold {
        ChooseUnique(icers, threshold, |icers|, i);
        return tagged[i].row.name;
      }
      i := i - 1;
    }
  }

  // ---------------------------------------------------------------------
  // The whole selection
  // ---------------------------------------------------------------------

  /** The rows after the sort and phase 1 are those phase 2 starts from. */
  function Front(rows: seq<Row>): (r: seq<Row>)
    requires 1 <= |rows|
    ensures 1 <= |r| && SortedByKey(r)
  {
    SortSorted(rows);
    Phase1(SortByKey(rows))
  }

  /** The frontier phase 2 leaves from a sorted front of at least two rows
      with distinct QALYs. */
  function Frontier(front: seq<Row>): (r: seq<Row>)
    requires 2 <= |front| && SortedByKey(front) && AdjacentDistinct(front)
    ensures 2 <= |r| && AdjacentDistinct(r)
  {
    DistinctIsIncreasing(front);
    Phase2Frontier(front);
    Phase2(front)
  }

  /** The label of the row with the most QALYs whose ICER is below the
      threshold, or of the first row when there is none. */
  function Pick(frontier: seq<Row>, threshold: real): string
    requires 1 <= |frontier| && AdjacentDistinct(frontier)
  {
    frontier[Choose(Icers(frontier), threshold, |frontier| - 1)].name
  }

  /** What the source ends in once phase 1 has left `front`. */
  function FromFront(front: seq<Row>, threshold: real): Selection
    requires 1 <= |front| && SortedByKey(front)
  {
    if |front| < 2 then NoTermination
    else if !AdjacentDistinct(front) then DivisionByZero
    else Selected(Pick(Frontier(front), threshold))
  }

  /** What choosing the optimal strategy among `rows` ends in. */
  function Optimal(rows: seq<Row>, threshold: real): Selection
  {
    if |rows| == 0 then NoTermination else FromFront(Front(rows), threshold)
  }

  /** The optimal location for the costs and QALYs of the strategies. */
  method GetOptimal(costs: map<string, Value>, qalys: map<string, Value>, strategies: seq<string>, threshold: real)
    returns (selection: Selection)
    requires Priced(costs, qalys, strategies)
    ensures selection == Optimal(FormattedRows(costs, qalys, strategies), threshold)
  {
    var data := FormatResults(costs, qalys, strategies);
    ghost var rows := data;
    data := SortByKey(data);
    SortSorted(rows);
    if |data| == 0 {
      return NoTermination;
    }
    data := RemoveDominated(data);
    assert data == Front(rows);
    selection := SelectOnFront(data, threshold);
  }

  /** The part of the source after phase 1: phase 2 and the choice by the
      threshold. */
  method SelectOnFront(front: seq<Row>, threshold: real) returns (selection: Selection)
    requires 1 <= |front| && SortedByKey(front)
    ensures selection == FromFront(front, threshold)
  {
    if |front| < 2 {
      return NoTermination;
    }
    if !AdjacentDistinct(front) {
      return DivisionByZero;
    }
    DistinctIsIncreasing(front);
    var data, icers := RemoveExtendedDominated(front);
    assert data == Frontier(front);
    var tagged := TagRows(data, icers);
    var name := SelectLocation(tagged, icers, threshold);
    return Selected(name);
  }

  // ---------------------------------------------------------------------
  // Properties of the selection
  // ---------------------------------------------------------------------

  /** The chosen location is always one of the strategies' labels. */
  lemma OptimalIsAStrategy(rows: seq<Row>, threshold: real)
    requires Optimal(rows, threshold).Selected?
    ensures Optimal(rows, threshold).location in Names(rows)
  {
    var front := Front(rows);
    var frontier := Frontier(front);
    var x := frontier[Choose(Icers(frontier), threshold, |frontier| - 1)];
    assert Optimal(rows, threshold).location == x.name;
    assert x in rows by {
      DistinctIsIncreasing(front);
      Phase2Members(front);
      assert x in front;
      Phase1Membership(rows, x);
    }
    NamesMembership(rows, x);
  }

  /** The source stops only when at least two rows survive phase 1. */
  lemma OptimalTerminates(rows: seq<Row>, threshold: real)
    ensures Optimal(rows, threshold) == NoTermination <==> |rows| == 0 || |Front(rows)| < 2
    ensures Optimal(rows, threshold) == DivisionByZero
        <==> 1 <= |rows| && 2 <= |Front(rows)| && !AdjacentDistinct(Front(rows))
  {
  }

  /** A single strategy never terminates. */
  lemma SingleStrategyNeverEnds(r: Row, threshold: real)
    ensures Optimal([r], threshold) == NoTermination
  {
    assert |Front([r])| <= 1;
  }

  /** The rule the choice follows: the chosen row is on the frontier, its
      ICER (if it is not the first row) is below the threshold, and every
      frontier row with more QALYs has an ICER at or above it. */
  predicate MeetsThreshold(frontier: seq<Row>, threshold: real, c: nat)
    requires AdjacentDistinct(frontier)
  {
    var icers := Icers(frontier);
    c < |frontier|
    && (0 < c ==> icers[c - 1] < threshold)
    && (forall j :: c <= j < |frontier| - 1 ==> threshold <= icers[j])
  }

  /** The source selects a row that meets the rule... */
  lemma OptimalMeetsThreshold(rows: seq<Row>, threshold: real)
    requires 1 <= |rows| && 2 <= |Front(rows)| && AdjacentDistinct(Front(rows))
    ensures var frontier := Frontier(Front(rows));
      var c := Choose(Icers(frontier), threshold, |frontier| - 1);
      MeetsThreshold(frontier, threshold, c) && Optimal(rows, threshold) == Selected(frontier[c].name)
  {
    var frontier := Frontier(Front(rows));
    var icers := Icers(frontier);
    var c := Choose(icers, threshold, |frontier| - 1);
    assert MeetsThreshold(frontier, threshold, c);
    assert Optimal(rows, threshold) == Selected(Pick(frontier, threshold));
  }

  /** ... and any row that meets the rule is the one selected. */
  lemma OptimalThreshold(rows: seq<Row>, threshold: real, c: nat)
    requires 1 <= |rows| && 2 <= |Front(rows)| && AdjacentDistinct(Front(rows))
    requires MeetsThreshold(Frontier(Front(rows)), threshold, c)
    ensures Optimal(rows, threshold) == Selected(Frontier(Front(rows))[c].name)
  {
    var frontier := Frontier(Front(rows));
    PickMeets(frontier, threshold, c);
    assert Optimal(rows, threshold) == Selected(Pick(frontier, threshold));
  }

  lemma PickMeets(frontier: seq<Row>, threshold: real, c: nat)
    requires 1 <= |frontier| && AdjacentDistinct(frontier)
    requires MeetsThreshold(frontier, threshold, c)
    ensures Pick(frontier, threshold) == frontier[c].name
  {
    ChooseUnique(Icers(frontier), threshold, |frontier| - 1, c);
  }

  // ---------------------------------------------------------------------
  // The selection is never strictly dominated
  // ---------------------------------------------------------------------

  /** `y` has at least the QALYs of `x` at no higher cost, and is better in
      one of the two. */
  predicate StrictlyDominates(y: Row, x: Row)
  {
    y.qaly >= x.qaly && y.cost <= x.cost && (y.qaly > x.qaly || y.cost < x.cost)
  }

  /** The segment from `a` to `b` rises in QALYs, and `w` lies on or above
      the line through `a` and `b`. */
  predicate OnOrAbove(a: Row, b: Row, w: Row)
  {
    a.qaly < b.qaly && w.cost >= a.cost + Icer(a, b) * (w.qaly - a.qaly)
  }

  /** `w` lies on or above every segment of `chain` whose QALY range holds
      its QALYs. */
  predicate Supported(chain: seq<Row>, w: Row)
  {
    forall i :: 0 <= i < |chain| - 1 ==> AboveSegment(chain, i, w)
  }

  /** `w` lies on or above segment `i` of `chain` if that segment's QALY
      range holds its QALYs. */
  predicate AboveSegment(chain: seq<Row>, i: int, w: Row)
    requires 0 <= i < |chain| - 1
  {
    chain[i].qaly <= w.qaly <= chain[i + 1].qaly ==> OnOrAbove(chain[i], chain[i + 1], w)
  }

  /** The ICER times the QALY gain is the cost increment. */
  lemma IcerSpan(a: Row, b: Row)
    requires a.qaly != b.qaly
    ensures Icer(a, b) * (b.qaly - a.qaly) == b.cost - a.cost
  {
  }

  /** Each row of a chain lies on the segments next to it. */
  lemma SupportedBySelf(s: seq<Row>, w: Row)
    requires StrictlyIncreasingQaly(s) && w in s
    ensures Supported(s, w)
  {
    var m :| 0 <= m < |s| && s[m] == w;
    forall i | 0 <= i < |s| - 1
      ensures AboveSegment(s, i, w)
    {
      if s[i].qaly <= w.qaly <= s[i + 1].qaly {
        assert s[i].qaly < s[i + 1].qaly;
        assert m == i || m == i + 1;
        if m == i + 1 {
          IcerSpan(s[i], s[i + 1]);
          assert w.cost == s[i].cost + Icer(s[i], s[i + 1]) * (w.qaly - s[i].qaly);
        } else {
          assert w.qaly - s[i].qaly == 0.0;
        }
      }
    }
  }

  /** When `d` lies above the line from `a` to `b` (its ICER against `a`
      exceeds that of `b` against it), a row on or above the segments from
      `a` to `d` and from `d` to `b` is on or above the line from `a` to `b`. */
  lemma ChordMerge(a: Row, d: Row, b: Row, w: Row)
    requires a.qaly < d.qaly < b.qaly && Icer(a, d) > Icer(d, b)
    requires a.qaly <= w.qaly <= b.qaly
    requires (w.qaly <= d.qaly && OnOrAbove(a, d, w)) || (d.qaly <= w.qaly && OnOrAbove(d, b, w))
    ensures OnOrAbove(a, b, w)
  {
    var s1, s2, s := Icer(a, d), Icer(d, b), Icer(a, b);
    var p, q := d.qaly - a.qaly, b.qaly - d.qaly;
    IcerSpan(a, d);
    IcerSpan(d, b);
    IcerSpan(a, b);
    assert (s - s2) * (p + q) == (s1 - s2) * p;
    assert (s1 - s) * (p + q) == (s1 - s2) * q;
    MulNonNegative(s1 - s2, p);
    MulNonNegative(s1 - s2, q);
    FactorSign(s - s2, p + q);
    FactorSign(s1 - s, p + q);
    if w.qaly <= d.qaly && OnOrAbove(a, d, w) {
      MulNonNegative(s1 - s, w.qaly - a.qaly);
    } else {
      assert w.cost >= b.cost + s2 * (w.qaly - b.qaly);
      MulNonNegative(s - s2, b.qaly - w.qaly);
    }
  }

  lemma FactorSign(x: real, y: real)
    requires 0.0 < y && 0.0 <= x * y
    ensures 0.0 <= x
  {
  }

  /** Deleting a row that lies above the line of its neighbours keeps every
      supported row supported. */
  lemma DeleteKeepsSupport(s: seq<Row>, k: nat, w: Row)
    requires StrictlyIncreasingQaly(s) && k + 2 < |s|
    requires Icer(s[k], s[k + 1]) > Icer(s[k + 1], s[k + 2])
    requires Supported(s, w)
    ensures Supported(Without(s, k + 1), w)
  {
    var t := Without(s, k + 1);
    forall i | 0 <= i < |t| - 1
      ensures AboveSegment(t, i, w)
    {
      if i < k {
        assert AboveSegment(s, i, w);
        assert t[i] == s[i] && t[i + 1] == s[i + 1];
      } else if i == k {
        assert t[i] == s[k] && t[i + 1] == s[k + 2];
        if s[k].qaly <= w.qaly <= s[k + 2].qaly {
          assert AboveSegment(s, k, w) && AboveSegment(s, k + 1, w);
          assert s[k].qaly < s[k + 1].qaly < s[k + 2].qaly;
          ChordMerge(s[k], s[k + 1], s[k + 2], w);
        }
      } else {
        assert AboveSegment(s, i + 1, w);
        assert t[i] == s[i + 1] && t[i + 1] == s[i + 2];
      }
    }
  }

  /** Phase 2 deletes only rows above the line of their neighbours, so a row
      on or above the chain it starts from is on or above the frontier. */
  lemma {:induction false} Phase2KeepsSupport(s: seq<Row>, w: Row)
    requires 2 <= |s| && StrictlyIncreasingQaly(s) && Supported(s, w)
    ensures Supported(Phase2(s), w)
    decreases |s|
  {
    IncreasingIsDistinct(s);
    var a := Icers(s);
    var k := FirstDecrease(a, 0);
    if k < |a| - 1 {
      Phase2Step(s, k);
      assert a[k] == Icer(s[k], s[k + 1]) && a[k + 1] == Icer(s[k + 1], s[k + 2]);
      DeleteKeepsSupport(s, k, w);
      Phase2KeepsSupport(Without(s, k + 1), w);
    } else {
      Phase2Done(s);
    }
  }

  /** Deleting a dominated row leaves, for every row, a row with its QALYs
      at no higher cost. */
  lemma DeletionCovers(s: seq<Row>, k: nat, z: Row) returns (w: Row)
    requires SortedByKey(s) && k + 1 < |s| && Dominates(s[k], s[k + 1]) && z in s
    ensures w in Without(s, k + 1) && w.qaly == z.qaly && w.cost <= z.cost
  {
    var t := Without(s, k + 1);
    if z == s[k + 1] {
      assert !KeyLess(s[k + 1], s[k]);
      w := s[k];
      assert t[k] == w;
    } else {
      var j :| 0 <= j < |s| && s[j] == z;
      w := z;
      assert z == t[if j < k + 1 then j else j - 1];
    }
  }

  /** For every row, phase 1 keeps a row with its QALYs at no higher cost. */
  lemma {:induction false} Phase1Covers(s: seq<Row>, z: Row)
    requires 1 <= |s| && SortedByKey(s) && z in s
    ensures exists x :: x in Phase1(s) && x.qaly == z.qaly && x.cost <= z.cost
    decreases |s|
  {
    var k := FirstDominated(s, 0);
    if k < |s| - 1 {
      var t := Without(s, k + 1);
      WithoutSorted(s, k + 1);
      assert Phase1(s) == Phase1(t);
      var w := DeletionCovers(s, k, z);
      Phase1Covers(t, w);
    }
  }

  /** The sort loses no row. */
  lemma InSorted(rows: seq<Row>, y: Row)
    requires y in rows
    ensures y in SortByKey(rows)
  {
    SortSorted(rows);
    assert y in multiset(rows);
  }

  /** A non-negative ICER from `a` to `b` means `b` costs no less. */
  lemma IcerSign(a: Row, b: Row)
    requires a.qaly < b.qaly && 0.0 <= Icer(a, b)
    ensures a.cost <= b.cost
  {
    IcerSpan(a, b);
    MulNonNegative(Icer(a, b), b.qaly - a.qaly);
  }

  /** A row on or above a rising segment, with more QALYs than its start,
      costs more than that start. */
  lemma AboveRising(a: Row, b: Row, w: Row)
    requires OnOrAbove(a, b, w) && 0.0 < Icer(a, b) && a.qaly < w.qaly
    ensures a.cost < w.cost
  {
    MulPositive(Icer(a, b), w.qaly - a.qaly);
  }

  /** Row `m + 1` of a chain costs more than row `m`. */
  predicate CostStep(f: seq<Row>, m: int)
    requires 0 <= m < |f| - 1
  {
    f[m].cost < f[m + 1].cost
  }

  /** Costs rise strictly along a chain from row `c` on. */
  predicate CostsRiseFrom(f: seq<Row>, c: int)
  {
    forall m :: c <= m < |f| - 1 && 0 <= m ==> CostStep(f, m)
  }

  /** A segment whose ICER is at or above a positive threshold rises in
      cost. */
  lemma StepRises(f: seq<Row>, threshold: real, m: nat)
    requires AdjacentDistinct(f) && m < |f| - 1 && f[m].qaly < f[m + 1].qaly
    requires 0.0 < threshold <= Icers(f)[m]
    ensures 0.0 < Icer(f[m], f[m + 1]) && CostStep(f, m)
  {
    var a, b := f[m], f[m + 1];
    assert Icers(f)[m] == Icer(a, b);
    IcerSpan(a, b);
    MulPositive(Icer(a, b), b.qaly - a.qaly);
  }

  /** Past the row chosen at a positive threshold every ICER is at or above
      the threshold, so costs rise from that row on. */
  lemma ChosenCostsRise(f: seq<Row>, threshold: real, c: nat)
    requires 1 <= |f| && AdjacentDistinct(f) && StrictlyIncreasingQaly(f) && 0.0 < threshold
    requires c == Choose(Icers(f), threshold, |f| - 1)
    ensures CostsRiseFrom(f, c)
  {
    forall m | c <= m < |f| - 1 && 0 <= m
      ensures CostStep(f, m)
    {
      StepRises(f, threshold, m);
    }
  }

  /** Where costs rise from row `c` on, no later row costs less. */
  lemma {:induction false} CostsRiseAfter(f: seq<Row>, c: nat, j: nat)
    requires c <= j < |f| && CostsRiseFrom(f, c)
    ensures f[c].cost <= f[j].cost
    decreases j - c
  {
    if c < j {
      CostsRiseAfter(f, c, j - 1);
      assert CostStep(f, j - 1);
    }
  }

  /** The segment of a chain, at or after row `c`, whose QALY range holds
      `q`. */
  lemma {:induction false} FindSegment(f: seq<Row>, c: nat, q: real) returns (j: nat)
    requires StrictlyIncreasingQaly(f) && c < |f| && f[c].qaly < q <= f[|f| - 1].qaly
    ensures c <= j < |f| - 1 && f[j].qaly < q <= f[j + 1].qaly
    decreases |f| - c
  {
    if q <= f[c + 1].qaly {
      j := c;
    } else {
      j := FindSegment(f, c + 1, q);
    }
  }

  /** `f` is a chain of at least two rows, strictly rising in QALYs, that
      `z` lies on or above and whose last row has at least its QALYs. */
  predicate ChainOver(f: seq<Row>, z: Row)
  {
    2 <= |f| && StrictlyIncreasingQaly(f) && AdjacentDistinct(f)
    && Supported(f, z) && z.qaly <= f[|f| - 1].qaly
  }

  /** On such a chain, a row with more QALYs than the row chosen at a
      positive threshold costs more than that row. */
  lemma ChainAbove(f: seq<Row>, threshold: real, c: nat, z: Row)
    requires ChainOver(f, z) && 0.0 < threshold
    requires c == Choose(Icers(f), threshold, |f| - 1) && f[c].qaly < z.qaly
    ensures f[c].cost < z.cost
  {
    var j := FindSegment(f, c, z.qaly);
    assert threshold <= Icers(f)[j];
    StepRises(f, threshold, j);
    ChosenCostsRise(f, threshold, c);
    CostsRiseAfter(f, c, j);
    AboveSegmentRising(f, j, z);
  }

  /** A row over a segment with a positive ICER costs more than the
      segment's start. */
  lemma AboveSegmentRising(f: seq<Row>, j: nat, z: Row)
    requires Supported(f, z) && j < |f| - 1 && f[j].qaly < z.qaly <= f[j + 1].qaly
    requires f[j].qaly != f[j + 1].qaly && 0.0 < Icer(f[j], f[j + 1])
    ensures f[j].cost < z.cost
  {
    assert AboveSegment(f, j, z);
    AboveRising(f[j], f[j + 1], z);
  }

  /** No row of a chain has more QALYs than its last. */
  lemma LastIsHighest(s: seq<Row>, z: Row)
    requires StrictlyIncreasingQaly(s) && z in s
    ensures z.qaly <= s[|s| - 1].qaly
  {
    var m :| 0 <= m < |s| && s[m] == z;
    if m < |s| - 1 {
      assert s[m].qaly < s[|s| - 1].qaly;
    }
  }

  /** The frontier is such a chain over every row of the front. */
  lemma FrontierSupports(front: seq<Row>, z: Row)
    requires 2 <= |front| && SortedByKey(front) && AdjacentDistinct(front) && z in front
    ensures ChainOver(Frontier(front), z)
  {
    DistinctIsIncreasing(front);
    SupportedBySelf(front, z);
    Phase2KeepsSupport(front, z);
    Phase2Frontier(front);
    LastIsHighest(front, z);
  }

  /** Every strategy has a row of `front` with its QALYs at no higher
      cost. */
  predicate CoveredBy(rows: seq<Row>, front: seq<Row>)
  {
    forall y :: y in rows ==> exists z :: z in front && z.qaly == y.qaly && z.cost <= y.cost
  }

  /** For every strategy, the sort and phase 1 keep a row with its QALYs at
      no higher cost. */
  lemma FrontCovers(rows: seq<Row>, y: Row) returns (z: Row)
    requires y in rows
    ensures z in Front(rows) && z.qaly == y.qaly && z.cost <= y.cost
  {
    var s := SortByKey(rows);
    SortSorted(rows);
    InSorted(rows, y);
    Phase1Covers(s, y);
    z :| z in Phase1(s) && z.qaly == y.qaly && z.cost <= y.cost;
  }

  /** The front covers every strategy. */
  lemma FrontCoversAll(rows: seq<Row>)
    requires 1 <= |rows|
    ensures CoveredBy(rows, Front(rows))
  {
    forall y | y in rows
      ensures exists z :: z in Front(rows) && z.qaly == y.qaly && z.cost <= y.cost
    {
      var z := FrontCovers(rows, y);
    }
  }

  /** The frontier is a chain over every row of the front. */
  lemma FrontierSupportsAll(front: seq<Row>)
    requires 2 <= |front| && SortedByKey(front) && AdjacentDistinct(front)
    ensures forall z :: z in front ==> ChainOver(Frontier(front), z)
  {
    forall z | z in front
      ensures ChainOver(Frontier(front), z)
    {
      FrontierSupports(front, z);
    }
  }

  /** For a positive threshold, a strategy with more QALYs than the row
      chosen on a chain over a front that covers it costs strictly more. */
  lemma CoveredAbove(rows: seq<Row>, front: seq<Row>, f: seq<Row>, threshold: real, c: nat, y: Row)
    requires 0.0 < threshold && 2 <= |f| && AdjacentDistinct(f)
    requires c == Choose(Icers(f), threshold, |f| - 1)
    requires CoveredBy(rows, front) && forall z :: z in front ==> ChainOver(f, z)
    requires y in rows && f[c].qaly < y.qaly
    ensures f[c].cost < y.cost
  {
    var z :| z in front && z.qaly == y.qaly && z.cost <= y.cost;
    ChainAbove(f, threshold, c, z);
  }

  lemma MulPositive(a: real, b: real)
    requires 0.0 < a && 0.0 < b
    ensures 0.0 < a * b
  {
  }

  /** A strategy cheapest for its QALYs, with every strategy of more QALYs
      costing more, is strictly dominated by none. */
  lemma Undominated(rows: seq<Row>, x: Row)
    requires Cheapest(x, rows)
    requires forall y :: y in rows && x.qaly < y.qaly ==> x.cost < y.cost
    ensures forall y :: y in rows ==> !StrictlyDominates(y, x)
  {
  }

  /** For a positive threshold the selected frontier row is a strategy that
      no strategy strictly dominates. */
  lemma SelectedRowUndominated(rows: seq<Row>, threshold: real)
    requires 0.0 < threshold && 1 <= |rows| && 2 <= |Front(rows)| && AdjacentDistinct(Front(rows))
    ensures var f := Frontier(Front(rows)); var x := f[Choose(Icers(f), threshold, |f| - 1)];
      x in rows && forall y :: y in rows ==> !StrictlyDominates(y, x)
  {
    var front := Front(rows);
    var f := Frontier(front);
    var x := f[Choose(Icers(f), threshold, |f| - 1)];
    assert x in front by {
      DistinctIsIncreasing(front);
      Phase2Members(front);
    }
    assert x in rows && Cheapest(x, rows) by {
      Phase1Membership(rows, x);
    }
    FrontCoversAll(rows);
    FrontierSupportsAll(front);
    forall y | y in rows && x.qaly < y.qaly
      ensures x.cost < y.cost
    {
      CoveredAbove(rows, front, f, threshold, Choose(Icers(f), threshold, |f| - 1), y);
    }
    Undominated(rows, x);
  }

  /** For a positive threshold the selected location is never strictly
      dominated: it names a strategy that no other strategy matches in
      QALYs at no higher cost while being better in one of the two. */
  lemma OptimalNotDominated(rows: seq<Row>, threshold: real, l: string)
    requires 0.0 < threshold && Optimal(rows, threshold) == Selected(l)
    ensures exists x :: x in rows && x.name == l && forall y :: y in rows ==> !StrictlyDominates(y, x)
  {
    OptimalTerminates(rows, threshold);
    OptimalMeetsThreshold(rows, threshold);
    SelectedRowUndominated(rows, threshold);
  }

  /** A non-positive threshold can select a dominated strategy: B has more
      QALYs than A at a lower cost, yet A's ICER of -50 is not below -100. */
  lemma NonPositiveThresholdExample()
    ensures StrictlyDominates(Row("B", 2.0, 50.0), Row("A", 1.0, 100.0))
    ensures Optimal([Row("A", 1.0, 100.0), Row("B", 2.0, 50.0)], -100.0) == Selected("A")
  {
    var rows := [Row("A", 1.0, 100.0), Row("B", 2.0, 50.0)];
    assert rows[..1][..0] == [] && [rows[0]][1..] == [];
    assert SortByKey(rows[..1]) == [rows[0]];
    assert Insert([rows[0]], rows[1]) == rows;
    assert SortByKey(rows) == rows;
    assert FirstDominated(rows, 0) == 1;
    assert Front(rows) == rows;
    assert Icers(rows) == [-50.0];
    assert Phase2(rows) == rows;
  }

  // ---------------------------------------------------------------------
  // The worked example of the source's comment
  // ---------------------------------------------------------------------

  const EXAMPLE_ROWS: seq<Row> :=
    [Row("1", 0.0, 0.0), Row("2", 1.0, 100.0), Row("3", 2.0, 400.0), Row("4", 3.0, 600.0)]

  /** ICERs 100, 300, 200: 300 > 200, so the third strategy (index 2) is
      deleted and the ICERs of the rest are 100 and 250. */
  lemma WorkedExample()
    ensures StrictlyIncreasingQaly(EXAMPLE_ROWS)
    ensures Icers(EXAMPLE_ROWS) == [100.0, 300.0, 200.0]
    ensures FirstDecrease(Icers(EXAMPLE_ROWS), 0) == 1
    ensures Phase2(EXAMPLE_ROWS) == [EXAMPLE_ROWS[0], EXAMPLE_ROWS[1], EXAMPLE_ROWS[3]]
    ensures Icers(Phase2(EXAMPLE_ROWS)) == [100.0, 250.0]
  {
    var s := EXAMPLE_ROWS;
    assert Icers(s) == [100.0, 300.0, 200.0];
    var s' := Without(s, 2);
    assert s' == [s[0], s[1], s[3]];
    assert Icers(s') == [100.0, 250.0];
    assert FirstDecrease(Icers(s'), 0) == 1;
  }

  const TIE_ROWS: seq<Row> := [Row("X", 5.0, 1000.0), Row("Y", 6.0, 1005.0), Row("Z", 6.0, 2000.0)]

  /** A QALY tie: Z has the QALYs of Y at a higher cost, so phase 1 deletes
      it, and Y's ICER of 5 against X is below a threshold of 500. */
  lemma TieExample()
    ensures Front(TIE_ROWS) == [TIE_ROWS[0], TIE_ROWS[1]]
    ensures Optimal(TIE_ROWS, 500.0) == Selected("Y")
  {
    var s := TIE_ROWS;
    assert s[..1][..0] == [] && [s[0]][1..] == [] && [s[1]][1..] == [];
    assert SortByKey(s[..1]) == [s[0]];
    assert s[..2][..1] == s[..1];
    assert Insert([s[0]], s[1]) == [s[0], s[1]];
    assert SortByKey(s[..2]) == [s[0], s[1]];
    assert [s[0], s[1]][1..] == [s[1]];
    assert Insert([s[1]], s[2]) == [s[1], s[2]];
    assert Insert([s[0], s[1]], s[2]) == s;
    assert SortByKey(s) == s;
    assert FirstDominated(s, 0) == 1;
    var t := Without(s, 2);
    assert t == [s[0], s[1]];
    assert FirstDominated(t, 0) == 1;
    assert Front(s) == t;
    assert Icers(t) == [5.0];
    assert Phase2(t) == t;
  }
}
