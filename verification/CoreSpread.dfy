/** Ordering cores so that those taken in sequence are spread over the packages. */
module CoreSpread {
  datatype CoreInfo = CoreInfo(id: nat, core: nat, package: nat, numaNode: nat)

  /** The sort key within a package: NUMA node, then physical core, then id. */
  predicate AtMost(a: CoreInfo, b: CoreInfo) {
    || a.numaNode < b.numaNode
    || (a.numaNode == b.numaNode && (a.core < b.core || (a.core == b.core && a.id <= b.id)))
  }

  ghost predicate SortedRows(rows: seq<CoreInfo>) {
    forall a, b :: 0 <= a < b < |rows| ==> AtMost(rows[a], rows[b])
  }

  /** The rows of one package, in order. */
  function OnPackage(rows: seq<CoreInfo>, package: nat): (r: seq<CoreInfo>)
    ensures forall k :: 0 <= k < |r| ==> r[k].package == package
  {
    if rows == [] then []
    else
      var last := rows[|rows| - 1];
      OnPackage(rows[..|rows| - 1], package) + if last.package == package then [last] else []
  }

  lemma OnPackageAppend(rows: seq<CoreInfo>, row: CoreInfo, package: nat)
    ensures OnPackage(rows + [row], package) == OnPackage(rows, package) + if row.package == package then [row] else []
  {
    assert (rows + [row])[..|rows|] == rows;
  }

  function Insert(rows: seq<CoreInfo>, row: CoreInfo): (r: seq<CoreInfo>)
    ensures |r| == |rows| + 1
  {
    if rows == [] || AtMost(rows[|rows| - 1], row) then rows + [row]
    else Insert(rows[..|rows| - 1], row) + [rows[|rows| - 1]]
  }

  /** The rows sorted by their key; rows with equal keys keep their order. */
  function Sort(rows: seq<CoreInfo>): (r: seq<CoreInfo>)
    ensures |r| == |rows|
  {
    if rows == [] then [] else Insert(Sort(rows[..|rows| - 1]), rows[|rows| - 1])
  }

  lemma {:induction false} InsertHolds(rows: seq<CoreInfo>, row: CoreInfo)
    ensures multiset(Insert(rows, row)) == multiset(rows) + multiset{row}
  {
    if rows != [] && !AtMost(rows[|rows| - 1], row) {
      var n := |rows| - 1;
      InsertHolds(rows[..n], row);
      assert rows == rows[..n] + [rows[n]];
    }
  }

  /** All rows are at most `top`. */
  ghost predicate Below(rows: seq<CoreInfo>, top: CoreInfo) {
    forall k :: 0 <= k < |rows| ==> AtMost(rows[k], top)
  }

  lemma AppendSorted(rows: seq<CoreInfo>, row: CoreInfo)
    requires SortedRows(rows) && Below(rows, row)
    ensures SortedRows(rows + [row])
  {
  }

  lemma SortedBelow(rows: seq<CoreInfo>, top: CoreInfo)
    requires SortedRows(rows) && (rows != [] ==> AtMost(rows[|rows| - 1], top))
    ensures Below(rows, top)
  {
    forall k | 0 <= k < |rows|
      ensures AtMost(rows[k], top)
    {
      assert k == |rows| - 1 || AtMost(rows[k], rows[|rows| - 1]);
    }
  }

  lemma {:induction false} InsertBelow(rows: seq<CoreInfo>, row: CoreInfo, top: CoreInfo)
    requires Below(rows, top) && AtMost(row, top)
    ensures Below(Insert(rows, row), top)
  {
    if rows != [] && !AtMost(rows[|rows| - 1], row) {
      InsertBelow(rows[..|rows| - 1], row, top);
    }
  }

  lemma {:induction false} InsertSorted(rows: seq<CoreInfo>, row: CoreInfo)
    requires SortedRows(rows)
    ensures SortedRows(Insert(rows, row))
  {
    if rows == [] || AtMost(rows[|rows| - 1], row) {
      SortedBelow(rows, row);
      AppendSorted(rows, row);
    } else {
      var n := |rows| - 1;
      InsertSorted(rows[..n], row);
      SortedBelow(rows, rows[n]);
      InsertBelow(rows[..n], row, rows[n]);
      AppendSorted(Insert(rows[..n], row), rows[n]);
    }
  }

  lemma {:induction false} SortSorts(rows: seq<CoreInfo>)
    ensures SortedRows(Sort(rows)) && multiset(Sort(rows)) == multiset(rows)
  {
    if rows != [] {
      var n := |rows| - 1;
      SortSorts(rows[..n]);
      InsertSorted(Sort(rows[..n]), rows[n]);
      InsertHolds(Sort(rows[..n]), rows[n]);
      assert rows == rows[..n] + [rows[n]];
    }
  }

  // ---- Dealing the columns out in turn ----

  /** How many rows column `c` has dealt after `r` whole rounds and the first `j` columns of
      the next. */
  function Dealt(columns: seq<seq<CoreInfo>>, r: nat, j: nat, c: nat): nat
    requires c < |columns|
  {
    var turns := if c < j then r + 1 else r;
    if turns <= |columns[c]| then turns else |columns[c]|
  }

  /** `out` holds exactly what column `c` has dealt of its package. */
  ghost predicate HoldsDealt(out: seq<CoreInfo>, packages: seq<nat>, columns: seq<seq<CoreInfo>>, r: nat, j: nat, c: nat)
    requires c < |packages| == |columns|
  {
    OnPackage(out, packages[c]) == columns[c][..Dealt(columns, r, j, c)]
  }

  ghost predicate HoldsNoOther(out: seq<CoreInfo>, packages: seq<nat>, p: nat) {
    p !in packages ==> OnPackage(out, p) == []
  }

  /** `out` holds exactly what was dealt, column by column, and nothing else. */
  ghost predicate DealtOut(out: seq<CoreInfo>, packages: seq<nat>, columns: seq<seq<CoreInfo>>, r: nat, j: nat)
    requires |packages| == |columns|
  {
    && (forall c :: 0 <= c < |columns| ==> HoldsDealt(out, packages, columns, r, j, c))
    && (forall p :: HoldsNoOther(out, packages, p))
  }

  /** Whoever still has rows left has had at most one turn less than anybody else. */
  ghost predicate Even(prefix: seq<CoreInfo>, rows: seq<CoreInfo>, p: nat, q: nat) {
    |OnPackage(prefix, p)| < |OnPackage(rows, p)| ==> |OnPackage(prefix, q)| <= |OnPackage(prefix, p)| + 1
  }

  ghost predicate EvenPrefixes(out: seq<CoreInfo>, rows: seq<CoreInfo>) {
    forall n, p, q :: 0 <= n <= |out| ==> Even(out[..n], rows, p, q)
  }

  /** One column per package of `rows`, in the order of the packages, with as many rows. */
  ghost predicate ColumnsOf(packages: seq<nat>, columns: seq<seq<CoreInfo>>, rows: seq<CoreInfo>) {
    && |packages| == |columns|
    && Increasing(packages)
    && (forall c :: 0 <= c < |columns| ==> ColumnOf(packages, columns, rows, c))
    && (forall p :: HoldsNoOther(rows, packages, p))
  }

  ghost predicate ColumnOf(packages: seq<nat>, columns: seq<seq<CoreInfo>>, rows: seq<CoreInfo>, c: nat)
    requires c < |packages| == |columns|
  {
    var column, package := columns[c], packages[c];
    && |column| == |OnPackage(rows, package)|
    && forall k :: 0 <= k < |column| ==> column[k].package == package
  }

  lemma DealtEven(out: seq<CoreInfo>, packages: seq<nat>, columns: seq<seq<CoreInfo>>, rows: seq<CoreInfo>,
                  r: nat, j: nat, p: nat, q: nat)
    requires ColumnsOf(packages, columns, rows) && DealtOut(out, packages, columns, r, j)
    ensures Even(out, rows, p, q)
  {
    if p in packages {
      var c :| 0 <= c < |packages| && packages[c] == p;
      assert HoldsDealt(out, packages, columns, r, j, c);
      assert ColumnOf(packages, columns, rows, c);
      if q in packages {
        var d :| 0 <= d < |packages| && packages[d] == q;
        assert HoldsDealt(out, packages, columns, r, j, d);
      }
    }
    assert HoldsNoOther(out, packages, q) && HoldsNoOther(rows, packages, p);
  }

  /** What a turn of column `j` does to the rows of column `c`. */
  lemma DealColumn(out: seq<CoreInfo>, packages: seq<nat>, columns: seq<seq<CoreInfo>>, r: nat, j: nat, c: nat)
    requires |packages| == |columns| && j < |columns| && c < |columns| && r < |columns[j]|
    requires columns[j][r].package == packages[j] && (packages[c] == packages[j] ==> c == j)
    requires HoldsDealt(out, packages, columns, r, j, c)
    ensures HoldsDealt(out + [columns[j][r]], packages, columns, r, j + 1, c)
  {
    OnPackageAppend(out, columns[j][r], packages[c]);
  }

  /** Column `j` takes its turn. */
  lemma DealTurn(out: seq<CoreInfo>, packages: seq<nat>, columns: seq<seq<CoreInfo>>, rows: seq<CoreInfo>, r: nat, j: nat)
    requires ColumnsOf(packages, columns, rows) && DealtOut(out, packages, columns, r, j) && j < |columns|
    requires r < |columns[j]|
    ensures DealtOut(out + [columns[j][r]], packages, columns, r, j + 1)
  {
    var row, next := columns[j][r], j + 1;
    var out' := out + [row];
    assert ColumnOf(packages, columns, rows, j);
    forall c | 0 <= c < |columns|
      ensures HoldsDealt(out', packages, columns, r, next, c)
    {
      DealColumn(out, packages, columns, r, j, c);
    }
    forall p
      ensures HoldsNoOther(out', packages, p)
    {
      assert HoldsNoOther(out, packages, p);
      OnPackageAppend(out, row, p);
    }
  }

  /** Column `j` is empty and passes. */
  lemma PassTurn(out: seq<CoreInfo>, packages: seq<nat>, columns: seq<seq<CoreInfo>>, r: nat, j: nat)
    requires |packages| == |columns| && DealtOut(out, packages, columns, r, j) && j < |columns|
    requires r >= |columns[j]|
    ensures DealtOut(out, packages, columns, r, j + 1)
  {
    var next := j + 1;
    forall c | 0 <= c < |columns|
      ensures HoldsDealt(out, packages, columns, r, next, c)
    {
      assert HoldsDealt(out, packages, columns, r, j, c);
    }
  }

  lemma ExtendEven(out: seq<CoreInfo>, row: CoreInfo, rows: seq<CoreInfo>)
    requires EvenPrefixes(out, rows)
    requires forall p, q :: Even(out + [row], rows, p, q)
    ensures EvenPrefixes(out + [row], rows)
  {
    forall n, p, q | 0 <= n <= |out| + 1
      ensures Even((out + [row])[..n], rows, p, q)
    {
      if n <= |out| {
        assert (out + [row])[..n] == out[..n];
      } else {
        assert (out + [row])[..n] == out + [row];
      }
    }
  }

  function Longest(columns: seq<seq<CoreInfo>>): (r: nat)
    ensures forall c :: 0 <= c < |columns| ==> |columns[c]| <= r
  {
    if columns == [] then 0
    else
      var rest, last := Longest(columns[..|columns| - 1]), |columns[|columns| - 1]|;
      if rest < last then last else rest
  }

  /** `rest` is `column` without its first `d` rows. */
  ghost predicate RestOf(rest: seq<CoreInfo>, column: seq<CoreInfo>, d: nat) {
    |rest| + d == |column| && forall k :: 0 <= k < |rest| ==> rest[k] == column[k + d]
  }

  /** What is left of the columns after `r` rounds and the first `j` columns of the next. */
  ghost predicate Left(left: seq<seq<CoreInfo>>, columns: seq<seq<CoreInfo>>, r: nat, j: nat) {
    |left| == |columns| && forall c :: 0 <= c < |columns| ==> LeftOf(left, columns, r, j, c)
  }

  ghost predicate LeftOf(left: seq<seq<CoreInfo>>, columns: seq<seq<CoreInfo>>, r: nat, j: nat, c: nat)
    requires c < |left| == |columns|
  {
    RestOf(left[c], columns[c], Dealt(columns, r, j, c))
  }

  /** Column `j` has its `r`-th row left, and no longer after its turn. */
  lemma LeftTaken(left: seq<seq<CoreInfo>>, columns: seq<seq<CoreInfo>>, r: nat, j: nat)
    requires Left(left, columns, r, j) && j < |columns| && left[j] != []
    ensures r < |columns[j]| && left[j][0] == columns[j][r]
    ensures Left(left[j := left[j][1..]], columns, r, j + 1)
  {
    assert LeftOf(left, columns, r, j, j);
    var left', next := left[j := left[j][1..]], j + 1;
    forall c | 0 <= c < |columns|
      ensures LeftOf(left', columns, r, next, c)
    {
      assert LeftOf(left, columns, r, j, c);
    }
  }

  /** Everything a round keeps, over one turn that deals a row. */
  lemma TurnTaken(out: seq<CoreInfo>, packages: seq<nat>, columns: seq<seq<CoreInfo>>, rows: seq<CoreInfo>,
                  left: seq<seq<CoreInfo>>, r: nat, j: nat)
    requires ColumnsOf(packages, columns, rows) && Dealing(out, left, packages, columns, rows, r, j)
    requires j < |columns| && left[j] != []
    ensures Dealing(out + [left[j][0]], left[j := left[j][1..]], packages, columns, rows, r, j + 1)
    ensures r < Longest(columns)
  {
    LeftTaken(left, columns, r, j);
    DealTurn(out, packages, columns, rows, r, j);
    TurnEven(out, packages, columns, rows, r, j);
    TurnRank(out, packages, columns, rows, r, j);
    TurnsTaken(out, packages, columns[j][r], r, j);
  }

  lemma TurnRank(out: seq<CoreInfo>, packages: seq<nat>, columns: seq<seq<CoreInfo>>, rows: seq<CoreInfo>, r: nat, j: nat)
    requires ColumnsOf(packages, columns, rows) && DealtOut(out, packages, columns, r, j) && j < |columns|
    requires r < |columns[j]|
    ensures columns[j][r].package == packages[j] && |OnPackage(out, packages[j])| == r
  {
    assert ColumnOf(packages, columns, rows, j);
    assert HoldsDealt(out, packages, columns, r, j, j);
  }

  lemma TurnEven(out: seq<CoreInfo>, packages: seq<nat>, columns: seq<seq<CoreInfo>>, rows: seq<CoreInfo>, r: nat, j: nat)
    requires ColumnsOf(packages, columns, rows) && EvenPrefixes(out, rows) && j < |columns| && r < |columns[j]|
    requires DealtOut(out + [columns[j][r]], packages, columns, r, j + 1)
    ensures EvenPrefixes(out + [columns[j][r]], rows)
  {
    forall p, q
      ensures Even(out + [columns[j][r]], rows, p, q)
    {
      DealtEven(out + [columns[j][r]], packages, columns, rows, r, j + 1, p, q);
    }
    ExtendEven(out, columns[j][r], rows);
  }

  lemma LeftPassed(left: seq<seq<CoreInfo>>, columns: seq<seq<CoreInfo>>, r: nat, j: nat)
    requires Left(left, columns, r, j) && j < |columns| && left[j] == []
    ensures r >= |columns[j]| && Left(left, columns, r, j + 1)
  {
    assert LeftOf(left, columns, r, j, j);
    var next := j + 1;
    forall c | 0 <= c < |columns|
      ensures LeftOf(left, columns, r, next, c)
    {
      assert LeftOf(left, columns, r, j, c);
    }
  }

  lemma TurnPassed(out: seq<CoreInfo>, packages: seq<nat>, columns: seq<seq<CoreInfo>>, rows: seq<CoreInfo>,
                   left: seq<seq<CoreInfo>>, r: nat, j: nat)
    requires Dealing(out, left, packages, columns, rows, r, j) && j < |columns| && left[j] == []
    ensures Dealing(out, left, packages, columns, rows, r, j + 1)
  {
    LeftPassed(left, columns, r, j);
    PassTurn(out, packages, columns, r, j);
    TurnsLater(out, packages, r, j, r, j + 1);
  }

  /** How many rows of its own package come before the row at `k`. */
  function RankAt(out: seq<CoreInfo>, k: nat): nat
    requires k < |out|
  {
    |OnPackage(out[..k], out[k].package)|
  }

  /** The order of dealing: by rank, and within a rank by package. */
  predicate Before(r: nat, p: nat, s: nat, q: nat) {
    r < s || (r == s && p < q)
  }

  ghost predicate InTurn(out: seq<CoreInfo>, a: nat, b: nat)
    requires a < |out| && b < |out|
  {
    Before(RankAt(out, a), out[a].package, RankAt(out, b), out[b].package)
  }

  /** Rows come in the order of their ranks, those of one rank in the order of their packages. */
  ghost predicate RoundRobin(out: seq<CoreInfo>) {
    forall a, b :: 0 <= a < b < |out| ==> InTurn(out, a, b)
  }

  /** The row at `k` was dealt before column `j` has its turn in round `r`. */
  ghost predicate DealtBy(out: seq<CoreInfo>, packages: seq<nat>, r: nat, j: nat, k: nat)
    requires k < |out| && j <= |packages|
  {
    RankAt(out, k) < r || (RankAt(out, k) == r && exists c :: 0 <= c < j && packages[c] == out[k].package)
  }

  ghost predicate Turns(out: seq<CoreInfo>, packages: seq<nat>, r: nat, j: nat)
    requires j <= |packages|
  {
    RoundRobin(out) && forall k :: 0 <= k < |out| ==> DealtBy(out, packages, r, j, k)
  }

  lemma RankAppend(out: seq<CoreInfo>, row: CoreInfo, k: nat)
    requires k < |out|
    ensures RankAt(out + [row], k) == RankAt(out, k)
  {
    assert (out + [row])[..k] == out[..k];
  }

  /** The row that column `j` deals in round `r` is the last so far. */
  lemma TurnsTaken(out: seq<CoreInfo>, packages: seq<nat>, row: CoreInfo, r: nat, j: nat)
    requires j < |packages| && Increasing(packages) && Turns(out, packages, r, j)
    requires row.package == packages[j] && |OnPackage(out, packages[j])| == r
    ensures Turns(out + [row], packages, r, j + 1)
  {
    var out', n := out + [row], |out|;
    assert out'[..n] == out && RankAt(out', n) == r;
    var next := j + 1;
    forall k | 0 <= k < |out'|
      ensures DealtBy(out', packages, r, next, k)
    {
      if k < n {
        RankAppend(out, row, k);
        assert DealtBy(out, packages, r, j, k);
      } else {
        assert packages[j] == out'[k].package;
      }
    }
    forall a, b | 0 <= a < b < |out'|
      ensures InTurn(out', a, b)
    {
      RankAppend(out, row, a);
      if b < n {
        RankAppend(out, row, b);
        assert InTurn(out, a, b);
      } else {
        assert DealtBy(out, packages, r, j, a);
      }
    }
  }

  lemma TurnsLater(out: seq<CoreInfo>, packages: seq<nat>, r: nat, j: nat, r': nat, j': nat)
    requires j <= |packages| && j' <= |packages| && Turns(out, packages, r, j)
    requires r < r' || (r == r' && j <= j')
    ensures Turns(out, packages, r', j')
  {
    forall k | 0 <= k < |out|
      ensures DealtBy(out, packages, r', j', k)
    {
      assert DealtBy(out, packages, r, j, k);
    }
  }

  /** Everything the dealing keeps. */
  ghost predicate Dealing(out: seq<CoreInfo>, left: seq<seq<CoreInfo>>, packages: seq<nat>,
                          columns: seq<seq<CoreInfo>>, rows: seq<CoreInfo>, r: nat, j: nat) {
    && |packages| == |columns| == |left| && j <= |columns|
    && Left(left, columns, r, j)
    && DealtOut(out, packages, columns, r, j)
    && EvenPrefixes(out, rows)
    && Turns(out, packages, r, j)
  }

  /** Column `j` gives its next row, if it has one. */
  method Turn(packages: seq<nat>, ghost columns: seq<seq<CoreInfo>>, ghost rows: seq<CoreInfo>, ghost r: nat, j: nat,
              left: seq<seq<CoreInfo>>, out: seq<CoreInfo>)
    returns (left': seq<seq<CoreInfo>>, out': seq<CoreInfo>, dealt: bool)
    requires ColumnsOf(packages, columns, rows) && Dealing(out, left, packages, columns, rows, r, j) && j < |left|
    ensures Dealing(out', left', packages, columns, rows, r, j + 1)
    ensures dealt ==> r < Longest(columns)
    ensures !dealt ==> left' == left && left[j] == []
  {
    if left[j] != [] {
      TurnTaken(out, packages, columns, rows, left, r, j);
      left', out', dealt := left[j := left[j][1..]], out + [left[j][0]], true;
    } else {
      TurnPassed(out, packages, columns, rows, left, r, j);
      left', out', dealt := left, out, false;
    }
  }

  ghost predicate Emptied(left: seq<seq<CoreInfo>>, c: nat) {
    c < |left| ==> left[c] == []
  }

  /** One round over the columns: each that has a row left gives its next one. */
  method Round(packages: seq<nat>, ghost columns: seq<seq<CoreInfo>>, ghost rows: seq<CoreInfo>, ghost r: nat,
               left: seq<seq<CoreInfo>>, out: seq<CoreInfo>)
    returns (left': seq<seq<CoreInfo>>, out': seq<CoreInfo>, draining: bool)
    requires ColumnsOf(packages, columns, rows) && Dealing(out, left, packages, columns, rows, r, 0)
    ensures Dealing(out', left', packages, columns, rows, r + 1, 0)
    ensures !draining ==> forall c :: 0 <= c < |left'| ==> Emptied(left', c)
    ensures draining ==> r < Longest(columns)
  {
    left', out', draining := left, out, false;
    var j := 0;
    while j < |left'|
      invariant 0 <= j <= |left'|
      invariant Dealing(out', left', packages, columns, rows, r, j)
      invariant !draining ==> forall c :: 0 <= c < j ==> Emptied(left', c)
      invariant draining ==> r < Longest(columns)
    {
      var dealt;
      left', out', dealt := Turn(packages, columns, rows, r, j, left', out');
      draining := draining || dealt;
      j := j + 1;
    }
    RoundOver(out', packages, columns, rows, left', r);
  }

  /** After all columns had their turn, the next round begins. */
  lemma RoundOver(out: seq<CoreInfo>, packages: seq<nat>, columns: seq<seq<CoreInfo>>, rows: seq<CoreInfo>,
                  left: seq<seq<CoreInfo>>, r: nat)
    requires Dealing(out, left, packages, columns, rows, r, |columns|)
    ensures Dealing(out, left, packages, columns, rows, r + 1, 0)
  {
    var next := r + 1;
    forall c | 0 <= c < |columns|
      ensures HoldsDealt(out, packages, columns, next, 0, c) && LeftOf(left, columns, next, 0, c)
    {
      assert HoldsDealt(out, packages, columns, r, |columns|, c) && LeftOf(left, columns, r, |columns|, c);
    }
    TurnsLater(out, packages, r, |columns|, r + 1, 0);
  }

  /** Nothing is left: every column came out whole. */
  lemma AllDealt(out: seq<CoreInfo>, packages: seq<nat>, columns: seq<seq<CoreInfo>>, rows: seq<CoreInfo>,
                 left: seq<seq<CoreInfo>>, r: nat, c: nat)
    requires Dealing(out, left, packages, columns, rows, r, 0) && c < |columns| && left[c] == []
    ensures OnPackage(out, packages[c]) == columns[c]
  {
    assert LeftOf(left, columns, r, 0, c);
    assert HoldsDealt(out, packages, columns, r, 0, c);
  }

  lemma DealingStarts(packages: seq<nat>, columns: seq<seq<CoreInfo>>, rows: seq<CoreInfo>)
    requires |packages| == |columns|
    ensures Dealing([], columns, packages, columns, rows, 0, 0)
  {
    assert forall c :: 0 <= c < |columns| ==> LeftOf(columns, columns, 0, 0, c);
    forall n, p, q | 0 <= n <= 0
      ensures Even([][..n], rows, p, q)
    {
    }
  }

  /** Deal the columns out in turn until all are empty. */
  method Interleave(packages: seq<nat>, columns: seq<seq<CoreInfo>>, ghost rows: seq<CoreInfo>)
    returns (out: seq<CoreInfo>)
    requires ColumnsOf(packages, columns, rows)
    ensures forall c :: 0 <= c < |columns| ==> OnPackage(out, packages[c]) == columns[c]
    ensures forall p :: p !in packages ==> OnPackage(out, p) == []
    ensures EvenPrefixes(out, rows) && RoundRobin(out)
  {
    out := [];
    var left := columns;
    var draining := true;
    ghost var r := 0;
    DealingStarts(packages, columns, rows);
    while draining
      invariant Dealing(out, left, packages, columns, rows, r, 0)
      invariant !draining ==> forall c :: 0 <= c < |left| ==> Emptied(left, c)
      invariant draining ==> r <= Longest(columns)
      decreases Longest(columns) - r + if draining then 1 else 0
    {
      left, out, draining := Round(packages, columns, rows, r, left, out);
      r := r + 1;
    }
    forall c | 0 <= c < |columns|
      ensures OnPackage(out, packages[c]) == columns[c]
    {
      assert Emptied(left, c);
      AllDealt(out, packages, columns, rows, left, r, c);
    }
    forall p | p !in packages
      ensures OnPackage(out, p) == []
    {
      assert HoldsNoOther(out, packages, p);
    }
  }

  // ---- The whole ordering ----

  /** Package `p` is among the keys iff it has a group, and its group holds its rows. */
  ghost predicate GroupOf(packages: seq<nat>, groups: map<nat, seq<CoreInfo>>, rows: seq<CoreInfo>, p: nat) {
    && (p in packages <==> p in groups)
    && OnPackage(rows, p) == if p in groups then groups[p] else []
  }

  /** The packages seen so far, in increasing order, and the rows of each. */
  ghost predicate Grouped(packages: seq<nat>, groups: map<nat, seq<CoreInfo>>, rows: seq<CoreInfo>) {
    Increasing(packages) && forall p :: GroupOf(packages, groups, rows, p)
  }

  /** Put a key into an ordered list of keys. */
  function InsertKey(keys: seq<nat>, key: nat): seq<nat> {
    if keys == [] || keys[|keys| - 1] < key then keys + [key]
    else if keys[|keys| - 1] == key then keys
    else InsertKey(keys[..|keys| - 1], key) + [keys[|keys| - 1]]
  }

  predicate Increasing(keys: seq<nat>) {
    forall a, b :: 0 <= a < b < |keys| ==> keys[a] < keys[b]
  }

  lemma {:induction false} InsertKeyHolds(keys: seq<nat>, key: nat, k: nat)
    ensures k in InsertKey(keys, key) <==> k in keys || k == key
  {
    if keys != [] && keys[|keys| - 1] >= key {
      var n := |keys| - 1;
      assert keys == keys[..n] + [keys[n]];
      if keys[n] > key {
        InsertKeyHolds(keys[..n], key, k);
      }
    }
  }

  lemma {:induction false} InsertKeyOrders(keys: seq<nat>, key: nat)
    requires Increasing(keys)
    ensures Increasing(InsertKey(keys, key))
    ensures keys != [] && key < keys[|keys| - 1] ==>
              forall a :: 0 <= a < |InsertKey(keys, key)| ==> InsertKey(keys, key)[a] <= keys[|keys| - 1]
  {
    if keys != [] && keys[|keys| - 1] > key {
      var n := |keys| - 1;
      InsertKeyOrders(keys[..n], key);
      var r := InsertKey(keys[..n], key);
      forall a | 0 <= a < |r|
        ensures r[a] < keys[n]
      {
        InsertKeyHolds(keys[..n], key, r[a]);
        assert r[a] in r;
      }
    }
  }

  lemma GroupOne(packages: seq<nat>, groups: map<nat, seq<CoreInfo>>, rows: seq<CoreInfo>, row: CoreInfo)
    requires Grouped(packages, groups, rows)
    ensures var group := if row.package in groups then groups[row.package] else [];
            Grouped(InsertKey(packages, row.package), groups[row.package := group + [row]], rows + [row])
  {
    InsertKeyOrders(packages, row.package);
    var group := if row.package in groups then groups[row.package] else [];
    var packages', groups', rows' := InsertKey(packages, row.package), groups[row.package := group + [row]], rows + [row];
    forall p
      ensures GroupOf(packages', groups', rows', p)
    {
      assert GroupOf(packages, groups, rows, p);
      InsertKeyHolds(packages, row.package, p);
      OnPackageAppend(rows, row, p);
    }
  }

  lemma SortedColumn(rows: seq<CoreInfo>, package: nat)
    ensures var column := Sort(OnPackage(rows, package));
            forall k :: 0 <= k < |column| ==> column[k].package == package
  {
    var group := OnPackage(rows, package);
    SortSorts(group);
    forall k | 0 <= k < |group|
      ensures Sort(group)[k].package == package
    {
      assert Sort(group)[k] in multiset(Sort(group));
      assert Sort(group)[k] in group;
    }
  }

  /** Group by package, sort each group, deal the groups out in turn. The result holds every
      package's rows, sorted, and no others, in the order of their ranks and then of their packages.
      Every prefix of it, so every `take`, is even: a package with rows left is at most one row
      behind any other. */
  method Spread(infos: seq<CoreInfo>) returns (out: seq<CoreInfo>)
    ensures forall p :: OnPackage(out, p) == Sort(OnPackage(infos, p))
    ensures forall n, p, q :: 0 <= n <= |out| ==> Even(out[..n], infos, p, q)
    ensures RoundRobin(out)
  {
    var packages, groups := Group(infos);
    var columns := SortGroups(packages, groups, infos);
    out := Interleave(packages, columns, infos);
    forall p
      ensures OnPackage(out, p) == Sort(OnPackage(infos, p))
    {
      if p in packages {
        var c :| 0 <= c < |packages| && packages[c] == p;
        assert OnPackage(out, packages[c]) == columns[c];
      } else {
        assert GroupOf(packages, groups, infos, p);
      }
    }
  }

  /** Add one row to its package's group. */
  method PutRow(packages: seq<nat>, groups: map<nat, seq<CoreInfo>>, ghost rows: seq<CoreInfo>, row: CoreInfo)
    returns (packages': seq<nat>, groups': map<nat, seq<CoreInfo>>)
    requires Grouped(packages, groups, rows)
    ensures Grouped(packages', groups', rows + [row])
  {
    var group := if row.package in groups then groups[row.package] else [];
    GroupOne(packages, groups, rows, row);
    packages', groups' := InsertKey(packages, row.package), groups[row.package := group + [row]];
  }

  /** The rows by package; the keys come out in increasing order. */
  method Group(infos: seq<CoreInfo>) returns (packages: seq<nat>, groups: map<nat, seq<CoreInfo>>)
    ensures Grouped(packages, groups, infos)
  {
    packages, groups := [], map[];
    var i := 0;
    while i < |infos|
      invariant 0 <= i <= |infos|
      invariant Grouped(packages, groups, infos[..i])
    {
      packages, groups := PutRow(packages, groups, infos[..i], infos[i]);
      assert infos[..i] + [infos[i]] == infos[..i + 1];
      i := i + 1;
    }
    assert infos[..i] == infos;
  }

  method SortGroups(packages: seq<nat>, groups: map<nat, seq<CoreInfo>>, ghost rows: seq<CoreInfo>)
    returns (columns: seq<seq<CoreInfo>>)
    requires Grouped(packages, groups, rows)
    ensures ColumnsOf(packages, columns, rows)
    ensures forall c :: 0 <= c < |columns| ==> columns[c] == Sort(OnPackage(rows, packages[c]))
  {
    columns := [];
    var j := 0;
    while j < |packages|
      invariant 0 <= j <= |packages| && |columns| == j
      invariant forall c :: 0 <= c < j ==> columns[c] == Sort(OnPackage(rows, packages[c]))
    {
      assert packages[j] in packages && GroupOf(packages, groups, rows, packages[j]);
      columns := columns + [Sort(groups[packages[j]])];
      j := j + 1;
    }
    forall p
      ensures HoldsNoOther(rows, packages, p)
    {
      assert GroupOf(packages, groups, rows, p);
    }
    SortedColumns(packages, columns, rows);
  }

  lemma SortedColumns(packages: seq<nat>, columns: seq<seq<CoreInfo>>, rows: seq<CoreInfo>)
    requires |packages| == |columns| && Increasing(packages)
    requires forall c :: 0 <= c < |columns| ==> columns[c] == Sort(OnPackage(rows, packages[c]))
    requires forall p :: HoldsNoOther(rows, packages, p)
    ensures ColumnsOf(packages, columns, rows)
  {
    forall c | 0 <= c < |columns|
      ensures ColumnOf(packages, columns, rows, c)
    {
      SortedColumn(rows, packages[c]);
      assert columns[c] == Sort(OnPackage(rows, packages[c]));
    }
  }

  // ---- What that specification gives ----

  lemma {:induction false} CountOnPackage(rows: seq<CoreInfo>, row: CoreInfo)
    ensures multiset(OnPackage(rows, row.package))[row] == multiset(rows)[row]
  {
    if rows != [] {
      CountOnPackage(rows[..|rows| - 1], row);
      assert rows == rows[..|rows| - 1] + [rows[|rows| - 1]];
    }
  }

  /** Such a result is a rearrangement of the input. */
  lemma SpreadPermutes(infos: seq<CoreInfo>, out: seq<CoreInfo>)
    requires forall p :: OnPackage(out, p) == Sort(OnPackage(infos, p))
    ensures multiset(out) == multiset(infos)
  {
    forall row
      ensures multiset(out)[row] == multiset(infos)[row]
    {
      CountOnPackage(out, row);
      CountOnPackage(infos, row);
      SortSorts(OnPackage(infos, row.package));
    }
  }

  /** On each package NUMA nodes come in order, within a node its cores, and within a core its
      threads by id. */
  lemma SpreadSortsEachPackage(infos: seq<CoreInfo>, out: seq<CoreInfo>, p: nat, a: nat, b: nat)
    requires OnPackage(out, p) == Sort(OnPackage(infos, p)) && a < b < |OnPackage(out, p)|
    ensures var x, y := OnPackage(out, p)[a], OnPackage(out, p)[b];
            && x.numaNode <= y.numaNode
            && (x.numaNode == y.numaNode ==> x.core <= y.core)
            && (x.numaNode == y.numaNode && x.core == y.core ==> x.id <= y.id)
  {
    SortSorts(OnPackage(infos, p));
    assert AtMost(OnPackage(out, p)[a], OnPackage(out, p)[b]);
  }
}
