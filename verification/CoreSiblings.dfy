/** SMT siblings in the order that `spread` gives: when they come last, on each package and in the
    whole set. */
module CoreSiblings {
  import opened CoreSpread

  /** Threads of one physical core; a core number on two NUMA nodes is two cores. */
  predicate SameCore(a: CoreInfo, b: CoreInfo) {
    a.numaNode == b.numaNode && a.core == b.core
  }

  /** The physical core of `a` comes no later than that of `b`. */
  predicate CoreAtMost(a: CoreInfo, b: CoreInfo) {
    a.numaNode < b.numaNode || (a.numaNode == b.numaNode && a.core <= b.core)
  }

  /** The row at `k` is not the first of its physical core. */
  ghost predicate Sibling(rows: seq<CoreInfo>, k: nat)
    requires k < |rows|
  {
    exists j :: 0 <= j < k && SameCore(rows[j], rows[k])
  }

  /** Once a sibling has come, only siblings follow: every core is there before any second
      thread. */
  ghost predicate SiblingsLast(rows: seq<CoreInfo>) {
    forall a, b :: 0 <= a < b < |rows| && Sibling(rows, a) ==> Sibling(rows, b)
  }

  /** How many rows are threads of the core of `row`. */
  function Threads(rows: seq<CoreInfo>, row: CoreInfo): nat {
    if rows == [] then 0
    else Threads(rows[..|rows| - 1], row) + if SameCore(rows[|rows| - 1], row) then 1 else 0
  }

  /** Only the greatest core has more than one thread. */
  ghost predicate OneThreadEach(rows: seq<CoreInfo>) {
    forall a, b :: 0 <= a < |rows| && 0 <= b < |rows| && Threads(rows, rows[a]) > 1 ==> CoreAtMost(rows[b], rows[a])
  }

  lemma {:induction false} ThreadsPositive(rows: seq<CoreInfo>, k: nat)
    requires k < |rows|
    ensures Threads(rows, rows[k]) >= 1
  {
    var n := |rows| - 1;
    if k < n {
      ThreadsPositive(rows[..n], k);
      assert rows[..n][k] == rows[k];
    }
  }

  lemma {:induction false} ThreadsTwo(rows: seq<CoreInfo>, j: nat, k: nat)
    requires j < k < |rows| && SameCore(rows[j], rows[k])
    ensures Threads(rows, rows[k]) >= 2
  {
    var n := |rows| - 1;
    if k == n {
      ThreadsPositive(rows[..n], j);
      SameThreads(rows[..n], rows[j], rows[k]);
    } else {
      ThreadsTwo(rows[..n], j, k);
    }
  }

  lemma {:induction false} SameThreads(rows: seq<CoreInfo>, a: CoreInfo, b: CoreInfo)
    requires SameCore(a, b)
    ensures Threads(rows, a) == Threads(rows, b)
  {
    if rows != [] {
      SameThreads(rows[..|rows| - 1], a, b);
    }
  }

  /** With two threads of a core there are two places for them. */
  lemma {:induction false} TwoPlaces(rows: seq<CoreInfo>, row: CoreInfo) returns (j: nat, k: nat)
    requires Threads(rows, row) >= 2
    ensures j < k < |rows| && SameCore(rows[j], row) && SameCore(rows[k], row)
  {
    var n := |rows| - 1;
    if SameCore(rows[n], row) {
      j := OnePlace(rows[..n], row);
      k := n;
    } else {
      j, k := TwoPlaces(rows[..n], row);
    }
  }

  lemma {:induction false} OnePlace(rows: seq<CoreInfo>, row: CoreInfo) returns (k: nat)
    requires Threads(rows, row) >= 1
    ensures k < |rows| && SameCore(rows[k], row)
  {
    k := |rows| - 1;
    if !SameCore(rows[k], row) {
      k := OnePlace(rows[..k], row);
    }
  }

  lemma {:induction false} ThreadsInsert(rows: seq<CoreInfo>, inserted: CoreInfo, row: CoreInfo)
    ensures Threads(Insert(rows, inserted), row) == Threads(rows + [inserted], row)
  {
    var n := |rows| - 1;
    assert (rows + [inserted])[..|rows|] == rows;
    if rows != [] && !AtMost(rows[n], inserted) {
      ThreadsInsert(rows[..n], inserted, row);
      var rest := Insert(rows[..n], inserted);
      assert (rest + [rows[n]])[..|rest|] == rest;
      assert (rows[..n] + [inserted])[..n] == rows[..n];
    }
  }

  lemma {:induction false} ThreadsSort(rows: seq<CoreInfo>, row: CoreInfo)
    ensures Threads(Sort(rows), row) == Threads(rows, row)
  {
    if rows != [] {
      var n := |rows| - 1;
      ThreadsSort(rows[..n], row);
      ThreadsInsert(Sort(rows[..n]), rows[n], row);
      assert (Sort(rows[..n]) + [rows[n]])[..n] == Sort(rows[..n]);
    }
  }

  /** The greatest-core condition does not depend on the order. */
  lemma SortOneThreadEach(rows: seq<CoreInfo>)
    ensures OneThreadEach(Sort(rows)) <==> OneThreadEach(rows)
  {
    SortSorts(rows);
    OneThreadEachOf(rows, Sort(rows));
    OneThreadEachOf(Sort(rows), rows);
  }

  lemma OneThreadEachOf(from: seq<CoreInfo>, to: seq<CoreInfo>)
    requires multiset(from) == multiset(to) && (to == Sort(from) || from == Sort(to))
    ensures OneThreadEach(from) ==> OneThreadEach(to)
  {
    if OneThreadEach(from) {
      forall a, b | 0 <= a < |to| && 0 <= b < |to| && Threads(to, to[a]) > 1
        ensures CoreAtMost(to[b], to[a])
      {
        ThreadsSort(if to == Sort(from) then from else to, to[a]);
        var i := PlaceIn(from, to, a);
        var j := PlaceIn(from, to, b);
        assert from[i] == to[a] && from[j] == to[b];
      }
    }
  }

  lemma PlaceIn(from: seq<CoreInfo>, to: seq<CoreInfo>, a: nat) returns (i: nat)
    requires multiset(from) == multiset(to) && a < |to|
    ensures i < |from| && from[i] == to[a]
  {
    assert to[a] in multiset(to);
    assert to[a] in from;
    i :| 0 <= i < |from| && from[i] == to[a];
  }

  /** In sorted rows no other core comes between two threads of one. */
  lemma SiblingsStayTogether(rows: seq<CoreInfo>, a: nat, b: nat, c: nat)
    requires SortedRows(rows) && a <= b <= c < |rows| && SameCore(rows[a], rows[c])
    ensures SameCore(rows[b], rows[a])
  {
    assert a == b || AtMost(rows[a], rows[b]);
    assert b == c || AtMost(rows[b], rows[c]);
  }

  /** In sorted rows, if siblings come last, a core with a second thread is the last one. */
  lemma LastCoreOnly(rows: seq<CoreInfo>, row: CoreInfo, b: nat)
    requires SortedRows(rows) && SiblingsLast(rows) && Threads(rows, row) >= 2 && b < |rows|
    ensures CoreAtMost(rows[b], row)
  {
    var j, k := TwoPlaces(rows, row);
    assert Sibling(rows, k);
    if b <= k {
      assert b == k || AtMost(rows[b], rows[k]);
    } else {
      NoNewCore(rows, k, b);
    }
  }

  /** From a sibling on, the core stays the same. */
  lemma {:induction false} NoNewCore(rows: seq<CoreInfo>, k: nat, b: nat)
    requires SortedRows(rows) && SiblingsLast(rows) && k <= b < |rows| && Sibling(rows, k)
    ensures SameCore(rows[b], rows[k])
    decreases b
  {
    if k < b {
      NoNewCore(rows, k, b - 1);
      assert Sibling(rows, b);
      var j :| 0 <= j < b && SameCore(rows[j], rows[b]);
      SiblingsStayTogether(rows, j, b - 1, b);
    }
  }

  /** In sorted rows siblings come last if and only if only the greatest core has several threads. */
  lemma SortedSiblingsLast(rows: seq<CoreInfo>)
    requires SortedRows(rows)
    ensures SiblingsLast(rows) <==> OneThreadEach(rows)
  {
    if SiblingsLast(rows) {
      forall a, b | 0 <= a < |rows| && 0 <= b < |rows| && Threads(rows, rows[a]) > 1
        ensures CoreAtMost(rows[b], rows[a])
      {
        LastCoreOnly(rows, rows[a], b);
      }
    }
    if OneThreadEach(rows) {
      forall a, b | 0 <= a < b < |rows| && Sibling(rows, a)
        ensures Sibling(rows, b)
      {
        var j :| 0 <= j < a && SameCore(rows[j], rows[a]);
        ThreadsTwo(rows, j, a);
        assert AtMost(rows[a], rows[b]) && CoreAtMost(rows[b], rows[a]);
        assert SameCore(rows[a], rows[b]);
      }
    }
  }

  /** In the result of `spread`, a package's siblings come last if and only if, in the input,
      only its greatest core has more than one thread. */
  lemma SiblingsLastExactly(infos: seq<CoreInfo>, out: seq<CoreInfo>, p: nat)
    requires OnPackage(out, p) == Sort(OnPackage(infos, p))
    ensures SiblingsLast(OnPackage(out, p)) <==> OneThreadEach(OnPackage(infos, p))
  {
    SortSorts(OnPackage(infos, p));
    SortedSiblingsLast(Sort(OnPackage(infos, p)));
    SortOneThreadEach(OnPackage(infos, p));
  }

  /** Two cores of two threads each: `spread` does not put the siblings last. */
  method SpreadTwoByTwo() returns (infos: seq<CoreInfo>, out: seq<CoreInfo>)
    ensures infos == [CoreInfo(0, 0, 0, 0), CoreInfo(1, 1, 0, 0), CoreInfo(2, 0, 0, 0), CoreInfo(3, 1, 0, 0)]
    ensures OnPackage(out, 0) == Sort(OnPackage(infos, 0)) && !SiblingsLast(OnPackage(out, 0))
  {
    var a, b, c, d := CoreInfo(0, 0, 0, 0), CoreInfo(1, 1, 0, 0), CoreInfo(2, 0, 0, 0), CoreInfo(3, 1, 0, 0);
    infos := [a, b, c, d];
    out := Spread(infos);
    OnPackageAppend([], a, 0);
    OnPackageAppend([a], b, 0);
    OnPackageAppend([a, b], c, 0);
    OnPackageAppend([a, b, c], d, 0);
    assert [] + [a] == [a] && [a] + [b] == [a, b] && [a, b] + [c] == [a, b, c] && [a, b, c] + [d] == infos;
    assert OnPackage(infos, 0) == infos;
    ThreadsTwo(infos, 0, 2);
    assert Threads(infos, infos[2]) > 1 && !CoreAtMost(infos[1], infos[2]);
    SiblingsLastExactly(infos, out, 0);
  }

  // ---- The whole set ----

  /** The row at `k` is a further thread of a physical core that is there already. */
  ghost predicate SetSibling(out: seq<CoreInfo>, k: nat)
    requires k < |out|
  {
    exists j :: 0 <= j < k && out[j].package == out[k].package && SameCore(out[j], out[k])
  }

  /** Over all packages: once a sibling has come, only siblings follow. */
  ghost predicate SetSiblingsLast(out: seq<CoreInfo>) {
    forall a, b :: 0 <= a < b < |out| && SetSibling(out, a) ==> SetSibling(out, b)
  }

  /** The physical cores of one package's rows. */
  function CoresOf(rows: seq<CoreInfo>): set<(nat, nat)> {
    set row | row in rows :: (row.numaNode, row.core)
  }

  /** The places of a package in the whole order. */
  lemma RankPlace(out: seq<CoreInfo>, k: nat)
    requires k < |out|
    ensures RankAt(out, k) < |OnPackage(out, out[k].package)|
    ensures OnPackage(out, out[k].package)[RankAt(out, k)] == out[k]
    decreases |out| - k
  {
    var p, n := out[k].package, |out| - 1;
    assert out == out[..n] + [out[n]];
    if k < n {
      RankPlace(out[..n], k);
      assert out[..n][..k] == out[..k];
    }
  }

  lemma {:induction false} PlaceOf(out: seq<CoreInfo>, p: nat, r: nat) returns (k: nat)
    requires r < |OnPackage(out, p)|
    ensures k < |out| && out[k].package == p && RankAt(out, k) == r
  {
    var n := |out| - 1;
    if r < |OnPackage(out[..n], p)| {
      k := PlaceOf(out[..n], p, r);
      assert out[..n][..k] == out[..k];
    } else {
      k := n;
    }
  }

  /** A row is a sibling in the whole set exactly if it is one on its package. */
  lemma SiblingOnPackage(out: seq<CoreInfo>, k: nat)
    requires RoundRobin(out) && k < |out|
    ensures RankAt(out, k) < |OnPackage(out, out[k].package)|
    ensures SetSibling(out, k) <==> Sibling(OnPackage(out, out[k].package), RankAt(out, k))
  {
    var p := out[k].package;
    var rows, r := OnPackage(out, p), RankAt(out, k);
    RankPlace(out, k);
    if SetSibling(out, k) {
      var j :| 0 <= j < k && out[j].package == p && SameCore(out[j], out[k]);
      RankPlace(out, j);
      assert InTurn(out, j, k);
      assert SameCore(rows[RankAt(out, j)], rows[r]);
    }
    if Sibling(rows, r) {
      var x :| 0 <= x < r && SameCore(rows[x], rows[r]);
      var j := PlaceOf(out, p, x);
      RankPlace(out, j);
      assert k < j ==> InTurn(out, k, j);
    }
  }

  // ---- How many cores come first ----

  /** How many rows are not siblings. */
  ghost function Firsts(rows: seq<CoreInfo>): (n: nat)
    ensures n <= |rows|
  {
    if rows == [] then 0
    else Firsts(rows[..|rows| - 1]) + if Sibling(rows, |rows| - 1) then 0 else 1
  }

  lemma SiblingPrefix(rows: seq<CoreInfo>, n: nat, k: nat)
    requires k < n <= |rows|
    ensures Sibling(rows[..n], k) <==> Sibling(rows, k)
  {
    if Sibling(rows, k) {
      var j :| 0 <= j < k && SameCore(rows[j], rows[k]);
      assert SameCore(rows[..n][j], rows[..n][k]);
    }
    if Sibling(rows[..n], k) {
      var j :| 0 <= j < k && SameCore(rows[..n][j], rows[..n][k]);
      assert SameCore(rows[j], rows[k]);
    }
  }

  /** One row per core is not a sibling. */
  lemma {:induction false} FirstsAreCores(rows: seq<CoreInfo>)
    ensures Firsts(rows) == |CoresOf(rows)|
  {
    if rows != [] {
      var n := |rows| - 1;
      var core := (rows[n].numaNode, rows[n].core);
      FirstsAreCores(rows[..n]);
      assert rows == rows[..n] + [rows[n]];
      assert CoresOf(rows) == CoresOf(rows[..n]) + {core};
      LastSibling(rows);
    }
  }

  lemma LastSibling(rows: seq<CoreInfo>)
    requires rows != []
    ensures var n := |rows| - 1;
            Sibling(rows, n) <==> (rows[n].numaNode, rows[n].core) in CoresOf(rows[..n])
  {
    var n := |rows| - 1;
    var core := (rows[n].numaNode, rows[n].core);
    if Sibling(rows, n) {
      var j :| 0 <= j < n && SameCore(rows[j], rows[n]);
      assert rows[j] in rows[..n];
    }
    if core in CoresOf(rows[..n]) {
      var row :| row in rows[..n] && (row.numaNode, row.core) == core;
      var j :| 0 <= j < n && rows[..n][j] == row;
      assert SameCore(rows[j], rows[n]);
    }
  }

  /** If siblings come last, they are the rows from the number of cores on. */
  lemma {:induction false} SiblingsFrom(rows: seq<CoreInfo>, k: nat)
    requires SiblingsLast(rows) && k < |rows|
    ensures Sibling(rows, k) <==> k >= |CoresOf(rows)|
  {
    FirstsAreCores(rows);
    SiblingsFromFirsts(rows, k);
  }

  lemma {:induction false} SiblingsFromFirsts(rows: seq<CoreInfo>, k: nat)
    requires SiblingsLast(rows) && k < |rows|
    ensures Sibling(rows, k) <==> k >= Firsts(rows)
  {
    var n := |rows| - 1;
    LastPrefix(rows);
    if k < n {
      SiblingPrefix(rows, n, k);
      SiblingsFromFirsts(rows[..n], k);
      if !Sibling(rows, n) {
        AllFirst(rows, n);
      }
    } else if !Sibling(rows, n) {
      AllFirst(rows, n);
    }
  }

  lemma LastPrefix(rows: seq<CoreInfo>)
    requires SiblingsLast(rows) && rows != []
    ensures SiblingsLast(rows[..|rows| - 1])
  {
    var n := |rows| - 1;
    forall a, b | 0 <= a < b < n && Sibling(rows[..n], a)
      ensures Sibling(rows[..n], b)
    {
      SiblingPrefix(rows, n, a);
      SiblingPrefix(rows, n, b);
    }
  }

  lemma NoneBefore(rows: seq<CoreInfo>, n: nat)
    requires SiblingsLast(rows) && 0 < n < |rows| && !Sibling(rows, n)
    ensures !Sibling(rows, n - 1)
  {
  }

  /** Before a row that is not a sibling there is none, if siblings come last. */
  lemma {:induction false} AllFirst(rows: seq<CoreInfo>, n: nat)
    requires SiblingsLast(rows) && n < |rows| && !Sibling(rows, n)
    ensures Firsts(rows[..n]) == n
  {
    if n > 0 {
      NoneBefore(rows, n);
      AllFirst(rows, n - 1);
      SiblingPrefix(rows, n, n - 1);
      assert rows[..n][..n - 1] == rows[..n - 1];
    }
  }

  // ---- When the siblings come last in the whole set ----

  /** Package `p` has siblings to deal only when `q` has no core left: by then `q` had a turn for
      each of its cores. */
  ghost predicate CoresFirst(infos: seq<CoreInfo>, p: nat, q: nat) {
    var d, e := |CoresOf(OnPackage(infos, p))|, |CoresOf(OnPackage(infos, q))|;
    |OnPackage(infos, p)| > d ==> e <= d || (e == d + 1 && q < p)
  }

  /** On every package only the greatest core has several threads, and a package with several
      threads of a core has at least as many cores as any other, or one less than a package that
      is dealt before it. */
  ghost predicate SpreadFits(infos: seq<CoreInfo>) {
    && (forall p :: OneThreadEach(OnPackage(infos, p)))
    && (forall p, q :: CoresFirst(infos, p, q))
  }

  /** What `spread` promises of its result. */
  ghost predicate Spreads(infos: seq<CoreInfo>, out: seq<CoreInfo>) {
    (forall p :: OnPackage(out, p) == Sort(OnPackage(infos, p))) && RoundRobin(out)
  }

  lemma SortedCores(rows: seq<CoreInfo>)
    ensures CoresOf(Sort(rows)) == CoresOf(rows)
  {
    SortSorts(rows);
    forall row
      ensures row in Sort(rows) <==> row in rows
    {
      assert row in Sort(rows) <==> row in multiset(Sort(rows));
      assert row in rows <==> row in multiset(rows);
    }
  }

  /** The row at `k` is a sibling exactly if its rank is not below its package's cores. */
  lemma SetSiblingByRank(infos: seq<CoreInfo>, out: seq<CoreInfo>, k: nat)
    requires Spreads(infos, out) && k < |out| && SiblingsLast(OnPackage(out, out[k].package))
    ensures RankAt(out, k) < |OnPackage(infos, out[k].package)|
    ensures SetSibling(out, k) <==> RankAt(out, k) >= |CoresOf(OnPackage(infos, out[k].package))|
  {
    var p := out[k].package;
    assert OnPackage(out, p) == Sort(OnPackage(infos, p));
    SiblingOnPackage(out, k);
    SiblingsFrom(OnPackage(out, p), RankAt(out, k));
    SortedCores(OnPackage(infos, p));
  }

  /** If they come last in the whole set, they do on each package. */
  lemma LastOnPackage(out: seq<CoreInfo>, p: nat)
    requires RoundRobin(out) && SetSiblingsLast(out)
    ensures SiblingsLast(OnPackage(out, p))
  {
    var rows := OnPackage(out, p);
    forall x, y | 0 <= x < y < |rows| && Sibling(rows, x)
      ensures Sibling(rows, y)
    {
      var a := PlaceOf(out, p, x);
      var b := PlaceOf(out, p, y);
      SiblingOnPackage(out, a);
      SiblingOnPackage(out, b);
      assert a != b && (b < a ==> InTurn(out, b, a));
    }
  }

  lemma LastNeedsCoresFirst(infos: seq<CoreInfo>, out: seq<CoreInfo>, p: nat, q: nat)
    requires Spreads(infos, out) && SetSiblingsLast(out)
    ensures CoresFirst(infos, p, q)
  {
    var d, e := |CoresOf(OnPackage(infos, p))|, |CoresOf(OnPackage(infos, q))|;
    assert OnPackage(out, p) == Sort(OnPackage(infos, p)) && OnPackage(out, q) == Sort(OnPackage(infos, q));
    if |OnPackage(infos, p)| > d && e > d {
      FirstsAreCores(OnPackage(infos, q));
      LastOnPackage(out, p);
      LastOnPackage(out, q);
      var a := PlaceOf(out, p, d);
      var b := PlaceOf(out, q, e - 1);
      SetSiblingByRank(infos, out, a);
      SetSiblingByRank(infos, out, b);
      assert SetSibling(out, a) && !SetSibling(out, b) && !(a < b);
      assert a == b || InTurn(out, b, a);
    }
  }

  lemma FitsPair(infos: seq<CoreInfo>, out: seq<CoreInfo>, a: nat, b: nat)
    requires Spreads(infos, out) && SpreadFits(infos) && a < b < |out| && SetSibling(out, a)
    ensures SetSibling(out, b)
  {
    var p, q := out[a].package, out[b].package;
    assert OnPackage(out, p) == Sort(OnPackage(infos, p)) && OnPackage(out, q) == Sort(OnPackage(infos, q));
    assert OneThreadEach(OnPackage(infos, p)) && OneThreadEach(OnPackage(infos, q));
    SiblingsLastExactly(infos, out, p);
    SiblingsLastExactly(infos, out, q);
    SetSiblingByRank(infos, out, a);
    SetSiblingByRank(infos, out, b);
    assert InTurn(out, a, b) && CoresFirst(infos, p, q);
  }

  /** In the result of `spread`, SMT siblings come last in the whole set if and only if the
      topology fits: the condition is on the input alone. */
  lemma SetSiblingsLastExactly(infos: seq<CoreInfo>, out: seq<CoreInfo>)
    requires Spreads(infos, out)
    ensures SetSiblingsLast(out) <==> SpreadFits(infos)
  {
    if SetSiblingsLast(out) {
      forall p
        ensures OneThreadEach(OnPackage(infos, p))
      {
        assert OnPackage(out, p) == Sort(OnPackage(infos, p));
        LastOnPackage(out, p);
        SiblingsLastExactly(infos, out, p);
      }
      forall p, q
        ensures CoresFirst(infos, p, q)
      {
        LastNeedsCoresFirst(infos, out, p, q);
      }
    }
    if SpreadFits(infos) {
      forall a, b | 0 <= a < b < |out| && SetSibling(out, a)
        ensures SetSibling(out, b)
      {
        FitsPair(infos, out, a, b);
      }
    }
  }

  /** A core of two threads on one package, two cores of one thread on another: siblings come last
      on each package, but not in the whole set. */
  method SpreadTwoPackages() returns (infos: seq<CoreInfo>, out: seq<CoreInfo>)
    ensures infos == [CoreInfo(0, 0, 0, 0), CoreInfo(1, 0, 0, 0), CoreInfo(2, 0, 1, 0), CoreInfo(3, 1, 1, 0)]
    ensures Spreads(infos, out) && !SetSiblingsLast(out)
    ensures forall p :: SiblingsLast(OnPackage(out, p))
  {
    var a, b, c, d := CoreInfo(0, 0, 0, 0), CoreInfo(1, 0, 0, 0), CoreInfo(2, 0, 1, 0), CoreInfo(3, 1, 1, 0);
    infos := [a, b, c, d];
    out := Spread(infos);
    NotCoresFirst(infos, a, b, c, d);
    SetSiblingsLastExactly(infos, out);
    forall p
      ensures SiblingsLast(OnPackage(out, p))
    {
      assert OnPackage(out, p) == Sort(OnPackage(infos, p));
      OneThreadOf(infos, a, b, c, d, p);
      SiblingsLastExactly(infos, out, p);
    }
  }

  lemma NotCoresFirst(infos: seq<CoreInfo>, a: CoreInfo, b: CoreInfo, c: CoreInfo, d: CoreInfo)
    requires infos == [a, b, c, d] && a.package == b.package == 0 && c.package == d.package == 1
    requires SameCore(a, b) && !SameCore(c, d)
    ensures !CoresFirst(infos, 0, 1)
  {
    TwoPackages(infos, a, b, c, d);
    var x, y, z := (a.numaNode, a.core), (c.numaNode, c.core), (d.numaNode, d.core);
    assert CoresOf([a, b]) == {x} && CoresOf([c, d]) == {y, z};
    assert |{x}| == 1 && |{y, z}| == 2;
  }

  lemma TwoPackages(infos: seq<CoreInfo>, a: CoreInfo, b: CoreInfo, c: CoreInfo, d: CoreInfo)
    requires infos == [a, b, c, d] && a.package == b.package == 0 && c.package == d.package == 1
    ensures OnPackage(infos, 0) == [a, b] && OnPackage(infos, 1) == [c, d]
    ensures forall p :: p > 1 ==> OnPackage(infos, p) == []
  {
    assert [] + [a] == [a] && [a] + [b] == [a, b] && [a, b] + [c] == [a, b, c] && [a, b, c] + [d] == infos;
    forall p
      ensures OnPackage(infos, p) == if p == 0 then [a, b] else if p == 1 then [c, d] else []
    {
      OnPackageAppend([], a, p);
      OnPackageAppend([a], b, p);
      OnPackageAppend([a, b], c, p);
      OnPackageAppend([a, b, c], d, p);
    }
  }

  lemma OneThreadOf(infos: seq<CoreInfo>, a: CoreInfo, b: CoreInfo, c: CoreInfo, d: CoreInfo, p: nat)
    requires infos == [a, b, c, d] && a.package == b.package == 0 && c.package == d.package == 1
    ensures OneThreadEach(OnPackage(infos, p))
  {
    TwoPackages(infos, a, b, c, d);
    PairThreads(a, b);
    PairThreads(c, d);
  }

  /** Of two rows, either both are threads of one core or neither core has a second thread. */
  lemma PairThreads(x: CoreInfo, y: CoreInfo)
    ensures OneThreadEach([x, y])
  {
    forall row
      ensures Threads([x, y], row) == (if SameCore(x, row) then 1 else 0) + if SameCore(y, row) then 1 else 0
    {
      ThreadsAppend([], x, row);
      ThreadsAppend([x], y, row);
      assert [] + [x] == [x] && [x] + [y] == [x, y];
    }
  }

  lemma ThreadsAppend(rows: seq<CoreInfo>, last: CoreInfo, row: CoreInfo)
    ensures Threads(rows + [last], row) == Threads(rows, row) + if SameCore(last, row) then 1 else 0
  {
    assert (rows + [last])[..|rows|] == rows;
  }
}
