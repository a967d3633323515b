/** Building the whole matrix, and deciding from it whether the run fails. */
module MatrixGrid {
  import opened Matrix

  type Cells = map<Key, Cell>

  /** A target without a report is planned as one row with an empty environment. */
  function RowNames(reports: seq<Report>, target: string): seq<string> {
    if Environments(reports, target) == [] then [""] else Environments(reports, target)
  }

  function TestCells(cells: Cells, m: Manifest, environment: string, tests: seq<TestEntry>, raw: Results): Cells {
    if tests == [] then cells
    else
      var test := tests[|tests| - 1];
      TestCells(cells, m, environment, tests[..|tests| - 1], raw)
        [(m.id, environment, test.id) := ClassifyOne(m, environment, test, Get(raw, test.id))]
  }

  function RowCells(
    cells: Cells, m: Manifest, environments: seq<string>, tests: seq<TestEntry>, groups: map<string, Results>): Cells
  {
    if environments == [] then cells
    else
      var e := environments[|environments| - 1];
      var before := RowCells(cells, m, environments[..|environments| - 1], tests, groups);
      TestCells(before, m, e, tests, ResultsOf(groups, e))
  }

  function AllCells(manifests: seq<Manifest>, tests: seq<TestEntry>, reports: seq<Report>): Cells {
    if manifests == [] then map[]
    else
      var m := manifests[|manifests| - 1];
      RowCells(AllCells(manifests[..|manifests| - 1], tests, reports), m, RowNames(reports, m.id), tests,
               Group(reports, m.id))
  }

  function TargetRows(target: string, environments: seq<string>): seq<Row> {
    if environments == [] then []
    else TargetRows(target, environments[..|environments| - 1]) + [Row(target, environments[|environments| - 1])]
  }

  function AllRows(manifests: seq<Manifest>, reports: seq<Report>): seq<Row> {
    if manifests == [] then []
    else
      var m := manifests[|manifests| - 1];
      AllRows(manifests[..|manifests| - 1], reports) + TargetRows(m.id, RowNames(reports, m.id))
  }

  function Ids(tests: seq<TestEntry>): (ids: seq<string>)
    ensures |ids| == |tests| && forall i :: 0 <= i < |tests| ==> ids[i] == tests[i].id
  {
    seq(|tests|, i requires 0 <= i < |tests| => tests[i].id)
  }

  function GridOf(tests: seq<TestEntry>, manifests: seq<Manifest>, reports: seq<Report>): Grid {
    Grid(AllRows(manifests, reports), Ids(tests), AllCells(manifests, tests, reports))
  }

  // ----- the loops that build it -----

  method ClassifyRow(cells: Cells, m: Manifest, environment: string, tests: seq<TestEntry>, raw: Results)
    returns (out: Cells)
    ensures out == TestCells(cells, m, environment, tests, raw)
  {
    out := cells;
    for i := 0 to |tests|
      invariant out == TestCells(cells, m, environment, tests[..i], raw)
    {
      assert tests[..i + 1][..i] == tests[..i];
      out := out[(m.id, environment, tests[i].id) := ClassifyOne(m, environment, tests[i], Get(raw, tests[i].id))];
    }
    assert tests[..|tests|] == tests;
  }

  method ClassifyTarget(rows: seq<Row>, cells: Cells, m: Manifest, tests: seq<TestEntry>, reports: seq<Report>)
    returns (outRows: seq<Row>, outCells: Cells)
    ensures outRows == rows + TargetRows(m.id, RowNames(reports, m.id))
    ensures outCells == RowCells(cells, m, RowNames(reports, m.id), tests, Group(reports, m.id))
  {
    var keys, groups := GroupByEnvironment(reports, m.id);
    ghost var reported := groups;
    if keys == [] {
      keys, groups := [""], map["" := map[]];
      EnvironmentsAreTheReported(reports, m.id);
      assert ResultsOf(groups, "") == ResultsOf(reported, "");
    }
    outRows, outCells := rows, cells;
    for i := 0 to |keys|
      invariant outRows == rows + TargetRows(m.id, keys[..i])
      invariant outCells == RowCells(cells, m, keys[..i], tests, reported)
    {
      assert keys[..i + 1][..i] == keys[..i];
      assert ResultsOf(groups, keys[i]) == ResultsOf(reported, keys[i]);
      outCells := ClassifyRow(outCells, m, keys[i], tests, ResultsOf(groups, keys[i]));
      outRows := outRows + [Row(m.id, keys[i])];
    }
    assert keys[..|keys|] == keys;
  }

  method Classify(tests: seq<TestEntry>, manifests: seq<Manifest>, reports: seq<Report>) returns (grid: Grid)
    ensures grid == GridOf(tests, manifests, reports)
  {
    var rows, cells: Cells := [], map[];
    for i := 0 to |manifests|
      invariant rows == AllRows(manifests[..i], reports)
      invariant cells == AllCells(manifests[..i], tests, reports)
    {
      assert manifests[..i + 1][..i] == manifests[..i];
      rows, cells := ClassifyTarget(rows, cells, manifests[i], tests, reports);
    }
    assert manifests[..|manifests|] == manifests;
    grid := Grid(rows, Ids(tests), cells);
  }

  // ----- what the cells are -----

  ghost predicate IsTest(tests: seq<TestEntry>, id: string) { exists i :: 0 <= i < |tests| && tests[i].id == id }

  lemma IsTestSnoc(tests: seq<TestEntry>, id: string)
    requires UniqueTests(tests) && tests != []
    ensures var n := |tests| - 1;
      && (IsTest(tests, id) <==> IsTest(tests[..n], id) || tests[n].id == id)
      && !(IsTest(tests[..n], id) && tests[n].id == id)
  {
    var n := |tests| - 1;
    if IsTest(tests[..n], id) {
      var i :| 0 <= i < n && tests[..n][i].id == id;
      assert tests[i].id == id && tests[i].id != tests[n].id;
    }
    if IsTest(tests, id) {
      var i :| 0 <= i <= n && tests[i].id == id;
      assert i < n ==> tests[..n][i].id == id;
    }
  }

  lemma {:induction false} TestCellsAre(
    cells: Cells, m: Manifest, e: string, tests: seq<TestEntry>, raw: Results, key: Key)
    requires UniqueTests(tests)
    ensures var out := TestCells(cells, m, e, tests, raw);
      && (key.0 == m.id && key.1 == e && IsTest(tests, key.2) ==>
            key in out && forall i :: 0 <= i < |tests| && tests[i].id == key.2 ==>
              out[key] == ClassifyOne(m, e, tests[i], Get(raw, key.2)))
      && (!(key.0 == m.id && key.1 == e && IsTest(tests, key.2)) ==>
            (key in out <==> key in cells) && (key in cells ==> out[key] == cells[key]))
  {
    if tests != [] {
      var n := |tests| - 1;
      var init := tests[..n];
      assert forall i :: 0 <= i < n ==> init[i] == tests[i];
      TestCellsAre(cells, m, e, init, raw, key);
      IsTestSnoc(tests, key.2);
    }
  }

  lemma {:induction false} RowCellsAre(
    cells: Cells, m: Manifest, envs: seq<string>, tests: seq<TestEntry>, groups: map<string, Results>, key: Key)
    requires UniqueTests(tests)
    ensures var out := RowCells(cells, m, envs, tests, groups);
      && (key.0 == m.id && key.1 in envs && IsTest(tests, key.2) ==>
            key in out && forall i :: 0 <= i < |tests| && tests[i].id == key.2 ==>
              out[key] == ClassifyOne(m, key.1, tests[i], Get(ResultsOf(groups, key.1), key.2)))
      && (!(key.0 == m.id && key.1 in envs && IsTest(tests, key.2)) ==>
            (key in out <==> key in cells) && (key in cells ==> out[key] == cells[key]))
  {
    if envs != [] {
      var n := |envs| - 1;
      RowCellsAre(cells, m, envs[..n], tests, groups, key);
      TestCellsAre(RowCells(cells, m, envs[..n], tests, groups), m, envs[n], tests, ResultsOf(groups, envs[n]), key);
      assert envs == envs[..n] + [envs[n]];
    }
  }

  /** The key names a row of target `k` and a registered test. */
  ghost predicate Covers(manifests: seq<Manifest>, tests: seq<TestEntry>, reports: seq<Report>, key: Key, k: nat)
    requires k < |manifests|
  {
    manifests[k].id == key.0 && key.1 in RowNames(reports, key.0) && IsTest(tests, key.2)
  }

  ghost predicate Covered(manifests: seq<Manifest>, tests: seq<TestEntry>, reports: seq<Report>, key: Key) {
    exists k :: 0 <= k < |manifests| && Covers(manifests, tests, reports, key, k)
  }

  lemma CoveredSnoc(manifests: seq<Manifest>, tests: seq<TestEntry>, reports: seq<Report>, key: Key)
    requires UniqueTargets(manifests) && manifests != []
    ensures var n := |manifests| - 1;
      && (Covered(manifests, tests, reports, key) <==>
            Covered(manifests[..n], tests, reports, key) || Covers(manifests, tests, reports, key, n))
      && (Covers(manifests, tests, reports, key, n) ==> !Covered(manifests[..n], tests, reports, key))
  {
    var n := |manifests| - 1;
    if Covered(manifests[..n], tests, reports, key) {
      var k :| 0 <= k < n && Covers(manifests[..n], tests, reports, key, k);
      assert Covers(manifests, tests, reports, key, k) && manifests[k].id != manifests[n].id;
    }
    if Covered(manifests, tests, reports, key) {
      var k :| 0 <= k <= n && Covers(manifests, tests, reports, key, k);
      assert k < n ==> Covers(manifests[..n], tests, reports, key, k);
    }
  }

  /** There is a cell for every row and test. */
  lemma {:induction false} CellsAreThere(
    manifests: seq<Manifest>, tests: seq<TestEntry>, reports: seq<Report>, key: Key)
    requires UniqueTests(tests) && UniqueTargets(manifests)
    ensures key in AllCells(manifests, tests, reports) <==> Covered(manifests, tests, reports, key)
  {
    if manifests != [] {
      var n := |manifests| - 1;
      var m := manifests[n];
      CellsAreThere(manifests[..n], tests, reports, key);
      CoveredSnoc(manifests, tests, reports, key);
      RowCellsAre(AllCells(manifests[..n], tests, reports), m, RowNames(reports, m.id), tests, Group(reports, m.id),
                  key);
    }
  }

  /** Every cell is the classification of the result last reported for it. */
  lemma {:induction false} CellsAreClassifications(
    manifests: seq<Manifest>, tests: seq<TestEntry>, reports: seq<Report>, key: Key, k: nat, i: nat)
    requires UniqueTests(tests) && UniqueTargets(manifests)
    requires k < |manifests| && i < |tests| && tests[i].id == key.2 && Covers(manifests, tests, reports, key, k)
    ensures key in AllCells(manifests, tests, reports)
    ensures AllCells(manifests, tests, reports)[key]
         == ClassifyOne(manifests[k], key.1, tests[i], LastReported(reports, key.0, key.1, key.2))
  {
    var n := |manifests| - 1;
    var m := manifests[n];
    RowCellsAre(AllCells(manifests[..n], tests, reports), m, RowNames(reports, m.id), tests, Group(reports, m.id), key);
    if k < n {
      assert manifests[k].id != m.id;
      assert Covers(manifests[..n], tests, reports, key, k);
      CellsAreClassifications(manifests[..n], tests, reports, key, k, i);
    } else {
      GroupHoldsTheLast(reports, key.0, key.1, key.2);
    }
  }

  // ----- the verdict -----

  predicate HasFailures(grid: Grid) {
    exists key :: key in grid.cells && IsFailure(grid.cells[key].status)
  }

  /** Row `at.0` fails test `at.1`. */
  predicate FailsAt(grid: Grid, at: (nat, nat))
    requires at.0 < |grid.rows| && at.1 < |grid.tests|
  {
    var row := grid.rows[at.0];
    var key := (row.target, row.environment, grid.tests[at.1]);
    key in grid.cells && IsFailure(grid.cells[key].status)
  }

  function Entry(grid: Grid, at: (nat, nat)): (Row, string, Cell)
    requires at.0 < |grid.rows| && at.1 < |grid.tests| && FailsAt(grid, at)
  {
    var row := grid.rows[at.0];
    (row, grid.tests[at.1], grid.cells[(row.target, row.environment, grid.tests[at.1])])
  }

  predicate Before(p: (nat, nat), q: (nat, nat)) { p.0 < q.0 || (p.0 == q.0 && p.1 < q.1) }

  predicate Within(grid: Grid, p: (nat, nat)) { p.0 < |grid.rows| && p.1 < |grid.tests| }

  /** The failing positions before position `(r, t)`, in row order and then test order. */
  ghost predicate FailingBefore(grid: Grid, at: seq<(nat, nat)>, r: nat, t: nat) {
    && (forall i :: 0 <= i < |at| ==> Within(grid, at[i]) && FailsAt(grid, at[i]) && Before(at[i], (r, t)))
    && (forall i, j :: 0 <= i < j < |at| ==> Before(at[i], at[j]))
    && (forall p: (nat, nat) :: Within(grid, p) && FailsAt(grid, p) && Before(p, (r, t)) ==> p in at)
  }

  ghost predicate Lists(grid: Grid, at: seq<(nat, nat)>, failures: seq<(Row, string, Cell)>) {
    |failures| == |at|
    && forall i :: 0 <= i < |at| ==> Within(grid, at[i]) && FailsAt(grid, at[i]) && failures[i] == Entry(grid, at[i])
  }

  /** Every failing cell, once each, in row order and then test order. */
  ghost predicate ListsFailures(grid: Grid, failures: seq<(Row, string, Cell)>) {
    exists at :: Lists(grid, at, failures) && FailingBefore(grid, at, |grid.rows|, 0)
  }

  method Failures(grid: Grid) returns (failures: seq<(Row, string, Cell)>)
    ensures ListsFailures(grid, failures)
  {
    ghost var at: seq<(nat, nat)> := [];
    failures := [];
    for r := 0 to |grid.rows|
      invariant Lists(grid, at, failures) && FailingBefore(grid, at, r, 0)
    {
      for t := 0 to |grid.tests|
        invariant Lists(grid, at, failures) && FailingBefore(grid, at, r, t)
      {
        ghost var before := at;
        if FailsAt(grid, (r, t)) {
          failures, at := failures + [Entry(grid, (r, t))], at + [(r, t)];
        }
        Extended(grid, before, at, r, t);
      }
      NextRow(grid, at, r);
    }
  }

  lemma Extended(grid: Grid, before: seq<(nat, nat)>, at: seq<(nat, nat)>, r: nat, t: nat)
    requires r < |grid.rows| && t < |grid.tests| && FailingBefore(grid, before, r, t)
    requires at == if FailsAt(grid, (r, t)) then before + [(r, t)] else before
    ensures FailingBefore(grid, at, r, t + 1)
  {
    forall p: (nat, nat) | Within(grid, p) && FailsAt(grid, p) && Before(p, (r, t + 1))
      ensures p in at
    {
      assert p == (r, t) || Before(p, (r, t));
      if p == (r, t) {
        assert at[|before|] == p;
      } else {
        assert p in before;
      }
    }
  }

  lemma NextRow(grid: Grid, at: seq<(nat, nat)>, r: nat)
    requires FailingBefore(grid, at, r, |grid.tests|)
    ensures FailingBefore(grid, at, r + 1, 0)
  {
    forall p: (nat, nat) | Within(grid, p) && FailsAt(grid, p) && Before(p, (r + 1, 0))
      ensures p in at
    {
      assert Before(p, (r, |grid.tests|));
    }
  }

  // ----- rows -----

  lemma {:induction false} TargetRowsAre(target: string, envs: seq<string>)
    ensures |TargetRows(target, envs)| == |envs|
    ensures forall i :: 0 <= i < |envs| ==> TargetRows(target, envs)[i] == Row(target, envs[i])
  {
    if envs != [] {
      TargetRowsAre(target, envs[..|envs| - 1]);
    }
  }

  ghost predicate IsRow(manifests: seq<Manifest>, reports: seq<Report>, row: Row) {
    exists k ::
      0 <= k < |manifests| && manifests[k].id == row.target && row.environment in RowNames(reports, row.target)
  }

  ghost predicate Distinct(rows: seq<Row>) { forall i, j :: 0 <= i < j < |rows| ==> rows[i] != rows[j] }

  lemma RowNamesDistinct(reports: seq<Report>, target: string)
    ensures Distinct(TargetRows(target, RowNames(reports, target)))
  {
    var names := RowNames(reports, target);
    EnvironmentsAreTheReported(reports, target);
    TargetRowsAre(target, names);
    forall i, j | 0 <= i < j < |names|
      ensures names[i] != names[j]
    {
      LessIrreflexive(names[i]);
    }
  }

  lemma {:induction false} RowsAre(manifests: seq<Manifest>, reports: seq<Report>)
    requires UniqueTargets(manifests)
    ensures forall row :: row in AllRows(manifests, reports) <==> IsRow(manifests, reports, row)
    ensures Distinct(AllRows(manifests, reports))
  {
    if manifests != [] {
      var n := |manifests| - 1;
      var init, m := manifests[..n], manifests[n];
      RowsAre(init, reports);
      RowNamesDistinct(reports, m.id);
      TargetRowsAre(m.id, RowNames(reports, m.id));
      forall row
        ensures IsRow(manifests, reports, row) <==>
                IsRow(init, reports, row) || (row.target == m.id && row.environment in RowNames(reports, m.id))
      {
        assert forall k :: 0 <= k < n ==> init[k] == manifests[k];
        if IsRow(init, reports, row) {
          var k :| 0 <= k < n && init[k].id == row.target && row.environment in RowNames(reports, row.target);
          assert manifests[k].id == row.target;
        }
      }
      var earlier, rows := AllRows(init, reports), AllRows(manifests, reports);
      forall i, j | 0 <= i < j < |rows|
        ensures rows[i] != rows[j]
      {
        if i < |earlier| <= j {
          assert IsRow(init, reports, rows[i]);
        }
      }
    }
  }

  /** Row `a` belongs before row `b`: an earlier target, or the same one and a lesser environment. */
  ghost predicate RowBefore(manifests: seq<Manifest>, a: Row, b: Row) {
    exists k, l :: 0 <= k <= l < |manifests| && InOrder(manifests, a, b, k, l)
  }

  ghost predicate InOrder(manifests: seq<Manifest>, a: Row, b: Row, k: nat, l: nat)
    requires k < |manifests| && l < |manifests|
  {
    && manifests[k].id == a.target && manifests[l].id == b.target
    && (k < l || Less(a.environment, b.environment))
  }

  lemma RowBeforeMore(manifests: seq<Manifest>, a: Row, b: Row)
    requires manifests != [] && RowBefore(manifests[..|manifests| - 1], a, b)
    ensures RowBefore(manifests, a, b)
  {
    var init := manifests[..|manifests| - 1];
    var k, l :| 0 <= k <= l < |init| && InOrder(init, a, b, k, l);
    assert InOrder(manifests, a, b, k, l);
  }

  /** The rows of one target are in the order of their environments. */
  lemma TargetRowsInOrder(reports: seq<Report>, target: string, i: nat, j: nat)
    requires i < j < |TargetRows(target, RowNames(reports, target))|
    ensures var rows := TargetRows(target, RowNames(reports, target));
      rows[i].target == target && rows[j].target == target && Less(rows[i].environment, rows[j].environment)
  {
    EnvironmentsAreTheReported(reports, target);
    TargetRowsAre(target, RowNames(reports, target));
  }

  /** Rows come in the order of the targets, and within a target in the order of its environments. */
  lemma {:induction false} RowsInOrder(manifests: seq<Manifest>, reports: seq<Report>, i: nat, j: nat)
    requires UniqueTargets(manifests) && i < j < |AllRows(manifests, reports)|
    ensures var rows := AllRows(manifests, reports); RowBefore(manifests, rows[i], rows[j])
  {
    var n := |manifests| - 1;
    var init, m := manifests[..n], manifests[n];
    var earlier, rows := AllRows(init, reports), AllRows(manifests, reports);
    TargetRowsAre(m.id, RowNames(reports, m.id));
    if j < |earlier| {
      RowsInOrder(init, reports, i, j);
      RowBeforeMore(manifests, rows[i], rows[j]);
    } else if i < |earlier| {
      RowsAre(init, reports);
      assert IsRow(init, reports, rows[i]);
      var k :| 0 <= k < n && init[k].id == rows[i].target;
      assert InOrder(manifests, rows[i], rows[j], k, n);
    } else {
      TargetRowsInOrder(reports, m.id, i - |earlier|, j - |earlier|);
      assert InOrder(manifests, rows[i], rows[j], n, n);
    }
  }

  // ----- the run fails exactly when policy is broken -----

  ghost predicate Broken(
    tests: seq<TestEntry>, manifests: seq<Manifest>, reports: seq<Report>, k: nat, e: string, i: nat)
    requires k < |manifests| && i < |tests|
  {
    var m := manifests[k];
    && Reported(reports, m.id, e)
    && BreaksPolicy(m, e, tests[i], LastReported(reports, m.id, e, tests[i].id))
  }

  lemma {:induction false} UnreportedHasNoResult(reports: seq<Report>, target: string, e: string, testId: string)
    requires LastReported(reports, target, e, testId).Some?
    ensures Reported(reports, target, e)
  {
    var n := |reports| - 1;
    if !(reports[n].target == target && reports[n].environment == e) {
      UnreportedHasNoResult(reports[..n], target, e, testId);
      var i :| 0 <= i < n && reports[..n][i].target == target && reports[..n][i].environment == e;
      assert reports[i].target == target;
    }
  }

  lemma BrokenIsACell(tests: seq<TestEntry>, manifests: seq<Manifest>, reports: seq<Report>, k: nat, e: string, i: nat)
    requires UniqueTests(tests) && UniqueTargets(manifests) && k < |manifests| && i < |tests|
    requires Broken(tests, manifests, reports, k, e, i)
    ensures var key := (manifests[k].id, e, tests[i].id); var cells := AllCells(manifests, tests, reports);
      key in cells && IsFailure(cells[key].status)
  {
    var m := manifests[k];
    var key: Key := (m.id, e, tests[i].id);
    EnvironmentsAreTheReported(reports, m.id);
    assert IsTest(tests, key.2);
    assert Covers(manifests, tests, reports, key, k);
    CellsAreClassifications(manifests, tests, reports, key, k, i);
    ClassifyFollowsPolicy(m, e, tests[i], LastReported(reports, m.id, e, tests[i].id));
  }

  lemma FailingCellIsBroken(tests: seq<TestEntry>, manifests: seq<Manifest>, reports: seq<Report>, key: Key)
    returns (k: nat, i: nat)
    requires UniqueTests(tests) && UniqueTargets(manifests)
    requires var cells := AllCells(manifests, tests, reports); key in cells && IsFailure(cells[key].status)
    ensures k < |manifests| && i < |tests| && manifests[k].id == key.0 && tests[i].id == key.2
    ensures Broken(tests, manifests, reports, k, key.1, i) && key.1 in RowNames(reports, key.0)
  {
    CellsAreThere(manifests, tests, reports, key);
    k :| 0 <= k < |manifests| && Covers(manifests, tests, reports, key, k);
    i :| 0 <= i < |tests| && tests[i].id == key.2;
    CellsAreClassifications(manifests, tests, reports, key, k, i);
    ClassifyFollowsPolicy(manifests[k], key.1, tests[i], LastReported(reports, key.0, key.1, key.2));
    UnreportedHasNoResult(reports, key.0, key.1, key.2);
  }

  /**
   The run fails exactly when, for some declared target, some environment it was reported in and some registered test,
   the result last reported breaks the target's policy.
   */
  lemma RunFailsIffPolicyBroken(tests: seq<TestEntry>, manifests: seq<Manifest>, reports: seq<Report>)
    requires UniqueTests(tests) && UniqueTargets(manifests)
    ensures HasFailures(GridOf(tests, manifests, reports)) <==>
            exists k, e, i :: 0 <= k < |manifests| && 0 <= i < |tests| && Broken(tests, manifests, reports, k, e, i)
  {
    forall k: nat, e, i: nat | k < |manifests| && i < |tests| && Broken(tests, manifests, reports, k, e, i)
      ensures HasFailures(GridOf(tests, manifests, reports))
    {
      BrokenIsACell(tests, manifests, reports, k, e, i);
    }
    if HasFailures(GridOf(tests, manifests, reports)) {
      var cells := AllCells(manifests, tests, reports);
      var key :| key in cells && IsFailure(cells[key].status);
      var k, i := FailingCellIsBroken(tests, manifests, reports, key);
    }
  }

  /** A run that fails has a failing position. */
  lemma FailingPosition(tests: seq<TestEntry>, manifests: seq<Manifest>, reports: seq<Report>) returns (p: (nat, nat))
    requires UniqueTests(tests) && UniqueTargets(manifests) && HasFailures(GridOf(tests, manifests, reports))
    ensures var grid := GridOf(tests, manifests, reports); Within(grid, p) && FailsAt(grid, p)
  {
    var grid := GridOf(tests, manifests, reports);
    var key :| key in grid.cells && IsFailure(grid.cells[key].status);
    var k, i := FailingCellIsBroken(tests, manifests, reports, key);
    RowsAre(manifests, reports);
    assert IsRow(manifests, reports, Row(key.0, key.1));
    var r :| 0 <= r < |grid.rows| && grid.rows[r] == Row(key.0, key.1);
    p := (r, i);
  }

  lemma ListedOnce(grid: Grid, at: seq<(nat, nat)>, failures: seq<(Row, string, Cell)>, i: nat, j: nat)
    requires Lists(grid, at, failures) && FailingBefore(grid, at, |grid.rows|, 0) && i < j < |failures|
    requires Distinct(grid.rows) && forall a, b :: 0 <= a < b < |grid.tests| ==> grid.tests[a] != grid.tests[b]
    ensures failures[i].0 != failures[j].0 || failures[i].1 != failures[j].1
  {
    assert Before(at[i], at[j]) && Within(grid, at[i]) && Within(grid, at[j]);
  }

  ghost predicate NamesOnce(failures: seq<(Row, string, Cell)>) {
    forall i, j :: 0 <= i < j < |failures| ==> failures[i].0 != failures[j].0 || failures[i].1 != failures[j].1
  }

  /** Listing failures and having them agree, and the list names each failing row and test once. */
  lemma FailuresAreListed(
    tests: seq<TestEntry>, manifests: seq<Manifest>, reports: seq<Report>, failures: seq<(Row, string, Cell)>)
    requires UniqueTests(tests) && UniqueTargets(manifests)
    requires ListsFailures(GridOf(tests, manifests, reports), failures)
    ensures HasFailures(GridOf(tests, manifests, reports)) <==> failures != []
    ensures NamesOnce(failures)
  {
    var grid := GridOf(tests, manifests, reports);
    var at: seq<(nat, nat)> :| Lists(grid, at, failures) && FailingBefore(grid, at, |grid.rows|, 0);
    RowsAre(manifests, reports);
    AllListedOnce(grid, at, failures);
    if failures != [] {
      FailingEntry(grid, at, failures);
    }
    if HasFailures(grid) {
      var p := FailingPosition(tests, manifests, reports);
      FailingIsListed(grid, at, failures, p);
    }
  }

  lemma AllListedOnce(grid: Grid, at: seq<(nat, nat)>, failures: seq<(Row, string, Cell)>)
    requires Lists(grid, at, failures) && FailingBefore(grid, at, |grid.rows|, 0)
    requires Distinct(grid.rows) && forall a, b :: 0 <= a < b < |grid.tests| ==> grid.tests[a] != grid.tests[b]
    ensures NamesOnce(failures)
  {
    forall i, j | 0 <= i < j < |failures|
      ensures failures[i].0 != failures[j].0 || failures[i].1 != failures[j].1
    {
      ListedOnce(grid, at, failures, i, j);
    }
  }

  lemma FailingIsListed(grid: Grid, at: seq<(nat, nat)>, failures: seq<(Row, string, Cell)>, p: (nat, nat))
    requires Lists(grid, at, failures) && FailingBefore(grid, at, |grid.rows|, 0) && Within(grid, p) && FailsAt(grid, p)
    ensures failures != []
  {
    assert Before(p, (|grid.rows|, 0)) && p in at;
  }

  lemma FailingEntry(grid: Grid, at: seq<(nat, nat)>, failures: seq<(Row, string, Cell)>)
    requires Lists(grid, at, failures) && failures != []
    ensures HasFailures(grid)
  {
    assert FailsAt(grid, at[0]);
    var row := grid.rows[at[0].0];
    assert (row.target, row.environment, grid.tests[at[0].1]) in grid.cells;
  }
}
