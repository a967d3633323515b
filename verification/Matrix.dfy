/**
 The conformance matrix: raw results reported by adapters, classified against each target's manifest into the cells
 that decide whether the run fails.
 */
module Matrix {
  import opened Collections

  datatype Unsupported = Unsupported(tag: string, reason: string, environments: Option<seq<string>>)

  datatype ExpectedFail = ExpectedFail(test: string, tracking: string, environments: Option<seq<string>>)

  datatype Manifest = Manifest(id: string, unsupported: seq<Unsupported>, expectedFail: seq<ExpectedFail>)

  datatype TestEntry = TestEntry(id: string, tags: seq<string>)

  datatype RawStatus = RawPass | RawFail | RawSkip

  datatype Raw = Raw(status: RawStatus, detail: Option<string>)

  datatype RawResult = RawResult(testId: string, raw: Raw)

  datatype Report = Report(target: string, environment: string, results: seq<RawResult>)

  datatype Status = Pass | Fail | SkipUnsupported | AsExpectedFail | UnexpectedPass | Missing

  datatype Cell = Cell(status: Status, detail: Option<string>)

  datatype Row = Row(target: string, environment: string)

  type Key = (string, string, string)

  datatype Grid = Grid(rows: seq<Row>, tests: seq<string>, cells: map<Key, Cell>)

  predicate IsFailure(status: Status) { status.Fail? || status.UnexpectedPass? }

  // ----- policy -----

  predicate ScopeApplies(environments: Option<seq<string>>, environment: string) {
    environments.Some? ==> environment in environments.value
  }

  /** The last of the entries that match, one with a scope before one without. */
  function Strongest<T>(entries: seq<T>, matches: T -> bool, scoped: T -> bool): Option<T> {
    if entries == [] then None
    else
      var best, last := Strongest(entries[..|entries| - 1], matches, scoped), entries[|entries| - 1];
      if matches(last) && (best.None? || scoped(last) || !scoped(best.value)) then Some(last) else best
  }

  /** Entry `i` matches, and every other that does is unscoped where `i` is scoped, or no more scoped and earlier. */
  ghost predicate Wins<T(!new)>(entries: seq<T>, matches: T -> bool, scoped: T -> bool, i: nat)
    requires i < |entries|
  {
    && matches(entries[i])
    && forall j :: 0 <= j < |entries| && j != i && matches(entries[j]) ==>
         (scoped(entries[i]) && !scoped(entries[j])) || (scoped(entries[i]) == scoped(entries[j]) && j < i)
  }

  lemma {:induction false} StrongestWins<T(!new)>(entries: seq<T>, matches: T -> bool, scoped: T -> bool)
    ensures var best := Strongest(entries, matches, scoped);
      && (best.None? <==> forall i :: 0 <= i < |entries| ==> !matches(entries[i]))
      && (best.Some? ==>
            exists i :: 0 <= i < |entries| && best.value == entries[i] && Wins(entries, matches, scoped, i))
  {
    if entries != [] {
      var n := |entries| - 1;
      var init := entries[..n];
      StrongestWins(init, matches, scoped);
      var before := Strongest(init, matches, scoped);
      if before.Some? {
        var i :| 0 <= i < n && before.value == init[i] && Wins(init, matches, scoped, i);
        assert entries[i] == init[i];
        if matches(entries[n]) && (scoped(entries[n]) || !scoped(before.value)) {
          assert forall j :: 0 <= j < n ==> entries[j] == init[j];
          assert Wins(entries, matches, scoped, n);
        } else {
          assert Wins(entries, matches, scoped, i);
        }
      } else if matches(entries[n]) {
        assert forall j :: 0 <= j < n ==> entries[j] == init[j];
        assert Wins(entries, matches, scoped, n);
      }
    }
  }

  predicate Blocks(u: Unsupported, tags: seq<string>, environment: string) {
    ScopeApplies(u.environments, environment) && u.tag in tags
  }

  predicate Excuses(e: ExpectedFail, testId: string, environment: string) {
    ScopeApplies(e.environments, environment) && e.test == testId
  }

  function IsUnsupported(m: Manifest, tags: seq<string>, environment: string): Option<Unsupported> {
    Strongest(m.unsupported, (u: Unsupported) => Blocks(u, tags, environment), (u: Unsupported) => u.environments.Some?)
  }

  function ExpectedFailOf(m: Manifest, testId: string, environment: string): Option<ExpectedFail> {
    Strongest(m.expectedFail, (e: ExpectedFail) => Excuses(e, testId, environment),
              (e: ExpectedFail) => e.environments.Some?)
  }

  function Message(tracking: string): string {
    "expected-fail passed (tracking " + tracking + "); update the manifest"
  }

  function ClassifyOne(m: Manifest, environment: string, test: TestEntry, raw: Option<Raw>): Cell {
    var unsupported := IsUnsupported(m, test.tags, environment);
    if unsupported.Some? then Cell(SkipUnsupported, Some(unsupported.value.reason))
    else
      var expected := ExpectedFailOf(m, test.id, environment);
      match raw
      case None => Cell(Missing, None)
      case Some(Raw(RawSkip, detail)) => Cell(SkipUnsupported, detail)
      case Some(Raw(RawPass, detail)) =>
        if expected.Some? then Cell(UnexpectedPass, Some(Message(expected.value.tracking))) else Cell(Pass, detail)
      case Some(Raw(RawFail, detail)) => Cell(if expected.Some? then AsExpectedFail else Fail, detail)
  }

  ghost predicate Blocked(m: Manifest, test: TestEntry, environment: string) {
    exists i :: 0 <= i < |m.unsupported| && Blocks(m.unsupported[i], test.tags, environment)
  }

  ghost predicate Excused(m: Manifest, test: TestEntry, environment: string) {
    exists i :: 0 <= i < |m.expectedFail| && Excuses(m.expectedFail[i], test.id, environment)
  }

  /** The policy: a supported test may not fail unless that is expected, and may not pass if failing is. */
  ghost predicate BreaksPolicy(m: Manifest, environment: string, test: TestEntry, raw: Option<Raw>) {
    && raw.Some? && !raw.value.status.RawSkip? && !Blocked(m, test, environment)
    && (raw.value.status.RawPass? <==> Excused(m, test, environment))
  }

  ghost predicate BlockedBy(m: Manifest, test: TestEntry, environment: string, i: nat)
    requires i < |m.unsupported|
  {
    Wins(m.unsupported, (u: Unsupported) => Blocks(u, test.tags, environment),
         (u: Unsupported) => u.environments.Some?, i)
  }

  ghost predicate ExcusedBy(m: Manifest, test: TestEntry, environment: string, i: nat)
    requires i < |m.expectedFail|
  {
    Wins(m.expectedFail, (e: ExpectedFail) => Excuses(e, test.id, environment),
         (e: ExpectedFail) => e.environments.Some?, i)
  }

  /** An unsupported entry decides before anything else; the one that wins gives the reason. */
  lemma UnsupportedWins(m: Manifest, environment: string, test: TestEntry, raw: Option<Raw>)
    ensures var cell := ClassifyOne(m, environment, test, raw);
      Blocked(m, test, environment) ==>
        exists i :: 0 <= i < |m.unsupported| && BlockedBy(m, test, environment, i)
                    && cell == Cell(SkipUnsupported, Some(m.unsupported[i].reason))
  {
    StrongestWins(m.unsupported, (u: Unsupported) => Blocks(u, test.tags, environment),
                  (u: Unsupported) => u.environments.Some?);
    if Blocked(m, test, environment) {
      var best := IsUnsupported(m, test.tags, environment);
      var i :| 0 <= i < |m.unsupported| && best.value == m.unsupported[i] && BlockedBy(m, test, environment, i);
    }
  }

  /** Where nothing blocks the test, the raw result and the expectation decide; the entry that wins is to be updated. */
  lemma ExpectationsDecide(m: Manifest, environment: string, test: TestEntry, raw: Option<Raw>)
    requires !Blocked(m, test, environment)
    ensures var cell := ClassifyOne(m, environment, test, raw); var excused := Excused(m, test, environment);
      && (raw.None? ==> cell == Cell(Missing, None))
      && (raw.Some? && raw.value.status.RawSkip? ==> cell == Cell(SkipUnsupported, raw.value.detail))
      && (raw.Some? && raw.value.status.RawFail? ==>
            cell == Cell(if excused then AsExpectedFail else Fail, raw.value.detail))
      && (raw.Some? && raw.value.status.RawPass? && !excused ==> cell == Cell(Pass, raw.value.detail))
      && (raw.Some? && raw.value.status.RawPass? && excused ==>
            exists i :: 0 <= i < |m.expectedFail| && ExcusedBy(m, test, environment, i)
                        && cell == Cell(UnexpectedPass, Some(Message(m.expectedFail[i].tracking))))
  {
    StrongestWins(m.unsupported, (u: Unsupported) => Blocks(u, test.tags, environment),
                  (u: Unsupported) => u.environments.Some?);
    StrongestWins(m.expectedFail, (e: ExpectedFail) => Excuses(e, test.id, environment),
                  (e: ExpectedFail) => e.environments.Some?);
    if Excused(m, test, environment) {
      var best := ExpectedFailOf(m, test.id, environment);
      var i :| 0 <= i < |m.expectedFail| && best.value == m.expectedFail[i] && ExcusedBy(m, test, environment, i);
    }
  }

  lemma ClassifyFollowsPolicy(m: Manifest, environment: string, test: TestEntry, raw: Option<Raw>)
    ensures IsFailure(ClassifyOne(m, environment, test, raw).status) <==> BreaksPolicy(m, environment, test, raw)
  {
    if Blocked(m, test, environment) {
      UnsupportedWins(m, environment, test, raw);
    } else {
      ExpectationsDecide(m, environment, test, raw);
    }
  }

  // ----- validation -----

  ghost predicate Empty(environments: Option<seq<string>>) { environments == Some([]) }

  method Validate(m: Manifest) returns (ok: bool)
    ensures ok <==>
            && (forall i :: 0 <= i < |m.unsupported| ==> !Empty(m.unsupported[i].environments))
            && (forall i :: 0 <= i < |m.expectedFail| ==> !Empty(m.expectedFail[i].environments))
  {
    for i := 0 to |m.unsupported|
      invariant forall k :: 0 <= k < i ==> !Empty(m.unsupported[k].environments)
    {
      if m.unsupported[i].environments == Some([]) {
        assert Empty(m.unsupported[i].environments);
        return false;
      }
    }
    for i := 0 to |m.expectedFail|
      invariant forall k :: 0 <= k < i ==> !Empty(m.expectedFail[k].environments)
    {
      if m.expectedFail[i].environments == Some([]) {
        assert Empty(m.expectedFail[i].environments);
        return false;
      }
    }
    ok := true;
  }

  ghost predicate UniqueTests(tests: seq<TestEntry>) {
    forall i, j :: 0 <= i < j < |tests| ==> tests[i].id != tests[j].id
  }

  ghost predicate UniqueTargets(manifests: seq<Manifest>) {
    forall i, j :: 0 <= i < j < |manifests| ==> manifests[i].id != manifests[j].id
  }

  method ValidateRegistry(tests: seq<TestEntry>) returns (ok: bool)
    ensures ok <==> UniqueTests(tests) && forall i :: 0 <= i < |tests| ==> tests[i].id != ""
  {
    var seen: set<string> := {};
    for i := 0 to |tests|
      invariant UniqueTests(tests[..i])
      invariant forall k :: 0 <= k < i ==> tests[k].id != ""
      invariant forall id :: id in seen <==> exists k :: 0 <= k < i && tests[k].id == id
    {
      if tests[i].id == "" || tests[i].id in seen {
        return false;
      }
      seen := seen + {tests[i].id};
    }
    assert tests[..|tests|] == tests;
    ok := true;
  }

  // ----- grouping reports by environment -----

  /** The order of strings, which is that of their UTF-8 bytes. */
  predicate Less(a: string, b: string) {
    if b == [] then false
    else if a == [] then true
    else if a[0] != b[0] then a[0] < b[0]
    else Less(a[1..], b[1..])
  }

  lemma {:induction false} LessTransitive(a: string, b: string, c: string)
    requires Less(a, b) && Less(b, c)
    ensures Less(a, c)
  {
    if a != [] && a[0] == b[0] == c[0] {
      LessTransitive(a[1..], b[1..], c[1..]);
    }
  }

  lemma {:induction false} LessTotal(a: string, b: string)
    ensures a == b || Less(a, b) || Less(b, a)
  {
    if a != [] && b != [] && a[0] == b[0] {
      LessTotal(a[1..], b[1..]);
      assert a == [a[0]] + a[1..] && b == [b[0]] + b[1..];
    }
  }

  lemma {:induction false} LessIrreflexive(a: string)
    ensures !Less(a, a)
  {
    if a != [] {
      LessIrreflexive(a[1..]);
    }
  }

  ghost predicate Sorted(keys: seq<string>) { forall i, j :: 0 <= i < j < |keys| ==> Less(keys[i], keys[j]) }

  function Insert(keys: seq<string>, key: string): seq<string> {
    if keys == [] then [key]
    else if keys[0] == key then keys
    else if Less(key, keys[0]) then [key] + keys
    else [keys[0]] + Insert(keys[1..], key)
  }

  lemma {:induction false} InsertInserts(keys: seq<string>, key: string)
    ensures forall k :: k in Insert(keys, key) <==> k in keys || k == key
  {
    if keys != [] && keys[0] != key && !Less(key, keys[0]) {
      InsertInserts(keys[1..], key);
      assert keys == [keys[0]] + keys[1..];
    }
  }

  lemma {:induction false} InsertSorts(keys: seq<string>, key: string)
    requires Sorted(keys)
    ensures Sorted(Insert(keys, key))
  {
    if keys == [] || keys[0] == key {
    } else if Less(key, keys[0]) {
      forall i | 0 <= i < |keys|
        ensures Less(key, keys[i])
      {
        if 0 < i {
          LessTransitive(key, keys[0], keys[i]);
        }
      }
    } else {
      LessTotal(key, keys[0]);
      var rest := Insert(keys[1..], key);
      InsertSorts(keys[1..], key);
      InsertInserts(keys[1..], key);
      forall i | 0 <= i < |rest|
        ensures Less(keys[0], rest[i])
      {
        assert rest[i] in keys[1..] || rest[i] == key;
      }
    }
  }

  type Results = map<string, Raw>

  function AddResults(raw: Results, results: seq<RawResult>): Results {
    if results == [] then raw
    else
      var last := results[|results| - 1];
      AddResults(raw, results[..|results| - 1])[last.testId := last.raw]
  }

  /** A target's results by environment: later reports add to, and replace, earlier ones. */
  function Group(reports: seq<Report>, target: string): map<string, Results> {
    if reports == [] then map[]
    else
      var groups, last := Group(reports[..|reports| - 1], target), reports[|reports| - 1];
      if last.target != target then groups
      else
        groups[last.environment :=
          AddResults(if last.environment in groups then groups[last.environment] else map[], last.results)]
  }

  function Environments(reports: seq<Report>, target: string): seq<string> {
    if reports == [] then []
    else
      var keys, last := Environments(reports[..|reports| - 1], target), reports[|reports| - 1];
      if last.target != target then keys else Insert(keys, last.environment)
  }

  ghost predicate Reported(reports: seq<Report>, target: string, environment: string) {
    exists i :: 0 <= i < |reports| && reports[i].target == target && reports[i].environment == environment
  }

  /** The environments are those reported, each once, in order. */
  lemma {:induction false} EnvironmentsAreTheReported(reports: seq<Report>, target: string)
    ensures Sorted(Environments(reports, target))
    ensures forall e :: e in Environments(reports, target) <==> Reported(reports, target, e)
    ensures forall e :: e in Environments(reports, target) <==> e in Group(reports, target)
  {
    if reports != [] {
      var n := |reports| - 1;
      var init := reports[..n];
      EnvironmentsAreTheReported(init, target);
      InsertSorts(Environments(init, target), reports[n].environment);
      InsertInserts(Environments(init, target), reports[n].environment);
      forall e
        ensures Reported(reports, target, e) <==>
                Reported(init, target, e) || (reports[n].target == target && reports[n].environment == e)
      {
        assert forall i :: 0 <= i < n ==> reports[i] == init[i];
        if Reported(init, target, e) {
          var i :| 0 <= i < n && init[i].target == target && init[i].environment == e;
          assert reports[i].target == target;
        }
      }
    }
  }

  /** The last result for a test within a report. */
  function LastIn(results: seq<RawResult>, testId: string): Option<Raw> {
    if results == [] then None
    else if results[|results| - 1].testId == testId then Some(results[|results| - 1].raw)
    else LastIn(results[..|results| - 1], testId)
  }

  /** The result last reported for a test on a target in an environment. */
  function LastReported(reports: seq<Report>, target: string, environment: string, testId: string): Option<Raw> {
    if reports == [] then None
    else
      var last := reports[|reports| - 1];
      var matches := last.target == target && last.environment == environment;
      var here := if matches then LastIn(last.results, testId) else None;
      if here.Some? then here else LastReported(reports[..|reports| - 1], target, environment, testId)
  }

  function Get(raw: Results, testId: string): Option<Raw> { if testId in raw then Some(raw[testId]) else None }

  function ResultsOf(groups: map<string, Results>, environment: string): Results {
    if environment in groups then groups[environment] else map[]
  }

  lemma {:induction false} AddedResults(raw: Results, results: seq<RawResult>, testId: string)
    ensures Get(AddResults(raw, results), testId) ==
            if LastIn(results, testId).Some? then LastIn(results, testId) else Get(raw, testId)
  {
    if results != [] {
      AddedResults(raw, results[..|results| - 1], testId);
    }
  }

  lemma {:induction false} GroupHoldsTheLast(reports: seq<Report>, target: string, environment: string, testId: string)
    ensures Get(ResultsOf(Group(reports, target), environment), testId)
         == LastReported(reports, target, environment, testId)
  {
    if reports != [] {
      var init, last := reports[..|reports| - 1], reports[|reports| - 1];
      GroupHoldsTheLast(init, target, environment, testId);
      if last.target == target && last.environment == environment {
        AddedResults(ResultsOf(Group(init, target), environment), last.results, testId);
      }
    }
  }

  method GroupByEnvironment(reports: seq<Report>, target: string)
    returns (keys: seq<string>, groups: map<string, Results>)
    ensures keys == Environments(reports, target) && groups == Group(reports, target)
  {
    keys, groups := [], map[];
    for i := 0 to |reports|
      invariant keys == Environments(reports[..i], target) && groups == Group(reports[..i], target)
    {
      assert reports[..i + 1][..i] == reports[..i];
      var report := reports[i];
      if report.target == target {
        var raw: Results := ResultsOf(groups, report.environment);
        ghost var before := raw;
        for j := 0 to |report.results|
          invariant raw == AddResults(before, report.results[..j])
        {
          assert report.results[..j + 1][..j] == report.results[..j];
          raw := raw[report.results[j].testId := report.results[j].raw];
        }
        assert report.results[..|report.results|] == report.results;
        keys, groups := Insert(keys, report.environment), groups[report.environment := raw];
      }
    }
    assert reports[..|reports|] == reports;
  }
}
