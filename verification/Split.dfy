/**
 The leakage-safe split of a dataset and the checks a model bundle's split has to pass.

 The rounded shares of a pool and the SHA-256 of a canonical payload are parameters: any shares
 that fit the pool, any hash. Times are microseconds.
 */
module Split {
  import opened Sequences
  import opened Tables

  datatype FeatureName = ProcessCount | NewProcessCount | NetworkConnectionCount | NewRemoteCount | AvgCpuPercent
                       | MaxCpuPercent | AvgRamPercent | MaxRamPercent | AuthSuccessCount | AuthFailureCount | HourOfDay
                       | ActivityDensity

  const FEATURE_NAMES := [
    ProcessCount, NewProcessCount, NetworkConnectionCount, NewRemoteCount, AvgCpuPercent, MaxCpuPercent, AvgRamPercent,
    MaxRamPercent, AuthSuccessCount, AuthFailureCount, HourOfDay, ActivityDensity]

  datatype SchemaVersion = FeatureWindowsV2 | OtherSchema(text: string)

  /** The dataset kind as a manifest spells it. */
  datatype ManifestKind = Known(kind: DatasetKind) | OtherKind(text: string)

  datatype Strategy = ScenarioBoundary7030 | GoodOnly701515

  datatype PartName = Train | Calibration | Test

  datatype DatasetManifest = DatasetManifest(
    datasetId: string, datasetKind: ManifestKind, user: string, host: string, schema: SchemaVersion,
    features: seq<FeatureName>, start: int)

  datatype SplitPart = SplitPart(name: PartName, ids: seq<string>, start: Option<int>, end: Option<int>, count: int)

  datatype Key = SplitPlanVersion | SplitStrategy | DatasetId | DatasetManifestSha256 | DatasetKindKey | ProfileKey
               | FeatureSchemaVersion | FeatureNames | TrainPart | CalibrationPart | TestPart | ScenarioWindowIds | SplitId
               | ManifestSha256

  /** One value of a manifest. */
  datatype Field = Text(text: string) | Texts(texts: seq<string>) | Kind(kind: ManifestKind) | Plan(strategy: Strategy)
                 | Profile(user: string, host: string) | Schema(schema: SchemaVersion) | Names(names: seq<FeatureName>)
                 | Part(part: SplitPart) | Version(version: nat)

  /** A manifest as canonical JSON sees it: values under keys, in no order. */
  type Manifest = map<Key, Field>

  /** The hash of a payload, and 70% and 15% of the pool at hand as they were rounded. */
  datatype Environment = Environment(sha: Manifest -> string, seventy: nat, fifteen: nat)

  datatype SplitError = FeatureMismatch | SchemaMismatch | NotChronological | DuplicateId | UnknownKind | NoScenarios
                      | NotFiveScenarios | TooFewWindows | Overlap | OrderLost

  datatype Result = Planned(split: SplitPlan) | Refused(error: SplitError)

  datatype SplitPlan = SplitPlan(
    splitId: string, strategy: Strategy, datasetId: string, datasetHash: string, datasetKind: ManifestKind, user: string,
    host: string,
    train: SplitPart, calibration: SplitPart, test: SplitPart, scenarioIds: seq<string>, manifestHash: string)

  // --- Rows --------------------------------------------------------------------------------

  function IdsOf(rows: seq<WindowRow>): (ids: seq<string>)
    ensures |ids| == |rows|
  {
    if rows == [] then [] else IdsOf(rows[..|rows| - 1]) + [rows[|rows| - 1].id]
  }

  lemma {:induction false} IdAt(rows: seq<WindowRow>, i: nat)
    requires i < |rows|
    ensures IdsOf(rows)[i] == rows[i].id
  {
    if i < |rows| - 1 {
      IdAt(rows[..|rows| - 1], i);
    }
  }

  lemma {:induction false} IdsConcat(a: seq<WindowRow>, b: seq<WindowRow>)
    ensures IdsOf(a + b) == IdsOf(a) + IdsOf(b)
  {
    if b == [] {
      assert a + b == a;
    } else {
      IdsConcat(a, b[..|b| - 1]);
      assert (a + b)[..|a + b| - 1] == a + b[..|b| - 1];
    }
  }

  function IsGood(): WindowRow -> bool { (row: WindowRow) => row.quality == Good }

  function ScenarioStarts(start: int): set<int> {
    {start + 18 * HOUR, start + 19 * HOUR, start + 21 * HOUR + HOUR / 2, start + 22 * HOUR, start + 23 * HOUR}
  }

  function InScenario(start: int): WindowRow -> bool { (row: WindowRow) => row.start in ScenarioStarts(start) }

  /** The first row at or after a time, or the number of rows. */
  function Boundary(rows: seq<WindowRow>, t: int): (n: nat)
    ensures n <= |rows|
    ensures forall i :: 0 <= i < n ==> rows[i].start < t
    ensures n < |rows| ==> rows[n].start >= t
  {
    if rows == [] || rows[0].start >= t then 0 else Boundary(rows[1..], t) + 1
  }

  // --- Planning ----------------------------------------------------------------------------

  function PartOf(name: PartName, rows: seq<WindowRow>): SplitPart {
    SplitPart(name, IdsOf(rows), if rows == [] then None else Some(rows[0].start),
              if rows == [] then None else Some(rows[|rows| - 1].end), |rows|)
  }

  /** Everything a split says, without its own id and hash. */
  function Base(plan: SplitPlan): Manifest {
    map[SplitPlanVersion := Version(1), SplitStrategy := Plan(plan.strategy),
        DatasetId := Text(plan.datasetId), DatasetManifestSha256 := Text(plan.datasetHash),
        DatasetKindKey := Kind(plan.datasetKind), ProfileKey := Profile(plan.user, plan.host),
        FeatureSchemaVersion := Schema(FeatureWindowsV2), FeatureNames := Names(FEATURE_NAMES),
        TrainPart := Part(plan.train), CalibrationPart := Part(plan.calibration), TestPart := Part(plan.test),
        ScenarioWindowIds := Texts(plan.scenarioIds)]
  }

  function Short(hash: string): string { if |hash| > 16 then hash[..16] else hash }

  function BuildPlan(env: Environment, rows: seq<WindowRow>, m: DatasetManifest, datasetHash: string, strategy: Strategy,
                     train: seq<WindowRow>, calibration: seq<WindowRow>, test: seq<WindowRow>, scenarioIds: seq<string>): Result
  {
    var first, second, third := PartOf(Train, train), PartOf(Calibration, calibration), PartOf(Test, test);
    var all := first.ids + second.ids + third.ids;
    if !Unique(all) then Refused(Overlap)
    else if all != IdsOf(rows) then Refused(OrderLost)
    else
      var unsigned := SplitPlan("", strategy, m.datasetId, datasetHash, m.datasetKind, m.user, m.host, first, second, third,
                                scenarioIds, "");
      var hash := env.sha(Base(unsigned));
      Planned(unsigned.(splitId := "split-" + Short(hash), manifestHash := hash))
  }

  /** Where to cut which rows, or why not. */
  datatype Choice = NotChosen(error: SplitError)
                  | Chosen(rows: seq<WindowRow>, strategy: Strategy, a: nat, b: nat, scenarioIds: seq<string>)

  /** The three parts have to hold at least 32, 12 and 12 windows. */
  predicate TooFew(rows: seq<WindowRow>, a: nat, b: nat) { a < 32 || b - a < 12 || |rows| - b < 12 }

  function ChooseSynthetic(env: Environment, rows: seq<WindowRow>, m: DatasetManifest): (c: Choice)
    ensures c.Chosen? ==> !TooFew(c.rows, c.a, c.b)
  {
    var boundary := Boundary(rows, m.start + 18 * HOUR);
    var scenarioIds := IdsOf(Filter(rows[boundary..], InScenario(m.start)));
    if boundary == |rows| then NotChosen(NoScenarios)
    else if |scenarioIds| != 5 then NotChosen(NotFiveScenarios)
    else if TooFew(rows, env.seventy, boundary) then NotChosen(TooFewWindows)
    else Chosen(rows, ScenarioBoundary7030, env.seventy, boundary, scenarioIds)
  }

  function ChooseReal(env: Environment, good: seq<WindowRow>): (c: Choice)
    ensures c.Chosen? ==> !TooFew(c.rows, c.a, c.b)
  {
    if TooFew(good, env.seventy, env.seventy + env.fifteen) then NotChosen(TooFewWindows)
    else Chosen(good, GoodOnly701515, env.seventy, env.seventy + env.fifteen, [])
  }

  function SetOf(ids: seq<string>): set<string> { set id <- ids }

  /** As many different ids as there are ids. */
  predicate Unique(ids: seq<string>) { |SetOf(ids)| == |ids| }

  function Choose(env: Environment, rows: seq<WindowRow>, m: DatasetManifest): (c: Choice)
    ensures c.Chosen? ==> !TooFew(c.rows, c.a, c.b)
  {
    if m.features != FEATURE_NAMES then NotChosen(FeatureMismatch)
    else if m.schema != FeatureWindowsV2 then NotChosen(SchemaMismatch)
    else if IdsOf(SortBy(rows, RowLeq)) != IdsOf(rows) then NotChosen(NotChronological)
    else if !Unique(IdsOf(SortBy(rows, RowLeq))) then NotChosen(DuplicateId)
    else if m.datasetKind == Known(Synthetic) then ChooseSynthetic(env, SortBy(rows, RowLeq), m)
    else if m.datasetKind == Known(Real) then ChooseReal(env, Filter(SortBy(rows, RowLeq), IsGood()))
    else NotChosen(UnknownKind)
  }

  function CreateSplitPlan(env: Environment, rows: seq<WindowRow>, m: DatasetManifest, datasetHash: string): Result {
    match Choose(env, rows, m)
    case NotChosen(error) => Refused(error)
    case Chosen(used, strategy, a, b, scenarioIds) =>
      BuildPlan(env, used, m, datasetHash, strategy, used[..a], used[a..b], used[b..], scenarioIds)
  }

  // --- Verifying ---------------------------------------------------------------------------

  const UNSIGNED_FIELDS := {ManifestSha256, SplitId}

  function ToManifest(plan: SplitPlan): Manifest {
    Base(plan)[SplitId := Text(plan.splitId)][ManifestSha256 := Text(plan.manifestHash)]
  }

  /** The hash the verifier computes of a stored split. */
  function CanonicalHash(env: Environment, split: Manifest): string {
    env.sha(map k | k in split && k !in UNSIGNED_FIELDS :: split[k])
  }

  function AllIds(parts: seq<SplitPart>): seq<string> {
    if parts == [] then [] else AllIds(parts[..|parts| - 1]) + parts[|parts| - 1].ids
  }

  /** The count is that of the ids, and a part has a range exactly when it has ids. */
  predicate PartSound(p: SplitPart) {
    && p.count == |p.ids| && (p.ids != [] <==> p.start.Some? && p.end.Some?)
    && (p.ids != [] ==> p.start.value <= p.end.value)
  }

  predicate Follows(a: SplitPart, b: SplitPart) {
    a.end.Some? && b.start.Some? && a.end.value <= b.start.value
  }

  ghost predicate InSequence(parts: seq<SplitPart>) {
    && (forall i :: 0 <= i < |parts| ==> PartSound(parts[i]))
    && (forall i, j :: 0 <= i < j < |parts| && parts[i].ids != [] && parts[j].ids != [] ==> Follows(parts[i], parts[j]))
  }

  ghost predicate Accepted(parts: seq<SplitPart>) { InSequence(parts) && Unique(AllIds(parts)) }

  /** The parts seen so far are in order and the last one that has ids ends at the given time. */
  ghost predicate Ordered(parts: seq<SplitPart>, previousEnd: Option<int>) {
    && InSequence(parts)
    && (previousEnd.None? ==> forall p :: p in parts ==> p.ids == [])
    && (previousEnd.Some? ==> exists p :: p in parts && p.ids != [] && p.end == previousEnd)
    && (previousEnd.Some? ==> forall p :: p in parts && p.ids != [] ==> p.end.value <= previousEnd.value)
  }

  predicate FirstProblem(part: SplitPart, previousEnd: Option<int>) {
    !PartSound(part) || (part.ids != [] && previousEnd.Some? && part.start.value < previousEnd.value)
  }

  lemma OrderedStep(parts: seq<SplitPart>, part: SplitPart, previousEnd: Option<int>)
    requires Ordered(parts, previousEnd)
    ensures InSequence(parts + [part]) <==> !FirstProblem(part, previousEnd)
    ensures InSequence(parts + [part]) ==> Ordered(parts + [part], if part.ids != [] then part.end else previousEnd)
  {
    var more := parts + [part];
    if InSequence(more) {
      assert PartSound(more[|parts|]);
      if part.ids != [] && previousEnd.Some? {
        var p :| p in parts && p.ids != [] && p.end == previousEnd;
        var i :| 0 <= i < |parts| && parts[i] == p;
        assert Follows(more[i], more[|parts|]);
      }
      assert part in more && forall p :: p in parts ==> p in more;
    }
  }

  lemma PrefixInSequence(parts: seq<SplitPart>, n: nat)
    requires n <= |parts| && InSequence(parts)
    ensures InSequence(parts[..n])
  {
  }

  /** The verifier's loop over the parts: counts and ranges agree with the ids, the ranges of the
      parts that have ids follow one another, and no id occurs twice. */
  method PartsInOrder(parts: seq<SplitPart>) returns (ok: bool)
    ensures ok <==> Accepted(parts)
  {
    var ids: seq<string>, previousEnd: Option<int> := [], None;
    for n := 0 to |parts|
      invariant ids == AllIds(parts[..n]) && Ordered(parts[..n], previousEnd)
    {
      var part := parts[n];
      assert parts[..n + 1] == parts[..n] + [part];
      OrderedStep(parts[..n], part, previousEnd);
      if part.count != |part.ids| || (part.ids != []) != (part.start.Some? && part.end.Some?) {
        NotAccepted(parts, n + 1);
        return false;
      }
      if part.ids != [] {
        if part.end.value < part.start.value || (previousEnd.Some? && part.start.value < previousEnd.value) {
          NotAccepted(parts, n + 1);
          return false;
        }
        previousEnd := part.end;
      }
      assert parts[..n + 1][..n] == parts[..n];
      ids := ids + part.ids;
    }
    assert parts[..|parts|] == parts;
    ok := Unique(ids);
  }

  lemma NotAccepted(parts: seq<SplitPart>, n: nat)
    requires n <= |parts| && !InSequence(parts[..n])
    ensures !Accepted(parts)
  {
    if InSequence(parts) {
      PrefixInSequence(parts, n);
    }
  }

  // --- Every plan partitions its rows ------------------------------------------------------

  lemma {:induction false} UniqueIsDistinct(ids: seq<string>)
    ensures |SetOf(ids)| <= |ids| && (Unique(ids) <==> Distinct(ids))
  {
    if ids != [] {
      var init, last := ids[..|ids| - 1], ids[|ids| - 1];
      UniqueIsDistinct(init);
      assert ids == init + [last];
      assert SetOf(ids) == SetOf(init) + {last};
      if last in init {
        var i :| 0 <= i < |init| && init[i] == last;
        assert ids[i] == ids[|init|];
        assert SetOf(ids) == SetOf(init);
      } else {
        assert last !in SetOf(init);
      }
    }
  }

  lemma SortedRowsAreRows(rows: seq<WindowRow>)
    requires IdsOf(SortBy(rows, RowLeq)) == IdsOf(rows) && Unique(IdsOf(rows))
    ensures SortBy(rows, RowLeq) == rows
  {
    var sorted := SortBy(rows, RowLeq);
    SortByPermutes(rows, RowLeq);
    UniqueIsDistinct(IdsOf(rows));
    forall i | 0 <= i < |rows| ensures sorted[i] == rows[i] {
      IdAt(sorted, i);
      SamePlace(rows, sorted[i], i);
    }
  }

  lemma SamePlace(rows: seq<WindowRow>, row: WindowRow, i: nat)
    requires row in rows && i < |rows| && row.id == IdsOf(rows)[i] && Distinct(IdsOf(rows))
    ensures rows[i] == row
  {
    var j :| 0 <= j < |rows| && rows[j] == row;
    IdAt(rows, j);
    assert IdsOf(rows)[j] == IdsOf(rows)[i];
  }

  /** The rows a plan is made of: all of a synthetic dataset, the good ones of a real one. */
  function Used(rows: seq<WindowRow>, m: DatasetManifest): seq<WindowRow> {
    if m.datasetKind == Known(Synthetic) then rows else Filter(rows, IsGood())
  }

  /** Where test starts; calibration starts after 70% of the pool. */
  function SecondCut(env: Environment, rows: seq<WindowRow>, m: DatasetManifest): nat {
    if m.datasetKind == Known(Synthetic) then Boundary(rows, m.start + 18 * HOUR) else env.seventy + env.fifteen
  }

  /** The three parts of a sequence of rows cut at two places. */
  ghost predicate CutAt(plan: SplitPlan, rows: seq<WindowRow>, a: nat, b: nat) {
    && a <= b <= |rows| && a >= 32 && b - a >= 12 && |rows| - b >= 12
    && plan.train == PartOf(Train, rows[..a])
    && plan.calibration == PartOf(Calibration, rows[a..b])
    && plan.test == PartOf(Test, rows[b..])
  }

  lemma FilterUniqueIds(rows: seq<WindowRow>, p: WindowRow -> bool)
    requires Unique(IdsOf(rows))
    ensures Unique(IdsOf(Filter(rows, p)))
  {
    UniqueIsDistinct(IdsOf(rows));
    FilterDistinctIds(rows, p);
    UniqueIsDistinct(IdsOf(Filter(rows, p)));
  }

  lemma {:induction false} FilterDistinctIds(rows: seq<WindowRow>, p: WindowRow -> bool)
    requires Distinct(IdsOf(rows))
    ensures Distinct(IdsOf(Filter(rows, p)))
  {
    if rows != [] {
      var init, last := rows[..|rows| - 1], rows[|rows| - 1];
      assert forall i :: 0 <= i < |init| ==> IdsOf(init)[i] == IdsOf(rows)[i];
      FilterDistinctIds(init, p);
      FilterMembers(init, p);
      forall i | 0 <= i < |Filter(init, p)| ensures IdsOf(Filter(init, p))[i] != last.id {
        IdAt(Filter(init, p), i);
        var row := Filter(init, p)[i];
        assert row in Filter(init, p);
        var j :| 0 <= j < |init| && init[j] == row;
        IdAt(init, j);
        assert IdsOf(rows)[j] == IdsOf(init)[j] && IdsOf(rows)[|init|] == last.id;
      }
      if p(last) {
        assert IdsOf(Filter(rows, p)) == IdsOf(Filter(init, p)) + [last.id];
      }
    }
  }

  /** What is chosen: rows in order of time without repetition, cut after 70% of the pool and where
      the test windows start. */
  lemma ChosenRows(env: Environment, rows: seq<WindowRow>, m: DatasetManifest)
    requires Choose(env, rows, m).Chosen?
    ensures var c := Choose(env, rows, m);
            && c.rows == Used(rows, m) && c.a == env.seventy && c.b == SecondCut(env, rows, m)
            && Sorted(rows, RowLeq) && Unique(IdsOf(rows)) && Unique(IdsOf(c.rows))
            && (m.datasetKind == Known(Synthetic) ==>
                  |c.scenarioIds| == 5 && c.scenarioIds == IdsOf(Filter(rows[c.b..], InScenario(m.start))))
  {
    SortedRowsAreRows(rows);
    RowOrder();
    SortBySorted(rows, RowLeq);
    FilterUniqueIds(rows, IsGood());
  }

  lemma {:induction false} CutIds(rows: seq<WindowRow>, a: nat, b: nat)
    requires a <= b <= |rows|
    ensures IdsOf(rows[..a]) + IdsOf(rows[a..b]) + IdsOf(rows[b..]) == IdsOf(rows)
    ensures IdsOf(rows[..a]) + IdsOf(rows[a..b]) == IdsOf(rows[..b])
  {
    IdsConcat(rows[..a], rows[a..b]);
    IdsConcat(rows[..b], rows[b..]);
    assert rows[..a] + rows[a..b] == rows[..b] && rows[..b] + rows[b..] == rows;
  }

  predicate OfDataset(plan: SplitPlan, m: DatasetManifest, datasetHash: string) {
    && plan.datasetId == m.datasetId && plan.datasetHash == datasetHash && plan.datasetKind == m.datasetKind
    && plan.user == m.user && plan.host == m.host
  }

  lemma BuildShape(env: Environment, rows: seq<WindowRow>, m: DatasetManifest, datasetHash: string,
                   strategy: Strategy, a: nat, b: nat, scenarioIds: seq<string>)
    requires !TooFew(rows, a, b) && Unique(IdsOf(rows))
    ensures var r := BuildPlan(env, rows, m, datasetHash, strategy, rows[..a], rows[a..b], rows[b..], scenarioIds);
            && r.Planned? && CutAt(r.split, rows, a, b) && r.split.scenarioIds == scenarioIds
            && OfDataset(r.split, m, datasetHash)
  {
    CutIds(rows, a, b);
  }

  /** Every plan cuts its rows, which are in order of time and not repeated, into three consecutive
      parts of at least 32, 12 and 12 windows; the two guards that look for lost or shared windows
      never fire. */
  lemma PlanPartitions(env: Environment, rows: seq<WindowRow>, m: DatasetManifest, datasetHash: string)
    ensures var r := CreateSplitPlan(env, rows, m, datasetHash);
            && (r.Refused? ==> r.error != Overlap && r.error != OrderLost)
            && (r.Planned? ==>
                  && CutAt(r.split, Used(rows, m), env.seventy, SecondCut(env, rows, m))
                  && Unique(IdsOf(Used(rows, m))) && Sorted(rows, RowLeq))
  {
    var c := Choose(env, rows, m);
    if c.Chosen? {
      ChosenRows(env, rows, m);
      BuildShape(env, c.rows, m, datasetHash, c.strategy, c.a, c.b, c.scenarioIds);
    } else {
      NeverChosen(env, rows, m);
    }
  }

  lemma NeverChosen(env: Environment, rows: seq<WindowRow>, m: DatasetManifest)
    ensures var c := Choose(env, rows, m); c.NotChosen? ==> c.error != Overlap && c.error != OrderLost
  {
  }

  /** No window is lost, repeated or moved. */
  lemma PlanKeepsRows(env: Environment, rows: seq<WindowRow>, m: DatasetManifest, datasetHash: string)
    requires CreateSplitPlan(env, rows, m, datasetHash).Planned?
    ensures var plan := CreateSplitPlan(env, rows, m, datasetHash).split;
            plan.train.ids + plan.calibration.ids + plan.test.ids == IdsOf(Used(rows, m))
  {
    PlanPartitions(env, rows, m, datasetHash);
    CutIds(Used(rows, m), env.seventy, SecondCut(env, rows, m));
  }

  /** Every window used for fitting or calibration comes before every test window. */
  lemma TestComesLast(env: Environment, rows: seq<WindowRow>, m: DatasetManifest, datasetHash: string,
                      i: nat, j: nat)
    requires CreateSplitPlan(env, rows, m, datasetHash).Planned?
    requires i < SecondCut(env, rows, m) <= j < |Used(rows, m)|
    ensures RowLeq(Used(rows, m)[i], Used(rows, m)[j])
  {
    PlanPartitions(env, rows, m, datasetHash);
    FilterSorted(rows, IsGood(), RowLeq);
  }

  /** The five scenarios start 18, 19, 21 and a half, 22 and 23 hours after the dataset. */
  predicate StartsScenario(offset: int) {
    offset in {1080 * MINUTE, 1140 * MINUTE, 1290 * MINUTE, 1320 * MINUTE, 1380 * MINUTE}
  }

  /** No training or calibration window belongs to a scenario, and all five scenario windows are in
      the test part. */
  ghost predicate LeakFree(plan: SplitPlan, rows: seq<WindowRow>, m: DatasetManifest) {
    && |plan.scenarioIds| == 5
    && (forall row :: row in rows && StartsScenario(row.start - m.start) ==> row.id in plan.scenarioIds)
    && (forall id :: id in plan.scenarioIds ==> exists row :: row in rows && row.id == id && StartsScenario(row.start - m.start))
    && (forall id :: id in plan.scenarioIds ==> id in plan.test.ids)
    && (forall id :: id in plan.train.ids + plan.calibration.ids ==> id !in plan.scenarioIds)
  }

  lemma NoLeakage(env: Environment, rows: seq<WindowRow>, m: DatasetManifest, datasetHash: string)
    requires CreateSplitPlan(env, rows, m, datasetHash).Planned? && m.datasetKind == Known(Synthetic)
    ensures LeakFree(CreateSplitPlan(env, rows, m, datasetHash).split, rows, m)
  {
    ChosenRows(env, rows, m);
    PlanScenarios(env, rows, m, datasetHash);
    ScenariosApart(CreateSplitPlan(env, rows, m, datasetHash).split, rows, m, env.seventy, SecondCut(env, rows, m));
  }

  lemma PlanScenarios(env: Environment, rows: seq<WindowRow>, m: DatasetManifest, datasetHash: string)
    requires CreateSplitPlan(env, rows, m, datasetHash).Planned? && m.datasetKind == Known(Synthetic)
    ensures var plan, cut := CreateSplitPlan(env, rows, m, datasetHash).split, SecondCut(env, rows, m);
            && CutAt(plan, rows, env.seventy, cut)
            && |plan.scenarioIds| == 5 && plan.scenarioIds == IdsOf(Filter(rows[cut..], InScenario(m.start)))
  {
    var c := Choose(env, rows, m);
    ChosenRows(env, rows, m);
    BuildShape(env, c.rows, m, datasetHash, c.strategy, c.a, c.b, c.scenarioIds);
  }

  lemma ScenariosApart(plan: SplitPlan, rows: seq<WindowRow>, m: DatasetManifest, a: nat, cut: nat)
    requires CutAt(plan, rows, a, cut) && cut == Boundary(rows, m.start + 18 * HOUR) && Unique(IdsOf(rows))
    requires |plan.scenarioIds| == 5 && plan.scenarioIds == IdsOf(Filter(rows[cut..], InScenario(m.start)))
    ensures LeakFree(plan, rows, m)
  {
    ScenariosInTest(rows, m, cut);
    SplitIds(rows, cut);
    CutIds(rows, a, cut);
  }

  lemma {:induction false} SplitIds(rows: seq<WindowRow>, cut: nat)
    requires cut <= |rows| && Unique(IdsOf(rows))
    ensures forall id :: id in IdsOf(rows[..cut]) ==> id !in IdsOf(rows[cut..])
  {
    var all, front, back := IdsOf(rows), IdsOf(rows[..cut]), IdsOf(rows[cut..]);
    UniqueIsDistinct(all);
    CutIds(rows, cut, cut);
    assert rows[cut..cut] == [];
    assert all == front + back;
    forall i, j | 0 <= i < cut && 0 <= j < |rows| - cut ensures front[i] != back[j] {
      assert all[i] == front[i] && all[cut + j] == back[j];
    }
  }

  lemma ChosenScenarios(rows: seq<WindowRow>, m: DatasetManifest, cut: nat, row: WindowRow)
    requires cut == Boundary(rows, m.start + 18 * HOUR)
    ensures row in Filter(rows[cut..], InScenario(m.start)) <==> row in rows && StartsScenario(row.start - m.start)
    ensures row in Filter(rows[cut..], InScenario(m.start)) ==> row in rows[cut..]
  {
    FilterMembers(rows[cut..], InScenario(m.start));
    if row in rows && StartsScenario(row.start - m.start) {
      var i :| 0 <= i < |rows| && rows[i] == row;
      assert rows[cut..][i - cut] == row;
    }
  }

  lemma IdExactly(rows: seq<WindowRow>, id: string)
    ensures id in IdsOf(rows) <==> exists row :: row in rows && row.id == id
  {
    if id in IdsOf(rows) {
      var i :| 0 <= i < |rows| && IdsOf(rows)[i] == id;
      IdAt(rows, i);
      assert rows[i] in rows;
    }
    if row :| row in rows && row.id == id {
      IdOfRow(rows, row);
    }
  }

  lemma ScenariosInTest(rows: seq<WindowRow>, m: DatasetManifest, cut: nat)
    requires cut == Boundary(rows, m.start + 18 * HOUR)
    ensures var ids := IdsOf(Filter(rows[cut..], InScenario(m.start)));
            && (forall row :: row in rows && StartsScenario(row.start - m.start) ==> row.id in ids)
            && (forall id :: id in ids ==> exists row :: row in rows && row.id == id && StartsScenario(row.start - m.start))
            && (forall id :: id in ids ==> id in IdsOf(rows[cut..]))
  {
    var chosen := Filter(rows[cut..], InScenario(m.start));
    forall row ensures row in chosen <==> row in rows && StartsScenario(row.start - m.start)
               ensures row in chosen ==> row in rows[cut..] {
      ChosenScenarios(rows, m, cut, row);
    }
    forall id ensures id in IdsOf(chosen) <==> exists row :: row in chosen && row.id == id { IdExactly(chosen, id); }
    forall id | id in IdsOf(chosen) ensures id in IdsOf(rows[cut..]) { IdExactly(rows[cut..], id); }
  }

  lemma IdOfRow(rows: seq<WindowRow>, row: WindowRow)
    requires row in rows
    ensures row.id in IdsOf(rows)
  {
    var i :| 0 <= i < |rows| && rows[i] == row;
    IdAt(rows, i);
  }

  // --- A plan on the fields of its rows ----------------------------------------------------

  /** A part lists the ids of its rows and spans them. */
  ghost predicate IsPartOf(part: SplitPart, name: PartName, rows: seq<WindowRow>) {
    && part.name == name && part.count == |part.ids| == |rows| && rows != []
    && (forall i :: 0 <= i < |rows| ==> part.ids[i] == rows[i].id)
    && part.start == Some(rows[0].start) && part.end == Some(rows[|rows| - 1].end)
  }

  lemma PartOnFields(name: PartName, rows: seq<WindowRow>)
    requires rows != []
    ensures IsPartOf(PartOf(name, rows), name, rows)
  {
    forall i | 0 <= i < |rows| ensures IdsOf(rows)[i] == rows[i].id { IdAt(rows, i); }
  }

  /** The rows that a plan uses: of a real dataset only the good ones. */
  ghost predicate Uses(row: WindowRow, m: DatasetManifest) {
    m.datasetKind == Known(Real) ==> row.quality == Good
  }

  lemma UsedOnFields(rows: seq<WindowRow>, m: DatasetManifest)
    requires m.datasetKind in {Known(Synthetic), Known(Real)}
    ensures forall row :: row in Used(rows, m) <==> row in rows && Uses(row, m)
  {
    FilterMembers(rows, IsGood());
  }

  /** A plan's parts are consecutive stretches of the used rows: training takes the rounded 70%, calibration of
      synthetic data ends where the first scenario starts, that of real data after the rounded 15%. */
  lemma PlanOnFields(env: Environment, rows: seq<WindowRow>, m: DatasetManifest, datasetHash: string)
    requires CreateSplitPlan(env, rows, m, datasetHash).Planned?
    ensures var plan, used, a, b :=
              CreateSplitPlan(env, rows, m, datasetHash).split, Used(rows, m), env.seventy, SecondCut(env, rows, m);
            && 32 <= a && a + 12 <= b && b + 12 <= |used|
            && IsPartOf(plan.train, Train, used[..a]) && IsPartOf(plan.calibration, Calibration, used[a..b])
            && IsPartOf(plan.test, Test, used[b..])
            && (forall row :: row in used <==> row in rows && Uses(row, m))
            && (if m.datasetKind == Known(Synthetic)
                then plan.strategy == ScenarioBoundary7030
                     && (forall i :: 0 <= i < |used| ==> (i < b <==> used[i].start < m.start + 1080 * MINUTE))
                else plan.strategy == GoodOnly701515 && plan.scenarioIds == [] && b == env.seventy + env.fifteen)
  {
    var used, a, b := Used(rows, m), env.seventy, SecondCut(env, rows, m);
    PlanPartitions(env, rows, m, datasetHash);
    PartOnFields(Train, used[..a]);
    PartOnFields(Calibration, used[a..b]);
    PartOnFields(Test, used[b..]);
    PlanKind(env, rows, m, datasetHash);
    UsedOnFields(rows, m);
    if m.datasetKind == Known(Synthetic) {
      BoundaryExactly(rows, m.start + 18 * HOUR);
    }
  }

  lemma PlanKind(env: Environment, rows: seq<WindowRow>, m: DatasetManifest, datasetHash: string)
    requires CreateSplitPlan(env, rows, m, datasetHash).Planned?
    ensures m.datasetKind in {Known(Synthetic), Known(Real)}
    ensures var plan := CreateSplitPlan(env, rows, m, datasetHash).split;
            if m.datasetKind == Known(Synthetic) then plan.strategy == ScenarioBoundary7030
            else plan.strategy == GoodOnly701515 && plan.scenarioIds == []
  {
  }

  lemma BoundaryExactly(rows: seq<WindowRow>, t: int)
    requires Sorted(rows, RowLeq)
    ensures forall i :: 0 <= i < |rows| ==> (i < Boundary(rows, t) <==> rows[i].start < t)
  {
    var n := Boundary(rows, t);
    forall i | n < i < |rows| ensures rows[i].start >= t {
      assert RowLeq(rows[n], rows[i]);
    }
  }

  /** How many rows, all told, start a scenario. */
  function ScenarioRow(start: int): WindowRow -> bool { (row: WindowRow) => StartsScenario(row.start - start) }

  function BeforeScenarios(start: int): WindowRow -> bool {
    (row: WindowRow) => row.start < start + 1080 * MINUTE
  }

  /** Enough windows for each part. */
  predicate Enough(train: int, calibration: int, test: int) { train >= 32 && calibration >= 12 && test >= 12 }

  /** A dataset is split exactly when it has the known features and schema and its rows are in order with distinct
      ids, and there is enough of it: for synthetic data five scenario windows and enough windows before and
      after the first one, for real data enough good windows. */
  lemma PlannedExactly(env: Environment, rows: seq<WindowRow>, m: DatasetManifest, datasetHash: string)
    ensures CreateSplitPlan(env, rows, m, datasetHash).Planned? <==>
            && m.features == FEATURE_NAMES && m.schema == FeatureWindowsV2
            && Sorted(rows, RowLeq) && Distinct(IdsOf(rows))
            && (if m.datasetKind == Known(Synthetic) then EnoughSynthetic(env, rows, m)
                else m.datasetKind == Known(Real) && EnoughReal(env, rows))
  {
    PlannedWhenChosen(env, rows, m, datasetHash);
    UniqueIsDistinct(IdsOf(rows));
    if Choose(env, rows, m).Chosen? {
      ChosenRows(env, rows, m);
    }
    if Sorted(rows, RowLeq) {
      SortByIdentity(rows, RowLeq);
      SyntheticExactly(env, rows, m);
    }
  }

  /** Five scenario windows, and enough windows before and after the first of them could start. */
  ghost predicate EnoughSynthetic(env: Environment, rows: seq<WindowRow>, m: DatasetManifest) {
    var normal := |Filter(rows, BeforeScenarios(m.start))|;
    && |Filter(rows, ScenarioRow(m.start))| == 5
    && Enough(env.seventy, normal - env.seventy, |rows| - normal)
  }

  ghost predicate EnoughReal(env: Environment, rows: seq<WindowRow>) {
    Enough(env.seventy, env.fifteen, |Filter(rows, IsGood())| - env.seventy - env.fifteen)
  }

  lemma PlannedWhenChosen(env: Environment, rows: seq<WindowRow>, m: DatasetManifest, datasetHash: string)
    ensures CreateSplitPlan(env, rows, m, datasetHash).Planned? <==> Choose(env, rows, m).Chosen?
  {
    var c := Choose(env, rows, m);
    if c.Chosen? {
      ChosenRows(env, rows, m);
      BuildShape(env, c.rows, m, datasetHash, c.strategy, c.a, c.b, c.scenarioIds);
    }
  }

  lemma SyntheticExactly(env: Environment, rows: seq<WindowRow>, m: DatasetManifest)
    requires Sorted(rows, RowLeq)
    ensures ChooseSynthetic(env, rows, m).Chosen? <==> EnoughSynthetic(env, rows, m)
  {
    BeforeCount(rows, m.start);
    ScenarioCount(rows, m.start);
  }

  lemma BeforeCount(rows: seq<WindowRow>, start: int)
    requires Sorted(rows, RowLeq)
    ensures |Filter(rows, BeforeScenarios(start))| == Boundary(rows, start + 18 * HOUR)
  {
    var n := Boundary(rows, start + 18 * HOUR);
    BoundaryExactly(rows, start + 18 * HOUR);
    CutCount(rows, n, BeforeScenarios(start));
  }

  /** A condition that holds of the first rows and of no later one. */
  lemma CutCount(rows: seq<WindowRow>, n: nat, p: WindowRow -> bool)
    requires n <= |rows| && forall i :: 0 <= i < |rows| ==> (i < n <==> p(rows[i]))
    ensures |Filter(rows, p)| == n
  {
    assert rows == rows[..n] + rows[n..];
    FilterConcat(rows[..n], rows[n..], p);
    FilterAll(rows[..n], p);
    FilterNone(rows[n..], p);
  }

  lemma ScenarioCount(rows: seq<WindowRow>, start: int)
    requires Sorted(rows, RowLeq)
    ensures |IdsOf(Filter(rows[Boundary(rows, start + 18 * HOUR)..], InScenario(start)))|
         == |Filter(rows, ScenarioRow(start))|
  {
    AfterCut(rows, Boundary(rows, start + 18 * HOUR), ScenarioRow(start), InScenario(start));
  }

  /** A condition that holds of no row before a cut, said in another way behind it. */
  lemma AfterCut(rows: seq<WindowRow>, n: nat, p: WindowRow -> bool, q: WindowRow -> bool)
    requires n <= |rows| && (forall i :: 0 <= i < n ==> !p(rows[i])) && forall row :: p(row) <==> q(row)
    ensures |Filter(rows, p)| == |Filter(rows[n..], q)|
  {
    assert rows == rows[..n] + rows[n..];
    FilterConcat(rows[..n], rows[n..], p);
    FilterNone(rows[..n], p);
    FilterAgree(rows[n..], p, q);
  }

  // --- Every plan passes the verifier ------------------------------------------------------

  /** Signing a split and reading it back gives the same hash: the verifier's canonical hash leaves
      out exactly what the planner had not written yet. */
  lemma HashVerifies(env: Environment, rows: seq<WindowRow>, m: DatasetManifest, datasetHash: string)
    requires CreateSplitPlan(env, rows, m, datasetHash).Planned?
    ensures var plan := CreateSplitPlan(env, rows, m, datasetHash).split;
            && CanonicalHash(env, ToManifest(plan)) == plan.manifestHash
            && (|plan.manifestHash| >= 16 ==> plan.splitId == "split-" + plan.manifestHash[..16])
  {
    var plan := CreateSplitPlan(env, rows, m, datasetHash).split;
    UnsignedPart(plan);
    assert plan.manifestHash == env.sha(Base(plan.(splitId := "", manifestHash := "")));
  }

  /** Dropping the signature from a written split leaves the payload that was signed. */
  lemma UnsignedPart(plan: SplitPlan)
    ensures (map k | k in ToManifest(plan) && k !in UNSIGNED_FIELDS :: ToManifest(plan)[k]) == Base(plan)
  {
    assert SplitId !in Base(plan) && ManifestSha256 !in Base(plan);
  }

  /** The signed payload covers everything a split says but its own id and hash. */
  lemma SignsEverything(p: SplitPlan, q: SplitPlan)
    ensures Base(p) == Base(q) <==> p == q.(splitId := p.splitId, manifestHash := p.manifestHash)
  {
    if Base(p) == Base(q) {
      assert Base(p)[SplitStrategy] == Base(q)[SplitStrategy] && Base(p)[DatasetId] == Base(q)[DatasetId];
      assert Base(p)[DatasetManifestSha256] == Base(q)[DatasetManifestSha256];
      assert Base(p)[DatasetKindKey] == Base(q)[DatasetKindKey] && Base(p)[ProfileKey] == Base(q)[ProfileKey];
      assert Base(p)[TrainPart] == Base(q)[TrainPart] && Base(p)[CalibrationPart] == Base(q)[CalibrationPart];
      assert Base(p)[TestPart] == Base(q)[TestPart] && Base(p)[ScenarioWindowIds] == Base(q)[ScenarioWindowIds];
    }
  }

  /** The fields of a stored split that have to agree with its dataset. */
  predicate FieldsAgree(split: Manifest, m: DatasetManifest, datasetHash: string) {
    && Has(split, DatasetId, Text(m.datasetId)) && Has(split, DatasetManifestSha256, Text(datasetHash))
    && Has(split, DatasetKindKey, Kind(m.datasetKind)) && Has(split, ProfileKey, Profile(m.user, m.host))
    && Has(split, FeatureSchemaVersion, Schema(m.schema)) && Has(split, FeatureNames, Names(m.features))
  }

  predicate Has(split: Manifest, key: Key, field: Field) { key in split && split[key] == field }

  lemma ManifestFields(plan: SplitPlan, m: DatasetManifest, datasetHash: string)
    requires OfDataset(plan, m, datasetHash) && m.schema == FeatureWindowsV2 && m.features == FEATURE_NAMES
    ensures FieldsAgree(ToManifest(plan), m, datasetHash)
  {
    var base := Base(plan);
    assert Has(base, DatasetId, Text(m.datasetId)) && Has(base, ProfileKey, Profile(m.user, m.host));
  }

  /** Every plan agrees with its dataset on id, hash, kind, profile, schema and feature names. */
  lemma FieldsVerify(env: Environment, rows: seq<WindowRow>, m: DatasetManifest, datasetHash: string)
    requires CreateSplitPlan(env, rows, m, datasetHash).Planned?
    ensures FieldsAgree(ToManifest(CreateSplitPlan(env, rows, m, datasetHash).split), m, datasetHash)
  {
    PlanOfDataset(env, rows, m, datasetHash);
    ManifestFields(CreateSplitPlan(env, rows, m, datasetHash).split, m, datasetHash);
  }

  lemma PlanOfDataset(env: Environment, rows: seq<WindowRow>, m: DatasetManifest, datasetHash: string)
    requires CreateSplitPlan(env, rows, m, datasetHash).Planned?
    ensures OfDataset(CreateSplitPlan(env, rows, m, datasetHash).split, m, datasetHash)
    ensures m.schema == FeatureWindowsV2 && m.features == FEATURE_NAMES
  {
    var c := Choose(env, rows, m);
    ChosenRows(env, rows, m);
    BuildShape(env, c.rows, m, datasetHash, c.strategy, c.a, c.b, c.scenarioIds);
  }

  /** The windows at the two cuts do not overlap and no part ends before it starts. */
  predicate CutsClear(rows: seq<WindowRow>, a: nat, b: nat)
    requires 0 < a < b < |rows|
  {
    && rows[0].start <= rows[a - 1].end <= rows[a].start
    && rows[a].start <= rows[b - 1].end <= rows[b].start
    && rows[b].start <= rows[|rows| - 1].end
  }

  lemma ThreeParts(p: SplitPart, q: SplitPart, r: SplitPart)
    requires p.ids != [] && q.ids != [] && r.ids != [] && Unique(p.ids + q.ids + r.ids)
    ensures Accepted([p, q, r]) <==> PartSound(p) && PartSound(q) && PartSound(r) && Follows(p, q) && Follows(q, r)
  {
    var parts := [p, q, r];
    assert parts[..2] == [p, q] && [p, q][..1] == [p] && [p][..0] == [];
    assert AllIds([p]) == p.ids && AllIds([p, q]) == p.ids + q.ids;
    assert AllIds(parts) == p.ids + q.ids + r.ids;
    if Accepted(parts) {
      assert PartSound(parts[0]) && PartSound(parts[1]) && PartSound(parts[2]);
      assert Follows(parts[0], parts[1]) && Follows(parts[1], parts[2]);
    }
  }

  lemma PartEdges(part: SplitPart, name: PartName, rows: seq<WindowRow>)
    requires part == PartOf(name, rows) && rows != []
    ensures part.start == Some(rows[0].start) && part.end == Some(rows[|rows| - 1].end) && part.count == |part.ids| > 0
  {
  }

  lemma PartsAccepted(plan: SplitPlan, rows: seq<WindowRow>, a: nat, b: nat)
    requires CutAt(plan, rows, a, b) && Unique(IdsOf(rows))
    ensures Accepted([plan.train, plan.calibration, plan.test]) <==> CutsClear(rows, a, b)
  {
    CutIds(rows, a, b);
    PartEdges(plan.train, Train, rows[..a]);
    PartEdges(plan.calibration, Calibration, rows[a..b]);
    PartEdges(plan.test, Test, rows[b..]);
    ThreeParts(plan.train, plan.calibration, plan.test);
  }

  /** The verifier accepts a plan exactly when the windows at its cuts do not overlap. */
  lemma VerifierAgrees(env: Environment, rows: seq<WindowRow>, m: DatasetManifest, datasetHash: string)
    requires CreateSplitPlan(env, rows, m, datasetHash).Planned?
    ensures var plan := CreateSplitPlan(env, rows, m, datasetHash).split;
            && 0 < env.seventy < SecondCut(env, rows, m) < |Used(rows, m)|
            && (Accepted([plan.train, plan.calibration, plan.test])
                <==> CutsClear(Used(rows, m), env.seventy, SecondCut(env, rows, m)))
  {
    PlanPartitions(env, rows, m, datasetHash);
    PartsAccepted(CreateSplitPlan(env, rows, m, datasetHash).split, Used(rows, m), env.seventy, SecondCut(env, rows, m));
  }

  /** Each window ends no earlier than it starts and no later than the next one starts. */
  predicate Before(a: WindowRow, b: WindowRow) { a.start <= a.end <= b.start <= b.end }

  /** Plans of windows that do not overlap always pass. */
  lemma TiledPlansPass(env: Environment, rows: seq<WindowRow>, m: DatasetManifest, datasetHash: string)
    requires CreateSplitPlan(env, rows, m, datasetHash).Planned? && Sorted(rows, Before)
    ensures var plan := CreateSplitPlan(env, rows, m, datasetHash).split;
            Accepted([plan.train, plan.calibration, plan.test])
  {
    VerifierAgrees(env, rows, m, datasetHash);
    FilterSorted(rows, IsGood(), Before);
    PlanPartitions(env, rows, m, datasetHash);
    ClearWhenTiled(Used(rows, m), env.seventy, SecondCut(env, rows, m));
  }

  lemma ClearWhenTiled(rows: seq<WindowRow>, a: nat, b: nat)
    requires 1 < a && a + 1 < b && b + 1 < |rows| && Sorted(rows, Before)
    ensures CutsClear(rows, a, b)
  {
    assert Before(rows[0], rows[a - 1]) && Before(rows[a - 1], rows[a]) && Before(rows[a], rows[b - 1]);
    assert Before(rows[b - 1], rows[b]) && Before(rows[b], rows[|rows| - 1]);
  }
}
