/** Re-importing the same file: nothing is created, what was reported created is reported updated, the same
    errors are repeated, and the catalogue stays as the first import left it. */
module ReimportReport {
  import opened Wrappers
  import opened ImportCells
  import opened ImportPlan
  import opened ImportPlanLaws
  import opened ImportPlanKeys
  import opened ImportStore
  import opened ImportRun
  import opened Reimport

  // ---- a report, the second time ----

  function AgainRow(r: RowResult): RowResult {
    if r.status == Created then r.(status := Updated) else r
  }

  function AgainRows(rows: seq<RowResult>): seq<RowResult> {
    if rows == [] then [] else [AgainRow(rows[0])] + AgainRows(rows[1..])
  }

  function AgainSummary(s: Summary): Summary {
    s.(created := 0, updated := s.created + s.updated,
       productsCreated := 0, productsUpdated := s.productsCreated + s.productsUpdated,
       variantsCreated := 0, variantsUpdated := s.variantsCreated + s.variantsUpdated)
  }

  /** Everything created is now updated. */
  function Again(res: Report): Report {
    res.(summary := AgainSummary(res.summary), rows := AgainRows(res.rows))
  }

  lemma {:induction false} AgainRowsAppend(rows: seq<RowResult>, r: RowResult)
    ensures AgainRows(rows + [r]) == AgainRows(rows) + [AgainRow(r)]
  {
    hide AgainRow;
    if rows == [] {
      assert rows + [r] == [r];
    } else {
      assert (rows + [r])[0] == rows[0] && (rows + [r])[1..] == rows[1..] + [r];
      AgainRowsAppend(rows[1..], r);
    }
  }

  lemma AddRowResultAgain(res: Report, r: RowResult)
    ensures AddRowResult(Again(res), AgainRow(r)) == Again(AddRowResult(res, r))
  {
    AgainRowsAppend(res.rows, r);
    hide AgainRows;
  }

  lemma {:induction false} LinesAreIn(rows: seq<Row>)
    ensures forall r :: r in rows ==> r.line in LineSet(rows)
  {
    if rows != [] {
      LinesAreIn(rows[1..]);
      assert forall r :: r in rows <==> r == rows[0] || r in rows[1..];
    }
  }

  /** Two outcomes of one model: all of it created, then all of it updated. */
  ghost predicate ThenAgain(first: Option<Outcome>, second: Option<Outcome>, rows: seq<Row>) {
    && (first.Some? <==> second.Some?)
    && (first.Some? ==>
          && OnlyCreates(first.value) && OnlyUpdates(second.value)
          && first.value.status.Keys == second.value.status.Keys == LineSet(rows)
          && first.value.variantsNew == second.value.variantsUpd)
  }

  lemma {:induction false} AddRowsAgain(res: Report, m: Model, rows: seq<Row>, first: Option<Outcome>, second: Option<Outcome>, all: seq<Row>)
    requires ThenAgain(first, second, all) && forall r :: r in rows ==> r.line in LineSet(all)
    ensures AddRows(Again(res), m, rows, second) == Again(AddRows(res, m, rows, first))
    decreases |rows|
  {
    if rows != [] {
      assert rows[0] in rows && forall r :: r in rows[1..] ==> r in rows;
      var r := ReportRow(m, rows[0], first);
      assert ReportRow(m, rows[0], second) == AgainRow(r);
      hide ReportRow, ThenAgain, LineSet, Again, AddRowResult;
      AddRowResultAgain(res, r);
      AddRowsAgain(AddRowResult(res, r), m, rows[1..], first, second, all);
    }
  }

  lemma AddModelAgain(res: Report, m: Model, first: Option<Outcome>, second: Option<Outcome>)
    requires ThenAgain(first, second, m.rows)
    ensures AddModel(Again(res), m, second) == Again(AddModel(res, m, first))
  {
    LinesAreIn(m.rows);
    assert AddOutcome(Again(res), second) == Again(AddOutcome(res, first)) by { hide AgainRows, LineSet; }
    hide Again, AddRows, ThenAgain, LineSet, AddOutcome;
    AddRowsAgain(AddOutcome(res, first), m, m.rows, first, second, m.rows);
  }

  /** One model, the first time in a catalogue that does not know it, the second in one that stores it. */
  lemma StepAgain(db: Db, last: Db, m: Model, res: Report)
    requires m.rows != [] && DbOk(db)
    requires !Failed(m) ==> Ready(db, m) && Unknown(db, m) && Ready(last, m) && IsStored(last, m)
    ensures Step(db, m, res).0 == if Failed(m) then db else Added(db, m)
    ensures Step(last, m, Again(res)) == (last, Again(Step(db, m, res).1))
  {
    if Failed(m) {
      AddModelAgain(res, m, None, None);
    } else {
      FirstImport(db, m);
      ImportAgain(last, m);
      var first, second := ImportModel(db, m).value.1, ImportModel(last, m).value.1;
      hide ImportModel, Ready, Unknown, IsStored, Added, Failed, Again, AddModel, OnlyCreates, OnlyUpdates, LineSet, DbOk;
      AddModelAgain(res, m, Some(first), Some(second));
    }
  }

  ghost predicate NoUpdates(s: Summary) { s.updated == 0 && s.productsUpdated == 0 && s.variantsUpdated == 0 }

  lemma {:induction false} StepsAgain(db: Db, last: Db, models: seq<Model>, res: Report)
    requires DbOk(db) && AllReady(db, models) && AllUnknown(db, models) && AllReady(last, models) && AllStored(last, models)
    requires forall m :: m in models ==> m.rows != []
    ensures Steps(db, models, res).0 == AddedAll(db, models)
    ensures Steps(last, models, Again(res)) == (last, Again(Steps(db, models, res).1))
    decreases |models|
  {
    hide Step, Failed, Ready, Unknown, IsStored, Apart, Added, Again, DbOk;
    if models != [] {
      var m := models[0];
      StepAgain(db, last, m, res);
      var (next, res') := Step(db, m, res);
      AddedIsOk(db, m);
      ReadyStays(db, next, models);
      ReadyStays(last, last, models);
      AllStaysUnknown(db, models);
      assert AllStored(last, models[1..]) by {
        assert forall i :: 0 <= i < |models| - 1 ==> models[1..][i] == models[i + 1];
      }
      StepsAgain(next, last, models[1..], res');
    }
  }

  lemma {:induction false} InsertAgain(r: RowResult, sorted: seq<RowResult>)
    ensures AgainRows(Insert(r, sorted)) == Insert(AgainRow(r), AgainRows(sorted))
  {
    if sorted != [] {
      InsertAgain(r, sorted[1..]);
      assert AgainRows(sorted)[0] == AgainRow(sorted[0]) && AgainRows(sorted)[1..] == AgainRows(sorted[1..]);
      if r.line < sorted[0].line { assert ([r] + sorted)[1..] == sorted; }
    } else {
      assert AgainRows([r]) == [AgainRow(r)];
    }
  }

  lemma {:induction false} SortedAgain(rows: seq<RowResult>)
    ensures Sorted(AgainRows(rows)) == AgainRows(Sorted(rows))
  {
    if rows != [] {
      var init, last := rows[..|rows| - 1], rows[|rows| - 1];
      SortedAgain(init);
      InsertAgain(last, Sorted(init));
      AgainRowsAppend(init, last);
      assert rows == init + [last];
      assert AgainRows(rows)[..|AgainRows(rows)| - 1] == AgainRows(init);
      hide Insert, AgainRow;
    }
  }

  // ---- what the planner provides ----

  ghost predicate Known(categories: seq<Category>, id: string) { exists c :: c in categories && c.id == id }

  lemma {:induction false} MatchingAreCategories(categories: seq<Category>, raw: string)
    ensures forall c :: c in Matching(categories, raw) ==> c in categories
  {
    hide Lower;
    if categories != [] {
      MatchingAreCategories(categories[1..], raw);
      assert forall c :: c in categories[1..] ==> c in categories;
    }
  }

  lemma {:induction false} BySlugIs(hits: seq<Category>, raw: string)
    ensures BySlug(hits, raw).Ok? ==> exists c :: c in hits && c.id == BySlug(hits, raw).value
  {
    if hits != [] {
      assert hits[0] in hits;
      BySlugIs(hits[1..], raw);
      assert forall c :: c in hits[1..] ==> c in hits;
    }
  }

  lemma ResolvedIsKnown(categories: seq<Category>, raw: string)
    ensures ResolveCategory(categories, raw).Ok? ==> Known(categories, ResolveCategory(categories, raw).value)
  {
    var hits := Matching(categories, raw);
    MatchingAreCategories(categories, raw);
    BySlugIs(hits, raw);
    hide Matching, BySlug;
    assert hits != [] ==> hits[0] in hits;
  }

  ghost predicate CacheIsKnown(cache: CategoryCache, categories: seq<Category>) {
    forall k :: k in cache && cache[k].Ok? ==> Known(categories, cache[k].value)
  }

  lemma {:induction false} PlannedCategories(groups: seq<Group>, cache: CategoryCache, categories: seq<Category>, i: nat)
    requires (forall g :: g in groups ==> g.rows != []) && CacheIsKnown(cache, categories)
    requires i < |groups| && |AssembleAll(groups, cache, categories)| == |groups| && groups[i].key != ""
    ensures exists category ::
      AssembleAll(groups, cache, categories)[i] == Assemble(groups[i].rows, category) && (category.Ok? ==> Known(categories, category.value))
    decreases |groups|
  {
    hide Assemble, Alone, ResolveCategory, CategoryOf, Lower;
    var rows := groups[0].rows;
    ResolvedIsKnown(categories, CategoryOf(rows));
    var category := CategoryLookup(rows, cache, categories);
    assert category.Ok? ==> Known(categories, category.value);
    if i > 0 {
      var cache' := if groups[0].key == "" then cache else Remember(rows, cache, categories);
      assert CacheIsKnown(cache', categories);
      hide Remember, CategoryLookup, CacheIsKnown;
      assert AssembleAll(groups, cache, categories)[1..] == AssembleAll(groups[1..], cache', categories);
      PlannedCategories(groups[1..], cache', categories, i - 1);
    }
  }

  /** A planned model without errors has a category that exists. */
  lemma PlannedCategoryIsKnown(rows: seq<FileRow>, point: PointId, ref: Reference, i: nat)
    requires i < |Plan(rows, point, ref)| && !Failed(Plan(rows, point, ref)[i])
    ensures Known(ref.categories, Plan(rows, point, ref)[i].product.categoryId)
  {
    var raw, m := RawRows(rows, point, ref), Plan(rows, point, ref)[i];
    PlannedModel(rows, point, ref, i);
    PlanIs(rows, point, ref);
    var groups := Grouped(raw);
    hide Plan, Grouped, RawRows, Assemble, Sound, AssembleAll, RowOk, Failed;
    PlannedCategories(groups, map[], ref.categories, i);
    var category :| m == Assemble(groups[i].rows, category) && (category.Ok? ==> Known(ref.categories, category.value));
    GroupsFollowKeys(raw);
    WithKeyIs(raw, groups[i].key);
    ParsedRowsAreOk(rows, point, Active(ref), map[]);
    assert raw == ParseRows(rows, point, Active(ref), map[]) by { RawRowsAre(rows, point, ref); }
    ErrorFreeProduct(groups[i].rows, category, point, Active(ref));
  }

  lemma RawRowsAre(rows: seq<FileRow>, point: PointId, ref: Reference)
    ensures RawRows(rows, point, ref) == ParseRows(rows, point, Active(ref), map[])
  {
  }

  lemma PlannedIsReady(db: Db, rows: seq<FileRow>, point: PointId, i: nat)
    requires DbOk(db) && AllHaveArticles(rows) && (point != "" ==> point in db.ref.points)
    requires i < |Plan(rows, point, db.ref)| && !Failed(Plan(rows, point, db.ref)[i])
    ensures Ready(db, Plan(rows, point, db.ref)[i])
  {
    var m := Plan(rows, point, db.ref)[i];
    PlannedModel(rows, point, db.ref, i);
    PlannedHasArticle(rows, point, db.ref, i);
    PlannedCategoryIsKnown(rows, point, db.ref, i);
    hide Plan, Failed, Grouped, RawRows, AssembledFrom, SameSizeColor, SharesSku, AllHaveArticles;
    forall a, b | 0 <= a < b < |m.rows| ensures !SharesSku(m.rows[a], m.rows[b]) {
      SkusApartWithin(rows, point, db.ref, i, a, b);
    }
    forall k, s | 0 <= k < |m.rows| && s in m.rows[k].stock ensures s.0 in db.points {
      assert SoundRow(m.rows[k], point, Active(db.ref));
    }
  }

  lemma PlanIsReady(db: Db, rows: seq<FileRow>, point: PointId)
    requires DbOk(db) && AllHaveArticles(rows) && (point != "" ==> point in db.ref.points)
    ensures AllReady(db, Plan(rows, point, db.ref))
  {
    var models := Plan(rows, point, db.ref);
    PlannedModelsAreSound(rows, point, db.ref);
    hide Plan, Failed, Ready, DbOk, Sound, AllHaveArticles;
    forall i | 0 <= i < |models| ensures models[i].rows != [] && (!Failed(models[i]) ==> Ready(db, models[i])) {
      assert models[i] in models;
      if !Failed(models[i]) { PlannedIsReady(db, rows, point, i); }
    }
    forall i, j | 0 <= i < |models| && 0 <= j < |models| && i != j && !Failed(models[i]) && !Failed(models[j])
      ensures Apart(models[i], models[j])
    {
      ModelsApart(rows, point, db.ref, i, j);
      PlannedHasArticle(rows, point, db.ref, i);
      PlannedHasArticle(rows, point, db.ref, j);
    }
  }

  lemma StartAgain(db: Db, rows: seq<FileRow>, point: PointId)
    ensures var start := Start(db, rows, point, false); Again(start) == start && NoUpdates(start.summary)
  {
    hide RawRows, UsesPoint, Start;
    EmptyAgain(Start(db, rows, point, false));
  }

  lemma EmptyAgain(res: Report)
    requires IsZero(res.summary) && res.rows == []
    ensures Again(res) == res && NoUpdates(res.summary)
  {
    hide AgainRows, AgainSummary;
    NothingAgain(res.summary);
    NoRowsAgain(res.rows);
  }

  lemma NoRowsAgain(rows: seq<RowResult>)
    requires rows == []
    ensures AgainRows(rows) == rows
  {
  }

  lemma NothingAgain(s: Summary)
    requires s.created == s.productsCreated == s.variantsCreated == 0
    ensures AgainSummary(s) == s
  {
  }

  lemma StepsTwice(db: Db, rows: seq<FileRow>, point: PointId, models: seq<Model>, start: Report)
    requires DbOk(db) && AllHaveArticles(rows) && (point != "" ==> point in db.ref.points)
    requires models == Plan(rows, point, db.ref) && AllUnknown(db, models) && start == Start(db, rows, point, false)
    ensures var once := AddedAll(db, models);
      && once.ref == db.ref
      && (forall m :: m in models ==> m.rows != [])
      && Steps(db, models, start).0 == once
      && Steps(once, models, start) == (once, Again(Steps(db, models, start).1))
      && NoUpdates(Steps(db, models, start).1.summary)
  {
    hide *;
    StartAgain(db, rows, point);
    PlannedModelsAreSound(rows, point, db.ref);
    PlanIsReady(db, rows, point);
    AllBecomeStored(db, models);
    AddedAllKeeps(db, models);
    PlanIsReady(AddedAll(db, models), rows, point);
    StepsAgain(db, AddedAll(db, models), models, start);
    NothingIsUpdatedFirst(db, models, start);
  }

  /** Importing a file of articles the catalogue does not know, and then importing it again: the second
      import leaves the catalogue exactly as it is and reports the same rows, with updated for created. */
  lemma SecondImportChangesNothing(db: Db, rows: seq<FileRow>, requested: string, point: PointId)
    requires DbOk(db) && AllHaveArticles(rows) && ResolveTargetPoint(db.ref, requested) == Some(point)
    requires AllUnknown(db, Plan(rows, point, db.ref))
    ensures var (once, report) := Import(db, rows, point, false);
      && ResolveTargetPoint(once.ref, requested) == Some(point)
      && Import(once, rows, point, false) == (once, Again(report))
      && NoUpdates(report.summary)
  {
    var models, start := Plan(rows, point, db.ref), Start(db, rows, point, false);
    assert point != "" ==> point in db.ref.points;
    hide *;
    StepsTwice(db, rows, point, models, start);
    var once, first := AddedAll(db, models), Steps(db, models, start).1;
    ImportIs(db, rows, point, false);
    ImportIs(once, rows, point, false);
    StartIs(db, rows, point, false);
    FinishedAgain(first);
    FinishedKeepsSummary(first);
  }

  lemma FinishedKeepsSummary(res: Report)
    ensures Finished(res).summary == res.summary
  {
  }

  lemma FinishedAgain(res: Report)
    ensures Finished(Again(res)) == Again(Finished(res))
  {
    SortedAgain(res.rows);
    hide Sorted, AgainRows, SortedLines;
  }

  /** In the first import nothing was an update, so in the second everything written is one. */
  lemma {:induction false} NothingIsUpdatedFirst(db: Db, models: seq<Model>, res: Report)
    requires DbOk(db) && AllReady(db, models) && AllUnknown(db, models) && NoUpdates(res.summary)
    requires forall m :: m in models ==> m.rows != []
    ensures NoUpdates(Steps(db, models, res).1.summary)
    decreases |models|
  {
    hide Step, Failed, Ready, Unknown, Apart, Added, DbOk, NoUpdates;
    if models != [] {
      var m := models[0];
      var (next, res') := Step(db, m, res);
      NoUpdateFirst(db, m, res);
      AddedIsOk(db, m);
      ReadyStays(db, next, models);
      AllStaysUnknown(db, models);
      NothingIsUpdatedFirst(next, models[1..], res');
    }
  }

  lemma NoUpdateFirst(db: Db, m: Model, res: Report)
    requires m.rows != [] && DbOk(db) && (!Failed(m) ==> Ready(db, m) && Unknown(db, m)) && NoUpdates(res.summary)
    ensures NoUpdates(Step(db, m, res).1.summary)
    ensures Step(db, m, res).0 == if Failed(m) then db else Added(db, m)
  {
    if Failed(m) {
      NoUpdatesAdded(res, m, m.rows, None);
    } else {
      FirstImport(db, m);
      var out := ImportModel(db, m).value.1;
      hide ImportModel, Ready, Unknown, Added, Failed, LineSet, DbOk, AddRows;
      NoUpdatesAdded(AddOutcome(res, Some(out)), m, m.rows, Some(out));
    }
  }

  lemma {:induction false} NoUpdatesAdded(res: Report, m: Model, rows: seq<Row>, out: Option<Outcome>)
    requires NoUpdates(res.summary) && (out.Some? ==> OnlyCreates(out.value))
    ensures NoUpdates(AddRows(res, m, rows, out).summary)
    decreases |rows|
  {
    if rows != [] { NoUpdatesAdded(AddRowResult(res, ReportRow(m, rows[0], out)), m, rows[1..], out); }
  }
}
