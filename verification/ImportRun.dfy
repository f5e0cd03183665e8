/** A whole import (internal/catalog/import.go, ImportProducts): every model is written or leaves no trace,
    and every row of the file is accounted for in the report. */
module ImportRun {
  import opened Wrappers
  import opened ImportCells
  import opened ImportPlan
  import opened ImportPlanLaws
  import opened ImportStore

  /** Unset: a row that importModel left no status for. */
  datatype RowStatus = Unset | Created | Updated | Skipped | Error

  /** A skipped row names the first failing line of its model. */
  datatype RowResult = RowResult(line: nat, status: RowStatus, title: string, variant: Option<Variant>,
                                 msgs: seq<Msg>, skippedFor: Option<nat>)

  datatype Summary = Summary(rows: nat, created: nat, updated: nat, skipped: nat, errors: nat,
                             productsCreated: nat, productsUpdated: nat, variantsCreated: nat, variantsUpdated: nat)

  datatype Report = Report(dryRun: bool, point: Option<PointId>, summary: Summary, rows: seq<RowResult>,
                           imported: nat, errors: seq<nat>)

  predicate IsZero(s: Summary) { s == Summary(0, 0, 0, 0, 0, 0, 0, 0, 0) }

  // ---- the report ----

  function FirstErrLine(rows: seq<Row>): nat {
    if rows == [] then 0 else if rows[0].errs != [] then rows[0].line else FirstErrLine(rows[1..])
  }

  /** plannedModel.fail: the first row with that line, or the model's first row, takes the message. */
  function Blame(rows: seq<Row>, failure: Failure): seq<Row> {
    if rows == [] then []
    else if rows[0].line == failure.line then [rows[0].(errs := [failure.msg])] + rows[1..]
    else [rows[0]] + Blame(rows[1..], failure)
  }

  function Fail(m: Model, failure: Failure): Model
    requires m.rows != []
  {
    if exists r :: r in m.rows && r.line == failure.line then m.(rows := Blame(m.rows, failure))
    else m.(rows := [m.rows[0].(errs := [failure.msg])] + m.rows[1..])
  }

  function StatusIn(out: Outcome, line: nat): RowStatus {
    if line !in out.status then Unset else if out.status[line] == RowCreated then Created else Updated
  }

  /** How one row is reported. out is None when the model was not imported. */
  function ReportRow(m: Model, r: Row, out: Option<Outcome>): RowResult {
    if out.Some? then RowResult(r.line, StatusIn(out.value, r.line), m.title, r.variant, [], None)
    else if r.errs != [] then RowResult(r.line, Error, m.title, r.variant, r.errs, None)
    else RowResult(r.line, Skipped, m.title, r.variant, [], Some(FirstErrLine(m.rows)))
  }

  function Counted(s: Summary, status: RowStatus): Summary {
    var s' := s.(rows := s.rows + 1);
    match status
    case Unset => s'
    case Created => s'.(created := s.created + 1)
    case Updated => s'.(updated := s.updated + 1)
    case Skipped => s'.(skipped := s.skipped + 1)
    case Error => s'.(errors := s.errors + 1)
  }

  predicate IsBad(r: RowResult) { r.status == Skipped || r.status == Error }

  function AddRowResult(res: Report, r: RowResult): Report {
    Report(res.dryRun, res.point, Counted(res.summary, r.status), res.rows + [r], res.imported,
           res.errors + if IsBad(r) then [r.line] else [])
  }

  function AddRows(res: Report, m: Model, rows: seq<Row>, out: Option<Outcome>): Report
    decreases |rows|
  {
    if rows == [] then res else AddRows(AddRowResult(res, ReportRow(m, rows[0], out)), m, rows[1..], out)
  }

  function AddOutcome(res: Report, out: Option<Outcome>): Report {
    match out
    case None => res
    case Some(o) =>
      var s := res.summary;
      var s' := if o.created then s.(productsCreated := s.productsCreated + 1) else s.(productsUpdated := s.productsUpdated + 1);
      res.(summary := s'.(variantsCreated := s.variantsCreated + o.variantsNew, variantsUpdated := s.variantsUpdated + o.variantsUpd),
           imported := res.imported + 1)
  }

  function AddModel(res: Report, m: Model, out: Option<Outcome>): Report {
    AddRows(AddOutcome(res, out), m, m.rows, out)
  }

  // ---- the run ----

  /** One model: planned with errors, failed on the way and rolled back, or written. */
  function Step(db: Db, m: Model, res: Report): (Db, Report)
    requires m.rows != []
  {
    if Failed(m) then (db, AddModel(res, m, None))
    else match ImportModel(db, m)
      case Err(f) => (db, AddModel(res, Fail(m, f), None))
      case Ok((next, out)) => (next, AddModel(res, m, Some(out)))
  }

  function Steps(db: Db, models: seq<Model>, res: Report): (Db, Report)
    requires forall m :: m in models ==> m.rows != []
    decreases |models|
  {
    if models == [] then (db, res)
    else
      var (next, res') := Step(db, models[0], res);
      Steps(next, models[1..], res')
  }

  // ---- sorting by line ----

  function Insert(r: RowResult, sorted: seq<RowResult>): seq<RowResult> {
    if sorted == [] || r.line < sorted[0].line then [r] + sorted else [sorted[0]] + Insert(r, sorted[1..])
  }

  /** A stable sort by line. */
  function Sorted(rows: seq<RowResult>): seq<RowResult> {
    if rows == [] then [] else Insert(rows[|rows| - 1], Sorted(rows[..|rows| - 1]))
  }

  function InsertLine(line: nat, sorted: seq<nat>): seq<nat> {
    if sorted == [] || line < sorted[0] then [line] + sorted else [sorted[0]] + InsertLine(line, sorted[1..])
  }

  function SortedLines(lines: seq<nat>): seq<nat> {
    if lines == [] then [] else InsertLine(lines[|lines| - 1], SortedLines(lines[..|lines| - 1]))
  }

  function Finished(res: Report): Report {
    res.(rows := Sorted(res.rows), errors := SortedLines(res.errors))
  }

  function Start(db: Db, rows: seq<FileRow>, point: PointId, dryRun: bool): (res: Report)
    ensures IsZero(res.summary) && res.rows == [] && res.errors == [] && res.imported == 0 && res.dryRun == dryRun
  {
    Report(dryRun, if UsesPoint(RawRows(rows, point, db.ref)) then Some(point) else None, Summary(0, 0, 0, 0, 0, 0, 0, 0, 0), [], 0, [])
  }

  /** What the catalogue is left with and what is reported, were every write kept. */
  function Run(db: Db, rows: seq<FileRow>, point: PointId, dryRun: bool): (Db, Report) {
    PlannedModelsAreSound(rows, point, db.ref);
    var (db', res) := Steps(db, Plan(rows, point, db.ref), Start(db, rows, point, dryRun));
    (db', Finished(res))
  }

  /** ImportProducts: a dry run keeps nothing. */
  function Import(db: Db, rows: seq<FileRow>, point: PointId, dryRun: bool): (Db, Report) {
    var (db', res) := Run(db, rows, point, dryRun);
    (if dryRun then db else db', res)
  }

  lemma ImportIs(db: Db, rows: seq<FileRow>, point: PointId, dryRun: bool)
    requires forall m :: m in Plan(rows, point, db.ref) ==> m.rows != []
    ensures var (next, res) := Steps(db, Plan(rows, point, db.ref), Start(db, rows, point, dryRun));
      Import(db, rows, point, dryRun) == (if dryRun then db else next, Finished(res))
  {
    hide Plan, Steps, RawRows;
  }

  lemma StartIs(db: Db, rows: seq<FileRow>, point: PointId, dryRun: bool)
    ensures Start(db, rows, point, dryRun) ==
      Report(dryRun, if UsesPoint(RawRows(rows, point, db.ref)) then Some(point) else None, Summary(0, 0, 0, 0, 0, 0, 0, 0, 0), [], 0, [])
    ensures forall other: Db :: other.ref == db.ref ==> Start(other, rows, point, dryRun) == Start(db, rows, point, dryRun)
  {
    hide RawRows, UsesPoint;
  }

  // ---- a dry run ----

  lemma {:induction false} StepsIgnoreFlag(db: Db, models: seq<Model>, res: Report)
    requires forall m :: m in models ==> m.rows != []
    ensures var (dry, shown) := Steps(db, models, res.(dryRun := true)); (dry, shown) == (Steps(db, models, res).0, Steps(db, models, res).1.(dryRun := true))
    decreases |models|
  {
    hide Step;
    if models != [] {
      StepIgnoresFlag(db, models[0], res);
      var (next, res') := Step(db, models[0], res);
      StepsIgnoreFlag(next, models[1..], res');
    }
  }

  lemma StepIgnoresFlag(db: Db, m: Model, res: Report)
    requires m.rows != []
    ensures Step(db, m, res.(dryRun := true)) == (Step(db, m, res).0, Step(db, m, res).1.(dryRun := true))
  {
    hide ImportModel, Fail, AddRows, AddOutcome;
    if Failed(m) {
      AddModelIgnoresFlag(res, m, None);
    } else if ImportModel(db, m).Err? {
      AddModelIgnoresFlag(res, Fail(m, ImportModel(db, m).error), None);
    } else {
      AddModelIgnoresFlag(res, m, Some(ImportModel(db, m).value.1));
    }
  }

  lemma AddModelIgnoresFlag(res: Report, m: Model, out: Option<Outcome>)
    ensures AddModel(res.(dryRun := true), m, out) == AddModel(res, m, out).(dryRun := true)
  {
    hide AddRows;
    AddRowsIgnoreFlag(AddOutcome(res, out), m, m.rows, out);
  }

  lemma {:induction false} AddRowsIgnoreFlag(res: Report, m: Model, rows: seq<Row>, out: Option<Outcome>)
    ensures AddRows(res.(dryRun := true), m, rows, out) == AddRows(res, m, rows, out).(dryRun := true)
    decreases |rows|
  {
    hide ReportRow, Counted;
    if rows != [] { AddRowsIgnoreFlag(AddRowResult(res, ReportRow(m, rows[0], out)), m, rows[1..], out); }
  }

  /** A dry run leaves the catalogue as it was and reports what the real run would, but for the flag:
      later models see what earlier ones would have written. */
  lemma DryRunIsFaithful(db: Db, rows: seq<FileRow>, point: PointId)
    ensures var (db', report) := Import(db, rows, point, false);
      Import(db, rows, point, true) == (db, report.(dryRun := true))
  {
    hide Steps, Plan, Sorted, SortedLines;
    PlannedModelsAreSound(rows, point, db.ref);
    StepsIgnoreFlag(db, Plan(rows, point, db.ref), Start(db, rows, point, false));
    ImportIs(db, rows, point, true);
    ImportIs(db, rows, point, false);
    StartIs(db, rows, point, true);
    StartIs(db, rows, point, false);
    hide Import, Start;
  }

  // ---- conservation ----

  ghost predicate Balanced(res: Report) {
    var s := res.summary;
    && s.rows == |res.rows| == s.created + s.updated + s.skipped + s.errors
    && |res.errors| == s.skipped + s.errors
    && res.imported == s.productsCreated + s.productsUpdated
  }

  function ResultLines(rows: seq<RowResult>): seq<nat> {
    if rows == [] then [] else [rows[0].line] + ResultLines(rows[1..])
  }

  /** The rows reported as skipped or in error. */
  function BadLines(rows: seq<RowResult>): seq<nat> {
    if rows == [] then [] else (if IsBad(rows[0]) then [rows[0].line] else []) + BadLines(rows[1..])
  }

  lemma {:induction false} LinesAppend(rows: seq<RowResult>, r: RowResult)
    ensures ResultLines(rows + [r]) == ResultLines(rows) + [r.line]
    ensures BadLines(rows + [r]) == BadLines(rows) + if IsBad(r) then [r.line] else []
  {
    if rows == [] {
      assert rows + [r] == [r];
    } else {
      assert (rows + [r])[0] == rows[0] && (rows + [r])[1..] == rows[1..] + [r];
      LinesAppend(rows[1..], r);
    }
  }

  ghost predicate Covers(out: Option<Outcome>, rows: seq<Row>) {
    out.Some? ==> forall r :: r in rows ==> r.line in out.value.status
  }

  lemma AddRowCounts(res: Report, r: RowResult)
    requires Balanced(res) && r.status != Unset && res.errors == BadLines(res.rows)
    ensures var res' := AddRowResult(res, r);
      Balanced(res') && res'.errors == BadLines(res'.rows) && ResultLines(res'.rows) == ResultLines(res.rows) + [r.line]
  {
    LinesAppend(res.rows, r);
  }

  lemma {:induction false} AddRowsCounts(res: Report, m: Model, rows: seq<Row>, out: Option<Outcome>)
    requires Balanced(res) && Covers(out, rows) && res.errors == BadLines(res.rows)
    ensures var res' := AddRows(res, m, rows, out);
      && Balanced(res') && res'.errors == BadLines(res'.rows)
      && ResultLines(res'.rows) == ResultLines(res.rows) + RowLines(rows)
    decreases |rows|
  {
    hide *;
    NextResult(res, m, rows, out);
    if rows != [] {
      var r := ReportRow(m, rows[0], out);
      ReportRowIsSet(m, rows, out);
      AddRowCounts(res, r);
      AddRowsCounts(AddRowResult(res, r), m, rows[1..], out);
    }
  }

  lemma NextResult(res: Report, m: Model, rows: seq<Row>, out: Option<Outcome>)
    ensures rows == [] ==> AddRows(res, m, rows, out) == res && RowLines(rows) == []
    ensures rows != [] ==>
      && AddRows(res, m, rows, out) == AddRows(AddRowResult(res, ReportRow(m, rows[0], out)), m, rows[1..], out)
      && RowLines(rows) == [rows[0].line] + RowLines(rows[1..])
  {
    hide ReportRow, AddRowResult;
  }

  lemma ReportRowIsSet(m: Model, rows: seq<Row>, out: Option<Outcome>)
    requires Covers(out, rows) && rows != []
    ensures ReportRow(m, rows[0], out).status != Unset && ReportRow(m, rows[0], out).line == rows[0].line
    ensures Covers(out, rows[1..])
  {
    assert rows[0] in rows && forall r :: r in rows[1..] ==> r in rows;
  }

  lemma AddModelCounts(res: Report, m: Model, out: Option<Outcome>)
    requires Balanced(res) && Covers(out, m.rows) && res.errors == BadLines(res.rows)
    ensures var res' := AddModel(res, m, out);
      && Balanced(res') && res'.errors == BadLines(res'.rows)
      && ResultLines(res'.rows) == ResultLines(res.rows) + RowLines(m.rows)
  {
    AddRowsCounts(AddOutcome(res, out), m, m.rows, out);
    hide BadLines, ResultLines, AddRows;
  }

  // ---- every row of a written model has a status ----

  lemma {:induction false} ImportRowsCover(db: Db, product: ProductId, rows: seq<Row>, out: Outcome)
    requires ImportRows(db, product, rows, out).Ok?
    ensures var out' := ImportRows(db, product, rows, out).value.1;
      && out.status.Keys <= out'.status.Keys && out'.created == out.created
      && forall r :: r in rows ==> r.line in out'.status
    decreases |rows|
  {
    if rows != [] {
      var (next, out') := ImportRow(db, product, rows[0], out).value;
      assert rows[0].line in out'.status && out.status.Keys <= out'.status.Keys && out'.created == out.created;
      hide ImportRow;
      ImportRowsCover(next, product, rows[1..], out');
    }
  }

  lemma ImportModelCovers(db: Db, m: Model)
    requires m.rows != [] && ImportModel(db, m).Ok?
    ensures Covers(Some(ImportModel(db, m).value.1), m.rows)
  {
    var found := FindProduct(db, m).value;
    var next := WriteProduct(db, m, found).value;
    hide FindProduct, WriteProduct;
    ImportRowsCover(next, if found.Some? then found.value else |db.products|, m.rows, Outcome(found.None?, map[], 0, 0));
  }

  // ---- blame ----

  lemma {:induction false} BlameSticks(rows: seq<Row>, failure: Failure)
    ensures |Blame(rows, failure)| == |rows| && RowLines(Blame(rows, failure)) == RowLines(rows)
    ensures (exists r :: r in rows && r.line == failure.line) ==> exists r :: r in Blame(rows, failure) && r.errs != []
  {
    if rows != [] {
      var blamed := Blame(rows, failure);
      if rows[0].line == failure.line {
        assert blamed[0].errs == [failure.msg] && blamed[0] in blamed;
      } else {
        BlameSticks(rows[1..], failure);
        assert forall r :: r in rows <==> r == rows[0] || r in rows[1..];
        assert forall r :: r in blamed[1..] ==> r in blamed;
      }
    }
  }

  lemma FailFails(m: Model, failure: Failure)
    requires m.rows != []
    ensures Failed(Fail(m, failure)) && RowLines(Fail(m, failure).rows) == RowLines(m.rows)
  {
    BlameSticks(m.rows, failure);
    if forall r :: r in m.rows ==> r.line != failure.line {
      var rows' := Fail(m, failure).rows;
      assert rows'[0] in rows' && rows'[0].errs != [];
      assert rows'[1..] == m.rows[1..] && rows'[0].line == m.rows[0].line;
    }
  }

  // ---- one model ----

  lemma StepCounts(db: Db, m: Model, res: Report)
    requires m.rows != [] && Balanced(res) && res.errors == BadLines(res.rows)
    ensures var res' := Step(db, m, res).1;
      && Balanced(res') && res'.errors == BadLines(res'.rows)
      && ResultLines(res'.rows) == ResultLines(res.rows) + RowLines(m.rows)
  {
    hide ImportModel, AddModel, Balanced, BadLines, ResultLines, Fail;
    if Failed(m) {
      AddModelCounts(res, m, None);
    } else if ImportModel(db, m).Err? {
      FailFails(m, ImportModel(db, m).error);
      AddModelCounts(res, Fail(m, ImportModel(db, m).error), None);
    } else {
      ImportModelCovers(db, m);
      AddModelCounts(res, m, Some(ImportModel(db, m).value.1));
    }
  }

  lemma {:induction false} StepsCount(db: Db, models: seq<Model>, res: Report)
    requires forall m :: m in models ==> m.rows != []
    requires Balanced(res) && res.errors == BadLines(res.rows)
    ensures var res' := Steps(db, models, res).1;
      && Balanced(res') && res'.errors == BadLines(res'.rows)
      && ResultLines(res'.rows) == ResultLines(res.rows) + ModelLines(models)
    decreases |models|
  {
    hide Step, Balanced, BadLines, ResultLines, RowLines;
    if models != [] {
      assert models[0] in models && forall m :: m in models[1..] ==> m in models;
      StepCounts(db, models[0], res);
      var (next, res') := Step(db, models[0], res);
      StepsCount(next, models[1..], res');
    }
  }

  function NewRows(before: Report, now: Report): seq<RowResult> {
    if |before.rows| <= |now.rows| then now.rows[|before.rows|..] else []
  }

  lemma {:induction false} AddRowsAdds(res: Report, m: Model, rows: seq<Row>, out: Option<Outcome>)
    ensures AddRows(res, m, rows, out).rows == res.rows + seq(|rows|, i requires 0 <= i < |rows| => ReportRow(m, rows[i], out))
    ensures AddRows(res, m, rows, out).imported == res.imported
    decreases |rows|
  {
    hide ReportRow;
    if rows != [] { AddRowsAdds(AddRowResult(res, ReportRow(m, rows[0], out)), m, rows[1..], out); }
  }

  /** A model is imported whole or not at all. One that is not, whether it failed in planning or midway
      through its writes, changes nothing, has at least one row in error and no row reported as written;
      one that is has every row reported as created or updated. */
  lemma ModelsAreAtomic(db: Db, m: Model, res: Report)
    requires m.rows != []
    ensures var (db', res') := Step(db, m, res);
      var added := NewRows(res, res');
      && res'.rows == res.rows + added && |added| == |m.rows|
      && (if res'.imported == res.imported then
            db' == db && (forall r :: r in added ==> IsBad(r)) && exists r :: r in added && r.status == Error
          else
            res'.imported == res.imported + 1 && forall r :: r in added ==> r.status == Created || r.status == Updated)
  {
    var failed := Failed(m) || ImportModel(db, m).Err?;
    if failed {
      var shown := if Failed(m) then m else Fail(m, ImportModel(db, m).error);
      if !Failed(m) {
        FailFails(m, ImportModel(db, m).error);
        BlameSticks(m.rows, ImportModel(db, m).error);
      }
      hide ImportModel, Fail;
      NotImported(res, shown);
    } else {
      ImportModelCovers(db, m);
      hide ImportModel;
      Imported(res, m, ImportModel(db, m).value.1);
    }
  }

  lemma NotImported(res: Report, m: Model)
    requires Failed(m)
    ensures var res' := AddModel(res, m, None);
      var added := NewRows(res, res');
      && res'.rows == res.rows + added && |added| == |m.rows|
      && res'.imported == res.imported && (forall r :: r in added ==> IsBad(r)) && exists r :: r in added && r.status == Error
  {
    AddRowsAdds(res, m, m.rows, None);
    var added := NewRows(res, AddModel(res, m, None));
    var r :| r in m.rows && r.errs != [];
    var i :| 0 <= i < |m.rows| && m.rows[i] == r;
    assert added[i] in added && added[i].status == Error;
  }

  lemma Imported(res: Report, m: Model, out: Outcome)
    requires Covers(Some(out), m.rows)
    ensures var res' := AddModel(res, m, Some(out));
      var added := NewRows(res, res');
      && res'.rows == res.rows + added && |added| == |m.rows|
      && res'.imported == res.imported + 1 && forall r :: r in added ==> r.status == Created || r.status == Updated
  {
    AddRowsAdds(AddOutcome(res, Some(out)), m, m.rows, Some(out));
    var added := NewRows(res, AddModel(res, m, Some(out)));
    forall i | 0 <= i < |added| ensures added[i].status == Created || added[i].status == Updated {
      assert m.rows[i] in m.rows;
    }
  }

  // ---- the report as a whole ----

  ghost predicate Ascending(lines: seq<nat>) {
    forall i, j :: 0 <= i < j < |lines| ==> lines[i] <= lines[j]
  }

  lemma FirstIsLeast(a: seq<nat>)
    requires Ascending(a)
    ensures forall x :: x in multiset(a) ==> a[0] <= x
  {
    forall x | x in multiset(a) ensures a[0] <= x {
      var i :| 0 <= i < |a| && a[i] == x;
    }
  }

  lemma SameFirst(a: seq<nat>, b: seq<nat>)
    requires Ascending(a) && Ascending(b) && multiset(a) == multiset(b) && a != []
    ensures b != [] && a[0] == b[0]
  {
    assert a[0] in multiset(b);
    assert b[0] in multiset(a);
    FirstIsLeast(a);
    FirstIsLeast(b);
  }

  lemma TailOf(a: seq<nat>)
    requires a != []
    ensures multiset(a[1..]) == multiset(a) - multiset{a[0]}
  {
    assert a == [a[0]] + a[1..];
  }

  lemma {:induction false} SortedIsUnique(a: seq<nat>, b: seq<nat>)
    requires Ascending(a) && Ascending(b) && multiset(a) == multiset(b)
    ensures a == b
  {
    if a == [] {
      assert |multiset(b)| == 0;
    } else {
      SameFirst(a, b);
      TailOf(a);
      TailOf(b);
      TailAscends(a);
      TailAscends(b);
      hide Ascending;
      SortedIsUnique(a[1..], b[1..]);
      assert a == [a[0]] + a[1..] && b == [b[0]] + b[1..];
    }
  }

  lemma TailAscends(a: seq<nat>)
    requires Ascending(a) && a != []
    ensures Ascending(a[1..])
  {
  }

  lemma {:induction false} InsertLineKeeps(line: nat, sorted: seq<nat>)
    ensures multiset(InsertLine(line, sorted)) == multiset(sorted) + multiset{line}
  {
    if sorted != [] && line >= sorted[0] {
      InsertLineKeeps(line, sorted[1..]);
      assert sorted == [sorted[0]] + sorted[1..];
    }
  }

  lemma Prepended(first: nat, rest: seq<nat>)
    requires Ascending(rest) && forall x :: x in multiset(rest) ==> first <= x
    ensures Ascending([first] + rest)
  {
    assert forall i :: 0 <= i < |rest| ==> rest[i] in multiset(rest);
  }

  lemma {:induction false} InsertLineSorts(line: nat, sorted: seq<nat>)
    requires Ascending(sorted)
    ensures Ascending(InsertLine(line, sorted))
  {
    if sorted == [] || line < sorted[0] {
      if sorted != [] { FirstIsLeast(sorted); }
      Prepended(line, sorted);
    } else {
      TailAscends(sorted);
      FirstIsLeast(sorted);
      assert InsertLine(line, sorted) == [sorted[0]] + InsertLine(line, sorted[1..]);
      hide Ascending, InsertLine;
      InsertLineSorts(line, sorted[1..]);
      InsertLineKeeps(line, sorted[1..]);
      assert sorted == [sorted[0]] + sorted[1..];
      Prepended(sorted[0], InsertLine(line, sorted[1..]));
    }
  }

  lemma {:induction false} SortedLinesSorts(lines: seq<nat>)
    ensures Ascending(SortedLines(lines)) && multiset(SortedLines(lines)) == multiset(lines)
  {
    if lines != [] {
      var init := lines[..|lines| - 1];
      SortedLinesSorts(init);
      InsertLineSorts(lines[|lines| - 1], SortedLines(init));
      InsertLineKeeps(lines[|lines| - 1], SortedLines(init));
      assert lines == init + [lines[|lines| - 1]];
    }
  }

  /** Inserting a row among rows inserts its line among their lines. */
  lemma {:induction false} InsertInserts(r: RowResult, sorted: seq<RowResult>)
    ensures ResultLines(Insert(r, sorted)) == InsertLine(r.line, ResultLines(sorted))
  {
    if sorted != [] && r.line >= sorted[0].line {
      InsertInserts(r, sorted[1..]);
      assert ResultLines(sorted)[1..] == ResultLines(sorted[1..]);
    }
  }

  lemma {:induction false} InsertKeepsBad(r: RowResult, sorted: seq<RowResult>)
    ensures multiset(BadLines(Insert(r, sorted))) == multiset(BadLines(sorted)) + multiset(if IsBad(r) then [r.line] else [])
    ensures |Insert(r, sorted)| == |sorted| + 1
  {
    hide IsBad;
    if sorted != [] && r.line >= sorted[0].line { InsertKeepsBad(r, sorted[1..]); }
  }

  lemma {:induction false} SortedSorts(rows: seq<RowResult>)
    ensures ResultLines(Sorted(rows)) == SortedLines(ResultLines(rows))
    ensures |Sorted(rows)| == |rows|
    ensures multiset(BadLines(Sorted(rows))) == multiset(BadLines(rows))
  {
    hide InsertLine, IsBad;
    if rows != [] {
      var init, last := rows[..|rows| - 1], rows[|rows| - 1];
      SortedSorts(init);
      InsertInserts(last, Sorted(init));
      InsertKeepsBad(last, Sorted(init));
      LinesAppend(init, last);
      assert rows == init + [last];
      hide BadLines, Insert;
      assert ResultLines(rows)[..|ResultLines(rows)| - 1] == ResultLines(init);
    }
  }

  lemma {:induction false} BadLinesAscend(rows: seq<RowResult>)
    requires Ascending(ResultLines(rows))
    ensures Ascending(BadLines(rows))
    ensures forall x :: x in multiset(BadLines(rows)) ==> x in multiset(ResultLines(rows))
  {
    hide IsBad;
    if rows != [] {
      var lines := ResultLines(rows);
      FirstIsLeast(lines);
      TailAscends(lines);
      assert lines[1..] == ResultLines(rows[1..]);
      assert lines == [lines[0]] + lines[1..];
      BadLinesAscend(rows[1..]);
      hide Ascending;
      if IsBad(rows[0]) { Prepended(rows[0].line, BadLines(rows[1..])); }
    }
  }

  ghost predicate LinesIncrease(rows: seq<FileRow>) {
    forall i, j :: 0 <= i < j < |rows| ==> rows[i].line < rows[j].line
  }

  lemma {:induction false} FileLinesAreLines(rows: seq<FileRow>, least: nat)
    requires forall i :: 0 <= i < |rows| ==> least <= rows[i].line
    ensures forall x :: x in multiset(FileLines(rows)) ==> least <= x
  {
    hide IsBlankRow;
    if rows != [] { FileLinesAreLines(rows[1..], least); }
  }

  lemma {:induction false} FileLinesAscend(rows: seq<FileRow>)
    requires LinesIncrease(rows)
    ensures Ascending(FileLines(rows))
  {
    hide IsBlankRow;
    if rows != [] {
      FileLinesAscend(rows[1..]);
      FileLinesAreLines(rows[1..], rows[0].line);
      hide Ascending, LinesIncrease;
      if !IsBlankRow(rows[0]) { Prepended(rows[0].line, FileLines(rows[1..])); }
    }
  }

  lemma FinishedReport(res: Report, lines: seq<nat>)
    requires Balanced(res) && res.errors == BadLines(res.rows)
    requires multiset(ResultLines(res.rows)) == multiset(lines) && Ascending(lines)
    ensures var done := Finished(res);
      ResultLines(done.rows) == lines && Balanced(done) && done.errors == BadLines(done.rows)
  {
    var done := Finished(res);
    SortedSorts(res.rows);
    SortedLinesSorts(ResultLines(res.rows));
    SortedLinesSorts(res.errors);
    hide ResultLines, Ascending, BadLines, SortedLines, Sorted;
    SortedIsUnique(ResultLines(done.rows), lines);
    BadLinesAscend(done.rows);
    SortedIsUnique(BadLines(done.rows), done.errors);
    assert |multiset(done.errors)| == |multiset(res.errors)|;
  }

  lemma StepsReport(db: Db, rows: seq<FileRow>, point: PointId, dryRun: bool, start: Report)
    requires start == Start(db, rows, point, dryRun)
    requires forall m :: m in Plan(rows, point, db.ref) ==> m.rows != []
    ensures var res := Steps(db, Plan(rows, point, db.ref), start).1;
      Balanced(res) && res.errors == BadLines(res.rows) && multiset(ResultLines(res.rows)) == multiset(FileLines(rows))
  {
    hide Plan, Steps, FileLines, ModelLines, RawRows;
    assert Balanced(start) && start.errors == BadLines([]) == [] && ResultLines([]) == [];
    StepsCount(db, Plan(rows, point, db.ref), start);
    EveryRowIsPlannedOnce(rows, point, db.ref);
  }

  /** Every non-blank row of the file is reported once, in line order; the rows are counted by outcome; the
      list of errors is exactly the lines of the skipped and failed rows; and Imported counts the products. */
  lemma EveryRowIsReported(db: Db, rows: seq<FileRow>, point: PointId, dryRun: bool)
    requires LinesIncrease(rows)
    ensures var res := Import(db, rows, point, dryRun).1;
      && ResultLines(res.rows) == FileLines(rows)
      && Balanced(res)
      && res.errors == BadLines(res.rows)
  {
    PlannedModelsAreSound(rows, point, db.ref);
    var start := Start(db, rows, point, dryRun);
    var res := Steps(db, Plan(rows, point, db.ref), start).1;
    assert Import(db, rows, point, dryRun).1 == Finished(res);
    StepsReport(db, rows, point, dryRun, start);
    FileLinesAscend(rows);
    hide *;
    FinishedReport(res, FileLines(rows));
  }
}
