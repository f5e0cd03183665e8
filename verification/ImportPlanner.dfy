/** The planner of internal/catalog/import_plan.go: its loops, maps and caches, proved to give the plan. */
module ImportPlanner {
  import opened Wrappers
  import opened Text
  import opened ImportCells
  import opened ImportPlan
  import opened ImportPlanLaws

  /** byKey finds a key's group; groups without a key are not in it. */
  ghost predicate Indexes(byKey: map<string, nat>, groups: seq<Group>) {
    && (forall k :: k in byKey ==> byKey[k] < |groups| && groups[byKey[k]].key == k && k != "")
    && (forall i :: 0 <= i < |groups| && groups[i].key != "" ==> groups[i].key in byKey && byKey[groups[i].key] == i)
  }

  lemma IndexFinds(byKey: map<string, nat>, groups: seq<Group>, key: string)
    requires Indexes(byKey, groups) && key != ""
    ensures key in byKey <==> Find(groups, key) < |groups|
    ensures key in byKey ==> byKey[key] == Find(groups, key)
  {
    var i := Find(groups, key);
    assert i < |groups| ==> groups[i].key == key;
  }

  lemma IndexGrows(byKey: map<string, nat>, groups: seq<Group>, r: RawRow)
    requires Indexes(byKey, groups)
    ensures var key := GroupKey(r);
      Indexes(if key == "" || key in byKey then byKey else byKey[key := |groups|], AddRow(groups, r))
  {
    var key := GroupKey(r);
    if key != "" { IndexFinds(byKey, groups, key); }
    hide GroupKey, Keyless, Find;
  }

  /** sizes holds the first line of every size and colour among these rows. */
  ghost predicate SizesSeen(sizes: map<string, nat>, rows: seq<RawRow>) {
    forall k :: (k in sizes <==> FirstWith(rows, k).Some?) && (k in sizes ==> FirstWith(rows, k).value.line == sizes[k])
  }

  lemma SizesGrow(sizes: map<string, nat>, rows: seq<RawRow>, i: nat)
    requires i < |rows| && SizesSeen(sizes, rows[..i])
    ensures var v := rows[i].variant;
      SizesSeen(if v.None? || SizeKey(v.value) in sizes then sizes else sizes[SizeKey(v.value) := rows[i].line], rows[..i + 1])
  {
    assert rows[..i + 1][..i] == rows[..i];
    hide SizeKey;
  }

  class Planner {
    const ref: Reference
    const pointID: PointId
    var usedPoint: bool
    var categories: CategoryCache
    var points: map<PointId, bool>

    ghost predicate Valid()
      reads this
    {
      forall id :: id in points ==> points[id] == (id in Active(ref))
    }

    constructor (ref: Reference, pointID: PointId)
      ensures Valid() && this.ref == ref && this.pointID == pointID
      ensures !usedPoint && categories == map[]
    {
      this.ref := ref;
      this.pointID := pointID;
      usedPoint := false;
      categories := map[];
      points := map[];
    }

    method ActivePoint(id: PointId) returns (ok: bool)
      requires Valid()
      modifies this`points
      ensures Valid() && ok == (id in Active(ref))
    {
      if id in points { return points[id]; }
      ok := id in ref.points;
      points := points[id := ok];
    }

    method Category(raw: string) returns (r: Result<string, Msg>)
      modifies this`categories
      ensures r == LookUp(old(categories), ref.categories, raw) && categories == old(categories)[Lower(raw) := r]
    {
      var key := Lower(raw);
      if key in categories {
        r := categories[key];
      } else {
        r := ResolveCategory(ref.categories, raw);
      }
      categories := categories[key := r];
    }

    method ParsePoint(p: (PointId, string), hasVariant: bool) returns (c: Cell<nat>)
      requires Valid()
      modifies this`points
      ensures Valid() && c == ParsePointCell(p, hasVariant, Active(ref))
    {
      hide ParseQuantity, Active;
      if p.1 == "" { return Cell(None, []); }
      var qty := ParseQuantity(p.1);
      if qty.Err? { return Cell(None, [PointStock(p.0, qty.error)]); }
      if !hasVariant { return Cell(None, [StockWithoutVariant]); }
      var ok := ActivePoint(p.0);
      c := if ok then Cell(Some(qty.value), []) else Cell(None, [PointInactive(p.0)]);
    }

    method ParsePoints(points: seq<(PointId, string)>, hasVariant: bool) returns (out: PointCells)
      requires Valid()
      modifies this`points
      ensures Valid() && out == ParsePointCells(points, hasVariant, Active(ref))
    {
      hide ParsePointCell, Active;
      out := PointCells([], []);
      assert points[0..] == points;
      for i := 0 to |points|
        invariant Valid()
        invariant Followed(out, ParsePointCells(points[i..], hasVariant, Active(ref))) == ParsePointCells(points, hasVariant, Active(ref))
      {
        assert points[i..][0] == points[i] && points[i..][1..] == points[i + 1..];
        var c := ParsePoint(points[i], hasVariant);
        var one := PointCells(if c.value.Some? then [(points[i].0, c.value.value)] else [], c.errs);
        FollowedTwice(out, one, ParsePointCells(points[i + 1..], hasVariant, Active(ref)));
        out := Followed(out, one);
      }
    }

    method ParsePrices(cells: Cells) returns (price: Cell<nat>, override: Cell<nat>)
      ensures price == ParseBase(cells.price) && override == ParseOverride(cells.priceOverride)
    {
      hide ImportCells.ParsePrice;
      price, override := Cell(None, []), Cell(None, []);
      if cells.price != "" {
        var f := ParsePrice(cells.price);
        if f.Err? {
          price := Cell(None, [f.error]);
        } else if f.value <= 0 {
          price := Cell(None, [PriceNotPositive]);
        } else {
          price := Cell(Some(f.value), []);
        }
      }
      if cells.priceOverride != "" {
        var f := ParsePrice(cells.priceOverride);
        override := if f.Err? then Cell(None, [VariantPrice(f.error)]) else Cell(Some(f.value), []);
      }
    }

    method ParseDefault(v: string, hasVariant: bool) returns (qty: Cell<nat>)
      modifies this`usedPoint
      ensures qty == ParseQuantityCell(v, hasVariant, pointID) && usedPoint == (old(usedPoint) || qty.value.Some?)
    {
      hide ParseQuantity;
      if v == "" { return Cell(None, []); }
      var n := ParseQuantity(v);
      if n.Err? { return Cell(None, [n.error]); }
      if !hasVariant { return Cell(None, [StockWithoutVariant]); }
      if pointID == "" { return Cell(None, [NoActivePoint]); }
      usedPoint := true;
      qty := Cell(Some(n.value), []);
    }

    method ParseOne(row: FileRow) returns (r: RawRow)
      requires Valid()
      modifies this`points, this`usedPoint
      ensures Valid() && r == ParseRow(row, pointID, Active(ref)) && usedPoint == (old(usedPoint) || r.usesDefaultPoint)
    {
      hide ParseBase, ParseOverride, ParseVariant, ParseQuantityCell, ParsePointCells, NormalizeText, TrimSpace, Active;
      var cells := row.cells;
      var price, override := ParsePrices(cells);
      var variant := ParseVariant(cells);
      var qty := ParseDefault(cells.quantity, variant.value.Some?);
      var perPoint := ParsePoints(row.points, variant.value.Some?);
      var stock := if qty.value.Some? then [(pointID, qty.value.value)] else [];
      r := RawRow(row.line, NormalizeText(cells.modelCode), NormalizeText(cells.nameRu), NormalizeText(cells.nameKy),
                  NormalizeText(cells.category), NormalizeText(cells.brand), TrimSpace(cells.descRu), TrimSpace(cells.descKy),
                  price.value, override.value, price.errs != [], variant.value, stock + perPoint.stock, qty.value.Some?,
                  price.errs + override.errs + variant.errs + qty.errs + perPoint.errs);
    }

    /** The loop of plan over the file: rows are parsed, repeated SKUs marked, and groups filled. */
    method GroupRows(rows: seq<FileRow>) returns (groups: seq<Group>)
      requires Valid() && !usedPoint
      modifies this`points, this`usedPoint
      ensures Valid() && groups == Grouped(RawRows(rows, pointID, ref)) && usedPoint == UsesPoint(RawRows(rows, pointID, ref))
    {
      hide *;
      var skuLines: map<string, nat> := map[];
      var byKey: map<string, nat> := map[];
      ghost var raw: seq<RawRow> := [];
      groups := [];
      NoRowsYet(rows, pointID, ref);
      for n := 0 to |rows|
        invariant Valid()
        invariant raw + ParseRows(rows[n..], pointID, Active(ref), skuLines) == RawRows(rows, pointID, ref)
        invariant groups == Grouped(raw) && Indexes(byKey, groups) && usedPoint == UsesPoint(raw)
      {
        NextRow(rows, n, pointID, Active(ref), skuLines);
        if IsBlankRow(rows[n]) { continue; }
        var r := ParseOne(rows[n]);
        var marked := Marked(r, skuLines);
        skuLines := Noticed(r, skuLines);
        IndexGrows(byKey, groups, marked);
        RowGrouped(raw, marked);
        groups, byKey := PutInGroup(groups, byKey, marked);
        raw := raw + [marked];
      }
      NoRowsLeft(rows, pointID, Active(ref), skuLines);
      assert raw == RawRows(rows, pointID, ref);
    }

    /** One model, from the rows of its group. */
    method Assemble(rs: seq<RawRow>) returns (m: Model)
      requires rs != []
      modifies this`categories
      ensures m == ImportPlan.Assemble(rs, CategoryLookup(rs, old(categories), ref.categories))
      ensures categories == Remember(rs, old(categories), ref.categories)
    {
      hide Lower, LookUp, VariantErrs, OverrideOf, ModelErrs;
      var name, cell := Pick(rs, (r: RawRow) => r.nameRu), Pick(rs, (r: RawRow) => r.category);
      var category: Result<string, Msg> := Err(NoCategory);
      if cell != "" { category := Category(cell); }
      assert category == CategoryLookup(rs, old(categories), ref.categories);
      var base := FindBase(rs);
      var errs := ProductErrs(rs, name, category, base);
      var rows := AssembleRows(rs, base, errs);
      var product := Product(rs[0].modelCode, if category.Ok? then category.value else "", name,
                             Pick(rs, (r: RawRow) => r.nameKy), Pick(rs, (r: RawRow) => r.brand), Pick(rs, (r: RawRow) => r.descRu),
                             Pick(rs, (r: RawRow) => r.descKy), if base.Some? then base.value else 0);
      m := Model(FirstNonEmpty(product.modelCode, product.nameRu), product, rows);
    }

    method Plan(rows: seq<FileRow>) returns (models: seq<Model>)
      requires Valid() && !usedPoint && categories == map[]
      modifies this
      ensures models == ImportPlan.Plan(rows, pointID, ref) && usedPoint == UsesPoint(RawRows(rows, pointID, ref))
    {
      hide *;
      var groups := GroupRows(rows);
      PlanIs(rows, pointID, ref);
      models := [];
      assert groups[0..] == groups;
      for i := 0 to |groups|
        invariant models + AssembleAll(groups[i..], categories, ref.categories) == AssembleAll(groups, map[], ref.categories)
        invariant usedPoint == UsesPoint(RawRows(rows, pointID, ref))
      {
        NextGroup(groups, i, categories, ref.categories);
        assert groups[i] in groups;
        if groups[i].key == "" {
          models := models + [Alone(groups[i].rows[0])];
        } else {
          var m := Assemble(groups[i].rows);
          models := models + [m];
        }
      }
      NoGroupsLeft(groups, categories, ref.categories);
    }
  }

  lemma NextGroup(groups: seq<Group>, i: nat, cache: CategoryCache, categories: seq<ImportPlan.Category>)
    requires i < |groups| && forall g :: g in groups ==> g.rows != []
    ensures groups[i] in groups
    ensures AssembleAll(groups[i..], cache, categories) ==
      (if groups[i].key == "" then [Alone(groups[i].rows[0])] + AssembleAll(groups[i + 1..], cache, categories)
       else [ImportPlan.Assemble(groups[i].rows, CategoryLookup(groups[i].rows, cache, categories))]
            + AssembleAll(groups[i + 1..], Remember(groups[i].rows, cache, categories), categories))
  {
    hide ImportPlan.Assemble, Remember, CategoryLookup, Alone;
    assert groups[i..][0] == groups[i] && groups[i..][1..] == groups[i + 1..];
  }

  lemma NoGroupsLeft(groups: seq<Group>, cache: CategoryCache, categories: seq<ImportPlan.Category>)
    requires forall g :: g in groups ==> g.rows != []
    ensures AssembleAll(groups[|groups|..], cache, categories) == []
  {
  }

  function Followed(a: PointCells, b: PointCells): PointCells { PointCells(a.stock + b.stock, a.errs + b.errs) }

  lemma FollowedTwice(a: PointCells, b: PointCells, c: PointCells)
    ensures Followed(Followed(a, b), c) == Followed(a, Followed(b, c))
  {
  }

  /** A row whose SKU an earlier row of the file has. */
  function Marked(r: RawRow, skuLines: map<string, nat>): (marked: RawRow)
    ensures marked.usesDefaultPoint == r.usesDefaultPoint
  {
    if HasSku(r) && r.variant.value.sku in skuLines then
      r.(errs := r.errs + [SkuDuplicateInFile(skuLines[r.variant.value.sku])])
    else r
  }

  /** The SKUs seen, after a row. */
  function Noticed(r: RawRow, skuLines: map<string, nat>): map<string, nat> {
    if HasSku(r) && r.variant.value.sku !in skuLines then skuLines[r.variant.value.sku := r.line] else skuLines
  }

  lemma NextRow(rows: seq<FileRow>, n: nat, point: PointId, active: set<PointId>, skuLines: map<string, nat>)
    requires n < |rows|
    ensures var r := ParseRow(rows[n], point, active);
      ParseRows(rows[n..], point, active, skuLines) ==
        if IsBlankRow(rows[n]) then ParseRows(rows[n + 1..], point, active, skuLines)
        else [Marked(r, skuLines)] + ParseRows(rows[n + 1..], point, active, Noticed(r, skuLines))
  {
    hide ParseRow, IsBlankRow;
    assert rows[n..][0] == rows[n] && rows[n..][1..] == rows[n + 1..];
  }

  lemma NoRowsYet(rows: seq<FileRow>, point: PointId, ref: Reference)
    ensures [] + ParseRows(rows[0..], point, Active(ref), map[]) == RawRows(rows, point, ref)
    ensures Grouped([]) == [] && Indexes(map[], []) && !UsesPoint([])
  {
    assert rows[0..] == rows;
  }

  lemma NoRowsLeft(rows: seq<FileRow>, point: PointId, active: set<PointId>, skuLines: map<string, nat>)
    ensures ParseRows(rows[|rows|..], point, active, skuLines) == []
  {
  }

  lemma RowGrouped(raw: seq<RawRow>, r: RawRow)
    ensures Grouped(raw + [r]) == AddRow(Grouped(raw), r)
    ensures UsesPoint(raw + [r]) == (UsesPoint(raw) || r.usesDefaultPoint)
  {
    GroupedNext(raw, r);
    hide AddRow, Grouped;
    assert forall x :: x in raw + [r] <==> x in raw || x == r;
  }

  method PutInGroup(groups: seq<Group>, byKey: map<string, nat>, r: RawRow) returns (groups': seq<Group>, byKey': map<string, nat>)
    requires Indexes(byKey, groups)
    ensures groups' == AddRow(groups, r)
    ensures byKey' == if GroupKey(r) == "" || GroupKey(r) in byKey then byKey else byKey[GroupKey(r) := |groups|]
  {
    var key := GroupKey(r);
    hide GroupKey;
    byKey' := byKey;
    if key == "" {
      groups' := groups + [Group("", [Keyless(r)])];
    } else {
      IndexFinds(byKey, groups, key);
      hide Find;
      if key in byKey {
        var i := byKey[key];
        groups' := groups[i := Group(key, groups[i].rows + [r])];
      } else {
        groups' := groups + [Group(key, [r])];
        byKey' := byKey[key := |groups|];
      }
    }
  }

  /** The first price among the rows. */
  method FindBase(rs: seq<RawRow>) returns (base: Option<nat>)
    ensures base == FirstPrice(rs)
  {
    assert rs[0..] == rs;
    for i := 0 to |rs|
      invariant FirstPrice(rs[i..]) == FirstPrice(rs)
    {
      assert rs[i..][0] == rs[i] && rs[i..][1..] == rs[i + 1..];
      if rs[i].price.Some? { return rs[i].price; }
    }
    base := None;
  }

  method ProductErrs(rs: seq<RawRow>, name: string, category: Result<string, Msg>, base: Option<nat>) returns (errs: seq<Msg>)
    requires name == Pick(rs, (r: RawRow) => r.nameRu) && base == FirstPrice(rs)
    ensures errs == ModelErrs(rs, category)
  {
    hide Pick, FirstPrice;
    errs := [];
    if name == "" { errs := errs + [NoName]; }
    if category.Err? { errs := errs + [category.error]; }
    if base.None? && !HasBadPrice(rs) { errs := errs + [NoPrice]; }
  }

  /** The loop of assemble over the variants. */
  method AssembleRows(rs: seq<RawRow>, base: Option<nat>, modelErrs: seq<Msg>) returns (rows: seq<Row>)
    requires base == FirstPrice(rs)
    ensures |rows| == |rs| && forall i :: 0 <= i < |rs| ==> rows[i] == AssembleRow(rs, modelErrs, i)
  {
    hide SizeKey, FirstPrice;
    var sizes: map<string, nat> := map[];
    rows := [];
    for i := 0 to |rs|
      invariant SizesSeen(sizes, rs[..i])
      invariant |rows| == i && forall k :: 0 <= k < i ==> rows[k] == AssembleRow(rs, modelErrs, k)
    {
      var r := rs[i];
      var errs := r.errs;
      if i == 0 { errs := errs + modelErrs; }
      SizesGrow(sizes, rs, i);
      if r.variant.None? {
        if |rs| > 1 { errs := errs + [MultiRowNeedsVariant]; }
        rows := rows + [Row(r.line, None, r.stock, errs)];
      } else {
        var v := r.variant.value;
        var k := SizeKey(v);
        if k in sizes {
          errs := errs + [DuplicateVariant(sizes[k])];
        } else {
          sizes := sizes[k := r.line];
        }
        var override: Option<nat> := None;
        if r.priceOverride.Some? {
          if r.priceOverride.value > 0 { override := r.priceOverride; }
        } else if r.price.Some? && base.Some? && r.price.value != base.value {
          override := r.price;
        }
        rows := rows + [Row(r.line, Some(Variant(v.size, v.color, v.sku, override)), r.stock, errs)];
      }
    }
  }
}
