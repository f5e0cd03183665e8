/** What sets the models of one plan apart: their keys, their articles and their SKUs. */
module ImportPlanKeys {
  import opened Wrappers
  import opened ImportCells
  import opened ImportPlan
  import opened ImportPlanLaws

  // ---- keys ----

  predicate NulFree(s: string) { forall i :: 0 <= i < |s| ==> s[i] != '\0' }

  lemma LowerIsNulFree(s: string)
    requires NulFree(s)
    ensures NulFree(Lower(s))
  {
  }

  lemma FirstPartTells(a: string, b: string, x: string, y: string)
    requires NulFree(a) && NulFree(b) && a + "\0" + x == b + "\0" + y
    ensures a == b && x == y
  {
    var s, t := a + "\0" + x, b + "\0" + y;
    assert s[|a|] == '\0' && t[|b|] == '\0';
    assert |a| == |b| by {
      assert forall i :: 0 <= i < |a| ==> s[i] == a[i] != '\0';
      assert forall i :: 0 <= i < |b| ==> t[i] == b[i] != '\0';
    }
    assert s[..|a|] == a && t[..|b|] == b && s[|a| + 1..] == x && t[|b| + 1..] == y;
  }

  /** Brand and name without the separator that keys are put together with. */
  ghost predicate PlainText(r: RawRow) { NulFree(r.brand) && NulFree(r.nameRu) }

  /** Two rows with an article share a key exactly when the articles agree up to case; two without, when
      brand, name and category do; and a row with an article never shares one with a row without. */
  lemma KeysTell(a: RawRow, b: RawRow)
    requires GroupKey(a) != "" && GroupKey(b) != ""
    requires a.modelCode == "" && b.modelCode == "" ==> PlainText(a) && PlainText(b)
    ensures GroupKey(a) == GroupKey(b) <==>
      if a.modelCode != "" && b.modelCode != "" then Lower(a.modelCode) == Lower(b.modelCode)
      else a.modelCode == "" && b.modelCode == "" && Lower(a.brand) == Lower(b.brand)
           && Lower(a.nameRu) == Lower(b.nameRu) && Lower(a.category) == Lower(b.category)
  {
    var k, l := GroupKey(a), GroupKey(b);
    hide Lower;
    assert k[0] == (if a.modelCode != "" then 'a' else 'n') && l[0] == if b.modelCode != "" then 'a' else 'n';
    if a.modelCode != "" && b.modelCode != "" {
      assert k[2..] == Lower(a.modelCode) && l[2..] == Lower(b.modelCode);
    } else if a.modelCode == "" && b.modelCode == "" && k == l {
      LowerIsNulFree(a.brand); LowerIsNulFree(b.brand);
      LowerIsNulFree(a.nameRu); LowerIsNulFree(b.nameRu);
      var x, y := Lower(a.nameRu) + "\0" + Lower(a.category), Lower(b.nameRu) + "\0" + Lower(b.category);
      assert k[2..] == Lower(a.brand) + "\0" + x && l[2..] == Lower(b.brand) + "\0" + y;
      FirstPartTells(Lower(a.brand), Lower(b.brand), x, y);
      FirstPartTells(Lower(a.nameRu), Lower(b.nameRu), Lower(a.category), Lower(b.category));
    }
  }

  /** A NUL character in a brand or name can give two different products one key. */
  lemma NulsMixKeys(a: RawRow, b: RawRow)
    requires a.modelCode == "" && a.brand == "p\0q" && a.nameRu == "r" && a.category == "s"
    requires b.modelCode == "" && b.brand == "p" && b.nameRu == "q\0r" && b.category == "s"
    ensures GroupKey(a) == GroupKey(b) != "" && Lower(a.brand) != Lower(b.brand)
  {
    assert Lower("p\0q") == "p\0q" && Lower("q\0r") == "q\0r" && Lower("p") == "p" && Lower("r") == "r" && Lower("s") == "s";
    var k := "n\0p\0q\0r\0s";
    assert "n\0" + "p\0q" + "\0" + "r" + "\0" + "s" == k && "n\0" + "p" + "\0" + "q\0r" + "\0" + "s" == k;
  }

  lemma ArticleKeysTell(a: RawRow, b: RawRow)
    requires a.modelCode != "" && b.modelCode != "" && Lower(a.modelCode) == Lower(b.modelCode)
    ensures GroupKey(a) == GroupKey(b)
  {
  }

  // ---- SKUs ----

  ghost predicate HasVariantSku(r: Row) { r.variant.Some? && r.variant.value.sku != "" }

  ghost predicate SharesSku(a: Row, b: Row) {
    HasVariantSku(a) && HasVariantSku(b) && a.variant.value.sku == b.variant.value.sku
  }

  lemma {:induction false} MarkedWithin(rows: seq<RawRow>, key: string)
    requires SkusMarked(rows)
    ensures SkusMarked(WithKey(rows, key))
  {
    hide GroupKey, HasSku, SkuOf;
    if rows != [] {
      var init := rows[..|rows| - 1];
      assert SkusMarked(init) by {
        assert forall i :: 0 <= i < |init| ==> init[i] == rows[i];
      }
      MarkedWithin(init, key);
      WithKeyIs(init, key);
      MarkedLast(rows, WithKey(init, key));
    }
  }

  lemma MarkedLast(rows: seq<RawRow>, some: seq<RawRow>)
    requires rows != [] && SkusMarked(rows) && SkusMarked(some) && forall r :: r in some ==> r in rows[..|rows| - 1]
    ensures SkusMarked(some + [rows[|rows| - 1]])
  {
    var all, last := some + [rows[|rows| - 1]], rows[|rows| - 1];
    hide HasSku, SkuOf;
    forall i, j | 0 <= i < j < |all| && HasSku(all[i]) && SkuOf(all[j], all[i].variant.value.sku) ensures all[j].errs != [] {
      if j == |some| {
        assert all[i] == some[i] && some[i] in some;
        var k :| 0 <= k < |rows| - 1 && rows[..|rows| - 1][k] == some[i];
        assert rows[k] == some[i];
      } else {
        assert all[i] == some[i] && all[j] == some[j];
      }
    }
  }

  lemma ClashIsMarked(rows: seq<RawRow>, a: RawRow, b: RawRow)
    requires SkusMarked(rows) && a in rows && b in rows && a != b && HasSku(a) && SkuOf(b, a.variant.value.sku)
    ensures a.errs != [] || b.errs != []
  {
    var i :| 0 <= i < |rows| && rows[i] == a;
    var j :| 0 <= j < |rows| && rows[j] == b;
    if j < i { assert SkuOf(a, b.variant.value.sku); }
  }

  // ---- models ----

  /** The rows a model without errors came from. */
  ghost predicate MadeOf(m: Model, g: seq<RawRow>) {
    && |m.rows| == |g| && g != [] && m.product.modelCode == g[0].modelCode
    && forall i :: 0 <= i < |g| ==>
         && g[i].errs == []
         && (HasVariantSku(m.rows[i]) ==> HasSku(g[i]) && g[i].variant.value.sku == m.rows[i].variant.value.sku)
  }

  lemma AssembledIsMadeOf(rows: seq<RawRow>, category: Result<string, Msg>)
    requires rows != [] && !Failed(Assemble(rows, category))
    ensures MadeOf(Assemble(rows, category), rows)
  {
    ErrorFree(rows, category);
    var m := Assemble(rows, category);
    var errs := ModelErrs(rows, category);
    hide ModelErrs, VariantErrs, Pick, FirstPrice, OverrideOf, Failed;
    forall i | 0 <= i < |rows|
      ensures HasVariantSku(m.rows[i]) ==> HasSku(rows[i]) && rows[i].variant.value.sku == m.rows[i].variant.value.sku
    {
      assert m.rows[i] == AssembleRow(rows, errs, i);
    }
  }

  lemma Origin(rows: seq<FileRow>, defaultPoint: PointId, ref: Reference, i: nat)
    requires i < |Plan(rows, defaultPoint, ref)| && !Failed(Plan(rows, defaultPoint, ref)[i])
    ensures var raw, m := RawRows(rows, defaultPoint, ref), Plan(rows, defaultPoint, ref)[i];
      && |Grouped(raw)| == |Plan(rows, defaultPoint, ref)|
      && var key := Grouped(raw)[i].key;
      && key != "" && MadeOf(m, WithKey(raw, key))
      && (forall r :: r in WithKey(raw, key) ==> r in raw && GroupKey(r) == key)
  {
    var raw, m := RawRows(rows, defaultPoint, ref), Plan(rows, defaultPoint, ref)[i];
    PlannedModel(rows, defaultPoint, ref, i);
    GroupsFollowKeys(raw);
    hide Plan, Assemble, MadeOf, RawRows, Grouped, Sound, Failed, WithKey;
    var g := Grouped(raw)[i];
    var category :| m == Assemble(g.rows, category);
    AssembledIsMadeOf(g.rows, category);
    WithKeyIs(raw, g.key);
  }

  /** No SKU is in two rows of a model without errors. */
  lemma SkusApartWithin(rows: seq<FileRow>, defaultPoint: PointId, ref: Reference, i: nat, a: nat, b: nat)
    requires i < |Plan(rows, defaultPoint, ref)| && !Failed(Plan(rows, defaultPoint, ref)[i])
    requires a < b < |Plan(rows, defaultPoint, ref)[i].rows|
    ensures !SharesSku(Plan(rows, defaultPoint, ref)[i].rows[a], Plan(rows, defaultPoint, ref)[i].rows[b])
  {
    var raw, m := RawRows(rows, defaultPoint, ref), Plan(rows, defaultPoint, ref)[i];
    Origin(rows, defaultPoint, ref, i);
    RepeatedSkusAreMarked(rows, defaultPoint, Active(ref), map[]);
    MarkedWithin(raw, Grouped(raw)[i].key);
    hide Plan, Grouped, ParseRows, WithKey;
  }

  /** Two models without errors share no SKU, and no article. */
  lemma ModelsApart(rows: seq<FileRow>, defaultPoint: PointId, ref: Reference, i: nat, j: nat)
    requires var models := Plan(rows, defaultPoint, ref);
      i < |models| && j < |models| && i != j && !Failed(models[i]) && !Failed(models[j])
    ensures var m, n := Plan(rows, defaultPoint, ref)[i], Plan(rows, defaultPoint, ref)[j];
      && (m.product.modelCode != "" && n.product.modelCode != "" ==> Lower(m.product.modelCode) != Lower(n.product.modelCode))
      && forall a, b :: 0 <= a < |m.rows| && 0 <= b < |n.rows| ==> !SharesSku(m.rows[a], n.rows[b])
  {
    var raw, m, n := RawRows(rows, defaultPoint, ref), Plan(rows, defaultPoint, ref)[i], Plan(rows, defaultPoint, ref)[j];
    Origin(rows, defaultPoint, ref, i);
    Origin(rows, defaultPoint, ref, j);
    GroupsFollowKeys(raw);
    RepeatedSkusAreMarked(rows, defaultPoint, Active(ref), map[]);
    var k, l := Grouped(raw)[i].key, Grouped(raw)[j].key;
    assert k != l;
    var g, h := WithKey(raw, k), WithKey(raw, l);
    hide Plan, Grouped, RawRows, WithKey, GroupKey, Lower;
    assert g[0] in g && h[0] in h;
    if m.product.modelCode != "" && n.product.modelCode != "" && Lower(m.product.modelCode) == Lower(n.product.modelCode) {
      ArticleKeysTell(g[0], h[0]);
    }
    forall a, b | 0 <= a < |m.rows| && 0 <= b < |n.rows| ensures !SharesSku(m.rows[a], n.rows[b]) {
      assert g[a] in g && h[b] in h;
      if SharesSku(m.rows[a], n.rows[b]) { ClashIsMarked(raw, g[a], h[b]); }
    }
  }

  /** Every non-blank row carries an article. */
  ghost predicate AllHaveArticles(rows: seq<FileRow>) {
    forall r :: r in rows && !IsBlankRow(r) ==> NormalizeText(r.cells.modelCode) != ""
  }

  lemma {:induction false} RawRowsHaveArticles(rows: seq<FileRow>, defaultPoint: PointId, active: set<PointId>, skuLines: map<string, nat>)
    requires AllHaveArticles(rows)
    ensures forall r :: r in ParseRows(rows, defaultPoint, active, skuLines) ==> r.modelCode != ""
  {
    hide IsBlankRow, NormalizeText;
    if rows != [] {
      assert rows[0] in rows && forall r :: r in rows[1..] ==> r in rows;
      var r := ParseRow(rows[0], defaultPoint, active);
      assert !IsBlankRow(rows[0]) ==> r.modelCode != "";
      hide ParseRow;
      var again := HasSku(r) && r.variant.value.sku in skuLines;
      RawRowsHaveArticles(rows[1..], defaultPoint, active, skuLines);
      if !again && HasSku(r) {
        RawRowsHaveArticles(rows[1..], defaultPoint, active, skuLines[r.variant.value.sku := r.line]);
      }
    }
  }

  lemma PlannedHasArticle(rows: seq<FileRow>, defaultPoint: PointId, ref: Reference, i: nat)
    requires AllHaveArticles(rows)
    requires i < |Plan(rows, defaultPoint, ref)| && !Failed(Plan(rows, defaultPoint, ref)[i])
    ensures Plan(rows, defaultPoint, ref)[i].product.modelCode != ""
  {
    var raw := RawRows(rows, defaultPoint, ref);
    Origin(rows, defaultPoint, ref, i);
    RawRowsHaveArticles(rows, defaultPoint, Active(ref), map[]);
    hide Plan, Grouped, ParseRows;
    var g := WithKey(raw, Grouped(raw)[i].key);
    hide WithKey;
    assert g[0] in g;
  }
}
