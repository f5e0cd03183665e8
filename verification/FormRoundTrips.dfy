/** What the form promises across several of its functions: an untouched matrix changes nothing, and a
    conflict, refreshed and sent back unedited, saves. */
module FormRoundTrips {
  import opened Wrappers
  import opened Text
  import opened ProductStore
  import opened ProductForm

  // ---- text ----

  lemma {:induction false} BlanksAppend(a: string, b: string)
    ensures WithoutBlanks(a + b) == WithoutBlanks(a) + WithoutBlanks(b)
  {
    if a == "" {
      assert a + b == b;
    } else {
      assert (a + b)[0] == a[0] && (a + b)[1..] == a[1..] + b;
      BlanksAppend(a[1..], b);
    }
  }

  lemma {:induction false} TrailingSpaceIsTrimmed(z: string, c: char)
    requires IsSpace(c)
    ensures TrimSpace(z + [c]) == TrimSpace(z)
  {
    hide IsSpace;
    if z == "" {
      assert z + [c] == [c] && [c][1..] == "";
    } else if IsSpace(z[0]) {
      assert (z + [c])[0] == z[0] && (z + [c])[1..] == z[1..] + [c];
      TrailingSpaceIsTrimmed(z[1..], c);
    } else {
      assert (z + [c])[..|z|] == z;
    }
  }

  lemma {:induction false} LeftEndIgnored(x: string)
    ensures TrimSpace(WithoutBlanks(TrimLeft(x))) == TrimSpace(WithoutBlanks(x))
  {
    if x != "" && IsSpace(x[0]) {
      LeftEndIgnored(x[1..]);
      var z := WithoutBlanks(x[1..]);
      if WithoutBlanks(x) != z {
        assert WithoutBlanks(x) == [x[0]] + z && ([x[0]] + z)[1..] == z;
      }
    }
  }

  lemma {:induction false} RightEndIgnored(x: string)
    ensures TrimSpace(WithoutBlanks(TrimRight(x))) == TrimSpace(WithoutBlanks(x))
  {
    if x != "" && IsSpace(x[|x| - 1]) {
      var init, c := x[..|x| - 1], x[|x| - 1];
      RightEndIgnored(init);
      assert x == init + [c];
      BlanksAppend(init, [c]);
      var z := WithoutBlanks(init);
      assert [c][1..] == "";
      assert WithoutBlanks([c]) == "" || WithoutBlanks([c]) == [c];
      if WithoutBlanks([c]) == "" {
        assert WithoutBlanks(x) == z;
      } else {
        assert WithoutBlanks(x) == z + [c];
        TrailingSpaceIsTrimmed(z, c);
      }
    }
  }

  lemma AmountIgnoresEnds(x: string)
    ensures ParseAmount(TrimSpace(x)) == ParseAmount(x)
  {
    LeftEndIgnored(x);
    RightEndIgnored(TrimLeft(x));
  }

  lemma {:induction false} NoBlanks(s: string)
    requires forall i :: 0 <= i < |s| ==> !IsSpace(s[i])
    ensures WithoutBlanks(s) == s
  {
    if s != "" { NoBlanks(s[1..]); }
  }

  lemma AmountRoundTrip(c: int)
    ensures ParseAmount(FormatDecimal(c)) == Some(c)
    ensures TrimSpace(FormatDecimal(c)) == FormatDecimal(c) && FormatDecimal(c) != ""
  {
    FormatDecimalRoundTrip(c);
    var s := FormatDecimal(c);
    hide FormatDecimal, ParseDecimal, Unsigned;
    DecimalIsPlain(s, Unsigned(s), c < 0);
    NoBlanks(s);
    TrimSpaceTrims(s);
    hide WithoutBlanks, TrimSpace;
    assert CommaToDot(s) == s;
  }

  lemma DecimalIsPlain(s: string, u: string, negative: bool)
    requires LooksDecimal(u) && s == if negative then "-" + u else u
    ensures s != "" && IsTrim(s) && forall i :: 0 <= i < |s| ==> !IsSpace(s[i]) && s[i] != ','
  {
    forall i | 0 <= i < |s| ensures !IsSpace(s[i]) && s[i] != ',' {
      if negative && i > 0 { assert s[i] == u[i - 1]; }
    }
    hide IsSpace, LooksDecimal;
  }

  // ---- an untouched matrix ----

  lemma StoredCellParses(q: int)
    requires 0 <= q <= MAX_INT
    ensures ParseStockCell(Some(Itoa(q)), Some(Itoa(q))) == if q <= MAX_STOCK_QTY then Ok(ParsedCell(q, Some(q), false)) else Err(TooBig)
  {
    ItoaRoundTrip(q);
    TrimSpaceTrims(Itoa(q));
    hide Itoa, Atoi, TrimSpace;
  }

  lemma AbsentCellParses()
    ensures ParseStockCell(Some("0"), Some("")) == Ok(ParsedCell(0, None, false))
  {
    ItoaRoundTrip(0);
    assert Itoa(0) == "0";
    TrimSpaceTrims("0");
    TrimSpaceTrims("");
  }

  ghost predicate QuantitiesFit(v: VariantId, stock: map<Cell, int>, points: seq<PointId>) {
    forall p :: p in points && (v, p) in stock ==> stock[(v, p)] <= MAX_STOCK_QTY
  }

  /** The form holds, for each of these points, what BuildCells shows. */
  ghost predicate HoldsCells(form: Form, v: VariantId, stock: map<Cell, int>, points: seq<PointId>) {
    forall p :: p in points ==>
      var shown := if (v, p) in stock then Itoa(stock[(v, p)]) else "0";
      && Get(form, Qty(v, p)) == Some(shown)
      && Get(form, Orig(v, p)) == Some(if (v, p) in stock then shown else "")
  }

  lemma {:induction false} UntouchedCells(form: Form, v: VariantId, stock: map<Cell, int>, points: seq<PointId>)
    requires HoldsCells(form, v, stock, points)
    requires forall c :: c in stock ==> 0 <= stock[c] <= MAX_INT
    ensures ParseCells(form, v, points).changes == []
    ensures ParseCells(form, v, points).errs == {} <==> QuantitiesFit(v, stock, points)
  {
    if points != [] {
      var p, rest := points[0], points[1..];
      assert forall q :: q in points <==> q == p || q in rest;
      UntouchedCells(form, v, stock, rest);
      if (v, p) in stock { StoredCellParses(stock[(v, p)]); } else { AbsentCellParses(); }
      hide ParseStockCell, Itoa;
    }
  }

  /** What a save of the untouched row asks for. */
  function Unchanged(v: StoredVariant): VariantRow {
    var positive := v.price.Some? && v.price.value > 0;
    VariantRow(v.id, v.id, TrimSpace(v.size), TrimSpace(v.color), v.price.Some? && !positive, if positive then v.price else None)
  }

  ghost predicate Showable(v: StoredVariant, stock: map<Cell, int>, points: seq<PointId>) {
    && TrimSpace(v.size) != "" && TrimSpace(v.color) != ""
    && (v.price.Some? ==> v.price.value <= MAX_PRICE)
    && QuantitiesFit(v.id, stock, points)
  }

  lemma UntouchedPrice(v: StoredVariant)
    requires v.id != ""
    ensures var row := BuildRow(v, map[], []);
      var p := ParseRowPrice(Some(row.price), Some(row.priceOrig), v.id);
      && (!p.invalid <==> (v.price.Some? ==> v.price.value <= MAX_PRICE))
      && (!p.invalid ==> p.priceSet == Unchanged(v).priceSet && p.price == Unchanged(v).price)
  {
    TrimSpaceTrims("");
    if v.price.Some? { AmountRoundTrip(v.price.value); }
    hide TrimSpace, FormatDecimal, ParseAmount;
  }

  lemma UntouchedRow(form: Form, v: StoredVariant, stock: map<Cell, int>, points: seq<PointId>, i: nat)
    requires i < |form.keys| && |form.keys| == |form.ids| == |form.sizes| == |form.colors|
    requires form.prices.Some? && |form.prices.value| == |form.keys| && SubmitsRow(form, i, BuildRow(v, stock, points))
    requires v.id != "" && TrimSpace(v.id) == v.id
    requires forall c :: c in stock ==> 0 <= stock[c] <= MAX_INT
    ensures RowKey(form, i) == v.id
    ensures var r := ParseRow(form, points, i);
      && r.ParsedRow? && r.changes == []
      && (r.errs == {} <==> Showable(v, stock, points))
      && (r.errs == {} ==> r.variant == Unchanged(v))
  {
    var row := BuildRow(v, stock, points);
    forall p | p in points
      ensures var shown := if (v.id, p) in stock then Itoa(stock[(v.id, p)]) else "0";
        && Get(form, Qty(v.id, p)) == Some(shown)
        && Get(form, Orig(v.id, p)) == Some(if (v.id, p) in stock then shown else "")
    {
      var j :| 0 <= j < |points| && points[j] == p;
      assert row.cells[j] in row.cells;
    }
    hide Itoa;
    UntouchedCells(form, v.id, stock, points);
    UntouchedPrice(v);
    hide ParseRowPrice, ParseCells, TrimSpace, QuantitiesFit, HasStock, BuildCells;
    assert RowKey(form, i) == v.id && At(form.ids, i) == v.id;
    assert At(form.sizes, i) == TrimSpace(v.size) && At(form.colors, i) == TrimSpace(v.color);
    hide At;
  }

  function AllUnchanged(variants: seq<StoredVariant>): seq<VariantRow> {
    if variants == [] then [] else [Unchanged(variants[0])] + AllUnchanged(variants[1..])
  }

  ghost predicate AllShowable(variants: seq<StoredVariant>, stock: map<Cell, int>, points: seq<PointId>) {
    forall v :: v in variants ==> Showable(v, stock, points)
  }

  lemma ShowableFirst(variants: seq<StoredVariant>, stock: map<Cell, int>, points: seq<PointId>)
    requires variants != []
    ensures AllShowable(variants, stock, points) <==> Showable(variants[0], stock, points) && AllShowable(variants[1..], stock, points)
  {
    hide Showable;
    assert forall v :: v in variants <==> v == variants[0] || v in variants[1..];
  }

  /** Parsing the untouched matrix gives one row per variant in order and no stock change, and writes no
      price except to clear an override that is not positive. It is free of errors exactly when every
      stored value is one the form accepts. */
  lemma {:induction false} UntouchedRows(form: Form, variants: seq<StoredVariant>, stock: map<Cell, int>, points: seq<PointId>,
                                         i: nat, seen: set<Key>)
    requires Submits(form, BuildVariantRows(variants, stock, points)) && i <= |variants|
    requires forall v :: v in variants ==> v.id != "" && TrimSpace(v.id) == v.id
    requires forall j, k :: 0 <= j < k < |variants| ==> variants[j].id != variants[k].id
    requires forall c :: c in stock ==> 0 <= stock[c] <= MAX_INT
    requires forall j :: i <= j < |variants| ==> variants[j].id !in seen
    ensures var m := ParseRows(form, points, i, seen);
      && m.stock == []
      && (m.errs == {} <==> AllShowable(variants[i..], stock, points))
      && (m.errs == {} ==> m.variants == AllUnchanged(variants[i..]))
    decreases |variants| - i
  {
    hide ParseRow, Unchanged, Showable, SubmitsRow, BuildRow, RowKey, TrimSpace;
    if i < |variants| {
      var v := variants[i];
      assert v in variants;
      assert SubmitsRow(form, i, BuildVariantRows(variants, stock, points)[i]);
      UntouchedRow(form, v, stock, points, i);
      UntouchedRows(form, variants, stock, points, i + 1, seen + {v.id});
      assert variants[i..][0] == v && variants[i..][1..] == variants[i + 1..];
      ShowableFirst(variants[i..], stock, points);
      hide Submits, AllShowable;
    }
  }

  lemma {:induction false} UnchangedInOrder(variants: seq<StoredVariant>)
    ensures AllUnchanged(variants) == seq(|variants|, j requires 0 <= j < |variants| => Unchanged(variants[j]))
  {
    hide Unchanged;
    if variants != [] { UnchangedInOrder(variants[1..]); }
  }

  lemma UntouchedFormChangesNothing(form: Form, variants: seq<StoredVariant>, stock: map<Cell, int>, points: seq<PointId>)
    requires Submits(form, BuildVariantRows(variants, stock, points)) && ParsePrice(form.basePrice).Some?
    requires forall v :: v in variants ==> v.id != "" && TrimSpace(v.id) == v.id
    requires forall j, k :: 0 <= j < k < |variants| ==> variants[j].id != variants[k].id
    requires forall c :: c in stock ==> 0 <= stock[c] <= MAX_INT
    ensures var p := ParseProductForm(form, points);
      && p.input.stock == []
      && (p.errs == {} <==> forall v :: v in variants ==> Showable(v, stock, points))
      && (p.errs == {} ==> p.input.variants == seq(|variants|, j requires 0 <= j < |variants| => Unchanged(variants[j])))
  {
    UntouchedRows(form, variants, stock, points, 0, {});
    UnchangedInOrder(variants);
    assert variants[0..] == variants;
    hide ParseRows, Showable, ParsePrice, Submits, AllUnchanged, BuildVariantRows;
  }
}
