/**
 * Filters on a table's own columns: exactly when the compiled conjunct of a filter
 * asks for the rows whose column matches its value.
 */
module ColumnFilters {
  import opened Text
  import opened Rows
  import opened Filters

  /** What a filter on a column asks of a row: the column's text against the value, by the column's type. */
  ghost predicate ColumnPasses(cols: Columns, number: Number, f: Filter, e: Casts, r: Stored) {
    PlainMeaning(KindOf(cols, f.key), number(f.value), f.value, e, TextAt(r.row.data, f.key)) == Holds
  }

  /** Compiled alone, the filter selects the row exactly when its column passes. */
  ghost predicate Honours(cols: Columns, number: Number, f: Filter,
                          ps: seq<SqlValue>, cs: seq<Sql>, order: seq<Filter>, e: Casts, r: Stored) {
    Compiled(cols, number, [f], ps, cs, order) ==> (AllHold(cs, ps, e, r) <==> ColumnPasses(cols, number, f, e, r))
  }

  /** Every filter with a value on a filterable column is honoured, whatever is emitted for it, on every row. */
  ghost predicate ColumnFiltersHonoured(cols: Columns, number: Number) {
    forall f: Filter, ps, cs, order, e, r :: IsFilterable(cols, f.key) && f.value != "" ==> Honours(cols, number, f, ps, cs, order, e, r)
  }

  /** Neither the key of a physical column nor one that ends like an edge of a date range. */
  predicate PlainKey(k: string) {
    k !in RESERVED && RangeOf(k).None?
  }

  lemma OneFilter(cols: Columns, number: Number, f: Filter, ps: seq<SqlValue>, cs: seq<Sql>, order: seq<Filter>, e: Casts, r: Stored)
    requires Compiled(cols, number, [f], ps, cs, order)
    ensures AllHold(cs, ps, e, r) <==> (IsActive(cols, f) ==> Meaning(cols, number, f, e, r) == Holds)
  {
    CompiledFiltersKeepMeaning(cols, number, [f], ps, cs, order, e, r);
    assert f in [f];
  }

  lemma PlainKeyIsHonoured(cols: Columns, number: Number, f: Filter,
                           ps: seq<SqlValue>, cs: seq<Sql>, order: seq<Filter>, e: Casts, r: Stored)
    requires IsFilterable(cols, f.key) && f.value != "" && PlainKey(f.key)
    ensures Honours(cols, number, f, ps, cs, order, e, r)
  {
    if Compiled(cols, number, [f], ps, cs, order) {
      OneFilter(cols, number, f, ps, cs, order, e, r);
    }
  }

  // ---------------------------------------------------------- other keys

  const NO_CASTS: Casts := Casts(_ => None, _ => None, _ => None, _ => None, (_, _) => false)

  /** A row with no data, never sent. */
  const BLANK: Stored := Stored("", NewRow("", map[], 0), 0)

  lemma EmitReserved(cols: Columns, number: Number, f: Filter) returns (q: Sql)
    requires f.key in RESERVED
    ensures Says(cols, number, [SqlText(f.value)], q, f)
  {
    var ps := [SqlText(f.value)];
    if f.key == "_writeStatus" {
      StatusSays(cols, number, ps, f, 1);
      q := StatusIs(1);
    } else if f.key == "_submissionStatus" {
      SubmissionSays(cols, number, ps, f, 1);
      q := SubmissionIs(1);
    } else {
      var edge := if f.key == "_updatedAt_from" then From else Until;
      UpdatedSays(cols, number, ps, f, edge, 1);
      q := UpdatedBound(edge, 1);
    }
  }

  lemma EmitRange(cols: Columns, number: Number, f: Filter) returns (ps: seq<SqlValue>, q: Sql)
    requires ActiveRange(cols, f).Some?
    ensures Says(cols, number, ps, q, f)
  {
    var (base, edge) := ActiveRange(cols, f).value;
    ps := [SqlText(base), SqlText(ISO_DATETIME_RE), SqlText(f.value)];
    RangeSays(cols, number, ps, f, base, edge, 1, 2, 3);
    q := DateBound(edge, 1, 2, 3);
  }

  /** A filter for rows without a value on such a key asks something else of the row without data. */
  lemma BlankRowFails(cols: Columns, number: Number, k: string)
    requires !PlainKey(k)
    ensures var f := Filter(k, NULL_FILTER_VALUE);
            Meaning(cols, number, f, NO_CASTS, BLANK) != Holds && ColumnPasses(cols, number, f, NO_CASTS, BLANK)
  {
  }

  lemma MisreadKey(cols: Columns, number: Number, f: Filter, ps: seq<SqlValue>, q: Sql)
    requires IsFilterable(cols, f.key) && !PlainKey(f.key) && f.value == NULL_FILTER_VALUE
    requires IsActive(cols, f) && Says(cols, number, ps, q, f)
    ensures !Honours(cols, number, f, ps, [q], [f], NO_CASTS, BLANK)
  {
    assert Pairs(cols, number, ps, [q], [f]);
    OneFilter(cols, number, f, ps, [q], [f], NO_CASTS, BLANK);
    BlankRowFails(cols, number, f.key);
  }

  lemma DroppedKey(cols: Columns, number: Number, f: Filter)
    requires !IsActive(cols, f) && f.value == "x"
    ensures !Honours(cols, number, f, [], [], [], NO_CASTS, BLANK)
  {
    assert Compiled(cols, number, [f], [], [], []);
  }

  lemma OtherKeyIsNotHonoured(cols: Columns, number: Number, k: string)
    requires IsFilterable(cols, k) && !PlainKey(k)
    ensures !ColumnFiltersHonoured(cols, number)
  {
    var f := Filter(k, NULL_FILTER_VALUE);
    if k in RESERVED {
      var q := EmitReserved(cols, number, f);
      MisreadKey(cols, number, f, [SqlText(f.value)], q);
    } else if ActiveRange(cols, f).Some? {
      var ps, q := EmitRange(cols, number, f);
      MisreadKey(cols, number, f, ps, q);
    } else {
      DroppedKey(cols, number, Filter(k, "x"));
    }
  }

  /**
   * Main result: every filter on a table's columns selects by its column exactly when no
   * filterable column has the key of a physical column or one that ends like a range edge.
   */
  lemma HonouredIffPlainKeys(cols: Columns, number: Number)
    ensures ColumnFiltersHonoured(cols, number) <==> forall k :: IsFilterable(cols, k) ==> PlainKey(k)
  {
    if forall k :: IsFilterable(cols, k) ==> PlainKey(k) {
      forall f: Filter, ps, cs, order, e, r | IsFilterable(cols, f.key) && f.value != ""
        ensures Honours(cols, number, f, ps, cs, order, e, r)
      {
        PlainKeyIsHonoured(cols, number, f, ps, cs, order, e, r);
      }
    } else {
      var k :| IsFilterable(cols, k) && !PlainKey(k);
      OtherKeyIsNotHonoured(cols, number, k);
    }
  }

  lemma ValidFromEndsLikeAnEdge()
    ensures RangeOf("valid_from") == Some(("valid", From)) && "valid_from" !in RESERVED
  {
    assert "valid_from"[5..] == "_from" && "valid_from"[..5] == "valid";
  }

  lemma HasMember(order: seq<Filter>)
    ensures order != [] ==> exists f :: f in order
  {
    if order != [] {
      assert order[0] in order;
    }
  }

  /** A date column `valid_from`: its filter emits nothing that fails, and rows without the column are selected. */
  lemma ValidFromIsDropped(number: Number, v: string, ps: seq<SqlValue>, cs: seq<Sql>, order: seq<Filter>, e: Casts, r: Stored)
    requires v != "" && v != NULL_FILTER_VALUE && "valid_from" !in r.row.data
    requires Compiled([ColumnDef("valid_from", DateColumn, true)], number, [Filter("valid_from", v)], ps, cs, order)
    ensures cs == [] && AllHold(cs, ps, e, r)
    ensures !ColumnPasses([ColumnDef("valid_from", DateColumn, true)], number, Filter("valid_from", v), e, r)
  {
    var cols, f := [ColumnDef("valid_from", DateColumn, true)], Filter("valid_from", v);
    ValidFromEndsLikeAnEdge();
    assert !IsActive(cols, f);
    HasMember(order);
  }
}
