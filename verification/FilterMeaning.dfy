/** What the filters of a query ask of a row, said without the compiler's terms. */
module FilterMeaning {
  import opened Text
  import opened Rows
  import opened SqlParams
  import opened Filters

  // -------------------------------------------------------- keys and columns

  /** A key that ends like a bound, something on one line before it. */
  predicate IsEdgeKey(k: string, suffix: string) {
    && |k| > |suffix| && k[|k| - |suffix|..] == suffix
    && forall i :: 0 <= i < |k| - |suffix| ==> k[i] != '\n' && k[i] != '\r' && k[i] != '\U{2028}' && k[i] != '\U{2029}'
  }

  predicate MayFilter(cols: Columns, k: string) {
    exists i :: 0 <= i < |cols| && cols[i].key == k && cols[i].filterable
  }

  /** The first column with the key is of this type. */
  predicate IsOfKind(cols: Columns, k: string, kind: ColumnType) {
    exists i :: 0 <= i < |cols| && cols[i].key == k && cols[i].kind == kind && forall j :: 0 <= j < i ==> cols[j].key != k
  }

  lemma {:induction false} KindIsFirst(cols: Columns, k: string, kind: ColumnType)
    ensures KindOf(cols, k) == Some(kind) <==> IsOfKind(cols, k, kind)
  {
    if cols != [] {
      KindIsFirst(cols[1..], k, kind);
      if i :| 0 <= i < |cols| && cols[i].key == k && cols[i].kind == kind && forall j :: 0 <= j < i ==> cols[j].key != k {
        if i > 0 {
          assert cols[1..][i - 1] == cols[i] && cols[0].key != k;
        }
      }
      if cols[0].key != k && IsOfKind(cols[1..], k, kind) {
        var i :| 0 <= i < |cols[1..]| && cols[1..][i].key == k && cols[1..][i].kind == kind
                 && forall j :: 0 <= j < i ==> cols[1..][j].key != k;
        assert cols[i + 1] == cols[1..][i];
        assert forall j :: 1 <= j < i + 1 ==> cols[j] == cols[1..][j - 1];
      }
    }
  }

  lemma MayFilterIsFilterable(cols: Columns, k: string)
    ensures MayFilter(cols, k) <==> IsFilterable(cols, k)
  {
    if MayFilter(cols, k) {
      var i :| 0 <= i < |cols| && cols[i].key == k && cols[i].filterable;
      assert cols[i] in cols;
    }
  }

  // --------------------------------------------------------- what is asked

  /** The state the grid shows: an error first, then a send, then the two waiting states. */
  predicate ShownAs(r: Row, v: string) {
    if (r.writeError.Some? && r.writeError.value != "") || r.writeStatus == Some(Failed) then v == "error"
    else if r.writeStatus == Some(Sent) || r.status == Some("pending") then v == "sent"
    else (r.status == Some("revisado") && v == "review") || (r.status == Some("queued") && v == "queued")
  }

  /** The column's text as a time: an ISO date, or milliseconds. */
  predicate IsTime(e: Casts, o: Option<string>, t: int) {
    o.Some? &&
    if e.matches(o.value, @"^\d{4}-\d{2}-\d{2}([T ]\d{2}:\d{2}(:\d{2})?(\.\d+)?(Z|[+-]\d{2}:?\d{2})?)?$") then e.time(o.value) == Some(t)
    else e.matches(o.value, @"^\d+$") && e.millis(o.value) == Some(t)
  }

  ghost predicate NotBefore(e: Casts, o: Option<string>, bound: string) {
    exists t: int, b: int :: IsTime(e, o, t) && e.time(bound) == Some(b) && t >= b
  }

  ghost predicate NotAfter(e: Casts, o: Option<string>, bound: string) {
    exists t: int, b: int :: IsTime(e, o, t) && e.time(bound) == Some(b) && t <= b
  }

  /** A value against a column's text, by the column's type. */
  predicate ColumnMatches(isNumber: bool, isBoolean: bool, num: Option<real>, v: string, e: Casts, o: Option<string>) {
    if v == "__null__" then o.None? || o.value == ""
    else if isNumber then o.Some? && num.Some? && e.numeric(o.value) == num
    else if isBoolean then o.Some? && e.boolean(o.value) == Some(v == "true")
    else o.Some? && IsSubstring(Lower(v), Lower(o.value))
  }

  /** The row has what one filter asks for; a filter without a value, or on nothing filterable, asks nothing. */
  ghost predicate Wanted(cols: Columns, number: Number, f: Filter, e: Casts, r: Stored) {
    if f.value == "" then true
    else if f.key == "_writeStatus" then ShownAs(r.row, f.value)
    else if f.key == "_submissionStatus" then r.row.status == Some(f.value)
    else if f.key == "_updatedAt_from" then e.time(f.value).Some? && r.updatedAt >= e.time(f.value).value
    else if f.key == "_updatedAt_until" then e.time(f.value).Some? && r.updatedAt <= e.time(f.value).value
    else if IsEdgeKey(f.key, "_from") then
      var base := f.key[..|f.key| - 5];
      MayFilter(cols, base) && IsOfKind(cols, base, DateColumn) ==> NotBefore(e, TextAt(r.row.data, base), f.value)
    else if IsEdgeKey(f.key, "_until") then
      var base := f.key[..|f.key| - 6];
      MayFilter(cols, base) && IsOfKind(cols, base, DateColumn) ==> NotAfter(e, TextAt(r.row.data, base), f.value)
    else
      MayFilter(cols, f.key) ==>
        ColumnMatches(IsOfKind(cols, f.key, NumberColumn), IsOfKind(cols, f.key, BooleanColumn), number(f.value), f.value, e,
                      TextAt(r.row.data, f.key))
  }

  // ----------------------------------------------------------- the same thing

  lemma EdgeKeysAreRanges(k: string)
    ensures RangeOf(k) == if IsEdgeKey(k, "_from") then Some((k[..|k| - 5], From))
                          else if IsEdgeKey(k, "_until") then Some((k[..|k| - 6], Until)) else None
  {
    EndsWithIsEdge(k, "_from");
    EndsWithIsEdge(k, "_until");
  }

  lemma EndsWithIsEdge(k: string, suffix: string)
    ensures EndsWith(k, suffix) <==> IsEdgeKey(k, suffix)
  {
    if |k| > |suffix| {
      var base := k[..|k| - |suffix|];
      if forall c :: c in base ==> IsDot(c) {
        forall i | 0 <= i < |base|
          ensures IsDot(k[i])
        {
          assert base[i] in base;
        }
      }
    }
  }

  lemma TimesAreDates(e: Casts, o: Option<string>, t: int)
    ensures DateOf(e, o) == (false, Some(t)) <==> IsTime(e, o, t)
  {
  }

  lemma BoundsHold(e: Casts, o: Option<string>, bound: string)
    ensures BoundVerdict(e, From, DateOf(e, o), bound) == Holds <==> NotBefore(e, o, bound)
    ensures BoundVerdict(e, Until, DateOf(e, o), bound) == Holds <==> NotAfter(e, o, bound)
  {
    if DateOf(e, o).1.Some? {
      TimesAreDates(e, o, DateOf(e, o).1.value);
    }
    forall t | IsTime(e, o, t)
      ensures DateOf(e, o) == (false, Some(t))
    {
      TimesAreDates(e, o, t);
    }
  }

  lemma TextsMatch(kind: Option<ColumnType>, num: Option<real>, v: string, e: Casts, o: Option<string>)
    requires v != NULL_FILTER_VALUE && kind != Some(NumberColumn) && kind != Some(BooleanColumn)
    ensures PlainMeaning(kind, num, v, e, o) == Holds <==> ColumnMatches(false, false, num, v, e, o)
  {
    var contains := o.Some? && IsSubstring(Lower(v), Lower(o.value));
    assert PlainMeaning(kind, num, v, e, o) == Check(contains);
    assert ColumnMatches(false, false, num, v, e, o) == contains;
  }

  lemma TypedMatch(kind: Option<ColumnType>, num: Option<real>, v: string, e: Casts, o: Option<string>)
    requires v == NULL_FILTER_VALUE || kind == Some(NumberColumn) || kind == Some(BooleanColumn)
    ensures PlainMeaning(kind, num, v, e, o) == Holds
            <==> ColumnMatches(kind == Some(NumberColumn), kind == Some(BooleanColumn), num, v, e, o)
  {
  }

  lemma ColumnsMatch(kind: Option<ColumnType>, num: Option<real>, v: string, e: Casts, o: Option<string>)
    ensures PlainMeaning(kind, num, v, e, o) == Holds
            <==> ColumnMatches(kind == Some(NumberColumn), kind == Some(BooleanColumn), num, v, e, o)
  {
    if v == NULL_FILTER_VALUE || kind == Some(NumberColumn) || kind == Some(BooleanColumn) {
      TypedMatch(kind, num, v, e, o);
    } else {
      TextsMatch(kind, num, v, e, o);
    }
  }

  lemma WantedOfReserved(cols: Columns, number: Number, f: Filter, e: Casts, r: Stored)
    requires f.key in RESERVED && f.value != ""
    ensures Wanted(cols, number, f, e, r) <==> Meaning(cols, number, f, e, r) == Holds
  {
  }

  lemma WantedOfEdge(cols: Columns, number: Number, f: Filter, base: string, edge: Edge, e: Casts, r: Stored)
    requires f.key !in RESERVED && f.value != "" && RangeOf(f.key) == Some((base, edge))
    ensures Wanted(cols, number, f, e, r)
            <==> (MayFilter(cols, base) && IsOfKind(cols, base, DateColumn) ==>
                    BoundVerdict(e, edge, DateOf(e, TextAt(r.row.data, base)), f.value) == Holds)
  {
    EdgeKeysAreRanges(f.key);
    BoundsHold(e, TextAt(r.row.data, base), f.value);
  }

  lemma WantedOfColumn(cols: Columns, number: Number, f: Filter, e: Casts, r: Stored)
    requires f.key !in RESERVED && f.value != "" && RangeOf(f.key).None?
    ensures Wanted(cols, number, f, e, r)
            <==> (MayFilter(cols, f.key) ==>
                    PlainMeaning(KindOf(cols, f.key), number(f.value), f.value, e, TextAt(r.row.data, f.key)) == Holds)
  {
    EdgeKeysAreRanges(f.key);
    KindIsFirst(cols, f.key, NumberColumn);
    KindIsFirst(cols, f.key, BooleanColumn);
    ColumnsMatch(KindOf(cols, f.key), number(f.value), f.value, e, TextAt(r.row.data, f.key));
  }

  lemma WantedIsMeant(cols: Columns, number: Number, f: Filter, e: Casts, r: Stored)
    ensures Wanted(cols, number, f, e, r) <==> (IsActive(cols, f) ==> Meaning(cols, number, f, e, r) == Holds)
  {
    if f.value != "" {
      if f.key in RESERVED {
        WantedOfReserved(cols, number, f, e, r);
      } else if RangeOf(f.key).Some? {
        var (base, edge) := RangeOf(f.key).value;
        WantedOfEdge(cols, number, f, base, edge, e, r);
        MayFilterIsFilterable(cols, base);
        KindIsFirst(cols, base, DateColumn);
      } else {
        WantedOfColumn(cols, number, f, e, r);
        MayFilterIsFilterable(cols, f.key);
      }
    }
  }

  /** Main result: a statement selects exactly the connection's rows of the table that have what every filter asks for. */
  lemma SelectsWhatIsWanted(s: Select, tableKey: string, connection: string, cols: Columns, number: Number,
                            filters: seq<Filter>, order: seq<Filter>, e: Casts, r: Stored)
    requires Asks(s, tableKey, connection, cols, number, filters, order)
    ensures Selects(s, e, r)
            <==> r.tableKey == tableKey && r.row.conn == connection && forall f :: f in filters ==> Wanted(cols, number, f, e, r)
  {
    SelectsWhatWasAsked(s, tableKey, connection, cols, number, filters, order, e, r);
    forall f | f in filters
      ensures Wanted(cols, number, f, e, r) <==> (IsActive(cols, f) ==> Meaning(cols, number, f, e, r) == Holds)
    {
      WantedIsMeant(cols, number, f, e, r);
    }
  }
}
