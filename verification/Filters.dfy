/**
 * The filter compiler: a map of column filters becomes conjuncts over numbered
 * parameters, which must select the rows the filters mean.
 */
module Filters {
  import opened Rows
  import opened SqlParams
  import opened Text

  // --------------------------------------------------- the SQL it is written in

  datatype SqlValue = SqlNull | SqlBool(b: bool) | SqlText(s: string) | SqlNum(x: real) | SqlTime(t: int) | SqlError

  datatype SqlType = Numeric | Boolean | Timestamptz

  datatype Op = Eq | Ne | Ge | Le

  datatype Sql =
    | Param(n: nat)
    | Column(name: string)
    | Literal(v: SqlValue)
    | DataText(key: Sql)
    | Cast(e: Sql, to: SqlType)
    | EpochMillis(e: Sql)
    | Compare(op: Op, a: Sql, b: Sql)
    | IsNull(e: Sql)
    | Not(e: Sql)
    | Or(a: Sql, b: Sql)
    | And(a: Sql, b: Sql)
    | ILike(a: Sql, pattern: Sql)
    | Matches(a: Sql, re: Sql)
    | When(cond: Sql, result: Sql, otherwise: Sql)

  /** A row of `table_rows` as a query sees it. */
  datatype Stored = Stored(tableKey: string, row: Row, updatedAt: int)

  /** The database's text casts and regular expressions; None where the cast raises. */
  datatype Casts = Casts(
    numeric: string -> Option<real>,
    boolean: string -> Option<bool>,
    time: string -> Option<int>,
    millis: string -> Option<int>,
    matches: (string, string) -> bool)

  function TextOrNull(o: Option<string>): SqlValue {
    match o case Some(s) => SqlText(s) case None => SqlNull
  }

  function ColumnValue(r: Stored, name: string): SqlValue {
    if name == "table_key" then SqlText(r.tableKey)
    else if name == "connection_id" then SqlText(r.row.conn)
    else if name == "submission_status" then TextOrNull(r.row.status)
    else if name == "write_error" then TextOrNull(r.row.writeError)
    else if name == "write_status" then
      match r.row.writeStatus case Some(Sent) => SqlText("sent") case Some(Failed) => SqlText("error") case None => SqlNull
    else if name == "updated_at" then SqlTime(r.updatedAt)
    else SqlError
  }

  function CompareValues(op: Op, a: SqlValue, b: SqlValue): SqlValue {
    if a.SqlError? || b.SqlError? then SqlError
    else if a.SqlNull? || b.SqlNull? then SqlNull
    else if op.Eq? then SqlBool(a == b)
    else if op.Ne? then SqlBool(a != b)
    else if a.SqlTime? && b.SqlTime? then SqlBool(if op.Ge? then a.t >= b.t else a.t <= b.t)
    else SqlError
  }

  function CastValue(e: Casts, v: SqlValue, to: SqlType): SqlValue {
    match v
    case SqlText(s) =>
      (match to
       case Numeric => (match e.numeric(s) case Some(x) => SqlNum(x) case None => SqlError)
       case Boolean => (match e.boolean(s) case Some(b) => SqlBool(b) case None => SqlError)
       case Timestamptz => (match e.time(s) case Some(t) => SqlTime(t) case None => SqlError))
    case SqlNull => SqlNull
    case _ => SqlError
  }

  function MillisValue(e: Casts, v: SqlValue): SqlValue {
    match v
    case SqlText(s) => (match e.millis(s) case Some(t) => SqlTime(t) case None => SqlError)
    case SqlNull => SqlNull
    case _ => SqlError
  }

  function NotValue(a: SqlValue): SqlValue {
    match a case SqlBool(b) => SqlBool(!b) case SqlNull => SqlNull case _ => SqlError
  }

  /** Three-valued `AND`; a raised error is never lost. */
  function AndValue(a: SqlValue, b: SqlValue): SqlValue {
    if !(a.SqlBool? || a.SqlNull?) || !(b.SqlBool? || b.SqlNull?) then SqlError
    else if a == SqlBool(false) || b == SqlBool(false) then SqlBool(false)
    else if a.SqlNull? || b.SqlNull? then SqlNull
    else SqlBool(true)
  }

  function OrValue(a: SqlValue, b: SqlValue): SqlValue {
    if !(a.SqlBool? || a.SqlNull?) || !(b.SqlBool? || b.SqlNull?) then SqlError
    else if a == SqlBool(true) || b == SqlBool(true) then SqlBool(true)
    else if a.SqlNull? || b.SqlNull? then SqlNull
    else SqlBool(false)
  }

  /** Case folding is ASCII here, on both sides. */
  predicate ILikes(t: string, pattern: string) {
    Like(Lower(t), Lower(pattern))
  }

  function TextTest(a: SqlValue, b: SqlValue, test: (string, string) -> bool): SqlValue {
    if a.SqlText? && b.SqlText? then SqlBool(test(a.s, b.s))
    else if a.SqlError? || b.SqlError? then SqlError
    else if a.SqlNull? || b.SqlNull? then SqlNull
    else SqlError
  }

  /** The value of an expression on a row, `$n` standing for the n-th parameter. */
  function Eval(q: Sql, ps: seq<SqlValue>, e: Casts, r: Stored): SqlValue {
    match q
    case Param(n) => if 1 <= n <= |ps| then ps[n - 1] else SqlError
    case Column(name) => ColumnValue(r, name)
    case Literal(v) => v
    case DataText(k) =>
      (match Eval(k, ps, e, r) case SqlText(s) => TextOrNull(TextAt(r.row.data, s)) case SqlNull => SqlNull case _ => SqlError)
    case Cast(x, to) => CastValue(e, Eval(x, ps, e, r), to)
    case EpochMillis(x) => MillisValue(e, Eval(x, ps, e, r))
    case Compare(op, a, b) => CompareValues(op, Eval(a, ps, e, r), Eval(b, ps, e, r))
    case IsNull(x) => var v := Eval(x, ps, e, r); if v.SqlError? then SqlError else SqlBool(v.SqlNull?)
    case Not(x) => NotValue(Eval(x, ps, e, r))
    case Or(a, b) => OrValue(Eval(a, ps, e, r), Eval(b, ps, e, r))
    case And(a, b) => AndValue(Eval(a, ps, e, r), Eval(b, ps, e, r))
    case ILike(a, p) => TextTest(Eval(a, ps, e, r), Eval(p, ps, e, r), ILikes)
    case Matches(a, re) => TextTest(Eval(a, ps, e, r), Eval(re, ps, e, r), e.matches)
    case When(c, x, y) =>
      (match Eval(c, ps, e, r)
       case SqlBool(b) => if b then Eval(x, ps, e, r) else Eval(y, ps, e, r)
       case SqlNull => Eval(y, ps, e, r)
       case _ => SqlError)
  }

  /** Every placeholder lies within the first `n` parameters. */
  predicate Closed(q: Sql, n: nat) {
    match q
    case Param(k) => 1 <= k <= n
    case Column(_) => true
    case Literal(_) => true
    case DataText(k) => Closed(k, n)
    case Cast(x, _) => Closed(x, n)
    case EpochMillis(x) => Closed(x, n)
    case Compare(_, a, b) => Closed(a, n) && Closed(b, n)
    case IsNull(x) => Closed(x, n)
    case Not(x) => Closed(x, n)
    case Or(a, b) => Closed(a, n) && Closed(b, n)
    case And(a, b) => Closed(a, n) && Closed(b, n)
    case ILike(a, p) => Closed(a, n) && Closed(p, n)
    case Matches(a, re) => Closed(a, n) && Closed(re, n)
    case When(c, x, y) => Closed(c, n) && Closed(x, n) && Closed(y, n)
  }

  /** Main result: parameters pushed later never change what an earlier placeholder denotes. */
  lemma {:induction false} LaterPushesChangeNothing(q: Sql, ps: seq<SqlValue>, more: seq<SqlValue>, e: Casts, r: Stored)
    requires Closed(q, |ps|)
    ensures Closed(q, |ps + more|)
    ensures Eval(q, ps + more, e, r) == Eval(q, ps, e, r)
    decreases q
  {
    match q
    case Param(_) =>
    case Column(_) =>
    case Literal(_) =>
    case DataText(k) => LaterPushesChangeNothing(k, ps, more, e, r);
    case Cast(x, _) => LaterPushesChangeNothing(x, ps, more, e, r);
    case EpochMillis(x) => LaterPushesChangeNothing(x, ps, more, e, r);
    case Compare(_, a, b) => LaterPushesChangeNothing(a, ps, more, e, r); LaterPushesChangeNothing(b, ps, more, e, r);
    case IsNull(x) => LaterPushesChangeNothing(x, ps, more, e, r);
    case Not(x) => LaterPushesChangeNothing(x, ps, more, e, r);
    case Or(a, b) => LaterPushesChangeNothing(a, ps, more, e, r); LaterPushesChangeNothing(b, ps, more, e, r);
    case And(a, b) => LaterPushesChangeNothing(a, ps, more, e, r); LaterPushesChangeNothing(b, ps, more, e, r);
    case ILike(a, p) => LaterPushesChangeNothing(a, ps, more, e, r); LaterPushesChangeNothing(p, ps, more, e, r);
    case Matches(a, re) => LaterPushesChangeNothing(a, ps, more, e, r); LaterPushesChangeNothing(re, ps, more, e, r);
    case When(c, x, y) =>
      LaterPushesChangeNothing(c, ps, more, e, r);
      LaterPushesChangeNothing(x, ps, more, e, r);
      LaterPushesChangeNothing(y, ps, more, e, r);
  }

  // --------------------------------------------------------- what filters mean

  datatype ColumnType = StringColumn | NumberColumn | DateColumn | BooleanColumn | JsonColumn

  datatype ColumnDef = ColumnDef(key: string, kind: ColumnType, filterable: bool)

  type Columns = seq<ColumnDef>

  datatype Filter = Filter(key: string, value: string)

  /** JavaScript's `Number(text)`; None for NaN. */
  type Number = string -> Option<real>

  datatype Edge = From | Until

  const NULL_FILTER_VALUE := "__null__"
  const ISO_DATETIME_RE := @"^\d{4}-\d{2}-\d{2}([T ]\d{2}:\d{2}(:\d{2})?(\.\d+)?(Z|[+-]\d{2}:?\d{2})?)?$"
  const DIGITS_RE := @"^\d+$"
  const RESERVED := {"_writeStatus", "_submissionStatus", "_updatedAt_from", "_updatedAt_until"}

  predicate IsFilterable(cols: Columns, k: string) {
    exists c :: c in cols && c.key == k && c.filterable
  }

  /** The type of the first column with that key. */
  function KindOf(cols: Columns, k: string): Option<ColumnType> {
    if cols == [] then None
    else if cols[0].key == k then Some(cols[0].kind)
    else KindOf(cols[1..], k)
  }

  function Suffix(edge: Edge): string {
    match edge case From => "_from" case Until => "_until"
  }

  /** What the dot of a regular expression matches. */
  predicate IsDot(c: char) {
    c != '\n' && c != '\r' && c != '\U{2028}' && c != '\U{2029}'
  }

  predicate EndsWith(k: string, suffix: string) {
    |k| > |suffix| && k[|k| - |suffix|..] == suffix && forall c :: c in k[..|k| - |suffix|] ==> IsDot(c)
  }

  /** `^(.+)_(from|until)$`. */
  function RangeOf(k: string): Option<(string, Edge)> {
    if EndsWith(k, "_from") then Some((k[..|k| - 5], From))
    else if EndsWith(k, "_until") then Some((k[..|k| - 6], Until))
    else None
  }

  /** The column and bound of a date range filter that takes part. */
  function ActiveRange(cols: Columns, f: Filter): Option<(string, Edge)> {
    if f.value == "" || f.key in RESERVED then None
    else match RangeOf(f.key)
         case Some((base, edge)) => if IsFilterable(cols, base) && KindOf(cols, base) == Some(DateColumn) then Some((base, edge)) else None
         case None => None
  }

  /** The filters turned into a conjunct as they are met. */
  predicate IsDirect(cols: Columns, f: Filter) {
    f.value != "" && (f.key in RESERVED || (RangeOf(f.key).None? && IsFilterable(cols, f.key)))
  }

  predicate IsActive(cols: Columns, f: Filter) {
    IsDirect(cols, f) || ActiveRange(cols, f).Some?
  }

  datatype Verdict = Holds | Fails | Raises

  function Check(b: bool): Verdict {
    if b then Holds else Fails
  }

  /** The state the records grid paints. */
  function DerivedStatus(r: Row): Option<string> {
    if (r.writeError.Some? && r.writeError.value != "") || r.writeStatus == Some(Failed) then Some("error")
    else if r.writeStatus == Some(Sent) || r.status == Some("pending") then Some("sent")
    else if r.status == Some("revisado") then Some("review")
    else if r.status == Some("queued") then Some("queued")
    else None
  }

  function Within(edge: Edge, t: int, bound: int): bool {
    match edge case From => t >= bound case Until => t <= bound
  }

  /** A column's text as a date: None when it is absent or not a date, raising when it only looks like one. */
  function DateOf(e: Casts, s: Option<string>): (bool, Option<int>) {
    match s
    case None => (false, None)
    case Some(x) =>
      if e.matches(x, ISO_DATETIME_RE) then (e.time(x).None?, e.time(x))
      else if e.matches(x, DIGITS_RE) then (e.millis(x).None?, e.millis(x))
      else (false, None)
  }

  /** Whether a row passes one active filter, told from the filter itself. */
  function Meaning(cols: Columns, number: Number, f: Filter, e: Casts, r: Stored): Verdict {
    if f.key == "_writeStatus" then Check(DerivedStatus(r.row) == Some(f.value))
    else if f.key == "_submissionStatus" then Check(r.row.status == Some(f.value))
    else if f.key == "_updatedAt_from" then BoundVerdict(e, From, (false, Some(r.updatedAt)), f.value)
    else if f.key == "_updatedAt_until" then BoundVerdict(e, Until, (false, Some(r.updatedAt)), f.value)
    else match RangeOf(f.key)
         case Some((base, edge)) => BoundVerdict(e, edge, DateOf(e, TextAt(r.row.data, base)), f.value)
         case None => PlainMeaning(KindOf(cols, f.key), number(f.value), f.value, e, TextAt(r.row.data, f.key))
  }

  /** A filter on a column's text: empty, numerically equal, the same boolean, or containing the value. */
  function PlainMeaning(kind: Option<ColumnType>, num: Option<real>, value: string, e: Casts, text: Option<string>): Verdict {
    if value == NULL_FILTER_VALUE then Check(text.None? || text.value == "")
    else match kind
         case Some(NumberColumn) =>
           if num.None? || text.None? then Fails
           else if e.numeric(text.value).None? then Raises
           else Check(e.numeric(text.value) == num)
         case Some(BooleanColumn) =>
           if text.None? then Fails
           else if e.boolean(text.value).None? then Raises
           else Check(e.boolean(text.value) == Some(value == "true"))
         case _ => Check(text.Some? && IsSubstring(Lower(value), Lower(text.value)))
  }

  function BoundVerdict(e: Casts, edge: Edge, date: (bool, Option<int>), bound: string): Verdict {
    if date.0 || e.time(bound).None? then Raises
    else Check(date.1.Some? && Within(edge, date.1.value, e.time(bound).value))
  }

  function VerdictOf(v: SqlValue): Verdict {
    match v case SqlBool(b) => Check(b) case SqlNull => Fails case _ => Raises
  }

  /** The conjunct says of every row, under every cast, what the filter means. */
  ghost predicate Says(cols: Columns, number: Number, ps: seq<SqlValue>, q: Sql, f: Filter) {
    Closed(q, |ps|) && forall e: Casts, r: Stored :: VerdictOf(Eval(q, ps, e, r)) == Meaning(cols, number, f, e, r)
  }

  lemma SaysGrows(cols: Columns, number: Number, ps: seq<SqlValue>, more: seq<SqlValue>, q: Sql, f: Filter)
    requires Says(cols, number, ps, q, f)
    ensures Says(cols, number, ps + more, q, f)
  {
    forall e: Casts, r: Stored
      ensures Closed(q, |ps + more|)
      ensures VerdictOf(Eval(q, ps + more, e, r)) == Meaning(cols, number, f, e, r)
    {
      LaterPushesChangeNothing(q, ps, more, e, r);
    }
    ClosedGrows(q, |ps|, |ps + more|);
  }

  lemma {:induction q} ClosedGrows(q: Sql, n: nat, m: nat)
    requires Closed(q, n) && n <= m
    ensures Closed(q, m)
  {
  }

  // ------------------------------------------------------------ the conjuncts

  function TextCompare(op: Op, column: string, s: string): Sql {
    Compare(op, Column(column), Literal(SqlText(s)))
  }

  /** `WRITE_STATUS_CASE_SQL`, from its conditions to the whole. */
  const SENT_CONDITION: Sql := Or(TextCompare(Eq, "write_status", "sent"), TextCompare(Eq, "submission_status", "pending"))
  const ERROR_CONDITION: Sql :=
    Or(And(Not(IsNull(Column("write_error"))), TextCompare(Ne, "write_error", "")), TextCompare(Eq, "write_status", "error"))

  const STATUS_ARMS: Sql :=
    When(TextCompare(Eq, "submission_status", "revisado"),
         Literal(SqlText("review")),
    When(TextCompare(Eq, "submission_status", "queued"),
         Literal(SqlText("queued")),
         Literal(SqlNull)))

  const WRITE_STATUS_CASE: Sql :=
    When(ERROR_CONDITION, Literal(SqlText("error")), When(SENT_CONDITION, Literal(SqlText("sent")), STATUS_ARMS))

  /** `dateCastExpr`, for the parameters holding the key and the pattern. */
  function DateCast(key: nat, re: nat): Sql {
    When(Matches(DataText(Param(key)), Param(re)), Cast(DataText(Param(key)), Timestamptz),
    When(Matches(DataText(Param(key)), Literal(SqlText(DIGITS_RE))), EpochMillis(DataText(Param(key))),
         Literal(SqlNull)))
  }

  function EdgeOp(edge: Edge): Op {
    match edge case From => Ge case Until => Le
  }

  predicate Holding(ps: seq<SqlValue>, n: nat, v: SqlValue) {
    1 <= n <= |ps| && ps[n - 1] == v
  }

  /** SQL's three-valued `column = 'text'`. */
  function TextIs(o: Option<string>, s: string): SqlValue {
    match o case Some(x) => SqlBool(x == s) case None => SqlNull
  }

  function StatusText(w: Option<WriteStatus>): Option<string> {
    match w case Some(Sent) => Some("sent") case Some(Failed) => Some("error") case None => None
  }

  lemma EvalTextCompare(ps: seq<SqlValue>, e: Casts, r: Stored, s: string)
    ensures Eval(TextCompare(Eq, "submission_status", s), ps, e, r) == TextIs(r.row.status, s)
    ensures Eval(TextCompare(Eq, "write_status", s), ps, e, r) == TextIs(StatusText(r.row.writeStatus), s)
  {
    assert Eval(Column("submission_status"), ps, e, r) == TextOrNull(r.row.status);
    assert Eval(Column("write_status"), ps, e, r) == TextOrNull(StatusText(r.row.writeStatus));
    assert Eval(Literal(SqlText(s)), ps, e, r) == SqlText(s);
  }

  lemma EvalHasError(ps: seq<SqlValue>, e: Casts, r: Stored)
    ensures Eval(And(Not(IsNull(Column("write_error"))), TextCompare(Ne, "write_error", "")), ps, e, r)
         == SqlBool(r.row.writeError.Some? && r.row.writeError.value != "")
  {
    var c := Column("write_error");
    assert Eval(c, ps, e, r) == TextOrNull(r.row.writeError);
    assert Eval(Literal(SqlText("")), ps, e, r) == SqlText("");
    assert Eval(IsNull(c), ps, e, r) == SqlBool(r.row.writeError.None?);
    assert Eval(Not(IsNull(c)), ps, e, r) == SqlBool(r.row.writeError.Some?);
  }

  /** One arm of the status `CASE`, its condition's value being known. */
  lemma EvalArm(c: Sql, v: SqlValue, x: string, y: Sql, ps: seq<SqlValue>, e: Casts, r: Stored)
    requires Eval(c, ps, e, r) == v && (v.SqlBool? || v.SqlNull?)
    ensures Eval(When(c, Literal(SqlText(x)), y), ps, e, r) == if v == SqlBool(true) then SqlText(x) else Eval(y, ps, e, r)
  {
    assert Eval(Literal(SqlText(x)), ps, e, r) == SqlText(x);
  }

  lemma LastArmsEval(ps: seq<SqlValue>, e: Casts, r: Stored)
    ensures Eval(STATUS_ARMS, ps, e, r)
         == if r.row.status == Some("revisado") then SqlText("review")
            else if r.row.status == Some("queued") then SqlText("queued") else SqlNull
  {
    var queued := TextCompare(Eq, "submission_status", "queued");
    EvalTextCompare(ps, e, r, "revisado");
    EvalTextCompare(ps, e, r, "queued");
    EvalArm(queued, TextIs(r.row.status, "queued"), "queued", Literal(SqlNull), ps, e, r);
    EvalArm(TextCompare(Eq, "submission_status", "revisado"), TextIs(r.row.status, "revisado"), "review",
            When(queued, Literal(SqlText("queued")), Literal(SqlNull)), ps, e, r);
  }

  lemma EvalConditions(ps: seq<SqlValue>, e: Casts, r: Stored)
    ensures Eval(SENT_CONDITION, ps, e, r) == OrValue(TextIs(StatusText(r.row.writeStatus), "sent"), TextIs(r.row.status, "pending"))
    ensures Eval(ERROR_CONDITION, ps, e, r)
         == OrValue(SqlBool(r.row.writeError.Some? && r.row.writeError.value != ""), TextIs(StatusText(r.row.writeStatus), "error"))
  {
    EvalTextCompare(ps, e, r, "sent");
    EvalTextCompare(ps, e, r, "pending");
    EvalTextCompare(ps, e, r, "error");
    EvalHasError(ps, e, r);
  }

  lemma StatusCaseEval(ps: seq<SqlValue>, e: Casts, r: Stored)
    ensures Eval(WRITE_STATUS_CASE, ps, e, r) == TextOrNull(DerivedStatus(r.row))
  {
    LastArmsEval(ps, e, r);
    EvalConditions(ps, e, r);
    EvalArm(SENT_CONDITION, Eval(SENT_CONDITION, ps, e, r), "sent", STATUS_ARMS, ps, e, r);
    EvalArm(ERROR_CONDITION, Eval(ERROR_CONDITION, ps, e, r), "error",
            When(SENT_CONDITION, Literal(SqlText("sent")), STATUS_ARMS), ps, e, r);
  }

  // ---------------------------------------------- each conjunct says its filter

  function StatusIs(x: nat): Sql {
    Compare(Eq, WRITE_STATUS_CASE, Param(x))
  }

  function SubmissionIs(x: nat): Sql {
    Compare(Eq, Column("submission_status"), Param(x))
  }

  function UpdatedBound(edge: Edge, x: nat): Sql {
    Compare(EdgeOp(edge), Column("updated_at"), Cast(Param(x), Timestamptz))
  }

  function HasNoValue(k: nat, k': nat): Sql {
    Or(IsNull(DataText(Param(k))), Compare(Eq, DataText(Param(k')), Literal(SqlText(""))))
  }

  function NumberIs(k: nat, x: nat): Sql {
    Compare(Eq, Cast(DataText(Param(k)), Numeric), Param(x))
  }

  function BooleanIs(k: nat, x: nat): Sql {
    Compare(Eq, Cast(DataText(Param(k)), Boolean), Param(x))
  }

  function Contains(k: nat, x: nat): Sql {
    ILike(DataText(Param(k)), Param(x))
  }

  function DateBound(edge: Edge, k: nat, re: nat, x: nat): Sql {
    Compare(EdgeOp(edge), DateCast(k, re), Cast(Param(x), Timestamptz))
  }

  function Pattern(v: string): string {
    "%" + EscapeLike(v) + "%"
  }

  lemma EvalDataText(ps: seq<SqlValue>, k: nat, key: string, e: Casts, r: Stored)
    requires Holding(ps, k, SqlText(key))
    ensures Eval(DataText(Param(k)), ps, e, r) == TextOrNull(TextAt(r.row.data, key))
  {
    assert Eval(Param(k), ps, e, r) == SqlText(key);
  }

  lemma EvalBound(ps: seq<SqlValue>, x: nat, v: string, e: Casts, r: Stored)
    requires Holding(ps, x, SqlText(v))
    ensures Eval(Cast(Param(x), Timestamptz), ps, e, r) == match e.time(v) case Some(t) => SqlTime(t) case None => SqlError
  {
    assert Eval(Param(x), ps, e, r) == SqlText(v);
  }

  /** Every placeholder of a conjunct was pushed. */
  lemma ClosedLeaves(n: nat, k: nat, x: nat)
    requires 1 <= k <= n && 1 <= x <= n
    ensures Closed(DataText(Param(k)), n) && Closed(Cast(DataText(Param(k)), Numeric), n) && Closed(Cast(DataText(Param(k)), Boolean), n)
    ensures Closed(Param(x), n) && Closed(Cast(Param(x), Timestamptz), n)
  {
    assert Closed(Param(k), n);
  }

  lemma ClosedDateCast(n: nat, k: nat, re: nat)
    requires 1 <= k <= n && 1 <= re <= n
    ensures Closed(DateCast(k, re), n)
  {
    ClosedLeaves(n, k, re);
    assert Closed(Cast(DataText(Param(k)), Timestamptz), n) && Closed(EpochMillis(DataText(Param(k))), n);
    assert Closed(Matches(DataText(Param(k)), Literal(SqlText(DIGITS_RE))), n);
  }

  lemma ClosedText(n: nat, column: string)
    ensures forall op, s :: Closed(TextCompare(op, column, s), n)
  {
  }

  lemma ClosedStatusCase(n: nat)
    ensures Closed(WRITE_STATUS_CASE, n)
  {
    ClosedText(n, "write_error");
    ClosedText(n, "write_status");
    ClosedText(n, "submission_status");
    assert Closed(Not(IsNull(Column("write_error"))), n);
    assert Closed(And(Not(IsNull(Column("write_error"))), TextCompare(Ne, "write_error", "")), n);
    assert Closed(SENT_CONDITION, n) && Closed(ERROR_CONDITION, n);
    assert Closed(When(TextCompare(Eq, "submission_status", "queued"), Literal(SqlText("queued")), Literal(SqlNull)), n);
    assert Closed(STATUS_ARMS, n);
  }

  /** The value of the date expression. */
  function DateValue(d: (bool, Option<int>)): SqlValue {
    if d.0 then SqlError else match d.1 case Some(t) => SqlTime(t) case None => SqlNull
  }

  lemma EvalDateCast(ps: seq<SqlValue>, k: nat, re: nat, key: string, e: Casts, r: Stored)
    requires Holding(ps, k, SqlText(key)) && Holding(ps, re, SqlText(ISO_DATETIME_RE))
    ensures Eval(DateCast(k, re), ps, e, r) == DateValue(DateOf(e, TextAt(r.row.data, key)))
  {
    var text := DataText(Param(k));
    EvalDataText(ps, k, key, e, r);
    assert Eval(Param(re), ps, e, r) == SqlText(ISO_DATETIME_RE);
    assert Eval(Literal(SqlText(DIGITS_RE)), ps, e, r) == SqlText(DIGITS_RE);
    var digits := When(Matches(text, Literal(SqlText(DIGITS_RE))), EpochMillis(text), Literal(SqlNull));
    assert Eval(Literal(SqlNull), ps, e, r) == SqlNull;
    assert Eval(EpochMillis(text), ps, e, r) == MillisValue(e, TextOrNull(TextAt(r.row.data, key)));
    assert Eval(digits, ps, e, r) == match TextAt(r.row.data, key)
                                     case None => SqlNull
                                     case Some(s) => if e.matches(s, DIGITS_RE) then MillisValue(e, SqlText(s)) else SqlNull;
    assert Eval(Cast(text, Timestamptz), ps, e, r) == CastValue(e, TextOrNull(TextAt(r.row.data, key)), Timestamptz);
  }

  lemma CompareBound(edge: Edge, d: (bool, Option<int>), e: Casts, v: string)
    ensures VerdictOf(CompareValues(EdgeOp(edge), DateValue(d), match e.time(v) case Some(t) => SqlTime(t) case None => SqlError))
         == BoundVerdict(e, edge, d, v)
  {
  }

  lemma StatusSays(cols: Columns, number: Number, ps: seq<SqlValue>, f: Filter, x: nat)
    requires f.key == "_writeStatus" && Holding(ps, x, SqlText(f.value))
    ensures Says(cols, number, ps, StatusIs(x), f)
  {
    ClosedStatusCase(|ps|);
    forall e: Casts, r: Stored
      ensures VerdictOf(Eval(StatusIs(x), ps, e, r)) == Meaning(cols, number, f, e, r)
    {
      StatusCaseEval(ps, e, r);
      assert Eval(Param(x), ps, e, r) == SqlText(f.value);
    }
  }

  lemma SubmissionSays(cols: Columns, number: Number, ps: seq<SqlValue>, f: Filter, x: nat)
    requires f.key == "_submissionStatus" && Holding(ps, x, SqlText(f.value))
    ensures Says(cols, number, ps, SubmissionIs(x), f)
  {
    forall e: Casts, r: Stored
      ensures VerdictOf(Eval(SubmissionIs(x), ps, e, r)) == Meaning(cols, number, f, e, r)
    {
      assert Eval(Param(x), ps, e, r) == SqlText(f.value);
      assert Eval(Column("submission_status"), ps, e, r) == TextOrNull(r.row.status);
    }
  }

  function UpdatedKey(edge: Edge): string {
    match edge case From => "_updatedAt_from" case Until => "_updatedAt_until"
  }

  lemma UpdatedSays(cols: Columns, number: Number, ps: seq<SqlValue>, f: Filter, edge: Edge, x: nat)
    requires f.key == UpdatedKey(edge) && Holding(ps, x, SqlText(f.value))
    ensures Says(cols, number, ps, UpdatedBound(edge, x), f)
  {
    ClosedLeaves(|ps|, x, x);
    forall e: Casts, r: Stored
      ensures VerdictOf(Eval(UpdatedBound(edge, x), ps, e, r)) == Meaning(cols, number, f, e, r)
    {
      EvalBound(ps, x, f.value, e, r);
      assert Eval(Column("updated_at"), ps, e, r) == SqlTime(r.updatedAt);
      CompareBound(edge, (false, Some(r.updatedAt)), e, f.value);
    }
  }

  lemma RangeSays(cols: Columns, number: Number, ps: seq<SqlValue>, f: Filter, base: string, edge: Edge, k: nat, re: nat, x: nat)
    requires ActiveRange(cols, f) == Some((base, edge))
    requires Holding(ps, k, SqlText(base)) && Holding(ps, re, SqlText(ISO_DATETIME_RE)) && Holding(ps, x, SqlText(f.value))
    ensures Says(cols, number, ps, DateBound(edge, k, re, x), f)
  {
    ClosedLeaves(|ps|, k, x);
    ClosedDateCast(|ps|, k, re);
    forall e: Casts, r: Stored
      ensures VerdictOf(Eval(DateBound(edge, k, re, x), ps, e, r)) == Meaning(cols, number, f, e, r)
    {
      EvalBound(ps, x, f.value, e, r);
      EvalDateCast(ps, k, re, base, e, r);
      CompareBound(edge, DateOf(e, TextAt(r.row.data, base)), e, f.value);
    }
  }

  predicate IsPlain(cols: Columns, f: Filter) {
    f.key !in RESERVED && RangeOf(f.key).None?
  }

  lemma PlainSays(cols: Columns, number: Number, ps: seq<SqlValue>, q: Sql, f: Filter)
    requires IsPlain(cols, f) && Closed(q, |ps|)
    requires forall e: Casts, r: Stored ::
      VerdictOf(Eval(q, ps, e, r))
           == PlainMeaning(KindOf(cols, f.key), number(f.value), f.value, e, TextAt(r.row.data, f.key))
    ensures Says(cols, number, ps, q, f)
  {
  }

  lemma NoValueSays(cols: Columns, number: Number, ps: seq<SqlValue>, f: Filter, k: nat, k': nat)
    requires IsPlain(cols, f) && f.value == NULL_FILTER_VALUE
    requires Holding(ps, k, SqlText(f.key)) && Holding(ps, k', SqlText(f.key))
    ensures Says(cols, number, ps, HasNoValue(k, k'), f)
  {
    ClosedLeaves(|ps|, k, k');
    ClosedLeaves(|ps|, k', k');
    assert Closed(IsNull(DataText(Param(k))), |ps|) && Closed(Compare(Eq, DataText(Param(k')), Literal(SqlText(""))), |ps|);
    forall e: Casts, r: Stored
      ensures VerdictOf(Eval(HasNoValue(k, k'), ps, e, r))
           == PlainMeaning(KindOf(cols, f.key), number(f.value), f.value, e, TextAt(r.row.data, f.key))
    {
      EvalDataText(ps, k, f.key, e, r);
      EvalDataText(ps, k', f.key, e, r);
      assert Eval(Literal(SqlText("")), ps, e, r) == SqlText("");
    }
    PlainSays(cols, number, ps, HasNoValue(k, k'), f);
  }

  lemma NotANumberSays(cols: Columns, number: Number, ps: seq<SqlValue>, f: Filter)
    requires IsPlain(cols, f) && f.value != NULL_FILTER_VALUE && KindOf(cols, f.key) == Some(NumberColumn) && number(f.value).None?
    ensures Says(cols, number, ps, Literal(SqlBool(false)), f)
  {
  }

  lemma NumberSays(cols: Columns, number: Number, ps: seq<SqlValue>, f: Filter, k: nat, x: nat)
    requires IsPlain(cols, f) && f.value != NULL_FILTER_VALUE && KindOf(cols, f.key) == Some(NumberColumn) && number(f.value).Some?
    requires Holding(ps, k, SqlText(f.key)) && Holding(ps, x, SqlNum(number(f.value).value))
    ensures Says(cols, number, ps, NumberIs(k, x), f)
  {
    ClosedLeaves(|ps|, k, x);
    forall e: Casts, r: Stored
      ensures VerdictOf(Eval(NumberIs(k, x), ps, e, r))
           == PlainMeaning(KindOf(cols, f.key), number(f.value), f.value, e, TextAt(r.row.data, f.key))
    {
      EvalDataText(ps, k, f.key, e, r);
      assert Eval(Param(x), ps, e, r) == SqlNum(number(f.value).value);
    }
    PlainSays(cols, number, ps, NumberIs(k, x), f);
  }

  lemma BooleanSays(cols: Columns, number: Number, ps: seq<SqlValue>, f: Filter, k: nat, x: nat)
    requires IsPlain(cols, f) && f.value != NULL_FILTER_VALUE && KindOf(cols, f.key) == Some(BooleanColumn)
    requires Holding(ps, k, SqlText(f.key)) && Holding(ps, x, SqlBool(f.value == "true"))
    ensures Says(cols, number, ps, BooleanIs(k, x), f)
  {
    ClosedLeaves(|ps|, k, x);
    forall e: Casts, r: Stored
      ensures VerdictOf(Eval(BooleanIs(k, x), ps, e, r))
           == PlainMeaning(KindOf(cols, f.key), number(f.value), f.value, e, TextAt(r.row.data, f.key))
    {
      EvalDataText(ps, k, f.key, e, r);
      assert Eval(Param(x), ps, e, r) == SqlBool(f.value == "true");
    }
    PlainSays(cols, number, ps, BooleanIs(k, x), f);
  }

  lemma EvalContains(ps: seq<SqlValue>, k: nat, x: nat, key: string, v: string, e: Casts, r: Stored)
    requires Holding(ps, k, SqlText(key)) && Holding(ps, x, SqlText(Pattern(v)))
    ensures var text := TextAt(r.row.data, key);
            VerdictOf(Eval(Contains(k, x), ps, e, r)) == Check(text.Some? && IsSubstring(Lower(v), Lower(text.value)))
  {
    EvalDataText(ps, k, key, e, r);
    assert Eval(Param(x), ps, e, r) == SqlText(Pattern(v));
    var text := TextAt(r.row.data, key);
    assert Eval(Contains(k, x), ps, e, r) == TextTest(TextOrNull(text), SqlText(Pattern(v)), ILikes);
    if text.Some? {
      ContainsIffILike(text.value, v);
    }
  }

  lemma ContainsSays(cols: Columns, number: Number, ps: seq<SqlValue>, f: Filter, k: nat, x: nat)
    requires IsPlain(cols, f) && f.value != NULL_FILTER_VALUE && KindOf(cols, f.key) !in {Some(NumberColumn), Some(BooleanColumn)}
    requires Holding(ps, k, SqlText(f.key)) && Holding(ps, x, SqlText(Pattern(f.value)))
    ensures Says(cols, number, ps, Contains(k, x), f)
  {
    ClosedLeaves(|ps|, k, x);
    forall e: Casts, r: Stored
      ensures VerdictOf(Eval(Contains(k, x), ps, e, r))
           == PlainMeaning(KindOf(cols, f.key), number(f.value), f.value, e, TextAt(r.row.data, f.key))
    {
      EvalContains(ps, k, x, f.key, f.value, e, r);
    }
    PlainSays(cols, number, ps, Contains(k, x), f);
  }

  // ------------------------------------------------------------- the compiler

  ghost predicate Pairs(cols: Columns, number: Number, ps: seq<SqlValue>, cs: seq<Sql>, fs: seq<Filter>) {
    |cs| == |fs| && forall j :: 0 <= j < |cs| ==> Says(cols, number, ps, cs[j], fs[j])
  }

  lemma PairsGrow(cols: Columns, number: Number, ps: seq<SqlValue>, ps': seq<SqlValue>, cs: seq<Sql>, fs: seq<Filter>)
    requires Pairs(cols, number, ps, cs, fs) && ps <= ps'
    ensures Pairs(cols, number, ps', cs, fs)
  {
    assert ps' == ps + ps'[|ps|..];
    forall j | 0 <= j < |cs|
      ensures Says(cols, number, ps', cs[j], fs[j])
    {
      SaysGrows(cols, number, ps, ps'[|ps|..], cs[j], fs[j]);
    }
  }

  lemma PairsSnoc(cols: Columns, number: Number, ps: seq<SqlValue>, ps': seq<SqlValue>, cs: seq<Sql>, fs: seq<Filter>, q: Sql, f: Filter)
    requires Pairs(cols, number, ps, cs, fs) && ps <= ps' && Says(cols, number, ps', q, f)
    ensures Pairs(cols, number, ps', cs + [q], fs + [f])
  {
    PairsGrow(cols, number, ps, ps', cs, fs);
  }

  /** The conjunct of a filter on a physical column. */
  method CompileReserved(cols: Columns, number: Number, f: Filter, p: ParamList<SqlValue>) returns (q: Sql)
    requires f.key in RESERVED
    modifies p
    ensures old(p.values) <= p.values && Says(cols, number, p.values, q, f)
  {
    if f.key == "_writeStatus" {
      var x := p.Push(SqlText(f.value));
      StatusSays(cols, number, p.values, f, x);
      return StatusIs(x);
    }
    if f.key == "_submissionStatus" {
      var x := p.Push(SqlText(f.value));
      SubmissionSays(cols, number, p.values, f, x);
      return SubmissionIs(x);
    }
    if f.key == "_updatedAt_from" {
      var x := p.Push(SqlText(f.value));
      UpdatedSays(cols, number, p.values, f, From, x);
      return UpdatedBound(From, x);
    }
    var x := p.Push(SqlText(f.value));
    UpdatedSays(cols, number, p.values, f, Until, x);
    return UpdatedBound(Until, x);
  }

  /** The conjunct of a filter on a column's text. */
  method CompilePlain(cols: Columns, number: Number, f: Filter, p: ParamList<SqlValue>) returns (q: Sql)
    requires IsPlain(cols, f)
    modifies p
    ensures old(p.values) <= p.values && Says(cols, number, p.values, q, f)
  {
    var kind := KindOf(cols, f.key);
    if f.value == NULL_FILTER_VALUE {
      var k := p.Push(SqlText(f.key));
      var k' := p.Push(SqlText(f.key));
      NoValueSays(cols, number, p.values, f, k, k');
      return HasNoValue(k, k');
    }
    if kind == Some(NumberColumn) {
      var num := number(f.value);
      if num.None? {
        NotANumberSays(cols, number, p.values, f);
        return Literal(SqlBool(false));
      }
      var k := p.Push(SqlText(f.key));
      var x := p.Push(SqlNum(num.value));
      NumberSays(cols, number, p.values, f, k, x);
      return NumberIs(k, x);
    }
    if kind == Some(BooleanColumn) {
      var k := p.Push(SqlText(f.key));
      var x := p.Push(SqlBool(f.value == "true"));
      BooleanSays(cols, number, p.values, f, k, x);
      return BooleanIs(k, x);
    }
    var k := p.Push(SqlText(f.key));
    var x := p.Push(SqlText(Pattern(f.value)));
    ContainsSays(cols, number, p.values, f, k, x);
    return Contains(k, x);
  }

  datatype Bounds = Bounds(from: Option<string>, until: Option<string>)

  function BoundAt(b: Bounds, edge: Edge): Option<string> {
    match edge case From => b.from case Until => b.until
  }

  function SetBound(b: Bounds, edge: Edge, v: string): Bounds {
    match edge case From => b.(from := Some(v)) case Until => b.(until := Some(v))
  }

  function RangeFilter(base: string, edge: Edge, v: string): Filter {
    Filter(base + Suffix(edge), v)
  }

  lemma RangeKey(cols: Columns, f: Filter)
    requires ActiveRange(cols, f).Some?
    ensures var (base, edge) := ActiveRange(cols, f).value; f == RangeFilter(base, edge, f.value)
  {
    assert f.key == f.key[..|f.key| - 5] + f.key[|f.key| - 5..];
    if !EndsWith(f.key, "_from") {
      assert f.key == f.key[..|f.key| - 6] + f.key[|f.key| - 6..];
    }
  }

  predicate IsBound(ranges: map<string, Bounds>, base: string, edge: Edge, v: string) {
    base in ranges && BoundAt(ranges[base], edge) == Some(v)
  }

  predicate HasRange(cols: Columns, fs: seq<Filter>, base: string, edge: Edge, v: string) {
    RangeFilter(base, edge, v) in fs && ActiveRange(cols, RangeFilter(base, edge, v)) == Some((base, edge))
  }

  /** The bounds gathered in a first pass: one per active range filter met. */
  ghost predicate Gathered(cols: Columns, fs: seq<Filter>, ranges: map<string, Bounds>) {
    forall base, edge, v :: IsBound(ranges, base, edge, v) <==> HasRange(cols, fs, base, edge, v)
  }

  predicate DistinctKeys(fs: seq<Filter>) {
    forall i, j :: 0 <= i < j < |fs| ==> fs[i].key != fs[j].key
  }

  function WithBound(ranges: map<string, Bounds>, base: string, edge: Edge, v: string): map<string, Bounds> {
    ranges[base := SetBound(if base in ranges then ranges[base] else Bounds(None, None), edge, v)]
  }

  lemma BoundSet(ranges: map<string, Bounds>, base: string, edge: Edge, v: string, b: string, e: Edge, w: string)
    ensures IsBound(WithBound(ranges, base, edge, v), b, e, w) <==> if b == base && e == edge then w == v else IsBound(ranges, b, e, w)
  {
  }

  lemma RangeAdded(cols: Columns, fs: seq<Filter>, f: Filter, base: string, edge: Edge, b: string, e: Edge, w: string)
    requires ActiveRange(cols, f) == Some((base, edge)) && forall g :: g in fs ==> g.key != f.key
    ensures HasRange(cols, fs + [f], b, e, w) <==> if b == base && e == edge then w == f.value else HasRange(cols, fs, b, e, w)
  {
    RangeKey(cols, f);
    if b == base && e == edge {
      assert RangeFilter(b, e, w).key == f.key;
    }
  }

  lemma GatherMore(cols: Columns, fs: seq<Filter>, ranges: map<string, Bounds>, f: Filter, base: string, edge: Edge)
    requires Gathered(cols, fs, ranges) && (forall g :: g in fs ==> g.key != f.key)
    requires ActiveRange(cols, f) == Some((base, edge))
    ensures Gathered(cols, fs + [f], WithBound(ranges, base, edge, f.value))
  {
    forall b, e, w
      ensures IsBound(WithBound(ranges, base, edge, f.value), b, e, w) <==> HasRange(cols, fs + [f], b, e, w)
    {
      BoundSet(ranges, base, edge, f.value, b, e, w);
      RangeAdded(cols, fs, f, base, edge, b, e, w);
    }
  }

  lemma GatherNone(cols: Columns, fs: seq<Filter>, ranges: map<string, Bounds>, f: Filter)
    requires Gathered(cols, fs, ranges) && ActiveRange(cols, f).None?
    ensures Gathered(cols, fs + [f], ranges)
  {
    forall base, edge, v
      ensures HasRange(cols, fs + [f], base, edge, v) <==> HasRange(cols, fs, base, edge, v)
    {
    }
  }

  // ---------------------------------------------------------------- two passes

  /** Filters whose conjunct is written once the ranges of `bases` are done. */
  predicate Written(cols: Columns, fs: seq<Filter>, bases: seq<string>, f: Filter) {
    f in fs && (IsDirect(cols, f) || (ActiveRange(cols, f).Some? && ActiveRange(cols, f).value.0 in bases))
  }

  /** What the loops keep: the new conjuncts, the filters they stand for, and the bounds put aside. */
  ghost predicate FirstPass(cols: Columns, number: Number, fs: seq<Filter>,
                            ps: seq<SqlValue>, cs: seq<Sql>, order: seq<Filter>, ranges: map<string, Bounds>, keys: seq<string>) {
    && Pairs(cols, number, ps, cs, order)
    && (forall f :: f in order <==> Written(cols, fs, [], f))
    && Gathered(cols, fs, ranges)
    && (forall k :: k in keys <==> k in ranges)
    && (forall i, j :: 0 <= i < j < |keys| ==> keys[i] != keys[j])
  }

  lemma FirstPassDirect(cols: Columns, number: Number, fs: seq<Filter>, ps: seq<SqlValue>, ps': seq<SqlValue>,
                        cs: seq<Sql>, order: seq<Filter>, ranges: map<string, Bounds>, keys: seq<string>, f: Filter, q: Sql)
    requires FirstPass(cols, number, fs, ps, cs, order, ranges, keys)
    requires IsDirect(cols, f) && ps <= ps' && Says(cols, number, ps', q, f)
    ensures FirstPass(cols, number, fs + [f], ps', cs + [q], order + [f], ranges, keys)
  {
    PairsSnoc(cols, number, ps, ps', cs, order, q, f);
    assert ActiveRange(cols, f).None?;
    GatherNone(cols, fs, ranges, f);
  }

  lemma FirstPassSkip(cols: Columns, number: Number, fs: seq<Filter>, ps: seq<SqlValue>,
                      cs: seq<Sql>, order: seq<Filter>, ranges: map<string, Bounds>, keys: seq<string>, f: Filter)
    requires FirstPass(cols, number, fs, ps, cs, order, ranges, keys) && !IsActive(cols, f)
    ensures FirstPass(cols, number, fs + [f], ps, cs, order, ranges, keys)
  {
    GatherNone(cols, fs, ranges, f);
  }

  lemma FirstPassRange(cols: Columns, number: Number, fs: seq<Filter>, ps: seq<SqlValue>,
                       cs: seq<Sql>, order: seq<Filter>, ranges: map<string, Bounds>, keys: seq<string>,
                       f: Filter, base: string, edge: Edge)
    requires FirstPass(cols, number, fs, ps, cs, order, ranges, keys)
    requires ActiveRange(cols, f) == Some((base, edge)) && forall g :: g in fs ==> g.key != f.key
    ensures FirstPass(cols, number, fs + [f], ps, cs, order, WithBound(ranges, base, edge, f.value),
                      if base in ranges then keys else keys + [base])
  {
    GatherMore(cols, fs, ranges, f, base, edge);
  }

  /** The filter a bound came from. */
  function BoundFilter(base: string, b: Bounds, edge: Edge): seq<Filter> {
    if BoundAt(b, edge).Some? then [RangeFilter(base, edge, BoundAt(b, edge).value)] else []
  }

  function BoundFilters(base: string, b: Bounds): seq<Filter> {
    BoundFilter(base, b, From) + BoundFilter(base, b, Until)
  }

  lemma BoundFiltersMembers(cols: Columns, fs: seq<Filter>, ranges: map<string, Bounds>, base: string, f: Filter)
    requires Gathered(cols, fs, ranges) && base in ranges
    ensures f in BoundFilters(base, ranges[base])
            <==> f in fs && ActiveRange(cols, f).Some? && ActiveRange(cols, f).value.0 == base
  {
    var b := ranges[base];
    forall edge
      ensures f in BoundFilter(base, b, edge) ==> f in fs && ActiveRange(cols, f) == Some((base, edge))
    {
      assert f in BoundFilter(base, b, edge) ==> IsBound(ranges, base, edge, f.value) && f == RangeFilter(base, edge, f.value);
    }
    if f in fs && ActiveRange(cols, f).Some? && ActiveRange(cols, f).value.0 == base {
      var edge := ActiveRange(cols, f).value.1;
      RangeKey(cols, f);
      assert HasRange(cols, fs, base, edge, f.value);
      assert IsBound(ranges, base, edge, f.value);
      assert f in BoundFilter(base, b, edge);
    }
  }

  lemma WrittenMore(cols: Columns, fs: seq<Filter>, ranges: map<string, Bounds>, bases: seq<string>, base: string, order: seq<Filter>)
    requires Gathered(cols, fs, ranges) && base in ranges
    requires forall f :: f in order <==> Written(cols, fs, bases, f)
    ensures forall f :: f in order + BoundFilters(base, ranges[base]) <==> Written(cols, fs, bases + [base], f)
  {
    forall f
      ensures f in order + BoundFilters(base, ranges[base]) <==> Written(cols, fs, bases + [base], f)
    {
      BoundFiltersMembers(cols, fs, ranges, base, f);
    }
  }

  lemma PairsConcat(cols: Columns, number: Number, ps: seq<SqlValue>, ps': seq<SqlValue>,
                    cs: seq<Sql>, fs: seq<Filter>, qs: seq<Sql>, gs: seq<Filter>)
    requires Pairs(cols, number, ps, cs, fs) && ps <= ps' && Pairs(cols, number, ps', qs, gs)
    ensures Pairs(cols, number, ps', cs + qs, fs + gs)
  {
    PairsGrow(cols, number, ps, ps', cs, fs);
  }

  /** The conjunct of one bound, if it is there. */
  method CompileBound(cols: Columns, number: Number, base: string, b: Bounds, edge: Edge, k: nat, re: nat, p: ParamList<SqlValue>)
      returns (qs: seq<Sql>)
    requires forall v :: BoundAt(b, edge) == Some(v) ==> ActiveRange(cols, RangeFilter(base, edge, v)) == Some((base, edge))
    requires Holding(p.values, k, SqlText(base)) && Holding(p.values, re, SqlText(ISO_DATETIME_RE))
    modifies p
    ensures old(p.values) <= p.values && Pairs(cols, number, p.values, qs, BoundFilter(base, b, edge))
  {
    var bound := BoundAt(b, edge);
    if bound.None? {
      return [];
    }
    var x := p.Push(SqlText(bound.value));
    RangeSays(cols, number, p.values, RangeFilter(base, edge, bound.value), base, edge, k, re, x);
    qs := [DateBound(edge, k, re, x)];
  }

  /** The one or two conjuncts of a date column, which share its date expression. */
  method CompileRange(cols: Columns, number: Number, base: string, b: Bounds, p: ParamList<SqlValue>) returns (qs: seq<Sql>)
    requires forall edge, v :: BoundAt(b, edge) == Some(v) ==> ActiveRange(cols, RangeFilter(base, edge, v)) == Some((base, edge))
    modifies p
    ensures old(p.values) <= p.values && Pairs(cols, number, p.values, qs, BoundFilters(base, b))
  {
    var k := p.Push(SqlText(base));
    var re := p.Push(SqlText(ISO_DATETIME_RE));
    qs := CompileBound(cols, number, base, b, From, k, re, p);
    ghost var ps := p.values;
    var more := CompileBound(cols, number, base, b, Until, k, re, p);
    PairsConcat(cols, number, ps, p.values, qs, BoundFilter(base, b, From), more, BoundFilter(base, b, Until));
    qs := qs + more;
  }

  /**
   * The conjuncts pushed for a map of filters, in two passes over it; `order`
   * lists the filter each of them stands for.
   */
  method ApplyFilters(cols: Columns, number: Number, filters: seq<Filter>, p: ParamList<SqlValue>)
      returns (added: seq<Sql>, ghost order: seq<Filter>)
    requires DistinctKeys(filters)
    modifies p
    ensures old(p.values) <= p.values
    ensures Pairs(cols, number, p.values, added, order)
    ensures forall f :: f in order <==> f in filters && IsActive(cols, f)
  {
    var ranges: map<string, Bounds> := map[];
    var keys: seq<string> := [];
    added, order := [], [];
    for i := 0 to |filters|
      invariant old(p.values) <= p.values
      invariant FirstPass(cols, number, filters[..i], p.values, added, order, ranges, keys)
    {
      var f := filters[i];
      assert filters[..i + 1] == filters[..i] + [f];
      added, order, ranges, keys := FirstPassOver(cols, number, filters[..i], f, added, order, ranges, keys, p);
    }
    assert filters[..|filters|] == filters;
    for j := 0 to |keys|
      invariant old(p.values) <= p.values
      invariant Pairs(cols, number, p.values, added, order)
      invariant forall f :: f in order <==> Written(cols, filters, keys[..j], f)
    {
      var base := keys[j];
      assert keys[..j + 1] == keys[..j] + [base];
      BoundsAreRanges(cols, filters, ranges, base);
      ghost var ps := p.values;
      var qs := CompileRange(cols, number, base, ranges[base], p);
      PairsConcat(cols, number, ps, p.values, added, order, qs, BoundFilters(base, ranges[base]));
      WrittenMore(cols, filters, ranges, keys[..j], base, order);
      added, order := added + qs, order + BoundFilters(base, ranges[base]);
    }
    AllWritten(cols, filters, ranges, keys);
  }

  lemma BoundsAreRanges(cols: Columns, fs: seq<Filter>, ranges: map<string, Bounds>, base: string)
    requires Gathered(cols, fs, ranges) && base in ranges
    ensures forall edge, v :: BoundAt(ranges[base], edge) == Some(v) ==> ActiveRange(cols, RangeFilter(base, edge, v)) == Some((base, edge))
  {
    forall edge, v | BoundAt(ranges[base], edge) == Some(v)
      ensures ActiveRange(cols, RangeFilter(base, edge, v)) == Some((base, edge))
    {
      assert IsBound(ranges, base, edge, v);
      assert HasRange(cols, fs, base, edge, v);
    }
  }

  lemma AllWritten(cols: Columns, fs: seq<Filter>, ranges: map<string, Bounds>, keys: seq<string>)
    requires Gathered(cols, fs, ranges) && forall k :: k in keys <==> k in ranges
    ensures forall f :: Written(cols, fs, keys[..|keys|], f) <==> f in fs && IsActive(cols, f)
  {
    assert keys[..|keys|] == keys;
    forall f | f in fs && ActiveRange(cols, f).Some?
      ensures ActiveRange(cols, f).value.0 in keys
    {
      var (base, edge) := ActiveRange(cols, f).value;
      RangeKey(cols, f);
      assert HasRange(cols, fs, base, edge, f.value);
      assert IsBound(ranges, base, edge, f.value);
    }
  }

  /** One entry of the map in the first pass. */
  method FirstPassOver(cols: Columns, number: Number, ghost seen: seq<Filter>, f: Filter,
                       added: seq<Sql>, ghost order: seq<Filter>, ranges: map<string, Bounds>, keys: seq<string>, p: ParamList<SqlValue>)
      returns (added': seq<Sql>, ghost order': seq<Filter>, ranges': map<string, Bounds>, keys': seq<string>)
    requires FirstPass(cols, number, seen, p.values, added, order, ranges, keys)
    requires forall g :: g in seen ==> g.key != f.key
    modifies p
    ensures old(p.values) <= p.values
    ensures FirstPass(cols, number, seen + [f], p.values, added', order', ranges', keys')
  {
    added', order', ranges', keys' := added, order, ranges, keys;
    ghost var ps := p.values;
    if f.value == "" {
      FirstPassSkip(cols, number, seen, ps, added, order, ranges, keys, f);
      return;
    }
    if f.key in RESERVED {
      var q := CompileReserved(cols, number, f, p);
      FirstPassDirect(cols, number, seen, ps, p.values, added, order, ranges, keys, f, q);
      added', order' := added + [q], order + [f];
      return;
    }
    match RangeOf(f.key) {
      case Some((base, edge)) =>
        if IsFilterable(cols, base) && KindOf(cols, base) == Some(DateColumn) {
          FirstPassRange(cols, number, seen, ps, added, order, ranges, keys, f, base, edge);
          keys' := if base in ranges then keys else keys + [base];
          ranges' := WithBound(ranges, base, edge, f.value);
        } else {
          FirstPassSkip(cols, number, seen, ps, added, order, ranges, keys, f);
        }
      case None =>
        if IsFilterable(cols, f.key) {
          var q := CompilePlain(cols, number, f, p);
          FirstPassDirect(cols, number, seen, ps, p.values, added, order, ranges, keys, f, q);
          added', order' := added + [q], order + [f];
        } else {
          FirstPassSkip(cols, number, seen, ps, added, order, ranges, keys, f);
        }
    }
  }

  // -------------------------------------------------------------- main results

  ghost predicate AllHold(cs: seq<Sql>, ps: seq<SqlValue>, e: Casts, r: Stored) {
    forall q :: q in cs ==> VerdictOf(Eval(q, ps, e, r)) == Holds
  }

  ghost predicate AnyRaises(cs: seq<Sql>, ps: seq<SqlValue>, e: Casts, r: Stored) {
    exists q :: q in cs && VerdictOf(Eval(q, ps, e, r)) == Raises
  }

  /** The compiled form of a map of filters, each conjunct with its filter. */
  ghost predicate Compiled(cols: Columns, number: Number, filters: seq<Filter>,
                           ps: seq<SqlValue>, cs: seq<Sql>, order: seq<Filter>) {
    Pairs(cols, number, ps, cs, order) && forall f :: f in order <==> f in filters && IsActive(cols, f)
  }

  /** The row passes every filter that takes part. */
  ghost predicate Passes(cols: Columns, number: Number, filters: seq<Filter>, e: Casts, r: Stored) {
    forall f :: f in filters && IsActive(cols, f) ==> Meaning(cols, number, f, e, r) == Holds
  }

  lemma PairVerdict(cols: Columns, number: Number, ps: seq<SqlValue>, cs: seq<Sql>, order: seq<Filter>, e: Casts, r: Stored)
    requires Pairs(cols, number, ps, cs, order)
    ensures forall j :: 0 <= j < |cs| ==> VerdictOf(Eval(cs[j], ps, e, r)) == Meaning(cols, number, order[j], e, r)
  {
    forall j | 0 <= j < |cs|
      ensures VerdictOf(Eval(cs[j], ps, e, r)) == Meaning(cols, number, order[j], e, r)
    {
      assert Says(cols, number, ps, cs[j], order[j]);
    }
  }

  /**
   * Main result: the generated conjuncts under the generated parameters select a
   * row exactly when it passes every active filter, and some conjunct raises on it
   * exactly when some active filter does.
   */
  lemma CompiledFiltersKeepMeaning(cols: Columns, number: Number, filters: seq<Filter>,
                                   ps: seq<SqlValue>, cs: seq<Sql>, order: seq<Filter>, e: Casts, r: Stored)
    requires Compiled(cols, number, filters, ps, cs, order)
    ensures AllHold(cs, ps, e, r) <==> Passes(cols, number, filters, e, r)
    ensures AnyRaises(cs, ps, e, r)
            <==> exists f :: f in filters && IsActive(cols, f) && Meaning(cols, number, f, e, r) == Raises
  {
    PairVerdict(cols, number, ps, cs, order, e, r);
    forall f | f in order
      ensures exists q :: q in cs && VerdictOf(Eval(q, ps, e, r)) == Meaning(cols, number, f, e, r)
    {
      var j :| 0 <= j < |order| && order[j] == f;
      assert cs[j] in cs;
    }
    forall q | q in cs
      ensures exists f :: f in order && VerdictOf(Eval(q, ps, e, r)) == Meaning(cols, number, f, e, r)
    {
      var j :| 0 <= j < |cs| && cs[j] == q;
      assert order[j] in order;
    }
  }

  /** A `SELECT` over `table_rows`: its conjuncts, its limit, and the values bound. */
  datatype Select = Select(where: seq<Sql>, limit: Sql, params: seq<SqlValue>)

  const COUNT_CAP: real := 20000.0

  function InTable(t: nat, c: nat): seq<Sql> {
    [Compare(Eq, Column("table_key"), Param(t)), Compare(Eq, Column("connection_id"), Param(c))]
  }

  /** A statement that asks for a connection's rows of a table, filtered. */
  ghost predicate Asks(s: Select, tableKey: string, connection: string, cols: Columns, number: Number,
                       filters: seq<Filter>, order: seq<Filter>) {
    && |s.where| >= 2 && s.where[..2] == InTable(1, 2)
    && Holding(s.params, 1, SqlText(tableKey)) && Holding(s.params, 2, SqlText(connection))
    && Compiled(cols, number, filters, s.params, s.where[2..], order)
  }

  ghost predicate Selects(s: Select, e: Casts, r: Stored) {
    AllHold(s.where, s.params, e, r)
  }

  lemma SplitWhere(s: Select, e: Casts, r: Stored)
    requires |s.where| >= 2
    ensures Selects(s, e, r) <==> AllHold(s.where[..2], s.params, e, r) && AllHold(s.where[2..], s.params, e, r)
  {
    assert s.where == s.where[..2] + s.where[2..];
  }

  lemma InTableHolds(ps: seq<SqlValue>, tableKey: string, connection: string, e: Casts, r: Stored)
    requires Holding(ps, 1, SqlText(tableKey)) && Holding(ps, 2, SqlText(connection))
    ensures AllHold(InTable(1, 2), ps, e, r) <==> r.tableKey == tableKey && r.row.conn == connection
  {
    var a, b := InTable(1, 2)[0], InTable(1, 2)[1];
    assert Eval(Param(1), ps, e, r) == SqlText(tableKey) && Eval(Param(2), ps, e, r) == SqlText(connection);
    assert Eval(Column("table_key"), ps, e, r) == SqlText(r.tableKey) && Eval(Column("connection_id"), ps, e, r) == SqlText(r.row.conn);
    assert Eval(a, ps, e, r) == SqlBool(r.tableKey == tableKey) && Eval(b, ps, e, r) == SqlBool(r.row.conn == connection);
    assert a in InTable(1, 2) && b in InTable(1, 2);
  }

  /** Main result: what a statement built by `query` selects; the page and its count agree on every row. */
  lemma SelectsWhatWasAsked(s: Select, tableKey: string, connection: string, cols: Columns, number: Number,
                            filters: seq<Filter>, order: seq<Filter>, e: Casts, r: Stored)
    requires Asks(s, tableKey, connection, cols, number, filters, order)
    ensures Selects(s, e, r) <==> r.tableKey == tableKey && r.row.conn == connection && Passes(cols, number, filters, e, r)
  {
    SplitWhere(s, e, r);
    InTableHolds(s.params, tableKey, connection, e, r);
    CompiledFiltersKeepMeaning(cols, number, filters, s.params, s.where[2..], order, e, r);
  }

  /** Whatever is bound after the `WHERE` was built. */
  lemma StillAsks(s: Select, tableKey: string, connection: string, cols: Columns, number: Number,
                  filters: seq<Filter>, ps: seq<SqlValue>, added: seq<Sql>, order: seq<Filter>)
    requires s.where == InTable(1, 2) + added && ps <= s.params
    requires Holding(ps, 1, SqlText(tableKey)) && Holding(ps, 2, SqlText(connection))
    requires Compiled(cols, number, filters, ps, added, order)
    ensures Asks(s, tableKey, connection, cols, number, filters, order)
  {
    assert s.where[..2] == InTable(1, 2) && s.where[2..] == added;
    PairsGrow(cols, number, ps, s.params, added, order);
  }

  lemma PairsAreClosed(cols: Columns, number: Number, ps: seq<SqlValue>, cs: seq<Sql>, order: seq<Filter>, j: nat)
    requires Pairs(cols, number, ps, cs, order) && j < |cs|
    ensures Closed(cs[j], |ps|)
  {
    assert Says(cols, number, ps, cs[j], order[j]);
  }

  lemma InTableIsClosed(n: nat)
    requires n >= 2
    ensures Closed(InTable(1, 2)[0], n) && Closed(InTable(1, 2)[1], n)
  {
  }

  /** No conjunct needs a parameter pushed after the `WHERE` was built. */
  lemma ConjunctIsClosed(cols: Columns, number: Number, ps: seq<SqlValue>, added: seq<Sql>, order: seq<Filter>, j: nat)
    requires Pairs(cols, number, ps, added, order) && |ps| >= 2 && j < 2 + |added|
    ensures Closed((InTable(1, 2) + added)[j], |ps|)
  {
    if j >= 2 {
      PairsAreClosed(cols, number, ps, added, order, j - 2);
    } else {
      InTableIsClosed(|ps|);
    }
  }

  predicate AllClosed(cs: seq<Sql>, n: nat) {
    forall j :: 0 <= j < |cs| ==> Closed(cs[j], n)
  }

  lemma WhereIsClosed(cols: Columns, number: Number, ps: seq<SqlValue>, added: seq<Sql>, order: seq<Filter>)
    requires Pairs(cols, number, ps, added, order) && |ps| >= 2
    ensures AllClosed(InTable(1, 2) + added, |ps|)
  {
    forall j: nat | j < 2 + |added|
      ensures Closed((InTable(1, 2) + added)[j], |ps|)
    {
      ConjunctIsClosed(cols, number, ps, added, order, j);
    }
  }

  datatype Sort = FixedSort | ColumnSort(key: string)

  /** The page query and the capped count query built from one `WHERE`. */
  method Query(tableKey: string, connection: string, cols: Columns, number: Number,
               filters: seq<Filter>, sort: Sort, page: int, pageSize: int)
      returns (rows: Select, count: Select, ghost order: seq<Filter>)
    requires DistinctKeys(filters)
    ensures Asks(rows, tableKey, connection, cols, number, filters, order)
    ensures Asks(count, tableKey, connection, cols, number, filters, order)
    ensures rows.limit.Param? && Holding(rows.params, rows.limit.n, SqlNum(pageSize as real))
    ensures count.limit == Param(|count.params|) && count.params[|count.params| - 1] == SqlNum(20000.0)
    ensures AllClosed(count.where, |count.params| - 1)
  {
    var p := new ParamList<SqlValue>();
    var t := p.Push(SqlText(tableKey));
    var c := p.Push(SqlText(connection));
    var added;
    added, order := ApplyFilters(cols, number, filters, p);
    var where := InTable(t, c) + added;
    var countParams := p.values;
    WhereIsClosed(cols, number, countParams, added, order);
    if sort.ColumnSort? {
      var s := p.Push(SqlText(sort.key));
    }
    var limit := p.Push(SqlNum(pageSize as real));
    var offset := p.Push(SqlNum(((page - 1) * pageSize) as real));
    rows := Select(where, Param(limit), p.values);
    count := Select(where, Param(|countParams| + 1), countParams + [SqlNum(COUNT_CAP)]);
    StillAsks(rows, tableKey, connection, cols, number, filters, countParams, added, order);
    StillAsks(count, tableKey, connection, cols, number, filters, countParams, added, order);
  }
}
