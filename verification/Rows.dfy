/** The entities stored by the satellite: rows, loads and outbox events. */
module Rows {
  import opened Text

  datatype Option<+T> = None | Some(value: T) {
    function GetOr(default: T): T {
      if Some? then value else default
    }
  }

  /** A JSON scalar inside a row's `data`. */
  datatype Value = Null | Text(s: string) | Number(n: int) | Flag(b: bool)

  type Data = map<string, Value>

  /**
   * A stored row's identity. A row whose id columns are all non-null is the only
   * one with that connection and id tuple (the template's unique index); any
   * other row is known by its order of insertion alone.
   */
  datatype RowRef = Keyed(conn: string, key: seq<string>) | Appended(n: nat)

  /** `write_status`: the transport outcome of the last send. */
  datatype WriteStatus = Sent | Failed

  datatype Row = Row(
    conn: string,
    data: Data,
    status: Option<string>,
    writeStatus: Option<WriteStatus>,
    writeError: Option<string>,
    batchId: Option<string>,
    groupId: Option<string>,
    loadId: Option<string>,
    response: Option<string>,
    created: nat)

  type Table = map<RowRef, Row>

  datatype Load = Load(expected: Option<int>, sealed: bool, stale: bool, created: nat)

  /** An outbox record as `commitOutcome` spools it: `emitida.sent` or `emitida.error`. */
  datatype Event = Event(idempotencyKey: string, sent: bool, rowIds: set<RowRef>)

  datatype State = State(
    rows: Table,
    loads: map<string, Load>,
    batches: map<string, set<int>>,
    outbox: seq<Event>,
    appended: nat)

  datatype WriteConfig = WriteConfig(groupBy: seq<string>, rules: seq<Option<string>>, editable: bool)

  datatype Template = Template(idFields: seq<string>, recencyField: Option<string>, write: Option<WriteConfig>)

  datatype LoadMeta = LoadMeta(loadId: string, batchIndex: Option<int>)

  const STAGED := "staged"
  const QUEUED := "queued"
  const REVISADO := "revisado"
  const PENDING := "pending"

  /** `lower(coalesce(submission_status, '')) = 'correcto'`: accepted, terminal. */
  predicate IsCorrecto(status: Option<string>) {
    status.Some? && Lower(status.value) == "correcto"
  }

  /** What the scheduled sweep may send. */
  predicate Sweepable(status: Option<string>) {
    status == Some(QUEUED) || status == Some(REVISADO)
  }

  /** What a force-submit may send. */
  predicate Sendable(status: Option<string>) {
    status.Some? && !IsCorrecto(status) && status.value != STAGED
  }

  /** `data ->> f`. */
  function TextAt(d: Data, f: string): Option<string> {
    if f !in d then None
    else match d[f]
         case Null => None
         case Text(s) => Some(s)
         case Number(n) => Some(IntText(n))
         case Flag(b) => Some(if b then "true" else "false")
  }

  /** The id columns as text, when every one of them is present and not null. */
  function IdTexts(fields: seq<string>, d: Data): (r: Option<seq<string>>)
    ensures r.Some? ==> |r.value| == |fields|
  {
    if fields == [] then Some([])
    else match (TextAt(d, fields[0]), IdTexts(fields[1..], d))
         case (Some(x), Some(xs)) => Some([x] + xs)
         case _ => None
  }

  /** Every id column present, non-null and not the empty string: an upsert is possible. */
  predicate HasUsableId(t: Template, d: Data) {
    t.idFields != [] && IdTexts(t.idFields, d).Some? && "" !in IdTexts(t.idFields, d).value
  }

  /** The row an INSERT of `d` would be, `n` being its place among rows without an id. */
  function RefOf(t: Template, conn: string, d: Data, n: nat): RowRef {
    if t.idFields != [] && IdTexts(t.idFields, d).Some? then Keyed(conn, IdTexts(t.idFields, d).value)
    else Appended(n)
  }

  function GroupTexts(groupBy: seq<string>, d: Data): seq<string> {
    if groupBy == [] then []
    else [TextAt(d, groupBy[0]).GetOr("")] + GroupTexts(groupBy[1..], d)
  }

  /** The string whose md5 is the materialized `group_id`; md5 is taken as injective. */
  function GroupId(groupBy: seq<string>, conn: string, d: Data): Option<string> {
    if groupBy == [] then None
    else Some(Join([conn] + GroupTexts(groupBy, d), [UNIT_SEPARATOR]))
  }

  const UNIT_SEPARATOR: char := 31 as char

  /** The rule for a connection, else the generic one; no connection has none. */
  predicate HasRule(rules: seq<Option<string>>, conn: string) {
    conn != "" && (Some(conn) in rules || None in rules)
  }

  function NewRow(conn: string, d: Data, now: nat): Row {
    Row(conn, d, None, None, None, None, None, None, None, now)
  }
}
