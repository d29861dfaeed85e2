/** The store half of a submission: what a result message becomes, and which messages the table refuses. */
module Results {
  import opened Wrappers
  import opened Times
  import opened Jobs

  /** A result message. `numbers` are its optional code, timings and size, in the order of the columns. */
  datatype MonitorResult = MonitorResult(
    run: RunId,
    monitor: string,
    region: string,
    eventAt: Time,
    status: string,
    numbers: seq<Option<int>>,
    message: Option<string>)

  /** A row of ts.results_raw; its key is the run id and the stored event time. */
  datatype ResultRow = ResultRow(
    monitor: string,
    region: string,
    status: string,
    numbers: seq<Option<int>>,
    message: Option<string>)

  type ResultTable = map<(RunId, Time), ResultRow>

  function ConvertStatus(status: string): string {
    if status == "OK" then "OK"
    else if status == "FAIL" then "FAIL"
    else if status == "ERROR" then "ERROR"
    else "UNKNOWN"
  }

  /** The status column's check constraint. */
  predicate StatusAllowed(status: string) {
    status == "OK" || status == "FAIL" || status == "ERROR"
  }

  /** A number is kept only when present and positive, a text only when not empty. */
  function Kept(numbers: seq<Option<int>>): (kept: seq<Option<int>>)
    ensures |kept| == |numbers|
    ensures forall i :: 0 <= i < |numbers| ==>
              kept[i] == if numbers[i].Some? && numbers[i].value > 0 then numbers[i] else None
  {
    seq(|numbers|, i requires 0 <= i < |numbers| => if numbers[i].Some? && numbers[i].value > 0 then numbers[i] else None)
  }

  function RowOf(m: MonitorResult): ResultRow {
    ResultRow(m.monitor, m.region, ConvertStatus(m.status), Kept(m.numbers),
              if m.message == Some("") then None else m.message)
  }

  function KeyOf(m: MonitorResult): (RunId, Time) {
    (m.run, Stored(m.eventAt))
  }

  /** ON CONFLICT keeps the monitor and region of the first row and overwrites the rest. */
  function Upsert(results: ResultTable, key: (RunId, Time), row: ResultRow): ResultTable {
    results[key := if key in results then row.(monitor := results[key].monitor, region := results[key].region) else row]
  }

  /** ProcessResult: None when the check constraint refuses the row. */
  function ProcessResult(results: ResultTable, m: MonitorResult): Option<ResultTable> {
    if StatusAllowed(ConvertStatus(m.status)) then Some(Upsert(results, KeyOf(m), RowOf(m))) else None
  }

  /** The stored columns other than the monitor and region of the first writer. */
  predicate SamePayload(a: ResultRow, b: ResultRow) {
    a.status == b.status && a.numbers == b.numbers && a.message == b.message
  }

  /** A message is stored exactly when its status is one of the three known ones: the fallback of the conversion is
      a value the table refuses. */
  lemma StoredIffKnown(results: ResultTable, m: MonitorResult)
    ensures ProcessResult(results, m).Some? <==> m.status in {"OK", "FAIL", "ERROR"}
    ensures ProcessResult(results, m).Some? ==> RowOf(m).status == m.status
  {
  }

  /** What is stored, column by column: the key is the run id with the event time as the column keeps it; a first writer's
      monitor and region stay; everything else is this message's. */
  lemma StoredColumns(results: ResultTable, m: MonitorResult)
    requires m.status in {"OK", "FAIL", "ERROR"}
    ensures var t, key := ProcessResult(results, m), (m.run, Stored(m.eventAt));
            && t.Some? && t.value.Keys == results.Keys + {key}
            && (forall k :: k in results && k != key ==> t.value[k] == results[k])
            && t.value[key].monitor == (if key in results then results[key].monitor else m.monitor)
            && t.value[key].region == (if key in results then results[key].region else m.region)
            && t.value[key].status == m.status
            && t.value[key].message == (if m.message == Some("") then None else m.message)
            && |t.value[key].numbers| == |m.numbers|
            && forall i :: 0 <= i < |m.numbers| ==>
                 t.value[key].numbers[i] == if m.numbers[i].Some? && m.numbers[i].value > 0 then m.numbers[i] else None
  {
  }

  /** Storing changes one key; storing the same payload again changes nothing. */
  lemma StoreAgain(results: ResultTable, m: MonitorResult)
    requires ProcessResult(results, m).Some?
    ensures var t := ProcessResult(results, m).value;
            && KeyOf(m) in t && SamePayload(t[KeyOf(m)], RowOf(m))
            && t.Keys == results.Keys + {KeyOf(m)}
            && (forall k :: k in results && k != KeyOf(m) ==> t[k] == results[k])
            && (KeyOf(m) in results && SamePayload(results[KeyOf(m)], RowOf(m)) <==> t == results)
            && ProcessResult(t, m) == Some(t)
  {
    var t := ProcessResult(results, m).value;
    if t == results {
      assert KeyOf(m) in results;
    }
    assert ProcessResult(t, m).value == t;
  }
}
