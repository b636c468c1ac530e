/** Query results under byte and row budgets: a stream of events, or one JSON document. */
module ResultStream {
  import opened Prelude
  import opened Strings

  const TERMINAL_RESERVE: nat := 512
  const SUFFIX_RESERVE: nat := 128
  const MAX_COLUMNS: nat := 1600

  /** The configured byte limits, within the bounds the configuration enforces. */
  datatype Limits = Limits(cell: nat, row: nat, stream: nat, json: nat) {
    predicate Valid() {
      1024 <= cell <= row <= stream && 4096 <= row && 0x10_0000 <= stream && 0x1_0000 <= json
    }

    function Event(): nat {
      if stream < 0x80_0000 then stream else 0x80_0000
    }
  }

  datatype Request = Request(batchSize: nat, maxRows: nat)

  /** A value as the scalar encoder sees it: its JSON text, or a driver object it refuses. */
  datatype Cell = Encoded(text: string) | Unsupported
  type Row = seq<Cell>

  datatype Code =
    | QueryIdConflict
    | RowLimitExceeded
    | SourceBytesExceeded
    | EventBytesExceeded
    | ResponseBytesExceeded
    | ColumnLimitExceeded
    | ValueUnsupported
    | CellBytesExceeded
    | RowBytesExceeded
    | QueryFailed

  function Text(code: Code): (text: string)
    ensures |text| <= 40
  {
    match code
    case QueryIdConflict => "QUERY_ID_CONFLICT"
    case RowLimitExceeded => "QUERY_ROW_LIMIT_EXCEEDED"
    case SourceBytesExceeded => "QUERY_SOURCE_BYTES_EXCEEDED"
    case EventBytesExceeded => "QUERY_STREAM_EVENT_BYTES_EXCEEDED"
    case ResponseBytesExceeded => "QUERY_RESPONSE_BYTES_EXCEEDED"
    case ColumnLimitExceeded => "QUERY_COLUMN_LIMIT_EXCEEDED"
    case ValueUnsupported => "QUERY_VALUE_UNSUPPORTED"
    case CellBytesExceeded => "QUERY_CELL_BYTES_EXCEEDED"
    case RowBytesExceeded => "QUERY_ROW_BYTES_EXCEEDED"
    case QueryFailed => "QUERY_FAILED"
  }

  /** Column names are given as their JSON texts. */
  datatype Event =
    | Schema(columns: seq<string>)
    | Batch(rows: seq<string>)
    | Complete(rowCount: nat, durationMs: nat)
    | Error(code: Code)
  {
    predicate Terminal() {
      Complete? || Error?
    }
  }

  function Join(texts: seq<string>): string {
    if texts == [] then "" else if |texts| == 1 then texts[0] else Join(texts[..|texts| - 1]) + "," + texts[|texts| - 1]
  }

  lemma JoinGrows(texts: seq<string>, text: string)
    ensures |Join(texts + [text])| == |Join(texts)| + (if texts == [] then 0 else 1) + |text|
    ensures texts != [] ==> Join(texts + [text]) == Join(texts) + "," + text
  {
    assert (texts + [text])[..|texts|] == texts;
  }

  function Encode(event: Event): string {
    match event
    case Schema(columns) => "{\"type\":\"schema\",\"columns\":[" + Join(columns) + "]}\n"
    case Batch(rows) => "{\"type\":\"batch\",\"rows\":[" + Join(rows) + "]}\n"
    case Complete(rowCount, durationMs) =>
      "{\"type\":\"complete\",\"rowCount\":" + Itoa(rowCount) + ",\"durationMs\":" + Itoa(durationMs) + "}\n"
    case Error(code) => "{\"type\":\"error\",\"code\":\"" + Text(code) + "\"}\n"
  }

  lemma ErrorsFitTheReserve(code: Code)
    ensures |Encode(Error(code))| <= 128
  {
  }

  // ---- Encoding rows ----------------------------------------------------------------------------------------

  function CellTexts(row: Row): seq<string> {
    seq(|row|, i requires 0 <= i < |row| => if row[i].Encoded? then row[i].text else "")
  }

  function RowText(row: Row): string {
    "[" + Join(CellTexts(row)) + "]"
  }

  /** The first cell at fault decides. */
  function CellFailure(limits: Limits, row: Row): Option<Code> {
    if row == [] then None
    else if row[0].Unsupported? then Some(ValueUnsupported)
    else if |row[0].text| > limits.cell then Some(CellBytesExceeded)
    else CellFailure(limits, row[1..])
  }

  function RowFailure(limits: Limits, row: Row): Option<Code> {
    if CellFailure(limits, row).Some? then CellFailure(limits, row)
    else if |RowText(row)| > limits.row then Some(RowBytesExceeded)
    else None
  }

  function FirstFailure(limits: Limits, rows: seq<Row>): Option<Code> {
    if rows == [] then None
    else if RowFailure(limits, rows[0]).Some? then RowFailure(limits, rows[0])
    else FirstFailure(limits, rows[1..])
  }

  predicate RowFits(limits: Limits, row: Row) {
    && (forall i | 0 <= i < |row| :: row[i].Encoded? && |row[i].text| <= limits.cell)
    && |RowText(row)| <= limits.row
  }

  lemma {:induction false} CellsFitExactly(limits: Limits, row: Row)
    ensures CellFailure(limits, row).None? <==>
            forall i | 0 <= i < |row| :: row[i].Encoded? && |row[i].text| <= limits.cell
  {
    if row != [] {
      CellsFitExactly(limits, row[1..]);
      assert forall i | 1 <= i < |row| :: row[i] == row[1..][i - 1];
      assert forall i | 0 <= i < |row| - 1 :: row[1..][i] == row[i + 1];
    }
  }

  /** No failure is reported exactly when every cell and row is within its limit. */
  lemma {:induction false} RowsFitExactly(limits: Limits, rows: seq<Row>)
    ensures FirstFailure(limits, rows).None? <==> forall i | 0 <= i < |rows| :: RowFits(limits, rows[i])
  {
    if rows != [] {
      CellsFitExactly(limits, rows[0]);
      RowsFitExactly(limits, rows[1..]);
      assert forall i | 1 <= i < |rows| :: rows[i] == rows[1..][i - 1];
      assert forall i | 0 <= i < |rows| - 1 :: rows[1..][i] == rows[i + 1];
    }
  }

  function RowTexts(rows: seq<Row>): (texts: seq<string>)
    ensures |texts| == |rows|
  {
    seq(|rows|, i requires 0 <= i < |rows| => RowText(rows[i]))
  }

  method BoundedRow(limits: Limits, row: Row) returns (failure: Option<Code>, text: string)
    ensures failure == RowFailure(limits, row)
    ensures failure.None? ==> text == RowText(row)
  {
    var cells := [];
    for i := 0 to |row|
      invariant cells == CellTexts(row)[..i]
      invariant CellFailure(limits, row) == CellFailure(limits, row[i..])
    {
      assert row[i..][0] == row[i] && row[i..][1..] == row[i + 1..];
      if row[i].Unsupported? {
        return Some(ValueUnsupported), "";
      }
      if |row[i].text| > limits.cell {
        return Some(CellBytesExceeded), "";
      }
      cells := cells + [row[i].text];
    }
    assert cells == CellTexts(row);
    text := "[" + Join(cells) + "]";
    failure := if |text| > limits.row then Some(RowBytesExceeded) else None;
  }

  method BoundedRows(limits: Limits, rows: seq<Row>) returns (failure: Option<Code>, texts: seq<string>)
    ensures failure == FirstFailure(limits, rows)
    ensures failure.None? ==> texts == RowTexts(rows)
  {
    texts := [];
    for i := 0 to |rows|
      invariant texts == RowTexts(rows)[..i]
      invariant FirstFailure(limits, rows) == FirstFailure(limits, rows[i..])
    {
      assert rows[i..][0] == rows[i] && rows[i..][1..] == rows[i + 1..];
      var text;
      failure, text := BoundedRow(limits, rows[i]);
      if failure.Some? {
        return failure, [];
      }
      texts := texts + [text];
    }
    failure := None;
  }

  // ---- The server-side cursor ---------------------------------------------------------------------------------

  /** What a driver cursor still holds, and after how many more fetches it raises, if it ever does. */
  datatype Cursor = Cursor(rows: seq<Row>, fetches: Option<nat>)

  function Fetched(fetches: Option<nat>): Option<nat> {
    if fetches.Some? && fetches.value > 0 then Some(fetches.value - 1) else fetches
  }

  function Chunk(rows: seq<Row>, size: nat): seq<Row> {
    if |rows| <= size then rows else rows[..size]
  }

  function Rest(rows: seq<Row>, size: nat): seq<Row> {
    if |rows| <= size then [] else rows[size..]
  }

  /** What successive fetches return until the first empty one. */
  function Chunks(rows: seq<Row>, size: nat): (chunks: seq<seq<Row>>)
    requires size > 0
    decreases |rows|
  {
    if rows == [] then [] else [Chunk(rows, size)] + Chunks(Rest(rows, size), size)
  }

  // ---- What a stream amounts to ---------------------------------------------------------------------------------

  function TotalBytes(events: seq<Event>): nat {
    if events == [] then 0 else TotalBytes(events[..|events| - 1]) + |Encode(events[|events| - 1])|
  }

  /** The rows a reader of the stream has received. */
  function RowsOf(events: seq<Event>): seq<string> {
    if events == [] then []
    else
      var last := events[|events| - 1];
      RowsOf(events[..|events| - 1]) + (if last.Batch? then last.rows else [])
  }

  lemma AppendedEvent(events: seq<Event>, event: Event)
    ensures TotalBytes(events + [event]) == TotalBytes(events) + |Encode(event)|
    ensures RowsOf(events + [event]) == RowsOf(events) + (if event.Batch? then event.rows else [])
  {
    assert (events + [event])[..|events|] == events;
  }

  /** A schema event, then batches, each within the event limit; or nothing yet. */
  ghost predicate Open(limits: Limits, events: seq<Event>) {
    forall i | 0 <= i < |events| ::
      if i == 0 then events[i].Schema? else events[i].Batch? && |Encode(events[i])| <= limits.Event()
  }

  /** An open stream closed by exactly one terminal event. */
  ghost predicate Closed(limits: Limits, events: seq<Event>) {
    events != [] && events[|events| - 1].Terminal() && Open(limits, events[..|events| - 1])
  }

  ghost predicate Completed(events: seq<Event>) {
    events != [] && events[|events| - 1].Complete?
  }

  function BatchOf(chunk: seq<Row>): Event {
    Batch(RowTexts(chunk))
  }

  function BatchBytes(chunks: seq<seq<Row>>): nat {
    if chunks == [] then 0 else |Encode(BatchOf(chunks[0]))| + BatchBytes(chunks[1..])
  }

  function FetchSize(limits: Limits, request: Request): (size: nat)
    requires limits.Valid()
    ensures size > 0
  {
    var fitting := limits.Event() / limits.row;
    var size := if request.batchSize < fitting then request.batchSize else fitting;
    if size < 1 then 1 else size
  }

  ghost predicate RowsAcceptable(limits: Limits, rows: seq<Row>) {
    forall i | 0 <= i < |rows| :: RowFits(limits, rows[i])
  }

  predicate BatchFits(limits: Limits, chunk: seq<Row>) {
    |Encode(BatchOf(chunk))| <= limits.Event()
  }

  ghost predicate BatchesFit(limits: Limits, chunks: seq<seq<Row>>) {
    forall i | 0 <= i < |chunks| :: BatchFits(limits, chunks[i])
  }

  /** The rows can all be delivered, count rows and emitted bytes having gone out before them. */
  ghost predicate Delivers(limits: Limits, maxRows: nat, size: nat, cursor: Cursor, count: nat, emitted: nat)
    requires limits.Valid() && size > 0
  {
    var chunks := Chunks(cursor.rows, size);
    && count + |cursor.rows| <= maxRows
    && RowsAcceptable(limits, cursor.rows)
    && BatchesFit(limits, chunks)
    && emitted + BatchBytes(chunks) <= limits.stream - TERMINAL_RESERVE
    && (cursor.fetches.Some? ==> cursor.fetches.value > |chunks|)
  }

  /** The cursor after a fetch that did not raise. */
  function Fetch(cursor: Cursor, size: nat): Cursor {
    Cursor(Rest(cursor.rows, size), Fetched(cursor.fetches))
  }

  ghost predicate BatchPasses(limits: Limits, maxRows: nat, batch: seq<Row>, count: nat, emitted: nat)
    requires limits.Valid()
  {
    && count <= maxRows && FirstFailure(limits, batch).None? && |Encode(BatchOf(batch))| <= limits.Event()
    && emitted + |Encode(BatchOf(batch))| <= limits.stream - TERMINAL_RESERVE
  }

  lemma DeliversStepwise(limits: Limits, maxRows: nat, size: nat, cursor: Cursor, count: nat, emitted: nat)
    requires limits.Valid() && size > 0 && cursor.rows != []
    ensures var chunk := Chunk(cursor.rows, size);
            var bytes := |Encode(BatchOf(chunk))|;
            Delivers(limits, maxRows, size, cursor, count, emitted) <==>
              && cursor.fetches != Some(0)
              && BatchPasses(limits, maxRows, chunk, count + |chunk|, emitted)
              && Delivers(limits, maxRows, size, Fetch(cursor, size), count + |chunk|, emitted + bytes)
  {
    RowsStepwise(limits, cursor.rows, size);
    BatchesStepwise(limits, cursor.rows, size);
  }

  lemma RowsStepwise(limits: Limits, rows: seq<Row>, size: nat)
    requires size > 0
    ensures RowsAcceptable(limits, rows) <==>
              FirstFailure(limits, Chunk(rows, size)).None? && RowsAcceptable(limits, Rest(rows, size))
  {
    var chunk, rest := Chunk(rows, size), Rest(rows, size);
    assert rows == chunk + rest;
    RowsFitExactly(limits, chunk);
    ForAllParts(rows, chunk, rest, row => RowFits(limits, row));
  }

  lemma BatchesStepwise(limits: Limits, rows: seq<Row>, size: nat)
    requires size > 0 && rows != []
    ensures var chunk, chunks, rest := Chunk(rows, size), Chunks(rows, size), Chunks(Rest(rows, size), size);
            && (BatchesFit(limits, chunks) <==> BatchFits(limits, chunk) && BatchesFit(limits, rest))
            && BatchBytes(chunks) == |Encode(BatchOf(chunk))| + BatchBytes(rest)
            && |chunks| == 1 + |rest|
  {
    var chunk, chunks, rest := Chunk(rows, size), Chunks(rows, size), Chunks(Rest(rows, size), size);
    assert chunks[1..] == rest;
    assert chunks == [chunk] + rest;
    BatchesFitStepwise(limits, chunk, rest);
  }

  lemma BatchesFitStepwise(limits: Limits, chunk: seq<Row>, rest: seq<seq<Row>>)
    ensures BatchesFit(limits, [chunk] + rest) <==> BatchFits(limits, chunk) && BatchesFit(limits, rest)
  {
    var whole := [chunk] + rest;
    assert whole[0] == chunk;
    assert forall i | 0 <= i < |rest| :: rest[i] == whole[i + 1];
    assert forall i | 1 <= i < |whole| :: whole[i] == rest[i - 1];
  }

  lemma ForAllParts<T>(whole: seq<T>, left: seq<T>, right: seq<T>, p: T -> bool)
    requires whole == left + right
    ensures (forall i | 0 <= i < |whole| :: p(whole[i]))
       <==> (forall i | 0 <= i < |left| :: p(left[i])) && (forall i | 0 <= i < |right| :: p(right[i]))
  {
    assert forall i | 0 <= i < |left| :: left[i] == whole[i];
    assert forall i | 0 <= i < |right| :: right[i] == whole[|left| + i];
  }

  datatype Outcome = Finished(rowCount: nat) | Raised(code: Code)

  /** The checks a fetched batch passes before its event goes out. */
  method CheckBatch(limits: Limits, maxRows: nat, batch: seq<Row>, rowCount: nat, emittedBytes: nat)
    returns (failure: Option<Code>, event: Event)
    requires limits.Valid()
    ensures failure.None? <==> BatchPasses(limits, maxRows, batch, rowCount, emittedBytes)
    ensures failure.None? ==> event == BatchOf(batch)
  {
    event := Batch([]);
    if rowCount > maxRows {
      return Some(RowLimitExceeded), event;
    }
    var texts;
    failure, texts := BoundedRows(limits, batch);
    if failure.Some? {
      return;
    }
    event := Batch(texts);
    if |Encode(event)| > limits.Event() {
      failure := Some(EventBytesExceeded);
    } else if emittedBytes + |Encode(event)| > limits.stream - TERMINAL_RESERVE {
      failure := Some(SourceBytesExceeded);
    }
  }

  /** Part of all has gone out as events; rest is still to be fetched. */
  ghost predicate Emitted(limits: Limits, all: seq<Row>, rest: seq<Row>, events: seq<Event>, bytes: nat, count: nat) {
    && Open(limits, events) && events != []
    && TotalBytes(events) == bytes && bytes <= limits.stream - TERMINAL_RESERVE
    && |all| == count + |rest| && all[count..] == rest
    && RowsOf(events) == RowTexts(all)[..count]
  }

  lemma OpenGrows(limits: Limits, events: seq<Event>, event: Event)
    requires Open(limits, events) && events != []
    requires event.Batch? && |Encode(event)| <= limits.Event()
    ensures Open(limits, events + [event])
  {
  }

  lemma TextsGrow(all: seq<Row>, rest: seq<Row>, size: nat, count: nat)
    requires |all| == count + |rest| && all[count..] == rest
    ensures all[count + |Chunk(rest, size)|..] == Rest(rest, size)
    ensures RowTexts(all)[..count] + RowTexts(Chunk(rest, size)) == RowTexts(all)[..count + |Chunk(rest, size)|]
  {
    assert forall i | 0 <= i < |Chunk(rest, size)| :: Chunk(rest, size)[i] == all[count + i];
  }

  lemma BatchGoesOut(
    limits: Limits, all: seq<Row>, rest: seq<Row>, size: nat, events: seq<Event>, bytes: nat, count: nat)
    requires Emitted(limits, all, rest, events, bytes, count)
    requires var event := BatchOf(Chunk(rest, size));
             |Encode(event)| <= limits.Event() && bytes + |Encode(event)| <= limits.stream - TERMINAL_RESERVE
    ensures var event := BatchOf(Chunk(rest, size));
            Emitted(limits, all, Rest(rest, size), events + [event], bytes + |Encode(event)|,
                count + |Chunk(rest, size)|)
  {
    AppendedEvent(events, BatchOf(Chunk(rest, size)));
    OpenGrows(limits, events, BatchOf(Chunk(rest, size)));
    TextsGrow(all, rest, size, count);
  }

  /** The counters of the fetch loop, the cursor it has left and the events it has sent. */
  datatype Progress = Progress(events: seq<Event>, left: Cursor, bytes: nat, count: nat)

  ghost predicate InProgress(
    limits: Limits, maxRows: nat, size: nat, deliverable: bool, rows: seq<Row>, progress: Progress)
    requires limits.Valid() && size > 0
  {
    && Emitted(limits, rows, progress.left.rows, progress.events, progress.bytes, progress.count)
    && progress.count <= maxRows
    && deliverable == Delivers(limits, maxRows, size, progress.left, progress.count, progress.bytes)
  }

  lemma ProgressIsKept(limits: Limits, maxRows: nat, size: nat, deliverable: bool, rows: seq<Row>, progress: Progress)
    requires limits.Valid() && size > 0 && InProgress(limits, maxRows, size, deliverable, rows, progress)
    requires progress.left.rows != []
    requires progress.left.fetches != Some(0)
    requires var batch := Chunk(progress.left.rows, size);
             BatchPasses(limits, maxRows, batch, progress.count + |batch|, progress.bytes)
    ensures InProgress(limits, maxRows, size, deliverable, rows, AfterBatch(progress, size))
  {
    DeliversGoesOn(limits, maxRows, size, progress);
    EmittedGoesOn(limits, maxRows, size, rows, progress);
  }

  /** The next batch fetched and sent. */
  function AfterBatch(progress: Progress, size: nat): Progress
    requires size > 0
  {
    var batch := Chunk(progress.left.rows, size);
    var event := BatchOf(batch);
    Progress(
      progress.events + [event], Fetch(progress.left, size), progress.bytes + |Encode(event)|, progress.count + |batch|)
  }

  lemma DeliversGoesOn(limits: Limits, maxRows: nat, size: nat, progress: Progress)
    requires limits.Valid() && size > 0 && progress.left.rows != [] && progress.left.fetches != Some(0)
    requires var batch := Chunk(progress.left.rows, size);
             BatchPasses(limits, maxRows, batch, progress.count + |batch|, progress.bytes)
    ensures var next := AfterBatch(progress, size);
            Delivers(limits, maxRows, size, progress.left, progress.count, progress.bytes)
            == Delivers(limits, maxRows, size, next.left, next.count, next.bytes)
  {
    DeliversStepwise(limits, maxRows, size, progress.left, progress.count, progress.bytes);
  }

  lemma EmittedGoesOn(limits: Limits, maxRows: nat, size: nat, rows: seq<Row>, progress: Progress)
    requires limits.Valid() && size > 0
    requires Emitted(limits, rows, progress.left.rows, progress.events, progress.bytes, progress.count)
    requires var batch := Chunk(progress.left.rows, size);
             BatchPasses(limits, maxRows, batch, progress.count + |batch|, progress.bytes)
    ensures var next := AfterBatch(progress, size);
            && next.count <= maxRows
            && Emitted(limits, rows, next.left.rows, next.events, next.bytes, next.count)
  {
    BatchGoesOut(limits, rows, progress.left.rows, size, progress.events, progress.bytes, progress.count);
  }

  /** One pass of the fetch loop. */
  method EmitBatch(
    limits: Limits, maxRows: nat, size: nat, ghost deliverable: bool, ghost rows: seq<Row>, progress: Progress)
    returns (next: Progress, failure: Option<Code>)
    requires limits.Valid() && size > 0 && InProgress(limits, maxRows, size, deliverable, rows, progress)
    requires progress.left.rows != []
    ensures failure.None? ==>
              InProgress(limits, maxRows, size, deliverable, rows, next) && |next.left.rows| < |progress.left.rows|
    ensures failure.Some? ==> !deliverable
  {
    var left := progress.left;
    if left.fetches == Some(0) {
      NoProgress(limits, maxRows, size, deliverable, rows, progress);
      return progress, Some(QueryFailed);
    }
    var batch := Chunk(left.rows, size);
    var event;
    failure, event := CheckBatch(limits, maxRows, batch, progress.count + |batch|, progress.bytes);
    if failure.Some? {
      NoProgress(limits, maxRows, size, deliverable, rows, progress);
      return progress, failure;
    }
    ProgressIsKept(limits, maxRows, size, deliverable, rows, progress);
    RestIsShorter(left.rows, size);
    next := Progress(
      progress.events + [event], Fetch(left, size), progress.bytes + |Encode(event)|, progress.count + |batch|);
  }

  lemma RestIsShorter(rows: seq<Row>, size: nat)
    requires rows != [] && size > 0
    ensures |Rest(rows, size)| < |rows|
  {
  }

  lemma HeaderGoesOut(limits: Limits, maxRows: nat, size: nat, header: Event, cursor: Cursor)
    requires limits.Valid() && size > 0 && header.Schema? && |Encode(header)| <= limits.stream - TERMINAL_RESERVE
    ensures InProgress(
              limits, maxRows, size, Delivers(limits, maxRows, size, cursor, 0, |Encode(header)|), cursor.rows,
              Progress([header], cursor, |Encode(header)|, 0))
  {
    AppendedEvent([], header);
    assert [] + [header] == [header];
  }

  lemma NoProgress(limits: Limits, maxRows: nat, size: nat, deliverable: bool, rows: seq<Row>, progress: Progress)
    requires limits.Valid() && size > 0 && InProgress(limits, maxRows, size, deliverable, rows, progress)
    requires progress.left.rows != []
    requires var batch := Chunk(progress.left.rows, size);
             progress.left.fetches == Some(0)
             || !BatchPasses(limits, maxRows, batch, progress.count + |batch|, progress.bytes)
    ensures !deliverable
  {
    DeliversStepwise(limits, maxRows, size, progress.left, progress.count, progress.bytes);
  }

  lemma RowsSoFar(limits: Limits, all: seq<Row>, rest: seq<Row>, events: seq<Event>, bytes: nat, count: nat)
    requires Emitted(limits, all, rest, events, bytes, count)
    ensures RowsOf(events) <= RowTexts(all)
    ensures rest == [] ==> count == |all| && RowsOf(events) == RowTexts(all)
  {
  }

  lemma NothingLeftToDeliver(limits: Limits, maxRows: nat, size: nat, left: Cursor, count: nat, bytes: nat)
    requires limits.Valid() && size > 0 && left.rows == []
    requires count <= maxRows && bytes <= limits.stream - TERMINAL_RESERVE
    ensures Delivers(limits, maxRows, size, left, count, bytes) <==> left.fetches != Some(0)
  {
  }

  /** The fetch loop, after the schema event has gone out. */
  method EmitBatches(limits: Limits, request: Request, header: Event, cursor: Cursor)
    returns (events: seq<Event>, outcome: Outcome)
    requires limits.Valid() && header.Schema? && |Encode(header)| <= limits.stream - TERMINAL_RESERVE
    ensures Open(limits, events) && TotalBytes(events) <= limits.stream - TERMINAL_RESERVE
    ensures RowsOf(events) <= RowTexts(cursor.rows)
    ensures outcome.Finished? <==>
              Delivers(limits, request.maxRows, FetchSize(limits, request), cursor, 0, |Encode(header)|)
    ensures outcome.Finished? ==> outcome.rowCount == |cursor.rows| && RowsOf(events) == RowTexts(cursor.rows)
  {
    var maxRows, size := request.maxRows, FetchSize(limits, request);
    ghost var deliverable := Delivers(limits, maxRows, size, cursor, 0, |Encode(header)|);
    HeaderGoesOut(limits, maxRows, size, header, cursor);
    var progress := Progress([header], cursor, |Encode(header)|, 0);
    while progress.left.rows != []
      invariant InProgress(limits, maxRows, size, deliverable, cursor.rows, progress)
      decreases |progress.left.rows|
    {
      var next, failure := EmitBatch(limits, maxRows, size, deliverable, cursor.rows, progress);
      if failure.Some? {
        RowsSoFar(limits, cursor.rows, progress.left.rows, progress.events, progress.bytes, progress.count);
        return progress.events, Raised(failure.value);
      }
      progress := next;
    }
    RowsSoFar(limits, cursor.rows, [], progress.events, progress.bytes, progress.count);
    NothingLeftToDeliver(limits, maxRows, size, progress.left, progress.count, progress.bytes);
    events := progress.events;
    outcome := if progress.left.fetches == Some(0) then Raised(QueryFailed) else Finished(progress.count);
  }

  /** What the foreign calls around a query do: opening, executing, and closing the cursor afterwards. */
  datatype Driver = Driver(connects: bool, columns: Option<seq<string>>, cursor: Cursor, closes: bool)

  ghost predicate Producible(limits: Limits, request: Request, driver: Driver)
    requires limits.Valid()
  {
    && driver.columns.Some?
    && |Encode(Schema(driver.columns.value))| <= limits.stream - TERMINAL_RESERVE
    && Delivers(limits, request.maxRows, FetchSize(limits, request), driver.cursor, 0,
                |Encode(Schema(driver.columns.value))|)
  }

  /** The stream up to its terminal event: the schema event and the batches, unless something was raised first. */
  method RunQuery(limits: Limits, request: Request, driver: Driver) returns (events: seq<Event>, outcome: Outcome)
    requires limits.Valid()
    ensures Open(limits, events) && TotalBytes(events) <= limits.stream - TERMINAL_RESERVE
    ensures RowsOf(events) <= RowTexts(driver.cursor.rows)
    ensures outcome.Finished? ==> RowsOf(events) == RowTexts(driver.cursor.rows)
    ensures outcome.Finished? ==> outcome.rowCount == |driver.cursor.rows|
    ensures outcome.Finished? <==> Producible(limits, request, driver)
  {
    if driver.columns.None? {
      return [], Raised(QueryFailed);
    }
    var header := Schema(driver.columns.value);
    if |Encode(header)| > limits.stream - TERMINAL_RESERVE {
      return [], Raised(SourceBytesExceeded);
    }
    events, outcome := EmitBatches(limits, request, header, driver.cursor);
  }

  /** Everything the stream needs to end in a complete event. */
  ghost predicate Deliverable(limits: Limits, request: Request, driver: Driver)
    requires limits.Valid()
  {
    driver.connects && driver.closes && Producible(limits, request, driver)
  }

  ghost predicate CompletionFits(limits: Limits, events: seq<Event>, rowCount: nat, durationMs: nat) {
    TotalBytes(events) + |Encode(Complete(rowCount, durationMs))| <= limits.stream
  }

  lemma StreamCloses(limits: Limits, events: seq<Event>, terminal: Event)
    requires Open(limits, events) && terminal.Terminal()
    ensures Closed(limits, events + [terminal])
    ensures TotalBytes(events + [terminal]) == TotalBytes(events) + |Encode(terminal)|
    ensures RowsOf(events + [terminal]) == RowsOf(events)
  {
    AppendedEvent(events, terminal);
    assert (events + [terminal])[..|events|] == events;
  }

  lemma ConflictTwice(limits: Limits)
    requires limits.Valid()
    ensures var events := [Error(QueryIdConflict), Error(QueryFailed)];
            TotalBytes(events) <= limits.stream && RowsOf(events) == [] && !Closed(limits, events)
  {
    AppendedEvent([], Error(QueryIdConflict));
    AppendedEvent([Error(QueryIdConflict)], Error(QueryFailed));
    ErrorsFitTheReserve(QueryIdConflict);
    ErrorsFitTheReserve(QueryFailed);
    assert [] + [Error(QueryIdConflict)] == [Error(QueryIdConflict)];
    assert [Error(QueryIdConflict)] + [Error(QueryFailed)] == [Error(QueryIdConflict), Error(QueryFailed)];
    assert [Error(QueryIdConflict), Error(QueryFailed)][..1][0] == Error(QueryIdConflict);
  }

  /** A stream that says only that it failed. */
  lemma ErrorAlone(limits: Limits, code: Code)
    requires limits.Valid()
    ensures var events := [Error(code)];
            Closed(limits, events) && TotalBytes(events) <= limits.stream && RowsOf(events) == [] && !Completed(events)
  {
    StreamCloses(limits, [], Error(code));
    ErrorsFitTheReserve(code);
    assert [] + [Error(code)] == [Error(code)];
  }

  /** The generator once a connection is open and the query id registered. */
  method StreamRegistered(
    limits: Limits, request: Request, driver: Driver, durationMs: nat) returns (events: seq<Event>)
    requires limits.Valid() && driver.connects
    ensures Closed(limits, events) && TotalBytes(events) <= limits.stream
    ensures RowsOf(events) <= RowTexts(driver.cursor.rows)
    ensures Completed(events) ==> events[|events| - 1] == Complete(|driver.cursor.rows|, durationMs)
    ensures Completed(events) ==> RowsOf(events) == RowTexts(driver.cursor.rows)
    ensures Completed(events) <==>
              Deliverable(limits, request, driver)
              && CompletionFits(limits, events[..|events| - 1], |driver.cursor.rows|, durationMs)
  {
    var body, outcome := RunQuery(limits, request, driver);
    if !driver.closes {
      outcome := Raised(QueryFailed);
    }
    events := Terminate(limits, body, outcome, durationMs);
  }

  /**
   * The whole generator. It closes with exactly one terminal event unless the query id was taken and closing
   * the cursor then raised, in which case two error events go out.
   */
  method StreamQueryEvents(limits: Limits, request: Request, active: bool, driver: Driver, durationMs: nat)
    returns (events: seq<Event>)
    requires limits.Valid()
    ensures TotalBytes(events) <= limits.stream
    ensures Closed(limits, events) <==> !(driver.connects && active && !driver.closes)
    ensures RowsOf(events) <= RowTexts(driver.cursor.rows)
    ensures Completed(events) ==>
              events[|events| - 1].rowCount == |driver.cursor.rows| && RowsOf(events) == RowTexts(driver.cursor.rows)
    ensures Completed(events) ==> |driver.cursor.rows| <= request.maxRows
    ensures Completed(events) <==>
              !active && Deliverable(limits, request, driver)
              && CompletionFits(limits, events[..|events| - 1], |driver.cursor.rows|, durationMs)
  {
    if !driver.connects {
      ErrorAlone(limits, QueryFailed);
      return [Error(QueryFailed)];
    }
    if active {
      ErrorAlone(limits, QueryIdConflict);
      ConflictTwice(limits);
      return if driver.closes then [Error(QueryIdConflict)] else [Error(QueryIdConflict), Error(QueryFailed)];
    }
    events := StreamRegistered(limits, request, driver, durationMs);
  }

  /** The terminal event for an outcome; the completion is still checked against the budget. */
  method Terminate(limits: Limits, body: seq<Event>, outcome: Outcome, durationMs: nat) returns (events: seq<Event>)
    requires limits.Valid() && Open(limits, body) && TotalBytes(body) <= limits.stream - TERMINAL_RESERVE
    ensures |events| == |body| + 1 && events[..|body|] == body
    ensures Closed(limits, events) && TotalBytes(events) <= limits.stream && RowsOf(events) == RowsOf(body)
    ensures Completed(events) <==> outcome.Finished? && CompletionFits(limits, body, outcome.rowCount, durationMs)
    ensures Completed(events) ==> events[|body|] == Complete(outcome.rowCount, durationMs)
  {
    var terminal := match outcome
      case Raised(code) => Error(code)
      case Finished(rowCount) =>
        if TotalBytes(body) + |Encode(Complete(rowCount, durationMs))| > limits.stream then Error(SourceBytesExceeded)
        else Complete(rowCount, durationMs);
    if terminal.Error? {
      ErrorsFitTheReserve(terminal.code);
    }
    StreamCloses(limits, body, terminal);
    events := body + [terminal];
  }

  /** The reserve is always enough for a completion of fewer than 300 digits, so that last check never fails. */
  lemma CompletionFitsTheReserve(limits: Limits, events: seq<Event>, rowCount: nat, durationMs: nat)
    requires limits.Valid() && TotalBytes(events) <= limits.stream - TERMINAL_RESERVE
    requires |Itoa(rowCount)| + |Itoa(durationMs)| < 300
    ensures CompletionFits(limits, events, rowCount, durationMs)
  {
  }

  // ---- The document ------------------------------------------------------------------------------------------------

  function Prefix(columns: seq<string>): string {
    "{\"columns\":[" + Join(columns) + "],\"rows\":["
  }

  function Suffix(rowCount: nat, durationMs: nat): string {
    "],\"rowCount\":" + Itoa(rowCount) + ",\"durationMs\":" + Itoa(durationMs) + "}"
  }

  predicate EndsWithoutDigit(s: string) {
    s != "" && !IsDigit(s[|s| - 1])
  }

  lemma LastNumberIsRead(s: string, t: string, before: string, m: nat, n: nat)
    requires EndsWithoutDigit(before) && s + before + Itoa(m) == t + before + Itoa(n)
    ensures s == t && m == n
  {
    TrailingNumber(s + before, t + before, m, n);
    SameEnd(s, t, before);
  }

  /** Two numbers after fixed texts are read back from the end of a text. */
  lemma NumbersAreRead(s: string, t: string, first: string, second: string, end: string, m: nat, n: nat, k: nat, l: nat)
    requires EndsWithoutDigit(first) && EndsWithoutDigit(second)
    requires s + first + Itoa(m) + second + Itoa(n) + end == t + first + Itoa(k) + second + Itoa(l) + end
    ensures s == t && m == k && n == l
  {
    var left, right := s + first + Itoa(m), t + first + Itoa(k);
    SameEnd(left + second + Itoa(n), right + second + Itoa(l), end);
    LastNumberIsRead(left, right, second, n, l);
    LastNumberIsRead(s, t, first, m, k);
  }

  /** The end of a document tells its row count and duration, whatever is before it. */
  lemma SuffixTellsCounts(s: string, t: string, m: nat, n: nat, k: nat, l: nat)
    requires s + Suffix(m, n) == t + Suffix(k, l)
    ensures s == t && m == k && n == l
  {
    var first, second, end := "],\"rowCount\":", ",\"durationMs\":", "}";
    Regrouped(s, first, Itoa(m), second, Itoa(n), end);
    Regrouped(t, first, Itoa(k), second, Itoa(l), end);
    NumbersAreRead(s, t, first, second, end, m, n, k, l);
  }

  lemma Regrouped(s: string, a: string, b: string, c: string, d: string, e: string)
    ensures s + (a + b + c + d + e) == s + a + b + c + d + e
  {
  }

  /** The completion event tells its row count and duration. */
  lemma CompletionTellsCounts(m: nat, n: nat, k: nat, l: nat)
    requires Encode(Complete(m, n)) == Encode(Complete(k, l))
    ensures m == k && n == l
  {
    var first, second, end := "{\"type\":\"complete\",\"rowCount\":", ",\"durationMs\":", "}\n";
    Regrouped("", first, Itoa(m), second, Itoa(n), end);
    Regrouped("", first, Itoa(k), second, Itoa(l), end);
    NumbersAreRead("", "", first, second, end, m, n, k, l);
  }

  /** The document so far: its rows, and the running byte and row counters. */
  datatype Document = Document(rows: seq<string>, bytes: nat, count: nat)

  ghost predicate Built(limits: Limits, maxRows: nat, prefix: string, all: seq<Row>, document: Document) {
    && document.count <= |all| && document.count <= maxRows
    && document.rows == RowTexts(all)[..document.count] && RowsAcceptable(limits, all[..document.count])
    && document.bytes == |prefix| + |Join(document.rows)| && document.bytes + SUFFIX_RESERVE <= limits.json
  }

  /** The budget is one condition on the whole result, not on each row. */
  ghost predicate FitsDocument(limits: Limits, maxRows: nat, prefix: string, all: seq<Row>) {
    && |all| <= maxRows && RowsAcceptable(limits, all)
    && |prefix| + |Join(RowTexts(all))| + SUFFIX_RESERVE <= limits.json
  }

  lemma {:induction false} JoinOfPrefix(texts: seq<string>, count: nat)
    requires count <= |texts|
    ensures |Join(texts[..count])| <= |Join(texts)|
    decreases |texts|
  {
    if count < |texts| {
      var shorter := texts[..|texts| - 1];
      JoinOfPrefix(shorter, count);
      assert shorter[..count] == texts[..count];
      JoinGrows(shorter, texts[|texts| - 1]);
      assert shorter + [texts[|texts| - 1]] == texts;
    } else {
      assert texts[..count] == texts;
    }
  }

  lemma NextText(texts: seq<string>, k: nat)
    requires k < |texts|
    ensures texts[..k] + [texts[k]] == texts[..k + 1]
    ensures |Join(texts[..k + 1])| == |Join(texts[..k])| + (if k > 0 then 1 else 0) + |texts[k]|
  {
    JoinGrows(texts[..k], texts[k]);
    assert texts[..k] + [texts[k]] == texts[..k + 1];
  }

  lemma NextRowIsAcceptable(limits: Limits, all: seq<Row>, k: nat)
    requires k < |all| && RowsAcceptable(limits, all[..k]) && FirstFailure(limits, [all[k]]).None?
    ensures RowsAcceptable(limits, all[..k + 1])
  {
    RowsFitExactly(limits, [all[k]]);
    assert RowFits(limits, [all[k]][0]);
    assert all[..k + 1] == all[..k] + [all[k]];
  }

  lemma TextDoesNotFit(texts: seq<string>, k: nat)
    requires k < |texts|
    ensures |Join(texts[..k])| + (if k > 0 then 1 else 0) + |texts[k]| <= |Join(texts)|
  {
    JoinOfPrefix(texts, k + 1);
    NextText(texts, k);
  }

  lemma RowFails(limits: Limits, all: seq<Row>, k: nat)
    requires k < |all| && FirstFailure(limits, [all[k]]).Some?
    ensures !RowsAcceptable(limits, all)
  {
    RowsFitExactly(limits, [all[k]]);
  }

  lemma RowDoesNotFit(limits: Limits, maxRows: nat, prefix: string, all: seq<Row>, document: Document)
    requires Built(limits, maxRows, prefix, all, document) && document.count < |all|
    requires var text := RowText(all[document.count]);
             || document.count + 1 > maxRows
             || FirstFailure(limits, [all[document.count]]).Some?
             || document.bytes + (if document.rows != [] then 1 else 0) + |text| + SUFFIX_RESERVE > limits.json
    ensures !FitsDocument(limits, maxRows, prefix, all)
  {
    TextDoesNotFit(RowTexts(all), document.count);
    if FirstFailure(limits, [all[document.count]]).Some? {
      RowFails(limits, all, document.count);
    }
  }

  lemma RowIsAppended(limits: Limits, maxRows: nat, prefix: string, all: seq<Row>, document: Document, bytes: nat)
    requires Built(limits, maxRows, prefix, all, document) && document.count < |all| && document.count + 1 <= maxRows
    requires FirstFailure(limits, [all[document.count]]).None?
    requires var text := RowText(all[document.count]);
             bytes == document.bytes + (if document.rows != [] then 1 else 0) + |text|
    requires bytes + SUFFIX_RESERVE <= limits.json
    ensures var text := RowText(all[document.count]);
            Built(limits, maxRows, prefix, all, Document(document.rows + [text], bytes, document.count + 1))
  {
    NextText(RowTexts(all), document.count);
    NextRowIsAcceptable(limits, all, document.count);
  }

  method AppendRow(limits: Limits, maxRows: nat, prefix: string, all: seq<Row>, document: Document)
    returns (next: Document, failure: Option<Code>)
    requires Built(limits, maxRows, prefix, all, document) && document.count < |all|
    ensures failure.None? ==> Built(limits, maxRows, prefix, all, next) && next.count == document.count + 1
    ensures failure.Some? ==> !FitsDocument(limits, maxRows, prefix, all)
  {
    if document.count + 1 > maxRows {
      RowDoesNotFit(limits, maxRows, prefix, all, document);
      return document, Some(RowLimitExceeded);
    }
    var encoded;
    failure, encoded := BoundedRows(limits, [all[document.count]]);
    if failure.Some? {
      RowDoesNotFit(limits, maxRows, prefix, all, document);
      return document, failure;
    }
    var separatorBytes := if document.rows != [] then 1 else 0;
    if document.bytes + separatorBytes + |encoded[0]| + SUFFIX_RESERVE > limits.json {
      RowDoesNotFit(limits, maxRows, prefix, all, document);
      return document, Some(ResponseBytesExceeded);
    }
    var bytes := document.bytes + separatorBytes + |encoded[0]|;
    RowIsAppended(limits, maxRows, prefix, all, document, bytes);
    next := Document(document.rows + [encoded[0]], bytes, document.count + 1);
  }

  method AppendBatch(limits: Limits, maxRows: nat, prefix: string, all: seq<Row>, batch: seq<Row>, document: Document)
    returns (next: Document, failure: Option<Code>)
    requires Built(limits, maxRows, prefix, all, document)
    requires document.count + |batch| <= |all| && all[document.count..document.count + |batch|] == batch
    ensures failure.None? ==> Built(limits, maxRows, prefix, all, next) && next.count == document.count + |batch|
    ensures failure.Some? ==> !FitsDocument(limits, maxRows, prefix, all)
  {
    next := document;
    for i := 0 to |batch|
      invariant Built(limits, maxRows, prefix, all, next) && next.count == document.count + i
    {
      next, failure := AppendRow(limits, maxRows, prefix, all, next);
      if failure.Some? {
        return;
      }
    }
    failure := None;
  }

  lemma FetchesStepwise(cursor: Cursor, size: nat)
    requires size > 0 && cursor.rows != []
    ensures Survives(cursor, size) <==> cursor.fetches != Some(0) && Survives(Fetch(cursor, size), size)
  {
  }

  /** The cursor gives all its rows, and then an empty batch, before it raises. */
  ghost predicate Survives(cursor: Cursor, size: nat)
    requires size > 0
  {
    cursor.fetches.Some? ==> cursor.fetches.value > |Chunks(cursor.rows, size)|
  }

  function DocumentFetchSize(limits: Limits, maxRows: nat): (size: nat)
    requires limits.Valid()
    ensures size > 0
  {
    var fitting := limits.json / limits.row;
    var size := if maxRows + 1 < 100 then maxRows + 1 else 100;
    if fitting < 1 then 1 else if fitting < size then fitting else size
  }

  ghost predicate Fetching(
    limits: Limits, maxRows: nat, size: nat, prefix: string, cursor: Cursor, left: Cursor, document: Document)
    requires size > 0
  {
    && Built(limits, maxRows, prefix, cursor.rows, document)
    && document.count + |left.rows| == |cursor.rows| && cursor.rows[document.count..] == left.rows
    && Survives(cursor, size) == Survives(left, size)
  }

  lemma FetchingGoesOn(
    limits: Limits, maxRows: nat, size: nat, prefix: string, cursor: Cursor, left: Cursor, document: Document,
    next: Document)
    requires size > 0 && left.rows != [] && left.fetches != Some(0)
    requires Fetching(limits, maxRows, size, prefix, cursor, left, document)
    requires Built(limits, maxRows, prefix, cursor.rows, next)
    requires next.count == document.count + |Chunk(left.rows, size)|
    ensures Fetching(limits, maxRows, size, prefix, cursor, Fetch(left, size), next)
  {
    FetchesStepwise(left, size);
  }

  lemma FetchingEnds(
    limits: Limits, maxRows: nat, size: nat, prefix: string, cursor: Cursor, left: Cursor, document: Document)
    requires size > 0 && left.rows == []
    requires Fetching(limits, maxRows, size, prefix, cursor, left, document)
    ensures FitsDocument(limits, maxRows, prefix, cursor.rows)
    ensures Survives(cursor, size) <==> left.fetches != Some(0)
    ensures document == Document(RowTexts(cursor.rows), |prefix| + |Join(RowTexts(cursor.rows))|, |cursor.rows|)
  {
    assert cursor.rows[..document.count] == cursor.rows;
    assert RowTexts(cursor.rows)[..document.count] == RowTexts(cursor.rows);
  }

  /** One pass of the fetch loop. */
  method FetchBatch(
    limits: Limits, maxRows: nat, size: nat, prefix: string, cursor: Cursor, left: Cursor, document: Document)
    returns (next: Document, failure: Option<Code>)
    requires size > 0 && |prefix| + SUFFIX_RESERVE <= limits.json && left.rows != []
    requires Fetching(limits, maxRows, size, prefix, cursor, left, document)
    ensures failure.None? ==> Fetching(limits, maxRows, size, prefix, cursor, Fetch(left, size), next)
    ensures failure.None? ==> |Fetch(left, size).rows| < |left.rows|
    ensures failure.Some? ==> !(FitsDocument(limits, maxRows, prefix, cursor.rows) && Survives(cursor, size))
  {
    FetchesStepwise(left, size);
    if left.fetches == Some(0) {
      return document, Some(QueryFailed);
    }
    var batch := Chunk(left.rows, size);
    BatchIsNext(cursor.rows, left.rows, document.count, size);
    next, failure := AppendBatch(limits, maxRows, prefix, cursor.rows, batch, document);
    if failure.None? {
      FetchingGoesOn(limits, maxRows, size, prefix, cursor, left, document, next);
    }
  }

  method FetchRows(limits: Limits, maxRows: nat, size: nat, prefix: string, cursor: Cursor)
    returns (document: Document, failure: Option<Code>)
    requires size > 0 && |prefix| + SUFFIX_RESERVE <= limits.json
    ensures failure.None? <==> FitsDocument(limits, maxRows, prefix, cursor.rows) && Survives(cursor, size)
    ensures failure.None? ==>
              document == Document(RowTexts(cursor.rows), |prefix| + |Join(RowTexts(cursor.rows))|, |cursor.rows|)
  {
    var left := cursor;
    document := Document([], |prefix|, 0);
    while left.rows != []
      invariant Fetching(limits, maxRows, size, prefix, cursor, left, document)
      decreases |left.rows|
    {
      document, failure := FetchBatch(limits, maxRows, size, prefix, cursor, left, document);
      if failure.Some? {
        return;
      }
      left := Fetch(left, size);
    }
    FetchingEnds(limits, maxRows, size, prefix, cursor, left, document);
    failure := if left.fetches == Some(0) then Some(QueryFailed) else None;
  }

  lemma BatchIsNext(all: seq<Row>, rest: seq<Row>, count: nat, size: nat)
    requires count + |rest| == |all| && all[count..] == rest
    ensures var batch := Chunk(rest, size);
            count + |batch| <= |all| && all[count..count + |batch|] == batch
  {
    assert all[count..count + |Chunk(rest, size)|] == all[count..][..|Chunk(rest, size)|];
  }

  /** Everything the query needs to be answered. */
  ghost predicate Answerable(limits: Limits, request: Request, driver: Driver, durationMs: nat)
    requires limits.Valid()
  {
    && driver.connects && driver.closes && driver.columns.Some? && |driver.columns.value| <= MAX_COLUMNS
    && Survives(driver.cursor, DocumentFetchSize(limits, request.maxRows))
    && FitsDocument(limits, request.maxRows, Prefix(driver.columns.value), driver.cursor.rows)
    && |Content(driver, durationMs)| <= limits.json
  }

  ghost function Content(driver: Driver, durationMs: nat): string
    requires driver.columns.Some?
  {
    Prefix(driver.columns.value) + Join(RowTexts(driver.cursor.rows)) + Suffix(|driver.cursor.rows|, durationMs)
  }

  datatype Response = Answer(content: string) | Refusal(code: Code)

  /** The document is sent exactly when all of it fits, and then it holds every row once, in order. */
  method Query(
    limits: Limits, request: Request, active: bool, driver: Driver, durationMs: nat) returns (response: Response)
    requires limits.Valid()
    ensures response.Answer? <==> !active && Answerable(limits, request, driver, durationMs)
    ensures response.Answer? ==>
              response.content == Content(driver, durationMs) && |response.content| <= limits.json
  {
    if !driver.connects {
      return Refusal(QueryFailed);
    }
    if active {
      return Refusal(QueryIdConflict);
    }
    if driver.columns.None? {
      return Refusal(QueryFailed);
    }
    if |driver.columns.value| > MAX_COLUMNS {
      return Refusal(ColumnLimitExceeded);
    }
    var prefix := Prefix(driver.columns.value);
    if |prefix| + SUFFIX_RESERVE > limits.json {
      return Refusal(ResponseBytesExceeded);
    }
    var document, failure := FetchRows(
      limits, request.maxRows, DocumentFetchSize(limits, request.maxRows), prefix, driver.cursor);
    if failure.Some? {
      return Refusal(failure.value);
    }
    var content := prefix + Join(document.rows) + Suffix(document.count, durationMs);
    if |content| > limits.json {
      return Refusal(ResponseBytesExceeded);
    }
    return if driver.closes then Answer(content) else Refusal(QueryFailed);
  }
}
