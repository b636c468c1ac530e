/** The outbox and embedding tables, and what each transaction does to them. */
module EmbeddingOutbox {
  import opened Prelude

  const MAX_ATTEMPTS: nat := 3
  const MAX_CLAIMS: nat := 32
  const MAX_DOCUMENT_BYTES: nat := 0x3_C000

  type Asset = nat
  type Worker = string
  type Vector = seq<real>

  /** SHA-256, taken to be injective. */
  datatype Hash = Sha256(text: string)

  /** What the metadata of an asset says when it is read: no document, or the lines of one. */
  datatype Facts = Missing | Unfit(code: string) | Described(lines: string)

  /** The version of the document contract a worker is built with. */
  type Format = name: string | |name| <= MAX_FORMAT_LENGTH && '\n' !in name witness "asset-search-document-v2"

  const MAX_FORMAT_LENGTH: nat := 100
  const VERSION_LABEL: string := "文档版本："

  /** The first line of a document names its format. */
  function Header(format: Format): string {
    VERSION_LABEL + format + "\n"
  }

  function Rendered(format: Format, lines: string): string {
    Header(format) + lines
  }

  predicate IsInFormat(text: string, format: Format) {
    Header(format) <= text
  }

  lemma FormatIsReadOff(text: string, format: Format, other: Format)
    requires IsInFormat(text, format) && IsInFormat(text, other)
    ensures format == other
  {
    var rest, k := text[|VERSION_LABEL|..], |VERSION_LABEL|;
    assert Header(format)[k..] == format + "\n" && Header(other)[k..] == other + "\n";
    assert rest[..|format| + 1] == format + "\n" && rest[..|other| + 1] == other + "\n";
    assert rest[|format|] == '\n' && rest[|other|] == '\n';
    assert forall i | 0 <= i < |format| :: rest[i] == format[i];
    assert forall i | 0 <= i < |other| :: rest[i] == other[i];
    assert |format| == |other|;
    assert format == rest[..|format|] && other == rest[..|other|];
  }

  datatype EventStatus = Pending | Running | Succeeded | Failed | Skipped
  datatype Lease = Lease(owner: Worker, expires: int)
  datatype Event = Event(status: EventStatus, version: nat, attempt: nat, nextAttempt: int, lease: Option<Lease>)

  datatype RowStatus = Waiting | Embedded | Broken
  datatype Row = Row(format: Format, text: string, hash: Hash, status: RowStatus, vector: Option<Vector>, model: string)

  datatype Tables = Tables(events: map<Asset, Event>, rows: map<Asset, Row>)

  datatype Claim = Claim(asset: Asset, version: nat)
  datatype Document = Document(
    claim: Claim,
    text: string,
    hash: Option<Hash>,
    current: bool,
    eligible: bool,
    code: string)

  datatype Failure = InvalidRequest | DocumentChanged | LeaseLost

  predicate EventIsSound(event: Event) {
    && event.attempt <= MAX_ATTEMPTS && event.version >= 1
    && (event.status == Running <==> event.lease.Some?)
    && (event.status == Running ==> event.attempt >= 1 && event.lease.value.owner != "")
    && (event.status == Failed ==> event.attempt == MAX_ATTEMPTS)
  }

  /** The hash is that of the text, the text of the format, and a vector and a model are there exactly when embedded. */
  predicate RowIsConsistent(row: Row) {
    && row.hash == Sha256(row.text) && IsInFormat(row.text, row.format)
    && (row.status == Embedded <==> row.vector.Some?) && (row.status == Embedded <==> row.model != "")
  }

  predicate TablesAreSound(tables: Tables) {
    && (forall asset | asset in tables.events :: EventIsSound(tables.events[asset]))
    && (forall asset | asset in tables.rows :: RowIsConsistent(tables.rows[asset]))
  }

  // ---- Transactions ---------------------------------------------------------------------------------------------

  /** A new or restarted event; whatever lease it had is void. */
  function Restarted(events: map<Asset, Event>, asset: Asset, now: int): Event {
    Event(Pending, if asset in events then events[asset].version + 1 else 1, 0, now, None)
  }

  function Touch(events: map<Asset, Event>, assets: set<Asset>, now: int): map<Asset, Event> {
    map asset | asset in events.Keys + assets ::
      if asset in assets then Restarted(events, asset, now) else events[asset]
  }

  function Stale(rows: map<Asset, Row>, format: Format): set<Asset> {
    set asset | asset in rows && rows[asset].format != format
  }

  predicate Claimable(event: Event, now: int) {
    event.attempt < MAX_ATTEMPTS
    && if event.status == Running then event.lease.Some? && event.lease.value.expires <= now
       else (event.status == Pending || event.status == Failed) && event.nextAttempt <= now
  }

  predicate Exhausted(event: Event, now: int) {
    event.status == Running && event.lease.Some? && event.lease.value.expires <= now && event.attempt >= MAX_ATTEMPTS
  }

  function Sweep(events: map<Asset, Event>, now: int): map<Asset, Event> {
    map asset | asset in events ::
      if Exhausted(events[asset], now) then events[asset].(status := Failed, lease := None) else events[asset]
  }

  /** The rows the database picks; rows locked by others are skipped, so any claimable ones may be picked. */
  predicate Pickable(events: map<Asset, Event>, now: int, limit: nat, picked: set<Asset>) {
    |picked| <= limit && forall asset | asset in picked :: asset in events && Claimable(events[asset], now)
  }

  function Granted(events: map<Asset, Event>, now: int, worker: Worker, seconds: nat, picked: set<Asset>)
    : map<Asset, Event>
  {
    map asset | asset in events ::
      if asset in picked
      then
        events[asset].(
          status := Running, attempt := events[asset].attempt + 1, lease := Some(Lease(worker, now + seconds)))
      else events[asset]
  }

  function AfterClaim(tables: Tables, now: int, worker: Worker, seconds: nat, picked: set<Asset>): Tables {
    tables.(events := Granted(Sweep(tables.events, now), now, worker, seconds, picked))
  }

  /** The document the metadata gives now, checked against the stored row. */
  function Read(rows: map<Asset, Row>, facts: Facts, claim: Claim, model: string, format: Format): Document {
    match facts
    case Missing => Document(claim, "", None, false, false, "ASSET_NOT_FOUND")
    case Unfit(code) => Document(claim, "", None, false, false, code)
    case Described(lines) =>
      var text := Rendered(format, lines);
      if |text| == 0 || |text| > MAX_DOCUMENT_BYTES then Document(claim, text, None, false, false, "DOCUMENT_TOO_LARGE")
      else Document(claim, text, Some(Sha256(text)), IsCurrent(rows, claim.asset, Sha256(text), model), true, "")
  }

  predicate IsCurrent(rows: map<Asset, Row>, asset: Asset, hash: Hash, model: string) {
    asset in rows && rows[asset].status == Embedded && rows[asset].hash == hash && rows[asset].model == model
  }

  function AfterPrepare(tables: Tables, document: Document, format: Format): Tables {
    if document.eligible && !document.current
    then tables.(rows := tables.rows[document.claim.asset :=
           Row(format, document.text, Sha256(document.text), Waiting, None, "")])
    else tables
  }

  /** The worker holds the event the claim was made for. */
  predicate Holds(tables: Tables, claim: Claim, worker: Worker) {
    claim.asset in tables.events
    && var event := tables.events[claim.asset];
       event.status == Running && event.lease.Some? && event.lease.value.owner == worker
           && event.version == claim.version
  }

  function Finished(tables: Tables, claim: Claim, status: EventStatus): Tables
    requires claim.asset in tables.events
  {
    tables.(events := tables.events[claim.asset := tables.events[claim.asset].(status := status, lease := None)])
  }

  predicate AwaitsVector(tables: Tables, document: Document) {
    document.claim.asset in tables.rows
    && tables.rows[document.claim.asset].status == Waiting
    && Some(tables.rows[document.claim.asset].hash) == document.hash
  }

  function AfterComplete(tables: Tables, document: Document, model: string, vector: Vector): Tables
    requires document.claim.asset in tables.events && AwaitsVector(tables, document)
  {
    var asset := document.claim.asset;
    Finished(tables, document.claim, Succeeded).(
      rows := tables.rows[asset := tables.rows[asset].(status := Embedded, vector := Some(vector), model := model)])
  }

  function AfterSkip(tables: Tables, claim: Claim): Tables
    requires claim.asset in tables.events
  {
    Finished(tables, claim, Skipped).(rows := tables.rows - {claim.asset})
  }

  function Delay(attempt: nat): Option<nat> {
    if attempt == 1 then Some(30) else if attempt == 2 then Some(120) else None
  }

  function Returned(event: Event, now: int): Event {
    event.(
      status := if event.attempt >= MAX_ATTEMPTS then Failed else Pending,
      nextAttempt := if Delay(event.attempt).Some? then now + Delay(event.attempt).value else event.nextAttempt,
      lease := None)
  }

  function AfterFail(tables: Tables, document: Document, now: int): Tables
    requires document.claim.asset in tables.events
  {
    var asset := document.claim.asset;
    Tables(
      tables.events[asset := Returned(tables.events[asset], now)],
      if asset in tables.rows && document.hash == Some(tables.rows[asset].hash)
      then tables.rows[asset := tables.rows[asset].(status := Broken, vector := None, model := "")]
      else tables.rows)
  }

  /** The store: two tables, changed by transactions that take effect entirely or not at all. */
  class Store {
    var events: map<Asset, Event>
    var rows: map<Asset, Row>

    ghost function View(): Tables
      reads this
    {
      Tables(events, rows)
    }

    ghost predicate Valid()
      reads this
    {
      TablesAreSound(View())
    }

    constructor ()
      ensures Valid() && View() == Tables(map[], map[])
    {
      events, rows := map[], map[];
    }

    /** Every row in another format gets its event restarted: due now, with all attempts, and no claim on it held. */
    method RequeueStaleDocuments(now: int, format: Format)
      requires Valid()
      modifies `events
      ensures Valid()
      ensures View() == old(View()).(events := Touch(old(events), Stale(rows, format), now))
      ensures forall asset | asset in rows && rows[asset].format != format ::
                && asset in events && Claimable(events[asset], now) && events[asset].attempt == 0
                && (asset in old(events) ==> events[asset].version > old(events)[asset].version)
      ensures forall claim: Claim, worker: Worker | claim.asset in rows && rows[claim.asset].format != format ::
                !Holds(View(), claim, worker)
      ensures forall asset | asset !in rows || rows[asset].format == format ::
                (asset in events <==> asset in old(events)) && (asset in events ==> events[asset] == old(events)[asset])
    {
      events := Touch(events, Stale(rows, format), now);
    }

    method ClaimBatch(now: int, worker: Worker, seconds: nat, limit: nat, picked: set<Asset>)
      returns (claims: Option<map<Asset, Claim>>)
      requires Valid() && Pickable(Sweep(events, now), now, limit, picked)
      modifies `events
      ensures Valid()
      ensures claims.None? <==> worker == "" || seconds < 1 || limit < 1 || limit > MAX_CLAIMS
      ensures claims.None? ==> View() == old(View())
      ensures claims.Some? ==>
                && View() == AfterClaim(old(View()), now, worker, seconds, picked)
                && claims.value.Keys == picked
                && forall asset | asset in picked :: Holds(View(), claims.value[asset], worker)
      ensures claims.Some? ==> forall asset, later | asset in picked ::
                Claimable(events[asset], later) <==> events[asset].attempt < MAX_ATTEMPTS && now + seconds <= later
      ensures claims.Some? ==> forall asset | asset in picked ::
                events[asset].attempt == old(events)[asset].attempt + 1
                && events[asset].version == old(events)[asset].version
    {
      if worker == "" || seconds < 1 || limit < 1 || limit > MAX_CLAIMS {
        return None;
      }
      events := Sweep(events, now);
      events := Granted(events, now, worker, seconds, picked);
      claims := Some(map asset | asset in picked :: Claim(asset, events[asset].version));
    }

    /** The document is what the metadata gives now; afterwards its vector is stored, or its row waits for one. */
    method Prepare(facts: Facts, claim: Claim, model: string, format: Format) returns (document: Document)
      requires Valid()
      modifies `rows
      ensures Valid()
      ensures document == Read(old(rows), facts, claim, model, format)
      ensures View() == AfterPrepare(old(View()), document, format)
      ensures document.claim == claim
      ensures document.eligible <==> facts.Described? && |Rendered(format, facts.lines)| <= MAX_DOCUMENT_BYTES
      ensures document.eligible ==>
                && document.text == Rendered(format, facts.lines)
                && claim.asset in rows && rows[claim.asset].text == document.text && rows[claim.asset].format == format
                && document.hash == Some(rows[claim.asset].hash)
                && (if document.current then rows[claim.asset].vector.Some? && rows[claim.asset].model == model
                    else AwaitsVector(View(), document))
      ensures !document.eligible || document.current ==> rows == old(rows)
      ensures forall other | other != claim.asset ::
                (other in rows <==> other in old(rows)) && (other in rows ==> rows[other] == old(rows)[other])
    {
      document := Read(rows, facts, claim, model, format);
      if document.eligible {
        assert IsInFormat(document.text, format);
        if document.current {
          FormatIsReadOff(document.text, format, rows[claim.asset].format);
        } else {
          rows := rows[claim.asset := Row(format, document.text, Sha256(document.text), Waiting, None, "")];
        }
      }
    }

    method UpdateEvent(claim: Claim, worker: Worker, status: EventStatus) returns (failure: Option<Failure>)
      requires Valid() && (status == Succeeded || status == Skipped)
      modifies `events
      ensures Valid()
      ensures failure == if Holds(old(View()), claim, worker) then None else Some(LeaseLost)
      ensures failure.None? ==> View() == Finished(old(View()), claim, status)
      ensures failure.Some? ==> View() == old(View())
    {
      if claim.asset in events && events[claim.asset].status == Running && events[claim.asset].lease.Some?
         && events[claim.asset].lease.value.owner == worker && events[claim.asset].version == claim.version {
        events := events[claim.asset := events[claim.asset].(status := status, lease := None)];
        return None;
      }
      return Some(LeaseLost);
    }

    method Acknowledge(document: Document, worker: Worker) returns (failure: Option<Failure>)
      requires Valid()
      modifies this
      ensures Valid()
      ensures failure == if Holds(old(View()), document.claim, worker) then None else Some(LeaseLost)
      ensures View() == if failure.None? then Finished(old(View()), document.claim, Succeeded) else old(View())
    {
      failure := UpdateEvent(document.claim, worker, Succeeded);
    }

    method Complete(
      document: Document, worker: Worker, model: string, vector: Vector) returns (failure: Option<Failure>)
      requires Valid()
      modifies this
      ensures Valid()
      ensures failure ==
              if !document.eligible || document.hash.None? || vector == [] || worker == "" || model == "" then
                Some(InvalidRequest)
              else if !AwaitsVector(old(View()), document) then Some(DocumentChanged)
              else if !Holds(old(View()), document.claim, worker) then Some(LeaseLost)
              else None
      ensures View() ==
              if failure.None? then AfterComplete(old(View()), document, model, vector) else old(View())
    {
      if !document.eligible || document.hash.None? || |vector| == 0 || worker == "" || model == "" {
        return Some(InvalidRequest);
      }
      var asset, before := document.claim.asset, rows;
      if asset !in rows || rows[asset].status != Waiting || Some(rows[asset].hash) != document.hash {
        return Some(DocumentChanged);
      }
      rows := rows[asset := rows[asset].(status := Embedded, vector := Some(vector), model := model)];
      failure := UpdateEvent(document.claim, worker, Succeeded);
      if failure.Some? {
        rows := before;
      }
    }

    method Skip(document: Document, worker: Worker) returns (failure: Option<Failure>)
      requires Valid()
      modifies this
      ensures Valid()
      ensures failure ==
              if document.code == "" then Some(InvalidRequest)
              else if !Holds(old(View()), document.claim, worker) then Some(LeaseLost)
              else None
      ensures View() == if failure.None? then AfterSkip(old(View()), document.claim) else old(View())
    {
      if document.code == "" {
        return Some(InvalidRequest);
      }
      var before := rows;
      rows := rows - {document.claim.asset};
      failure := UpdateEvent(document.claim, worker, Skipped);
      if failure.Some? {
        rows := before;
      }
    }

    method Fail(document: Document, worker: Worker, code: string, now: int) returns (failure: Option<Failure>)
      requires Valid()
      modifies this
      ensures Valid()
      ensures failure ==
              if code == "" then Some(InvalidRequest)
              else if !Holds(old(View()), document.claim, worker) then Some(LeaseLost)
              else None
      ensures View() == if failure.None? then AfterFail(old(View()), document, now) else old(View())
    {
      if code == "" {
        return Some(InvalidRequest);
      }
      var asset, before := document.claim.asset, rows;
      if document.hash.Some? && asset in rows && rows[asset].hash == document.hash.value {
        rows := rows[asset := rows[asset].(status := Broken, vector := None, model := "")];
      }
      if asset !in events || events[asset].status != Running || events[asset].lease.None?
         || events[asset].lease.value.owner != worker || events[asset].version != document.claim.version {
        rows := before;
        return Some(LeaseLost);
      }
      events := events[asset := Returned(events[asset], now)];
      failure := None;
    }
  }
}
