/** One pass of an embedding worker over the claims it was granted. */
module OutboxWorker {
  import opened Prelude
  import opened EmbeddingOutbox

  /** What a pass meets outside the store: the metadata, the claims whose documents cannot be read, and the provider. */
  datatype Surroundings = Surroundings(
    facts: map<Asset, Facts>,
    unreadable: set<Asset>,
    vectors: Option<seq<Vector>>,
    model: string,
    format: Format,
    now: int)
  {
    predicate Valid() {
      model != "" && forall asset | asset in facts && facts[asset].Unfit? :: facts[asset].code != ""
    }

    function FactsOf(asset: Asset): Facts {
      if asset in facts then facts[asset] else Missing
    }
  }

  function RowOf(rows: map<Asset, Row>, asset: Asset): Option<Row> {
    if asset in rows then Some(rows[asset]) else None
  }

  function DocumentOf(around: Surroundings, rows: map<Asset, Row>, claim: Claim): Document {
    Read(rows, around.FactsOf(claim.asset), claim, around.model, around.format)
  }

  predicate NeedsVector(around: Surroundings, rows: map<Asset, Row>, claim: Claim) {
    var document := DocumentOf(around, rows, claim);
    claim.asset !in around.unreadable && document.eligible && !document.current
  }

  function WaitingRow(around: Surroundings, text: string): Row {
    Row(around.format, text, Sha256(text), Waiting, None, "")
  }

  /** How the event of a claim ends, given its document and the vector for it; an empty vector leaves it leased. */
  function EventAfter(around: Surroundings, event: Event, document: Document, vector: Option<Vector>): Event {
    if document.claim.asset in around.unreadable then Returned(event, around.now)
    else if !document.eligible then event.(status := Skipped, lease := None)
    else if document.current then event.(status := Succeeded, lease := None)
    else if vector.None? then Returned(event, around.now)
    else if vector.value == [] then event
    else event.(status := Succeeded, lease := None)
  }

  /** And what its row ends as. */
  function RowAfter(around: Surroundings, row: Option<Row>, document: Document, vector: Option<Vector>): Option<Row> {
    if document.claim.asset in around.unreadable then row
    else if !document.eligible then None
    else if document.current then row
    else if vector.None? then Some(WaitingRow(around, document.text).(status := Broken))
    else if vector.value == [] then Some(WaitingRow(around, document.text))
    else Some(WaitingRow(around, document.text).(status := Embedded, vector := vector, model := around.model))
  }

  /** The claims of one batch concern different assets, all held by the worker. */
  predicate AreHeld(tables: Tables, claims: seq<Claim>, worker: Worker) {
    && (forall i | 0 <= i < |claims| :: Holds(tables, claims[i], worker))
    && DifferentAssets(claims)
  }

  predicate DifferentAssets(claims: seq<Claim>) {
    forall i, j | 0 <= i < j < |claims| :: claims[i].asset != claims[j].asset
  }

  /** A claim that has not been settled is as it was granted; once prepared, its row waits for a vector. */
  ghost predicate IsOpen(around: Surroundings, was: Tables, tables: Tables, claim: Claim, prepared: bool) {
    && claim.asset in was.events && claim.asset in tables.events
    && tables.events[claim.asset] == was.events[claim.asset]
    && RowOf(tables.rows, claim.asset)
       == if prepared then Some(WaitingRow(around, DocumentOf(around, was.rows, claim).text))
          else RowOf(was.rows, claim.asset)
  }

  ghost predicate IsSettled(around: Surroundings, was: Tables, tables: Tables, claim: Claim, vector: Option<Vector>) {
    && claim.asset in was.events && claim.asset in tables.events
    && var document := DocumentOf(around, was.rows, claim);
    && tables.events[claim.asset] == EventAfter(around, was.events[claim.asset], document, vector)
    && RowOf(tables.rows, claim.asset) == RowAfter(around, RowOf(was.rows, claim.asset), document, vector)
  }

  /** Only the given asset's event and row differ. */
  ghost predicate Touches(before: Tables, after: Tables, asset: Asset) {
    && before.events.Keys == after.events.Keys
    && (forall other | other in before.events && other != asset :: after.events[other] == before.events[other])
    && (forall other | other != asset :: RowOf(after.rows, other) == RowOf(before.rows, other))
  }

  /** Settles a document that needs no vector. */
  method SettleUnneeded(store: Store, around: Surroundings, found: Document, worker: Worker, ghost was: Tables)
    returns (failure: Option<Failure>)
    requires around.Valid() && worker != "" && store.Valid() && Holds(store.View(), found.claim, worker)
    requires found == DocumentOf(around, was.rows, found.claim) && IsOpen(around, was, store.View(), found.claim, false)
    requires found.claim.asset !in around.unreadable && (!found.eligible || found.current)
    modifies store
    ensures store.Valid() && failure.None? && Touches(old(store.View()), store.View(), found.claim.asset)
    ensures IsSettled(around, was, store.View(), found.claim, None)
  {
    if !found.eligible {
      failure := store.Skip(found, worker);
    } else {
      failure := store.Acknowledge(found, worker);
    }
  }

  /** Prepares one claim; anything that needs no vector is settled at once. */
  method PrepareOne(store: Store, around: Surroundings, claim: Claim, worker: Worker, ghost was: Tables)
    returns (document: Option<Document>, failure: Option<Failure>)
    requires around.Valid() && worker != "" && store.Valid() && Holds(store.View(), claim, worker)
    requires IsOpen(around, was, store.View(), claim, false)
    modifies store
    ensures store.Valid() && failure.None? && Touches(old(store.View()), store.View(), claim.asset)
    ensures document.Some? <==> NeedsVector(around, was.rows, claim)
    ensures document.Some? ==>
              document.value == DocumentOf(around, was.rows, claim) && IsOpen(around, was, store.View(), claim, true)
    ensures document.None? ==> IsSettled(around, was, store.View(), claim, None)
  {
    document := None;
    if claim.asset in around.unreadable {
      failure := store.Fail(Document(claim, "", None, false, false, ""), worker, "ASSET_DOCUMENT_FAILED", around.now);
      return;
    }
    var found := store.Prepare(around.FactsOf(claim.asset), claim, around.model, around.format);
    assert found == DocumentOf(around, was.rows, claim);
    if !found.eligible || found.current {
      failure := SettleUnneeded(store, around, found, worker, was);
      return;
    }
    document, failure := Some(found), None;
  }

  lemma OthersStay(around: Surroundings, was: Tables, before: Tables, after: Tables, asset: Asset, claim: Claim)
    requires Touches(before, after, asset) && claim.asset != asset
    ensures forall prepared :: IsOpen(around, was, before, claim, prepared) ==>
              IsOpen(around, was, after, claim, prepared)
    ensures forall vector :: IsSettled(around, was, before, claim, vector) ==>
              IsSettled(around, was, after, claim, vector)
  {
  }

  /** The claims that wait for a vector, in their order. */
  function Needing(around: Surroundings, rows: map<Asset, Row>, claims: seq<Claim>): seq<Claim> {
    if claims == [] then []
    else
      var last := claims[|claims| - 1];
      Needing(around, rows, claims[..|claims| - 1]) + (if NeedsVector(around, rows, last) then [last] else [])
  }

  lemma {:induction false} NeedingHolds(around: Surroundings, rows: map<Asset, Row>, claims: seq<Claim>)
    ensures forall claim :: claim in Needing(around, rows, claims) <==>
              claim in claims && NeedsVector(around, rows, claim)
  {
    if claims != [] {
      NeedingHolds(around, rows, claims[..|claims| - 1]);
      assert claims == claims[..|claims| - 1] + [claims[|claims| - 1]];
    }
  }

  /** A waiting claim's place among the waiting ones is the number of those before it. */
  lemma {:induction false} NeedingAt(around: Surroundings, rows: map<Asset, Row>, claims: seq<Claim>, i: nat)
    requires i < |claims| && NeedsVector(around, rows, claims[i])
    ensures var k := |Needing(around, rows, claims[..i])|;
            k < |Needing(around, rows, claims)| && Needing(around, rows, claims)[k] == claims[i]
  {
    var front := claims[..|claims| - 1];
    if i < |front| {
      NeedingAt(around, rows, front, i);
      assert front[..i] == claims[..i];
    } else {
      assert front == claims[..i];
    }
  }

  lemma {:induction false} NeedingDiffers(around: Surroundings, rows: map<Asset, Row>, claims: seq<Claim>)
    requires DifferentAssets(claims)
    ensures DifferentAssets(Needing(around, rows, claims))
  {
    if claims != [] {
      var front, last := claims[..|claims| - 1], claims[|claims| - 1];
      NeedingDiffers(around, rows, front);
      NeedingHolds(around, rows, front);
      var needing := Needing(around, rows, front);
      forall i | 0 <= i < |needing| ensures needing[i].asset != last.asset {
        assert needing[i] in front;
        var j :| 0 <= j < |front| && front[j] == needing[i];
        assert claims[j] == needing[i] && claims[|front|] == last;
      }
    }
  }

  ghost predicate Prepared(around: Surroundings, was: Tables, tables: Tables, claim: Claim) {
    if NeedsVector(around, was.rows, claim) then IsOpen(around, was, tables, claim, true)
    else IsSettled(around, was, tables, claim, None)
  }

  function Documents(around: Surroundings, rows: map<Asset, Row>, claims: seq<Claim>): seq<Document> {
    seq(|claims|, i requires 0 <= i < |claims| => DocumentOf(around, rows, claims[i]))
  }

  function Listed(document: Option<Document>): seq<Document> {
    match document
    case Some(value) => [value]
    case None => []
  }

  lemma OneMoreDocument(around: Surroundings, rows: map<Asset, Row>, claims: seq<Claim>, i: nat)
    requires i < |claims|
    ensures Documents(around, rows, Needing(around, rows, claims[..i + 1]))
         == Documents(around, rows, Needing(around, rows, claims[..i]))
            + (if NeedsVector(around, rows, claims[i]) then [DocumentOf(around, rows, claims[i])] else [])
  {
    assert claims[..i + 1][..i] == claims[..i];
  }

  function Collected(failure: Option<Failure>): set<Failure> {
    match failure
    case Some(value) => {value}
    case None => {}
  }

  /** The first i claims are prepared, the others as they were granted. */
  ghost predicate PreparedUpTo(around: Surroundings, was: Tables, tables: Tables, claims: seq<Claim>, i: nat)
    requires i <= |claims|
  {
    && (forall j | 0 <= j < i :: Prepared(around, was, tables, claims[j]))
    && (forall j | i <= j < |claims| :: IsOpen(around, was, tables, claims[j], false))
  }

  lemma OneMorePrepared(around: Surroundings, was: Tables, before: Tables, after: Tables, claims: seq<Claim>, i: nat)
    requires i < |claims| && DifferentAssets(claims) && Touches(before, after, claims[i].asset)
    requires PreparedUpTo(around, was, before, claims, i) && Prepared(around, was, after, claims[i])
    ensures PreparedUpTo(around, was, after, claims, i + 1)
  {
    forall j | 0 <= j < |claims| && j != i
      ensures j < i ==> Prepared(around, was, after, claims[j])
      ensures i < j ==> IsOpen(around, was, after, claims[j], false)
    {
      assert claims[j].asset != claims[i].asset by {
        assert j < i || i < j;
      }
      OthersStay(around, was, before, after, claims[i].asset, claims[j]);
    }
  }

  /** Prepares the i-th claim, which leaves the others as they are. */
  method PrepareNext(
    store: Store, around: Surroundings, claim: Claim, worker: Worker, ghost was: Tables, ghost claims: seq<Claim>,
    ghost i: nat)
    returns (document: Option<Document>, failure: Option<Failure>)
    requires around.Valid() && worker != "" && store.Valid()
    requires i < |claims| && claim == claims[i] && DifferentAssets(claims) && Holds(was, claim, worker)
    requires PreparedUpTo(around, was, store.View(), claims, i)
    modifies store
    ensures store.Valid() && failure.None?
    ensures document == if NeedsVector(around, was.rows, claim) then Some(DocumentOf(around, was.rows, claim)) else None
    ensures PreparedUpTo(around, was, store.View(), claims, i + 1)
  {
    ghost var before := store.View();
    document, failure := PrepareOne(store, around, claim, worker, was);
    OneMorePrepared(around, was, before, store.View(), claims, i);
  }

  /** The first half of a pass: every claim is prepared, in order. */
  method PrepareAll(store: Store, around: Surroundings, claims: seq<Claim>, worker: Worker, ghost was: Tables)
    returns (documents: seq<Document>, failures: set<Failure>)
    requires around.Valid() && worker != "" && store.Valid() && was == store.View() && AreHeld(was, claims, worker)
    modifies store
    ensures store.Valid() && failures == {}
    ensures documents == Documents(around, was.rows, Needing(around, was.rows, claims))
    ensures forall i | 0 <= i < |claims| :: Prepared(around, was, store.View(), claims[i])
  {
    documents, failures := [], {};
    for i := 0 to |claims|
      invariant store.Valid() && failures == {}
      invariant documents == Documents(around, was.rows, Needing(around, was.rows, claims[..i]))
      invariant PreparedUpTo(around, was, store.View(), claims, i)
    {
      var document, failure := PrepareNext(store, around, claims[i], worker, was, claims, i);
      OneMoreDocument(around, was.rows, claims, i);
      documents := documents + Listed(document);
      failures := failures + Collected(failure);
    }
    assert claims[..|claims|] == claims;
  }

  /** Completes or fails the document of one waiting claim; an empty vector is refused. */
  method SettleOne(
    store: Store, around: Surroundings, document: Document, worker: Worker, vector: Option<Vector>, ghost was: Tables,
    ghost claim: Claim)
    returns (failure: Option<Failure>)
    requires around.Valid() && worker != "" && store.Valid() && Holds(was, claim, worker)
    requires NeedsVector(around, was.rows, claim) && document == DocumentOf(around, was.rows, claim)
    requires IsOpen(around, was, store.View(), claim, true)
    modifies store
    ensures store.Valid() && Touches(old(store.View()), store.View(), claim.asset)
    ensures failure == if vector == Some([]) then Some(InvalidRequest) else None
    ensures IsSettled(around, was, store.View(), claim, vector)
  {
    if vector.Some? {
      failure := store.Complete(document, worker, around.model, vector.value);
    } else {
      failure := store.Fail(document, worker, "EMBEDDING_PROVIDER_UNAVAILABLE", around.now);
    }
  }

  /** What the provider gave for each of the waiting documents. */
  function VectorsFor(around: Surroundings, count: nat, delivered: bool): seq<Option<Vector>>
    requires delivered ==> around.vectors.Some? && |around.vectors.value| == count
  {
    seq(count, k requires 0 <= k < count => if delivered then Some(around.vectors.value[k]) else None)
  }

  /** The first k waiting claims are settled with their vectors, the others still wait; nothing else is touched. */
  ghost predicate SettledUpTo(
    around: Surroundings, was: Tables, tables: Tables, needing: seq<Claim>, settled: set<Claim>, k: nat,
    vectors: seq<Option<Vector>>)
    requires k <= |needing| == |vectors|
  {
    && (forall m | 0 <= m < k :: IsSettled(around, was, tables, needing[m], vectors[m]))
    && (forall m | k <= m < |needing| :: IsOpen(around, was, tables, needing[m], true))
    && (forall claim | claim in settled :: IsSettled(around, was, tables, claim, None))
  }

  /** What refusing the empty vectors leaves to report. */
  function RefusedAmong(vectors: seq<Option<Vector>>): set<Failure> {
    if Some([]) in vectors then {InvalidRequest} else {}
  }

  lemma OneMoreRefused(vectors: seq<Option<Vector>>, k: nat)
    requires k < |vectors|
    ensures RefusedAmong(vectors[..k + 1])
         == RefusedAmong(vectors[..k]) + (if vectors[k] == Some([]) then {InvalidRequest} else {})
  {
    assert vectors[..k + 1] == vectors[..k] + [vectors[k]];
  }

  lemma OneMoreSettled(
    around: Surroundings, was: Tables, before: Tables, after: Tables, needing: seq<Claim>, settled: set<Claim>, k: nat,
    vectors: seq<Option<Vector>>)
    requires k < |needing| == |vectors| && DifferentAssets(needing) && Touches(before, after, needing[k].asset)
    requires forall claim, m | claim in settled && 0 <= m < |needing| :: claim.asset != needing[m].asset
    requires SettledUpTo(around, was, before, needing, settled, k, vectors)
    requires IsSettled(around, was, after, needing[k], vectors[k])
    ensures SettledUpTo(around, was, after, needing, settled, k + 1, vectors)
  {
    forall m | 0 <= m < |needing| && m != k
      ensures m < k ==> IsSettled(around, was, after, needing[m], vectors[m])
      ensures k < m ==> IsOpen(around, was, after, needing[m], true)
    {
      assert needing[m].asset != needing[k].asset by {
        assert m < k || k < m;
      }
      OthersStay(around, was, before, after, needing[k].asset, needing[m]);
    }
    forall claim | claim in settled ensures IsSettled(around, was, after, claim, None) {
      OthersStay(around, was, before, after, needing[k].asset, claim);
    }
  }

  /** Settles the k-th waiting document, which leaves the others as they are. */
  method SettleNext(
    store: Store, around: Surroundings, document: Document, worker: Worker, vector: Option<Vector>, ghost was: Tables,
    ghost needing: seq<Claim>, ghost settled: set<Claim>, ghost k: nat, ghost vectors: seq<Option<Vector>>)
    returns (failure: Option<Failure>)
    requires around.Valid() && worker != "" && store.Valid()
    requires k < |needing| == |vectors| && vector == vectors[k] && DifferentAssets(needing)
    requires Holds(was, needing[k], worker) && NeedsVector(around, was.rows, needing[k])
    requires document == DocumentOf(around, was.rows, needing[k])
    requires forall claim, m | claim in settled && 0 <= m < |needing| :: claim.asset != needing[m].asset
    requires SettledUpTo(around, was, store.View(), needing, settled, k, vectors)
    modifies store
    ensures store.Valid() && failure == if vector == Some([]) then Some(InvalidRequest) else None
    ensures SettledUpTo(around, was, store.View(), needing, settled, k + 1, vectors)
  {
    ghost var before := store.View();
    failure := SettleOne(store, around, document, worker, vector, was, needing[k]);
    OneMoreSettled(around, was, before, store.View(), needing, settled, k, vectors);
  }

  /** The second half: every waiting document gets the vector at its place, or is failed where there is none. */
  method SettleAll(
    store: Store, around: Surroundings, documents: seq<Document>, worker: Worker, vectors: seq<Option<Vector>>,
    ghost was: Tables, ghost needing: seq<Claim>, ghost settled: set<Claim>)
    returns (failures: set<Failure>)
    requires around.Valid() && worker != "" && store.Valid() && AreHeld(was, needing, worker)
    requires |documents| == |needing| == |vectors|
    requires forall k | 0 <= k < |needing| ::
               documents[k] == DocumentOf(around, was.rows, needing[k]) && NeedsVector(around, was.rows, needing[k])
    requires forall claim, k | claim in settled && 0 <= k < |needing| :: claim.asset != needing[k].asset
    requires SettledUpTo(around, was, store.View(), needing, settled, 0, vectors)
    modifies store
    ensures store.Valid() && failures == RefusedAmong(vectors)
    ensures SettledUpTo(around, was, store.View(), needing, settled, |needing|, vectors)
  {
    failures := {};
    for k := 0 to |documents|
      invariant store.Valid() && failures == RefusedAmong(vectors[..k])
      invariant SettledUpTo(around, was, store.View(), needing, settled, k, vectors)
    {
      var failure := SettleNext(store, around, documents[k], worker, vectors[k], was, needing, settled, k, vectors);
      OneMoreRefused(vectors, k);
      failures := failures + Collected(failure);
    }
    assert vectors[..|documents|] == vectors;
  }

  /** The vector meant for the i-th claim: the one at its place among the waiting claims. */
  function VectorFor(
    around: Surroundings, rows: map<Asset, Row>, claims: seq<Claim>, i: nat, delivered: bool): Option<Vector>
    requires i < |claims|
  {
    var k := |Needing(around, rows, claims[..i])|;
    if delivered && NeedsVector(around, rows, claims[i]) && around.vectors.Some? && k < |around.vectors.value|
    then Some(around.vectors.value[k])
    else None
  }

  /**
   * A whole pass, when no other worker steps in: the event and the row of every claim end exactly as its document and
   * the vector at its place say. Nothing is refused but empty vectors, whose claims stay leased.
   */
  method ProcessClaims(store: Store, around: Surroundings, claims: seq<Claim>, worker: Worker)
    returns (delivered: bool, failures: set<Failure>)
    requires around.Valid() && worker != "" && store.Valid() && AreHeld(store.View(), claims, worker)
    modifies store
    ensures store.Valid()
    ensures delivered <==>
              around.vectors.Some?
              && |around.vectors.value| == |Needing(around, old(store.rows), claims)|
    ensures failures == if delivered && [] in around.vectors.value then {InvalidRequest} else {}
    ensures forall i | 0 <= i < |claims| ::
              IsSettled(around, old(store.View()), store.View(), claims[i],
                VectorFor(around, old(store.rows), claims, i, delivered))
  {
    ghost var was := store.View();
    var documents, refused := PrepareAll(store, around, claims, worker, was);
    ghost var needing := Needing(around, was.rows, claims);
    delivered := around.vectors.Some? && |around.vectors.value| == |documents|;
    var vectors := VectorsFor(around, |documents|, delivered);
    ghost var settled := set claim | claim in claims && claim !in needing;
    ReadyToSettle(around, was, store.View(), claims, needing, settled, vectors, worker);
    var left := SettleAll(store, around, documents, worker, vectors, was, needing, settled);
    AllSettled(around, was, store.View(), claims, needing, settled, delivered);
    EmptyVectors(around, |needing|, delivered);
    failures := refused + left;
  }

  lemma EmptyVectors(around: Surroundings, count: nat, delivered: bool)
    requires delivered ==> around.vectors.Some? && |around.vectors.value| == count
    ensures RefusedAmong(VectorsFor(around, count, delivered))
         == if delivered && [] in around.vectors.value then {InvalidRequest} else {}
  {
    var vectors := VectorsFor(around, count, delivered);
    if delivered && [] in around.vectors.value {
      var k :| 0 <= k < |around.vectors.value| && around.vectors.value[k] == [];
      assert vectors[k] == Some([]);
    }
  }

  lemma ReadyToSettle(
    around: Surroundings, was: Tables, tables: Tables, claims: seq<Claim>, needing: seq<Claim>, settled: set<Claim>,
    vectors: seq<Option<Vector>>, worker: Worker)
    requires AreHeld(was, claims, worker) && needing == Needing(around, was.rows, claims) && |vectors| == |needing|
    requires settled == set claim | claim in claims && claim !in needing
    requires forall i | 0 <= i < |claims| :: Prepared(around, was, tables, claims[i])
    ensures AreHeld(was, needing, worker)
    ensures forall k | 0 <= k < |needing| :: NeedsVector(around, was.rows, needing[k])
    ensures forall claim, k | claim in settled && 0 <= k < |needing| :: claim.asset != needing[k].asset
    ensures SettledUpTo(around, was, tables, needing, settled, 0, vectors)
  {
    NeedingHolds(around, was.rows, claims);
    NeedingDiffers(around, was.rows, claims);
    NeedingIsHeld(was, claims, needing, worker);
    SettledApart(claims, needing, settled);
    NeedingIsOpen(around, was, tables, claims, needing, settled);
  }

  lemma NeedingIsHeld(was: Tables, claims: seq<Claim>, needing: seq<Claim>, worker: Worker)
    requires AreHeld(was, claims, worker) && DifferentAssets(needing)
    requires forall claim | claim in needing :: claim in claims
    ensures AreHeld(was, needing, worker)
  {
    forall k | 0 <= k < |needing| ensures Holds(was, needing[k], worker) {
      assert needing[k] in claims;
    }
  }

  /** What preparing leaves: the waiting claims open, and the rest settled. */
  lemma NeedingIsOpen(
    around: Surroundings, was: Tables, tables: Tables, claims: seq<Claim>, needing: seq<Claim>, settled: set<Claim>)
    requires forall i | 0 <= i < |claims| :: Prepared(around, was, tables, claims[i])
    requires forall claim :: claim in needing <==> claim in claims && NeedsVector(around, was.rows, claim)
    requires settled == set claim | claim in claims && claim !in needing
    ensures forall k | 0 <= k < |needing| ::
              NeedsVector(around, was.rows, needing[k]) && IsOpen(around, was, tables, needing[k], true)
    ensures forall claim | claim in settled :: IsSettled(around, was, tables, claim, None)
  {
    forall claim | claim in claims ensures Prepared(around, was, tables, claim) {
      var i :| 0 <= i < |claims| && claims[i] == claim;
    }
    assert forall k | 0 <= k < |needing| :: needing[k] in needing;
  }

  lemma AllSettled(
    around: Surroundings, was: Tables, tables: Tables, claims: seq<Claim>, needing: seq<Claim>, settled: set<Claim>,
    delivered: bool)
    requires needing == Needing(around, was.rows, claims)
    requires settled == set claim | claim in claims && claim !in needing
    requires delivered ==> around.vectors.Some? && |around.vectors.value| == |needing|
    requires SettledUpTo(around, was, tables, needing, settled, |needing|, VectorsFor(around, |needing|, delivered))
    ensures forall i | 0 <= i < |claims| ::
              IsSettled(around, was, tables, claims[i], VectorFor(around, was.rows, claims, i, delivered))
  {
    NeedingHolds(around, was.rows, claims);
    forall i | 0 <= i < |claims|
      ensures IsSettled(around, was, tables, claims[i], VectorFor(around, was.rows, claims, i, delivered))
    {
      if NeedsVector(around, was.rows, claims[i]) {
        NeedingAt(around, was.rows, claims, i);
      } else {
        assert claims[i] in settled;
      }
    }
  }

  lemma SettledApart(claims: seq<Claim>, needing: seq<Claim>, settled: set<Claim>)
    requires DifferentAssets(claims) && forall claim | claim in needing :: claim in claims
    requires settled == set claim | claim in claims && claim !in needing
    ensures forall claim, k | claim in settled && 0 <= k < |needing| :: claim.asset != needing[k].asset
  {
    forall claim, k | claim in settled && 0 <= k < |needing| ensures claim.asset != needing[k].asset {
      assert needing[k] in claims;
      var i :| 0 <= i < |claims| && claims[i] == claim;
      var j :| 0 <= j < |claims| && claims[j] == needing[k];
      assert i < j || j < i;
    }
  }
}
