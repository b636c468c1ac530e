/** Competing workers over the outbox: metadata changes, claims, expiries and settlements in any order. */
module OutboxRuns {
  import opened Prelude
  import opened EmbeddingOutbox

  type Model = name: string | name != "" witness "model"

  /** The release the workers run: the model they embed with, and the document format they write. */
  datatype Setup = Setup(model: Model, format: Format)

  /**
   * Beside the tables: the claims handed out, the documents read, and the vectors computed, so far. Earlier claims are
   * those of workers that have stopped.
   */
  datatype State = State(
    now: int,
    facts: map<Asset, Facts>,
    tables: Tables,
    earlier: multiset<Claim>,
    claims: multiset<Claim>,
    documents: set<Document>,
    computed: set<(string, Vector)>)

  datatype Action =
    | Tick(seconds: nat)
    | ChangeMetadata(asset: Asset, facts: Facts)
    | RequeueStale
    | ClaimSome(worker: Worker, seconds: nat, limit: nat, picked: set<Asset>)
    | PrepareClaim(claim: Claim)
    | Embed(text: string, vector: Vector)
    | Settle(document: Document, worker: Worker, how: Settlement)

  datatype Settlement =
    | Acknowledged
    | Completed(vector: Vector)
    | Skip
    | Unprepared(code: string)
    | NotEmbedded(code: string)

  function FactsOf(s: State, asset: Asset): Facts {
    if asset in s.facts then s.facts[asset] else Missing
  }

  function Unread(claim: Claim): Document {
    Document(claim, "", None, false, false, "")
  }

  /** The settlements the worker loop asks for, by the document it holds. */
  predicate Asked(s: State, document: Document, how: Settlement) {
    match how
    case Acknowledged => document in s.documents && document.eligible && document.current
    case Completed(vector) =>
      document in s.documents && document.eligible && !document.current && (document.text, vector) in s.computed
      && vector != []
    case Skip => document in s.documents && !document.eligible
    case Unprepared(code) => document.claim in s.claims && document == Unread(document.claim) && code != ""
    case NotEmbedded(code) => document in s.documents && document.eligible && !document.current && code != ""
  }

  predicate Enabled(s: State, a: Action) {
    match a
    case ClaimSome(worker, seconds, limit, picked) =>
      worker != "" && seconds >= 1 && 1 <= limit <= MAX_CLAIMS
      && Pickable(Sweep(s.tables.events, s.now), s.now, limit, picked)
    case PrepareClaim(claim) => claim in s.claims
    case Settle(document, worker, how) => worker != "" && Asked(s, document, how)
    case _ => true
  }

  /** A settlement takes effect, or is rolled back. */
  predicate TakesEffect(tables: Tables, document: Document, worker: Worker, how: Settlement) {
    && Holds(tables, document.claim, worker)
    && (how.Completed? ==> AwaitsVector(tables, document)) && (how.Skip? ==> document.code != "")
  }

  function Settled(setup: Setup, s: State, document: Document, how: Settlement): Tables
    requires document.claim.asset in s.tables.events
    requires how.Completed? ==> AwaitsVector(s.tables, document)
  {
    match how
    case Acknowledged => Finished(s.tables, document.claim, Succeeded)
    case Completed(vector) => AfterComplete(s.tables, document, setup.model, vector)
    case Skip => AfterSkip(s.tables, document.claim)
    case Unprepared(_) => AfterFail(s.tables, document, s.now)
    case NotEmbedded(_) => AfterFail(s.tables, document, s.now)
  }

  function ClaimsOf(tables: Tables, picked: set<Asset>): set<Claim> {
    set asset | asset in picked && asset in tables.events :: Claim(asset, tables.events[asset].version)
  }

  function ReadNow(setup: Setup, s: State, claim: Claim): Document {
    Read(s.tables.rows, FactsOf(s, claim.asset), claim, setup.model, setup.format)
  }

  function Apply(setup: Setup, s: State, a: Action): State {
    match a
    case Tick(seconds) => s.(now := s.now + seconds)
    case ChangeMetadata(asset, facts) =>
      s.(facts := s.facts[asset := facts], tables := s.tables.(events := Touch(s.tables.events, {asset}, s.now)))
    case RequeueStale =>
      s.(tables := s.tables.(events := Touch(s.tables.events, Stale(s.tables.rows, setup.format), s.now)))
    case ClaimSome(worker, seconds, limit, picked) =>
      var tables := AfterClaim(s.tables, s.now, worker, seconds, picked);
      s.(tables := tables, claims := s.claims + multiset(ClaimsOf(tables, picked)))
    case PrepareClaim(claim) =>
      var document := ReadNow(setup, s, claim);
      s.(tables := AfterPrepare(s.tables, document, setup.format), documents := s.documents + {document})
    case Embed(text, vector) => s.(computed := s.computed + {(text, vector)})
    case Settle(document, worker, how) =>
      if TakesEffect(s.tables, document, worker, how) then s.(tables := Settled(setup, s, document, how)) else s
  }

  // ---- The invariant ---------------------------------------------------------------------------------------------

  /** A stored vector was computed for the text whose hash is stored. */
  ghost predicate RowIsSound(setup: Setup, s: State, row: Row) {
    RowIsConsistent(row)
    && (row.status == Embedded ==> (row.text, row.vector.value) in s.computed && row.model == setup.model)
  }

  function AllClaims(s: State): multiset<Claim> {
    s.earlier + s.claims
  }

  ghost predicate ClaimsAreCounted(s: State) {
    && (forall asset | asset in s.tables.events ::
          AllClaims(s)[Claim(asset, s.tables.events[asset].version)] == s.tables.events[asset].attempt)
    && (forall claim :: AllClaims(s)[claim] <= MAX_ATTEMPTS)
    && (forall claim | claim in AllClaims(s) ::
          claim.asset in s.tables.events && claim.version <= s.tables.events[claim.asset].version)
  }

  /** The text of the document an asset has in a format. */
  function TextOf(facts: Facts, format: Format): Option<string> {
    match facts
    case Described(lines) =>
      if |Rendered(format, lines)| <= MAX_DOCUMENT_BYTES then Some(Rendered(format, lines)) else None
    case _ => None
  }

  /** The stored row answers the asset's metadata as it is now, in the row's own format. */
  ghost predicate Fresh(setup: Setup, s: State, asset: Asset) {
    && asset in s.tables.rows
    && var row := s.tables.rows[asset];
       row.status == Embedded && TextOf(FactsOf(s, asset), row.format) == Some(row.text) && row.model == setup.model
  }

  /** The same, in the format of this release. */
  ghost predicate FreshNow(setup: Setup, s: State, asset: Asset) {
    Fresh(setup, s, asset) && s.tables.rows[asset].format == setup.format
  }

  /** No worker of this release has claimed the asset. */
  ghost predicate Unclaimed(s: State, asset: Asset) {
    forall claim | claim in s.claims :: claim.asset != asset
  }

  ghost predicate HasNoDocument(facts: Facts) {
    exists format: Format :: TextOf(facts, format).None?
  }

  /** Of an event no worker of this release has claimed, what an earlier one with another format left. */
  ghost predicate EventTellsTheTruth(setup: Setup, s: State, asset: Asset)
    requires asset in s.tables.events
  {
    match s.tables.events[asset].status
    case Succeeded => Fresh(setup, s, asset) && (s.tables.rows[asset].format == setup.format || Unclaimed(s, asset))
    case Skipped =>
      && asset !in s.tables.rows && HasNoDocument(FactsOf(s, asset))
      && (TextOf(FactsOf(s, asset), setup.format).None? || Unclaimed(s, asset))
    case _ => true
  }

  ghost predicate DocumentIsSound(s: State, document: Document) {
    && document.claim in s.claims
    && (document.eligible ==> document.hash == Some(Sha256(document.text)))
    && (!document.eligible ==> document.hash.None? && !document.current)
  }

  /** A document of the event's present version agrees with the metadata, and the row with the document. */
  ghost predicate DocumentIsInForce(setup: Setup, s: State, document: Document) {
    var asset := document.claim.asset;
    asset in s.tables.events && document.claim.version == s.tables.events[asset].version ==>
      && TextOf(FactsOf(s, asset), setup.format) == (if document.eligible then Some(document.text) else None)
      && (document.current ==> FreshNow(setup, s, asset))
      && (document.eligible && !document.current && s.tables.events[asset].status !in {Succeeded, Skipped} ==>
            asset in s.tables.rows && s.tables.rows[asset].text == document.text
                && s.tables.rows[asset].status != Embedded)
  }

  ghost predicate RowsAreSound(setup: Setup, s: State) {
    forall asset | asset in s.tables.rows :: RowIsSound(setup, s, s.tables.rows[asset])
  }

  ghost predicate EventsAreSound(setup: Setup, s: State) {
    forall asset | asset in s.tables.events ::
      EventIsSound(s.tables.events[asset]) && EventTellsTheTruth(setup, s, asset)
  }

  ghost predicate DocumentsAreSound(setup: Setup, s: State) {
    forall document | document in s.documents ::
      DocumentIsSound(s, document) && DocumentIsInForce(setup, s, document)
  }

  ghost predicate Invariant(setup: Setup, s: State) {
    RowsAreSound(setup, s) && EventsAreSound(setup, s) && ClaimsAreCounted(s) && DocumentsAreSound(setup, s)
  }

  // ---- Steps keep it ---------------------------------------------------------------------------------------------

  lemma TouchKeepsInvariant(setup: Setup, s: State, assets: set<Asset>, r: State)
    requires Invariant(setup, s)
    requires r.tables == s.tables.(events := Touch(s.tables.events, assets, s.now))
    requires r.earlier == s.earlier && r.claims == s.claims && r.documents == s.documents && r.computed == s.computed
    requires forall asset | asset !in assets :: FactsOf(r, asset) == FactsOf(s, asset)
    ensures Invariant(setup, r)
  {
    forall asset | asset in r.tables.events
      ensures EventIsSound(r.tables.events[asset]) && EventTellsTheTruth(setup, r, asset)
    {
    }
    forall document | document in r.documents
      ensures DocumentIsSound(r, document) && DocumentIsInForce(setup, r, document)
    {
      assert DocumentIsSound(s, document) && DocumentIsInForce(setup, s, document);
    }
    assert ClaimsAreCounted(r) by {
      assert AllClaims(r) == AllClaims(s);
      forall asset | asset in r.tables.events
        ensures AllClaims(r)[Claim(asset, r.tables.events[asset].version)] == r.tables.events[asset].attempt
      {
        if asset in assets {
          assert Claim(asset, r.tables.events[asset].version) !in AllClaims(s);
        }
      }
    }
  }

  /** The events of the picked assets, before and after: one more attempt at the same version. */
  lemma ClaimedEvents(s: State, worker: Worker, seconds: nat, picked: set<Asset>)
    requires Pickable(Sweep(s.tables.events, s.now), s.now, |picked|, picked)
    ensures var next := AfterClaim(s.tables, s.now, worker, seconds, picked).events;
            && next.Keys == s.tables.events.Keys
            && (forall asset | asset in s.tables.events ::
                  next[asset].version == s.tables.events[asset].version
                  && next[asset].attempt == s.tables.events[asset].attempt + (if asset in picked then 1 else 0))
            && (forall asset | asset in picked ::
               asset in s.tables.events && s.tables.events[asset].attempt < MAX_ATTEMPTS)
  {
  }

  lemma CountsFollow(s: State, r: State, picked: set<Asset>)
    requires ClaimsAreCounted(s) && r.earlier == s.earlier
    requires r.claims == s.claims + multiset(ClaimsOf(r.tables, picked))
    requires r.tables.events.Keys == s.tables.events.Keys && picked <= s.tables.events.Keys
    requires forall asset | asset in s.tables.events ::
               r.tables.events[asset].version == s.tables.events[asset].version
               && r.tables.events[asset].attempt == s.tables.events[asset].attempt + (if asset in picked then 1 else 0)
    requires forall asset | asset in picked :: s.tables.events[asset].attempt < MAX_ATTEMPTS
    ensures ClaimsAreCounted(r)
  {
    var granted := ClaimsOf(r.tables, picked);
    forall asset | asset in r.tables.events
      ensures AllClaims(r)[Claim(asset, r.tables.events[asset].version)] == r.tables.events[asset].attempt
    {
      assert Claim(asset, r.tables.events[asset].version) in granted <==> asset in picked;
    }
    forall claim ensures AllClaims(r)[claim] <= MAX_ATTEMPTS {
      assert AllClaims(r)[claim] == AllClaims(s)[claim] + (if claim in granted then 1 else 0);
      if claim in granted {
        assert AllClaims(s)[claim] == s.tables.events[claim.asset].attempt;
      } else {
        assert AllClaims(s)[claim] <= MAX_ATTEMPTS;
      }
    }
  }

  lemma ClaimKeepsCounts(setup: Setup, s: State, worker: Worker, seconds: nat, limit: nat, picked: set<Asset>)
    requires ClaimsAreCounted(s) && Enabled(s, ClaimSome(worker, seconds, limit, picked))
    ensures ClaimsAreCounted(Apply(setup, s, ClaimSome(worker, seconds, limit, picked)))
  {
    ClaimedEvents(s, worker, seconds, picked);
    CountsFollow(s, Apply(setup, s, ClaimSome(worker, seconds, limit, picked)), picked);
  }

  predicate Done(event: Event) {
    event.status == Succeeded || event.status == Skipped
  }

  /** Events move between the states in which work is still to be done; nothing else changes but the claims made. */
  ghost predicate WorkMoves(s: State, r: State) {
    && r.facts == s.facts && r.tables.rows == s.tables.rows && r.computed == s.computed && r.documents == s.documents
    && s.earlier == r.earlier && s.claims <= r.claims && r.tables.events.Keys == s.tables.events.Keys
    && (forall asset | asset in s.tables.events && Done(s.tables.events[asset]) && Unclaimed(s, asset) ::
       Unclaimed(r, asset))
    && (forall asset | asset in s.tables.events ::
          var event, next := s.tables.events[asset], r.tables.events[asset];
          EventIsSound(next) && next.version == event.version
          && (next == event || (!Done(event) && !Done(next))))
  }

  lemma WorkKeepsEvents(setup: Setup, s: State, r: State)
    requires EventsAreSound(setup, s) && WorkMoves(s, r)
    ensures EventsAreSound(setup, r)
  {
    forall asset | asset in r.tables.events ensures EventTellsTheTruth(setup, r, asset) {
      assert EventTellsTheTruth(setup, s, asset);
    }
  }

  lemma WorkKeepsDocuments(setup: Setup, s: State, r: State)
    requires DocumentsAreSound(setup, s) && WorkMoves(s, r)
    ensures DocumentsAreSound(setup, r)
  {
    forall document | document in r.documents
      ensures DocumentIsSound(r, document) && DocumentIsInForce(setup, r, document)
    {
      assert DocumentIsSound(s, document) && DocumentIsInForce(setup, s, document);
    }
  }

  lemma WorkKeepsInvariant(setup: Setup, s: State, r: State)
    requires Invariant(setup, s) && WorkMoves(s, r) && ClaimsAreCounted(r)
    ensures Invariant(setup, r)
  {
    WorkKeepsEvents(setup, s, r);
    WorkKeepsDocuments(setup, s, r);
    forall asset | asset in r.tables.rows ensures RowIsSound(setup, r, r.tables.rows[asset]) {
      assert RowIsSound(setup, s, s.tables.rows[asset]);
    }
  }

  lemma SweptEvent(event: Event, now: int)
    requires EventIsSound(event) && Exhausted(event, now)
    ensures EventIsSound(event.(status := Failed, lease := None)) && !Done(event)
  {
  }

  lemma GrantedEvent(event: Event, now: int, worker: Worker, seconds: nat)
    requires EventIsSound(event) && Claimable(event, now) && worker != ""
    ensures !Done(event)
    ensures EventIsSound(event.(
              status := Running, attempt := event.attempt + 1, lease := Some(Lease(worker, now + seconds))))
  {
  }

  lemma ClaimMovesWork(setup: Setup, s: State, worker: Worker, seconds: nat, limit: nat, picked: set<Asset>)
    requires EventsAreSound(setup, s) && Enabled(s, ClaimSome(worker, seconds, limit, picked))
    ensures WorkMoves(s, Apply(setup, s, ClaimSome(worker, seconds, limit, picked)))
  {
    var r := Apply(setup, s, ClaimSome(worker, seconds, limit, picked));
    forall asset | asset in s.tables.events
      ensures var event, next := s.tables.events[asset], r.tables.events[asset];
              EventIsSound(next) && next.version == event.version
              && (next == event || (!Done(event) && !Done(next)))
    {
      var event := s.tables.events[asset];
      assert EventIsSound(event);
      if Exhausted(event, s.now) {
        SweptEvent(event, s.now);
      } else if asset in picked {
        GrantedEvent(event, s.now, worker, seconds);
      }
    }
  }

  lemma ClaimKeepsInvariant(setup: Setup, s: State, worker: Worker, seconds: nat, limit: nat, picked: set<Asset>)
    requires Invariant(setup, s) && Enabled(s, ClaimSome(worker, seconds, limit, picked))
    ensures Invariant(setup, Apply(setup, s, ClaimSome(worker, seconds, limit, picked)))
  {
    var r := Apply(setup, s, ClaimSome(worker, seconds, limit, picked));
    ClaimKeepsCounts(setup, s, worker, seconds, limit, picked);
    ClaimMovesWork(setup, s, worker, seconds, limit, picked);
    WorkKeepsInvariant(setup, s, r);
  }

  lemma PrepareKeepsInvariant(setup: Setup, s: State, claim: Claim)
    requires Invariant(setup, s) && claim in s.claims
    ensures Invariant(setup, Apply(setup, s, PrepareClaim(claim)))
  {
    PrepareKeepsEvents(setup, s, claim);
    PrepareKeepsRows(setup, s, claim);
    PrepareKeepsDocuments(setup, s, claim);
  }

  lemma PrepareKeepsEvents(setup: Setup, s: State, claim: Claim)
    requires RowsAreSound(setup, s) && EventsAreSound(setup, s) && claim in s.claims
    ensures EventsAreSound(setup, Apply(setup, s, PrepareClaim(claim)))
  {
    var r := Apply(setup, s, PrepareClaim(claim));
    forall asset | asset in r.tables.events
      ensures EventIsSound(r.tables.events[asset]) && EventTellsTheTruth(setup, r, asset)
    {
      assert EventIsSound(s.tables.events[asset]) && EventTellsTheTruth(setup, s, asset);
      FreshIsNotOverwritten(setup, s, claim, asset);
    }
  }

  lemma PrepareKeepsRows(setup: Setup, s: State, claim: Claim)
    requires RowsAreSound(setup, s)
    ensures RowsAreSound(setup, Apply(setup, s, PrepareClaim(claim)))
  {
    var r := Apply(setup, s, PrepareClaim(claim));
    forall asset | asset in r.tables.rows ensures RowIsSound(setup, r, r.tables.rows[asset]) {
      assert asset in s.tables.rows ==> RowIsSound(setup, s, s.tables.rows[asset]);
    }
  }

  /** A document is called current exactly when the row answers the present metadata in the format of this release. */
  lemma CurrentIsFresh(setup: Setup, s: State, claim: Claim)
    requires RowsAreSound(setup, s)
    ensures ReadNow(setup, s, claim).current <==> FreshNow(setup, s, claim.asset)
  {
    var document := ReadNow(setup, s, claim);
    if claim.asset in s.tables.rows {
      assert RowIsSound(setup, s, s.tables.rows[claim.asset]);
      if document.current {
        assert IsInFormat(document.text, setup.format);
        FormatIsReadOff(document.text, setup.format, s.tables.rows[claim.asset].format);
      }
    }
  }

  lemma PrepareKeepsDocuments(setup: Setup, s: State, claim: Claim)
    requires RowsAreSound(setup, s) && DocumentsAreSound(setup, s) && claim in s.claims
    ensures DocumentsAreSound(setup, Apply(setup, s, PrepareClaim(claim)))
  {
    var r := Apply(setup, s, PrepareClaim(claim));
    CurrentIsFresh(setup, s, claim);
    forall document | document in r.documents
      ensures DocumentIsSound(r, document) && DocumentIsInForce(setup, r, document)
    {
      if document in s.documents {
        assert DocumentIsSound(s, document) && DocumentIsInForce(setup, s, document);
        FreshIsNotOverwritten(setup, s, claim, document.claim.asset);
      }
    }
  }

  /** Even a worker whose claim is out of date leaves a row alone that answers the present metadata in its format. */
  lemma FreshIsNotOverwritten(setup: Setup, s: State, claim: Claim, asset: Asset)
    requires RowsAreSound(setup, s)
    ensures FreshNow(setup, s, asset) ==> FreshNow(setup, Apply(setup, s, PrepareClaim(claim)), asset)
    ensures asset != claim.asset && Fresh(setup, s, asset) ==> Fresh(setup, Apply(setup, s, PrepareClaim(claim)), asset)
  {
    if claim.asset == asset {
      CurrentIsFresh(setup, s, claim);
    }
  }

  lemma EmbedKeepsInvariant(setup: Setup, s: State, text: string, vector: Vector)
    requires Invariant(setup, s)
    ensures Invariant(setup, Apply(setup, s, Embed(text, vector)))
  {
    var r := Apply(setup, s, Embed(text, vector));
    forall asset | asset in r.tables.rows ensures RowIsSound(setup, r, r.tables.rows[asset]) {
      assert RowIsSound(setup, s, s.tables.rows[asset]);
    }
    forall asset | asset in r.tables.events ensures EventTellsTheTruth(setup, r, asset) {
      assert EventTellsTheTruth(setup, s, asset);
    }
    forall document | document in r.documents
      ensures DocumentIsSound(r, document) && DocumentIsInForce(setup, r, document)
    {
      assert DocumentIsSound(s, document) && DocumentIsInForce(setup, s, document);
    }
  }

  // ---- Settlements -------------------------------------------------------------------------------------------------

  /** Only one asset's event and row change, its version and claims stay, and no other asset notices. */
  ghost predicate Local(setup: Setup, s: State, r: State, asset: Asset) {
    && r.facts == s.facts && r.computed == s.computed && r.documents == s.documents
    && r.earlier == s.earlier && r.claims == s.claims
    && asset in s.tables.events && asset in r.tables.events
    && r.tables.events == s.tables.events[asset := r.tables.events[asset]]
    && (forall other | other != asset && other in r.tables.rows ::
          other in s.tables.rows && r.tables.rows[other] == s.tables.rows[other])
    && (forall other | other != asset && other in s.tables.rows :: other in r.tables.rows)
    && r.tables.events[asset].version == s.tables.events[asset].version
    && r.tables.events[asset].attempt == s.tables.events[asset].attempt
    && EventIsSound(r.tables.events[asset])
    && (asset in r.tables.rows ==> RowIsSound(setup, r, r.tables.rows[asset]))
    && EventTellsTheTruth(setup, r, asset)
  }

  lemma LocalKeepsInvariant(setup: Setup, s: State, r: State, asset: Asset)
    requires Invariant(setup, s) && asset in r.tables.events && Local(setup, s, r, asset)
    requires forall document | document in s.documents && document.claim.asset == asset ::
              DocumentIsInForce(setup, r, document)
    ensures Invariant(setup, r)
  {
    forall other | other in r.tables.events
      ensures EventIsSound(r.tables.events[other]) && EventTellsTheTruth(setup, r, other)
    {
      assert other != asset ==> EventTellsTheTruth(setup, s, other);
    }
    forall other | other in r.tables.rows ensures RowIsSound(setup, r, r.tables.rows[other]) {
      assert other != asset ==> other in s.tables.rows && RowIsSound(setup, s, s.tables.rows[other]);
    }
    forall document | document in r.documents
      ensures DocumentIsSound(r, document) && DocumentIsInForce(setup, r, document)
    {
      assert DocumentIsSound(s, document) && DocumentIsInForce(setup, s, document);
    }
  }

  function SettledState(setup: Setup, s: State, document: Document, how: Settlement): State
    requires document.claim.asset in s.tables.events
    requires how.Completed? ==> AwaitsVector(s.tables, document)
  {
    s.(tables := Settled(setup, s, document, how))
  }

  lemma SettlementIsLocal(setup: Setup, s: State, document: Document, worker: Worker, how: Settlement)
    requires Invariant(setup, s) && Asked(s, document, how) && TakesEffect(s.tables, document, worker, how)
    ensures Local(setup, s, SettledState(setup, s, document, how), document.claim.asset)
  {
    var asset := document.claim.asset;
    assert EventIsSound(s.tables.events[asset]);
    assert asset in s.tables.rows ==> RowIsSound(setup, s, s.tables.rows[asset]);
    assert document in s.documents ==> DocumentIsSound(s, document) && DocumentIsInForce(setup, s, document);
    if how.Completed? {
      FormatIsReadOff(document.text, setup.format, s.tables.rows[asset].format);
    }
  }

  /** The other documents of the asset stay in force: those of this version read the same metadata. */
  lemma OthersStayInForce(setup: Setup, s: State, document: Document, worker: Worker, how: Settlement, other: Document)
    requires Invariant(setup, s) && Asked(s, document, how) && TakesEffect(s.tables, document, worker, how)
    requires other in s.documents && other.claim.asset == document.claim.asset
    ensures DocumentIsInForce(setup, SettledState(setup, s, document, how), other)
  {
    assert DocumentIsSound(s, other) && DocumentIsInForce(setup, s, other);
    assert document in s.documents ==> DocumentIsSound(s, document) && DocumentIsInForce(setup, s, document);
  }

  lemma SettleKeepsInvariant(setup: Setup, s: State, document: Document, worker: Worker, how: Settlement)
    requires Invariant(setup, s) && Asked(s, document, how) && TakesEffect(s.tables, document, worker, how)
    ensures Invariant(setup, SettledState(setup, s, document, how))
  {
    var r := SettledState(setup, s, document, how);
    SettlementIsLocal(setup, s, document, worker, how);
    forall other | other in s.documents && other.claim.asset == document.claim.asset
      ensures DocumentIsInForce(setup, r, other)
    {
      OthersStayInForce(setup, s, document, worker, how, other);
    }
    LocalKeepsInvariant(setup, s, r, document.claim.asset);
  }

  lemma TimeKeepsInvariant(setup: Setup, s: State, now: int)
    requires Invariant(setup, s)
    ensures Invariant(setup, s.(now := now))
  {
    assert AllClaims(s.(now := now)) == AllClaims(s);
    WorkKeepsInvariant(setup, s, s.(now := now));
  }

  lemma RestartKeepsInvariant(setup: Setup, s: State, a: Action)
    requires Invariant(setup, s) && (a.ChangeMetadata? || a.RequeueStale?)
    ensures Invariant(setup, Apply(setup, s, a))
  {
    TouchKeepsInvariant(
      setup, s, if a.ChangeMetadata? then {a.asset} else Stale(s.tables.rows, setup.format), Apply(setup, s, a));
  }

  lemma StepKeepsInvariant(setup: Setup, s: State, a: Action)
    requires Invariant(setup, s) && Enabled(s, a)
    ensures Invariant(setup, Apply(setup, s, a))
  {
    match a
    case Tick(seconds) => TimeKeepsInvariant(setup, s, s.now + seconds);
    case ChangeMetadata(_, _) => RestartKeepsInvariant(setup, s, a);
    case RequeueStale => RestartKeepsInvariant(setup, s, a);
    case ClaimSome(worker, seconds, limit, picked) => ClaimKeepsInvariant(setup, s, worker, seconds, limit, picked);
    case PrepareClaim(claim) => PrepareKeepsInvariant(setup, s, claim);
    case Embed(text, vector) => EmbedKeepsInvariant(setup, s, text, vector);
    case Settle(document, worker, how) =>
      if TakesEffect(s.tables, document, worker, how) {
        SettleKeepsInvariant(setup, s, document, worker, how);
      }
  }

  // ---- Runs ---------------------------------------------------------------------------------------------------------

  /** A release starts with what earlier ones left, once their workers have stopped; see ReleasesFollow. */
  ghost predicate Initial(setup: Setup, s: State) {
    Invariant(setup, s) && s.claims == multiset{} && s.documents == {}
  }

  ghost predicate Next(setup: Setup, s: State, r: State) {
    exists a :: Enabled(s, a) && r == Apply(setup, s, a)
  }

  ghost predicate StepAt(setup: Setup, run: seq<State>, i: nat)
    requires i + 1 < |run|
  {
    Next(setup, run[i], run[i + 1])
  }

  ghost predicate IsRun(setup: Setup, run: seq<State>) {
    && |run| > 0 && Initial(setup, run[0])
    && forall i: nat | i + 1 < |run| :: StepAt(setup, run, i)
  }

  lemma NextKeepsInvariant(setup: Setup, s: State, r: State)
    requires Invariant(setup, s) && Next(setup, s, r)
    ensures Invariant(setup, r)
  {
    var a :| Enabled(s, a) && r == Apply(setup, s, a);
    StepKeepsInvariant(setup, s, a);
  }

  lemma {:induction false} RunKeepsInvariant(setup: Setup, run: seq<State>, i: nat)
    requires IsRun(setup, run) && i < |run|
    ensures Invariant(setup, run[i])
  {
    if i > 0 {
      RunKeepsInvariant(setup, run, i - 1);
      assert StepAt(setup, run, i - 1);
      NextKeepsInvariant(setup, run[i - 1], run[i]);
    }
  }

  /** The tables of every run are those the store's methods ask for and keep. */
  lemma RunTablesAreSound(setup: Setup, run: seq<State>, i: nat)
    requires IsRun(setup, run) && i < |run|
    ensures TablesAreSound(run[i].tables)
  {
    RunKeepsInvariant(setup, run, i);
    forall asset | asset in run[i].tables.rows ensures RowIsConsistent(run[i].tables.rows[asset]) {
      assert RowIsSound(setup, run[i], run[i].tables.rows[asset]);
    }
  }

  /** In every run, a stored vector was computed for the text whose hash is stored beside it. */
  lemma EmbeddedRowsHoldTheirVector(setup: Setup, run: seq<State>, i: nat, asset: Asset)
    requires IsRun(setup, run) && i < |run|
    requires asset in run[i].tables.rows && run[i].tables.rows[asset].status == Embedded
    ensures var row := run[i].tables.rows[asset];
            row.vector.Some? && exists text :: (text, row.vector.value) in run[i].computed && row.hash == Sha256(text)
  {
    RunKeepsInvariant(setup, run, i);
    assert RowIsSound(setup, run[i], run[i].tables.rows[asset]);
  }

  /** In every run, an event that says Succeeded means the stored vector answers the metadata as it is now. */
  lemma SucceededEventsAreFresh(setup: Setup, run: seq<State>, i: nat, asset: Asset)
    requires IsRun(setup, run) && i < |run|
    requires asset in run[i].tables.events && run[i].tables.events[asset].status == Succeeded
    ensures asset in run[i].tables.rows
    ensures var row := run[i].tables.rows[asset];
            && row.status == Embedded && row.vector.Some? && row.model == setup.model
            && TextOf(FactsOf(run[i], asset), row.format) == Some(row.text)
            && (row.text, row.vector.value) in run[i].computed
  {
    RunKeepsInvariant(setup, run, i);
    assert EventTellsTheTruth(setup, run[i], asset);
    assert RowIsSound(setup, run[i], run[i].tables.rows[asset]);
  }

  /** And one that says Skipped means the metadata has no document, and no vector is kept. */
  lemma SkippedEventsHaveNoRow(setup: Setup, run: seq<State>, i: nat, asset: Asset)
    requires IsRun(setup, run) && i < |run|
    requires asset in run[i].tables.events && run[i].tables.events[asset].status == Skipped
    ensures asset !in run[i].tables.rows && HasNoDocument(FactsOf(run[i], asset))
  {
    RunKeepsInvariant(setup, run, i);
    assert EventTellsTheTruth(setup, run[i], asset);
  }

  /** No version of an event is handed out more than three times, and only a third attempt ends in Failed. */
  lemma AttemptsAreBounded(setup: Setup, run: seq<State>, i: nat, claim: Claim)
    requires IsRun(setup, run) && i < |run|
    ensures AllClaims(run[i])[claim] <= MAX_ATTEMPTS
    ensures claim.asset in run[i].tables.events && run[i].tables.events[claim.asset].version == claim.version ==>
              && AllClaims(run[i])[claim] == run[i].tables.events[claim.asset].attempt
              && (run[i].tables.events[claim.asset].status == Failed ==> AllClaims(run[i])[claim] == MAX_ATTEMPTS)
  {
    RunKeepsInvariant(setup, run, i);
    assert claim.asset in run[i].tables.events ==> EventIsSound(run[i].tables.events[claim.asset]);
  }

  // ---- Leases -------------------------------------------------------------------------------------------------------

  predicate Restarts(setup: Setup, s: State, a: Action, asset: Asset) {
    || (a.ChangeMetadata? && a.asset == asset)
    || (a.RequeueStale? && asset in Stale(s.tables.rows, setup.format))
  }

  /** An unexpired lease ends only with its holder's own settlement or with a newer version of the event. */
  lemma UnexpiredLeaseIsExclusive(setup: Setup, s: State, a: Action, claim: Claim, worker: Worker)
    requires Invariant(setup, s) && Enabled(s, a)
    requires Holds(s.tables, claim, worker) && s.now < s.tables.events[claim.asset].lease.value.expires
    ensures Holds(Apply(setup, s, a).tables, claim, worker)
         || Restarts(setup, s, a, claim.asset)
         || (a.Settle? && a.worker == worker && a.document.claim == claim)
    ensures a.ClaimSome? ==> claim.asset !in a.picked
  {
  }

  /** A restart voids every claim made before it. */
  lemma RestartVoidsClaims(setup: Setup, s: State, a: Action, claim: Claim, worker: Worker)
    requires Invariant(setup, s) && Enabled(s, a) && claim in s.claims
    requires Restarts(setup, s, a, claim.asset)
    ensures !Holds(Apply(setup, s, a).tables, claim, worker)
  {
  }

  /** Every expired lease can be claimed again, or its last attempt was spent and the next claim sweeps it. */
  lemma ExpiredLeasesEnd(setup: Setup, run: seq<State>, i: nat, asset: Asset, a: Action)
    requires IsRun(setup, run) && i < |run| && Enabled(run[i], a) && a.ClaimSome?
    requires asset in run[i].tables.events
    requires var event := run[i].tables.events[asset];
             event.status == Running && event.lease.Some? && event.lease.value.expires <= run[i].now
    ensures var event, next := run[i].tables.events[asset], Apply(setup, run[i], a).tables.events[asset];
            && (Claimable(event, run[i].now) <==> event.attempt < MAX_ATTEMPTS)
            && (event.attempt < MAX_ATTEMPTS ==> Claimable(next, run[i].now) <==> asset !in a.picked)
            && (event.attempt == MAX_ATTEMPTS ==> next.status == Failed && next.lease.None?)
  {
    RunKeepsInvariant(setup, run, i);
    assert EventIsSound(run[i].tables.events[asset]);
  }

  /**
   * A settlement changes the tables exactly when its worker holds the claimed version, a completion's row waits, and a
   * skip has a reason.
   */
  lemma SettlementIsFencedExactly(setup: Setup, s: State, document: Document, worker: Worker, how: Settlement)
    requires Invariant(setup, s) && Enabled(s, Settle(document, worker, how))
    ensures Apply(setup, s, Settle(document, worker, how)).tables != s.tables <==>
              TakesEffect(s.tables, document, worker, how)
  {
    if TakesEffect(s.tables, document, worker, how) {
      var r := Settled(setup, s, document, how);
      assert r.events[document.claim.asset].status != Running;
    }
  }

  /** After an expired lease is claimed again, the earlier claim still settles exactly when the same worker claimed. */
  lemma ReclaimFencesOtherWorkers(setup: Setup, s: State, a: Action, claim: Claim, worker: Worker)
    requires Invariant(setup, s) && Enabled(s, a) && a.ClaimSome? && claim.asset in a.picked
    requires Holds(s.tables, claim, worker)
    ensures Holds(Apply(setup, s, a).tables, claim, worker) <==> a.worker == worker
  {
  }

  /**
   * A failed event can be claimed again after 30 seconds, then after 2 minutes, and after a third attempt not at all.
   */
  lemma FailuresBackOff(setup: Setup, s: State, document: Document, worker: Worker, how: Settlement, later: int)
    requires Invariant(setup, s) && Enabled(s, Settle(document, worker, how)) && (how.Unprepared? || how.NotEmbedded?)
    requires TakesEffect(s.tables, document, worker, how)
    ensures document.claim.asset in Apply(setup, s, Settle(document, worker, how)).tables.events
    ensures var event := s.tables.events[document.claim.asset];
            Claimable(Apply(setup, s, Settle(document, worker, how)).tables.events[document.claim.asset], later)
            <==> (event.attempt == 1 && later >= s.now + 30) || (event.attempt == 2 && later >= s.now + 120)
  {
    assert EventIsSound(s.tables.events[document.claim.asset]);
  }

  /** Preparing changes the tables exactly when the document is new to its row; the lease is not asked. */
  lemma PreparingIsNotFenced(setup: Setup, s: State, claim: Claim)
    requires claim in s.claims
    ensures var document := ReadNow(setup, s, claim);
            Apply(setup, s, PrepareClaim(claim)).tables != s.tables <==>
              && document.eligible && !document.current
              && !(claim.asset in s.tables.rows
                   && s.tables.rows[claim.asset]
                      == Row(setup.format, document.text, Sha256(document.text), Waiting, None, ""))
  {
    var document := ReadNow(setup, s, claim);
    var r := Apply(setup, s, PrepareClaim(claim));
    if document.eligible && !document.current {
      assert r.tables.rows[claim.asset] == Row(setup.format, document.text, Sha256(document.text), Waiting, None, "");
      assert r.tables.rows == s.tables.rows ==> claim.asset in s.tables.rows;
    }
  }

  lemma LongerRun(setup: Setup, run: seq<State>, a: Action) returns (longer: seq<State>)
    requires IsRun(setup, run) && Enabled(run[|run| - 1], a)
    ensures longer == run + [Apply(setup, run[|run| - 1], a)] && IsRun(setup, longer)
  {
    longer := run + [Apply(setup, run[|run| - 1], a)];
    assert Next(setup, run[|run| - 1], longer[|run|]);
    forall i: nat | i + 1 < |longer| ensures StepAt(setup, longer, i) {
      assert i + 1 < |run| ==> StepAt(setup, run, i);
    }
  }

  lemma ClaimedRun(setup: Setup, worker: Worker) returns (run: seq<State>)
    requires worker != ""
    ensures IsRun(setup, run) && |run| == 3 && Claim(0, 1) in run[2].claims
    ensures Holds(run[2].tables, Claim(0, 1), worker) && run[2].tables.rows == map[]
    ensures run[2].now == 0 && FactsOf(run[2], 0) == Described("a")
  {
    var s0 := State(0, map[], Tables(map[], map[]), multiset{}, multiset{}, {}, {});
    assert IsRun(setup, [s0]);
    run := LongerRun(setup, [s0], ChangeMetadata(0, Described("a")));
    var claimed := ClaimSome(worker, 1, 1, {0});
    assert run[1].tables.events[0] == Event(Pending, 1, 0, 0, None);
    assert Enabled(run[1], claimed);
    run := LongerRun(setup, run, claimed);
    assert Claim(0, 1) in ClaimsOf(run[2].tables, {0});
  }

  /** A run in which a claim whose version is gone, and which nobody holds, still overwrites the stored row. */
  lemma SupersededClaimStillPrepares(setup: Setup, worker: Worker) returns (run: seq<State>, claim: Claim)
    requires worker != ""
    ensures IsRun(setup, run) && |run| == 5 && run[4] == Apply(setup, run[3], PrepareClaim(claim))
    ensures claim in run[3].claims && forall other :: !Holds(run[3].tables, claim, other)
    ensures run[4].tables != run[3].tables
  {
    claim := Claim(0, 1);
    var start := ClaimedRun(setup, worker);
    var changed := LongerRun(setup, start, ChangeMetadata(0, Described("b")));
    assert changed[3].tables.events[0].version == 2;
    run := LongerRun(setup, changed, PrepareClaim(claim));
    assert run[3] == changed[3];
    assert 0 in run[4].tables.rows && 0 !in run[3].tables.rows;
  }

  // ---- Releases -----------------------------------------------------------------------------------------------------

  lemma EmptyTablesAreInitial(setup: Setup, now: int)
    ensures Initial(setup, State(now, map[], Tables(map[], map[]), multiset{}, multiset{}, {}, {}))
  {
  }

  /** Whatever a run of one release reaches, the next one may start with when the workers of the first have stopped. */
  lemma ReleasesFollow(setup: Setup, later: Setup, run: seq<State>, i: nat)
    requires IsRun(setup, run) && i < |run| && later.model == setup.model
    ensures Initial(later, run[i].(earlier := AllClaims(run[i]), claims := multiset{}, documents := {}))
  {
    RunKeepsInvariant(setup, run, i);
    var s, r := run[i], run[i].(earlier := AllClaims(run[i]), claims := multiset{}, documents := {});
    assert AllClaims(r) == AllClaims(s);
    forall asset | asset in r.tables.events
      ensures EventIsSound(r.tables.events[asset]) && EventTellsTheTruth(later, r, asset)
    {
      assert EventTellsTheTruth(setup, s, asset);
    }
    forall asset | asset in r.tables.rows ensures RowIsSound(later, r, r.tables.rows[asset]) {
      assert RowIsSound(setup, s, s.tables.rows[asset]);
    }
  }

  lemma OnlySettlementsFinish(setup: Setup, s: State, a: Action, asset: Asset)
    requires Enabled(s, a) && !a.Settle? && asset in s.tables.events
    ensures var r := Apply(setup, s, a);
            asset in r.tables.events && s.claims <= r.claims
            && (Done(r.tables.events[asset]) ==> r.tables.events[asset] == s.tables.events[asset])
  {
  }

  lemma SettlementsHaveClaims(setup: Setup, s: State, a: Action, asset: Asset)
    requires DocumentsAreSound(setup, s) && Enabled(s, a) && a.Settle? && asset in s.tables.events
    ensures var r := Apply(setup, s, a);
            asset in r.tables.events && r.claims == s.claims
            && (Unclaimed(s, asset) ==> r.tables.events[asset] == s.tables.events[asset])
  {
    assert a.document in s.documents ==> DocumentIsSound(s, a.document);
  }

  /** An event that is not done stays so until a worker of this release has claimed it. */
  lemma OnlyClaimsFinish(setup: Setup, s: State, r: State, asset: Asset)
    requires DocumentsAreSound(setup, s) && Next(setup, s, r) && asset in s.tables.events
    requires Unclaimed(s, asset) ==> !Done(s.tables.events[asset])
    ensures asset in r.tables.events && (Unclaimed(r, asset) ==> !Done(r.tables.events[asset]))
  {
    var a :| Enabled(s, a) && r == Apply(setup, s, a);
    if a.Settle? {
      SettlementsHaveClaims(setup, s, a, asset);
    } else {
      OnlySettlementsFinish(setup, s, a, asset);
      assert forall claim | claim in s.claims :: claim in r.claims;
    }
  }

  lemma RunDocumentsAreSound(setup: Setup, run: seq<State>, i: nat)
    requires IsRun(setup, run) && i < |run|
    ensures DocumentsAreSound(setup, run[i])
  {
    RunKeepsInvariant(setup, run, i);
  }

  lemma {:induction false} RestartedWaitForClaims(setup: Setup, run: seq<State>, i: nat, j: nat, asset: Asset)
    requires IsRun(setup, run) && i <= j < |run| && asset in run[i].tables.events
    requires Unclaimed(run[i], asset) ==> !Done(run[i].tables.events[asset])
    ensures asset in run[j].tables.events && (Unclaimed(run[j], asset) ==> !Done(run[j].tables.events[asset]))
  {
    if i < j {
      RestartedWaitForClaims(setup, run, i, j - 1, asset);
      assert DocumentsAreSound(setup, run[j - 1]) by {
        RunDocumentsAreSound(setup, run, j - 1);
      }
      assert StepAt(setup, run, j - 1);
      OnlyClaimsFinish(setup, run[j - 1], run[j], asset);
    }
  }

  /** A stale row that was requeued is in the format of the release, and up to date, once its event succeeds again. */
  lemma RequeuedRowsReachTheFormat(setup: Setup, run: seq<State>, i: nat, j: nat, asset: Asset)
    requires IsRun(setup, run) && i < j < |run| && run[i + 1] == Apply(setup, run[i], RequeueStale)
    requires asset in Stale(run[i].tables.rows, setup.format)
    ensures asset in run[j].tables.events
    ensures run[j].tables.events[asset].status == Succeeded ==> FreshNow(setup, run[j], asset)
    ensures run[j].tables.events[asset].status == Skipped ==> TextOf(FactsOf(run[j], asset), setup.format).None?
  {
    RestartedWaitForClaims(setup, run, i + 1, j, asset);
    RunKeepsInvariant(setup, run, j);
    assert EventTellsTheTruth(setup, run[j], asset);
  }

  /**
   * While a worker of another release drains: preparing a claim
   * spoils a fresh row exactly when it is in another format.
   */
  lemma PreparingSpoilsExactly(setup: Setup, s: State, claim: Claim, asset: Asset)
    requires RowsAreSound(setup, s) && Fresh(setup, s, asset)
    ensures !Fresh(setup, Apply(setup, s, PrepareClaim(claim)), asset) <==>
              && claim.asset == asset && s.tables.rows[asset].format != setup.format
              && TextOf(FactsOf(s, asset), setup.format).Some?
  {
    CurrentIsFresh(setup, s, claim);
  }

  ghost predicate NextOfSomeRelease(model: Model, s: State, r: State) {
    exists format: Format :: Next(Setup(model, format), s, r)
  }

  ghost predicate MixedAt(model: Model, run: seq<State>, i: nat)
    requires i + 1 < |run|
  {
    NextOfSomeRelease(model, run[i], run[i + 1])
  }

  /** The workers of several releases, which differ in their document formats, side by side. */
  ghost predicate IsMixedRun(model: Model, run: seq<State>) {
    && |run| > 0 && (exists format: Format :: Initial(Setup(model, format), run[0]))
    && forall i: nat | i + 1 < |run| :: MixedAt(model, run, i)
  }

  lemma LongerMixedRun(setup: Setup, run: seq<State>, a: Action) returns (longer: seq<State>)
    requires IsMixedRun(setup.model, run) && Enabled(run[|run| - 1], a)
    ensures longer == run + [Apply(setup, run[|run| - 1], a)] && IsMixedRun(setup.model, longer)
  {
    longer := run + [Apply(setup, run[|run| - 1], a)];
    assert Setup(setup.model, setup.format) == setup;
    assert Next(setup, run[|run| - 1], longer[|run|]);
    forall i: nat | i + 1 < |longer| ensures MixedAt(setup.model, longer, i) {
      assert i + 1 < |run| ==> MixedAt(setup.model, run, i);
    }
  }

  lemma ClaimZero(setup: Setup, run: seq<State>, worker: Worker) returns (longer: seq<State>)
    requires IsMixedRun(setup.model, run) && worker != ""
    requires var s := run[|run| - 1];
             0 in s.tables.events && s.tables.events[0] == Event(Pending, s.tables.events[0].version, 0, s.now, None)
    ensures IsMixedRun(setup.model, longer) && |longer| == |run| + 1
    ensures var s, r, version := run[|run| - 1], longer[|run|], run[|run| - 1].tables.events[0].version;
            && Holds(r.tables, Claim(0, version), worker) && Claim(0, version) in r.claims && s.claims <= r.claims
            && r.tables.rows == s.tables.rows && r.facts == s.facts && r.now == s.now
  {
    var s := run[|run| - 1];
    assert Claimable(Sweep(s.tables.events, s.now)[0], s.now);
    longer := LongerMixedRun(setup, run, ClaimSome(worker, 1, 1, {0}));
    assert Claim(0, s.tables.events[0].version) in ClaimsOf(longer[|run|].tables, {0});
  }

  lemma EarlierRelease(earlier: Setup) returns (start: State)
    ensures IsMixedRun(earlier.model, [start]) && start.now == 0 && start.facts == map[0 := Described("a")]
    ensures start.tables.events == map[0 := Event(Succeeded, 1, 1, 0, None)] && start.tables.rows.Keys == {0}
    ensures start.tables.rows[0].format == earlier.format
         && start.tables.rows[0].hash == Sha256(Rendered(earlier.format, "a"))
  {
    var text := Rendered(earlier.format, "a");
    var row := Row(earlier.format, text, Sha256(text), Embedded, Some([1.0]), earlier.model);
    start := State(0, map[0 := Described("a")], Tables(map[0 := Event(Succeeded, 1, 1, 0, None)], map[0 := row]),
                   multiset{Claim(0, 1)}, multiset{}, {}, {(text, [1.0])});
    assert Initial(earlier, start);
    assert Setup(earlier.model, earlier.format) == earlier;
  }

  /** The old release has a claim when the new one requeues and claims its row. */
  lemma DrainingRun(earlier: Setup, later: Setup, worker: Worker) returns (run: seq<State>)
    requires earlier.model == later.model && earlier.format != later.format && worker != ""
    ensures IsMixedRun(later.model, run)
    ensures var s := run[|run| - 1];
            && Holds(s.tables, Claim(0, 3), worker) && Claim(0, 3) in s.claims && Claim(0, 2) in s.claims
            && FactsOf(s, 0) == Described("a") && 0 in s.tables.rows
            && s.tables.rows[0].hash == Sha256(Rendered(earlier.format, "a"))
  {
    var start := EarlierRelease(earlier);
    run := LongerMixedRun(earlier, [start], ChangeMetadata(0, Described("a")));
    run := ClaimZero(earlier, run, worker);
    assert 0 in Stale(run[2].tables.rows, later.format);
    run := LongerMixedRun(later, run, RequeueStale);
    run := ClaimZero(later, run, worker);
  }

  lemma PreparedRun(earlier: Setup, later: Setup, worker: Worker) returns (run: seq<State>, document: Document)
    requires earlier.model == later.model && earlier.format != later.format && worker != ""
    ensures IsMixedRun(later.model, run)
    ensures var s, text := run[|run| - 1], Rendered(later.format, "a");
            && document == Document(Claim(0, 3), text, Some(Sha256(text)), false, true, "") && document in s.documents
            && Holds(s.tables, document.claim, worker) && Claim(0, 2) in s.claims && FactsOf(s, 0) == Described("a")
            && 0 in s.tables.rows && s.tables.rows[0] == Row(later.format, text, Sha256(text), Waiting, None, "")
  {
    run := DrainingRun(earlier, later, worker);
    document := ReadNow(later, run[|run| - 1], Claim(0, 3));
    DifferentTexts(earlier.format, later.format, "a");
    run := LongerMixedRun(later, run, PrepareClaim(Claim(0, 3)));
  }

  lemma RebuiltRun(earlier: Setup, later: Setup, worker: Worker) returns (run: seq<State>)
    requires earlier.model == later.model && earlier.format != later.format && worker != ""
    ensures IsMixedRun(later.model, run)
    ensures var s := run[|run| - 1];
            && FreshNow(later, s, 0) && 0 in s.tables.events && s.tables.events[0].status == Succeeded
            && s.tables.rows[0].hash == Sha256(Rendered(later.format, "a"))
            && Claim(0, 2) in s.claims && FactsOf(s, 0) == Described("a")
  {
    var document;
    run, document := PreparedRun(earlier, later, worker);
    run := LongerMixedRun(later, run, Embed(document.text, [1.0]));
    run := LongerMixedRun(later, run, Settle(document, worker, Completed([1.0])));
  }

  /**
   * The old release, still draining, prepares its claim after the new one has rebuilt the row: the event goes on saying
   * Succeeded over a row in the old format without a vector, and nobody holds a claim that would mend it.
   */
  lemma DrainingWorkerUndoesTheRebuild(earlier: Setup, later: Setup, worker: Worker) returns (run: seq<State>)
    requires earlier.model == later.model && earlier.format != later.format && worker != ""
    ensures IsMixedRun(later.model, run) && |run| > 1
    ensures FreshNow(later, run[|run| - 2], 0)
    ensures var s := run[|run| - 1];
            && 0 in s.tables.events && s.tables.events[0].status == Succeeded
            && 0 in s.tables.rows && s.tables.rows[0].format == earlier.format && s.tables.rows[0].vector.None?
            && forall claim: Claim, other: Worker | claim.asset == 0 :: !Holds(s.tables, claim, other)
  {
    run := RebuiltRun(earlier, later, worker);
    DifferentTexts(earlier.format, later.format, "a");
    run := LongerMixedRun(earlier, run, PrepareClaim(Claim(0, 2)));
  }

  lemma DifferentTexts(format: Format, other: Format, lines: string)
    requires format != other
    ensures Rendered(format, lines) != Rendered(other, lines)
  {
    if Rendered(format, lines) == Rendered(other, lines) {
      assert IsInFormat(Rendered(format, lines), format) && IsInFormat(Rendered(other, lines), other);
      FormatIsReadOff(Rendered(format, lines), format, other);
    }
  }
}
