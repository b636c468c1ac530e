/** Requests for detail data: their approval, their controlled exports and their audit trail. */
module DataRequests {
  import opened Prelude

  const MAX_DOWNLOADS: nat := 3
  const MAX_FACTS: nat := 256

  type User = nat
  type RequestId = nat
  type JobId = nat
  type Field = nat

  datatype Sensitivity = Public | Internal | Confidential | Restricted
  datatype Phase = Draft | Submitted | Approved | Rejected | InProgress | Delivered | Closed

  /** SHA-256 of the canonical request, taken to be injective. */
  datatype RequestHash = Sha256(id: RequestId, fields: seq<Field>, sensitivity: Sensitivity)

  datatype Delivery = OneTimeExport(job: JobId) | Elsewhere(ref: string)

  /** Who approved, and who was an active member of the domain then; kept for the statements about approvals. */
  datatype Approval = Approval(approver: User, members: set<User>)

  datatype Request = Request(
    requester: User,
    fields: seq<Field>,
    sensitivity: Sensitivity,
    phase: Phase,
    approvers: set<User>,
    cosigner: Option<User>,
    assignee: Option<User>,
    delivery: Option<Delivery>,
    version: nat,
    approval: Option<Approval>)

  datatype Content = Content(storageKey: string, hash: string)
  datatype Job = Job(
    request: RequestId,
    hash: RequestHash,
    expires: int,
    maximum: nat,
    downloads: nat,
    content: Option<Content>)

  datatype EventKind =
    | Moved(from: Option<Phase>, to: Phase, sequence: nat)
    | Enqueued(job: JobId)
    | Downloaded(job: JobId, number: nat)
  datatype Event = Event(auditNo: nat, actor: User, kind: EventKind)

  datatype State = State(requests: map<RequestId, Request>, jobs: map<JobId, Job>, events: map<RequestId, seq<Event>>)

  datatype Failure =
    | InvalidRequest
    | NotFound
    | VersionConflict
    | InvalidTransition
    | PermissionDenied
    | CosignRequired
    | ApproverUnavailable
    | DuplicateKey
    | ExportInvalid
    | ExportExpired
    | ExportLimit
    | ExportNotReady

  // ---- Policy -----------------------------------------------------------------------------------------------------

  function Rank(sensitivity: Sensitivity): nat {
    match sensitivity
    case Public => 0
    case Internal => 1
    case Confidential => 2
    case Restricted => 3
  }

  datatype Fact = Fact(source: string, sensitivity: Sensitivity)

  /** The strict maximum over facts from different sources; bounded is the check of a trimmed source name. */
  method DeriveSensitivity(facts: seq<Fact>, trim: string -> string, bounded: string -> bool)
    returns (maximum: Option<Sensitivity>)
    ensures maximum.Some? <==>
              && 0 < |facts| <= MAX_FACTS
              && (forall i | 0 <= i < |facts| :: bounded(trim(facts[i].source)))
              && (forall i, j | 0 <= i < j < |facts| :: trim(facts[i].source) != trim(facts[j].source))
    ensures maximum.Some? ==>
              && (exists i :: 0 <= i < |facts| && facts[i].sensitivity == maximum.value)
              && (forall i | 0 <= i < |facts| :: Rank(facts[i].sensitivity) <= Rank(maximum.value))
  {
    if |facts| == 0 || |facts| > MAX_FACTS {
      return None;
    }
    var seen: set<string>, found := {}, Public;
    for k := 0 to |facts|
      invariant seen == set i | 0 <= i < k :: trim(facts[i].source)
      invariant forall i | 0 <= i < k :: bounded(trim(facts[i].source))
      invariant forall i, j | 0 <= i < j < k :: trim(facts[i].source) != trim(facts[j].source)
      invariant forall i | 0 <= i < k :: Rank(facts[i].sensitivity) <= Rank(found)
      invariant found == Public || exists i :: 0 <= i < k && facts[i].sensitivity == found
    {
      var source := trim(facts[k].source);
      if !bounded(source) || source in seen {
        return None;
      }
      seen := seen + {source};
      if Rank(facts[k].sensitivity) > Rank(found) {
        found := facts[k].sensitivity;
      }
    }
    if found == Public {
      assert Rank(facts[0].sensitivity) == 0;
    }
    maximum := Some(found);
  }

  predicate RequiresSecurityCosign(sensitivity: Sensitivity) {
    sensitivity == Confidential || sensitivity == Restricted
  }

  function ValidateApproval(
    sensitivity: Sensitivity, requester: User, approver: User, cosigner: Option<User>,
    members: set<User>): Option<Failure>
  {
    if !RequiresSecurityCosign(sensitivity) && cosigner.None? then None
    else if cosigner.None? || cosigner.value == requester || cosigner.value == approver then Some(CosignRequired)
    else if cosigner.value !in members then Some(CosignRequired)
    else None
  }

  predicate ValidTransition(from: Phase, to: Phase) {
    match from
    case Draft => to == Submitted
    case Submitted => to == Approved || to == Rejected
    case Approved => to == InProgress
    case InProgress => to == Delivered
    case Delivered => to == Closed
    case _ => false
  }

  function ValidateControlledDownload(
    now: int, ready: bool, expires: int, downloads: nat, maximum: nat): Option<Failure>
  {
    if maximum < 1 || downloads > maximum then Some(ExportInvalid)
    else if expires <= now then Some(ExportExpired)
    else if downloads >= maximum then Some(ExportLimit)
    else if !ready then Some(ExportNotReady)
    else None
  }

  // ---- Transactions -----------------------------------------------------------------------------------------------

  datatype Outcome = Done(state: State) | Refused(failure: Failure)

  function MaxAudit(events: seq<Event>): nat {
    if events == [] then 0
    else
      var rest := MaxAudit(events[..|events| - 1]);
      if events[|events| - 1].auditNo > rest then events[|events| - 1].auditNo else rest
  }

  /** The audit number is one more than the greatest of the request. */
  function Logged(s: State, id: RequestId, actor: User, kind: EventKind): State {
    var events := if id in s.events then s.events[id] else [];
    s.(events := s.events[id := events + [Event(MaxAudit(events) + 1, actor, kind)]])
  }

  function Create(
    s: State, id: RequestId, requester: User, fields: seq<Field>, sensitivity: Sensitivity,
    approvers: set<User>): Outcome
  {
    if approvers == {} then Refused(ApproverUnavailable)
    else if id in s.requests then Refused(DuplicateKey)
    else
      var request := Request(requester, fields, sensitivity, Draft, approvers, None, None, None, 1, None);
      Done(Logged(s.(requests := s.requests[id := request]), id, requester, Moved(None, Draft, 1)))
  }

  datatype Input = Input(
    to: Phase,
    version: nat,
    cosigner: Option<User>,
    assignee: Option<User>,
    delivery: Option<Delivery>)

  predicate ExportIsReady(s: State, job: JobId, id: RequestId, now: int) {
    job in s.jobs && s.jobs[job].request == id && s.jobs[job].content.Some? && s.jobs[job].expires > now
  }

  function Assignee(input: Input, actor: User): User {
    if input.assignee.Some? then input.assignee.value else actor
  }

  /** Who may move the request where, and what that phase asks for. */
  function CheckMove(
    s: State, id: RequestId, request: Request, actor: User, input: Input, members: set<User>, now: int): Option<Failure>
  {
    match input.to
    case Submitted => if actor != request.requester then Some(PermissionDenied) else None
    case Rejected => if actor !in request.approvers then Some(PermissionDenied) else None
    case Approved =>
      if actor !in request.approvers then Some(PermissionDenied)
      else ValidateApproval(request.sensitivity, request.requester, actor, input.cosigner, members)
    case InProgress =>
      if actor !in request.approvers then Some(PermissionDenied)
      else if Assignee(input, actor) !in members then Some(InvalidRequest)
      else None
    case Delivered =>
      if request.assignee != Some(actor) && actor !in request.approvers then Some(PermissionDenied)
      else if input.delivery.Some? && input.delivery.value.OneTimeExport?
              && !ExportIsReady(s, input.delivery.value.job, id, now) then Some(ExportNotReady)
      else None
    case Closed => if actor != request.requester && actor !in request.approvers then Some(PermissionDenied) else None
    case Draft => None
  }

  function MovedRequest(request: Request, actor: User, input: Input, members: set<User>): Request {
    request.(
      phase := input.to,
      cosigner := if input.to == Approved then input.cosigner else request.cosigner,
      assignee := if input.to == InProgress then Some(Assignee(input, actor)) else request.assignee,
      delivery := if input.to == Delivered then input.delivery else request.delivery,
      version := request.version + 1,
      approval := if input.to == Approved then Some(Approval(actor, members)) else request.approval)
  }

  function Transition(s: State, id: RequestId, actor: User, input: Input, members: set<User>, now: int): Outcome {
    if id !in s.requests then Refused(NotFound)
    else
      var request := s.requests[id];
      var refusal := CheckMove(s, id, request, actor, input, members, now);
      if request.version != input.version then Refused(VersionConflict)
      else if !ValidTransition(request.phase, input.to) then Refused(InvalidTransition)
      else if refusal.Some? then Refused(refusal.value)
      else
        Done(Logged(s.(requests := s.requests[id := MovedRequest(request, actor, input, members)]), id, actor,
          Moved(Some(request.phase), input.to, request.version + 1)))
  }

  function HashOf(id: RequestId, request: Request): RequestHash {
    Sha256(id, request.fields, request.sensitivity)
  }

  predicate MayExport(request: Request, actor: User, fields: seq<Field>, sensitivity: Sensitivity) {
    && request.sensitivity == sensitivity && request.fields == fields
    && (request.phase == Approved || request.phase == InProgress)
    && (actor in request.approvers || request.assignee == Some(actor))
    && (RequiresSecurityCosign(request.sensitivity) ==> request.cosigner.Some?)
  }

  predicate IsEnqueued(s: State, id: RequestId, hash: RequestHash) {
    exists job | job in s.jobs :: s.jobs[job].request == id && s.jobs[job].hash == hash
  }

  /** A second enqueue of the same export finds the first; job names the new row otherwise. */
  function EnqueueControlledExport(
    s: State, id: RequestId, actor: User, fields: seq<Field>, sensitivity: Sensitivity, hash: RequestHash, expires: int,
    maximum: nat, job: JobId): Outcome
  {
    if maximum != MAX_DOWNLOADS then Refused(ExportInvalid)
    else if id !in s.requests then Refused(NotFound)
    else if !MayExport(s.requests[id], actor, fields, sensitivity) || hash != Sha256(id, fields, sensitivity)
    then Refused(ExportInvalid)
    else if IsEnqueued(s, id, hash) then Done(s)
    else if job in s.jobs then Refused(DuplicateKey)
    else
      Done(Logged(s.(jobs := s.jobs[job := Job(id, hash, expires, maximum, 0, None)]), id, actor, Enqueued(job)))
  }

  function MarkControlledExportReady(s: State, job: JobId, content: Content, now: int): Outcome {
    if content.storageKey == "" then Refused(ExportInvalid)
    else if job !in s.jobs || s.jobs[job].content.Some? || s.jobs[job].expires <= now then Refused(ExportNotReady)
    else Done(s.(jobs := s.jobs[job := s.jobs[job].(content := Some(content))]))
  }

  function AcquireControlledExportDownload(s: State, job: JobId, actor: User, now: int): Outcome {
    if job !in s.jobs then Refused(NotFound)
    else
      var row := s.jobs[job];
      if row.content.Some? && row.expires > now && row.downloads < row.maximum then
        Done(Logged(s.(jobs := s.jobs[job := row.(downloads := row.downloads + 1)]), row.request, actor,
          Downloaded(job, row.downloads + 1)))
      else
        var failure := ValidateControlledDownload(now, row.content.Some?, row.expires, row.downloads, row.maximum);
        if failure.Some? then Refused(failure.value) else Done(s)
  }

  /** The guard of the update and the check that explains its failure agree: a refused download always has a reason. */
  lemma RefusalsAreExplained(s: State, job: JobId, actor: User, now: int)
    requires job in s.jobs && s.jobs[job].maximum >= 1 && s.jobs[job].downloads <= s.jobs[job].maximum
    ensures var row := s.jobs[job];
            && (AcquireControlledExportDownload(s, job, actor, now).Done?
                <==> ValidateControlledDownload(now, row.content.Some?, row.expires, row.downloads, row.maximum).None?)
            && (AcquireControlledExportDownload(s, job, actor, now).Done? ==>
                  AcquireControlledExportDownload(s, job, actor, now).state.jobs[job].downloads == row.downloads + 1)
  {
  }
}
