/** What every run of data-request transactions keeps. */
module DataRequestRuns {
  import opened Prelude
  import opened DataRequests

  datatype Operation =
    | Open(id: RequestId, requester: User, fields: seq<Field>, sensitivity: Sensitivity, approvers: set<User>)
    | Move(id: RequestId, actor: User, input: Input, members: set<User>, now: int)
    | Enqueue(
        id: RequestId,
        actor: User,
        fields: seq<Field>,
        sensitivity: Sensitivity,
        hash: RequestHash,
        expires: int,
        maximum: nat,
        job: JobId)
    | MarkReady(job: JobId, content: Content, now: int)
    | Acquire(job: JobId, actor: User, now: int)

  function Result(s: State, op: Operation): Outcome {
    match op
    case Open(id, requester, fields, sensitivity, approvers) => Create(s, id, requester, fields, sensitivity, approvers)
    case Move(id, actor, input, members, now) => Transition(s, id, actor, input, members, now)
    case Enqueue(id, actor, fields, sensitivity, hash, expires, maximum, job) =>
      EnqueueControlledExport(s, id, actor, fields, sensitivity, hash, expires, maximum, job)
    case MarkReady(job, content, now) => MarkControlledExportReady(s, job, content, now)
    case Acquire(job, actor, now) => AcquireControlledExportDownload(s, job, actor, now)
  }

  function Step(s: State, op: Operation): State {
    match Result(s, op)
    case Done(r) => r
    case Refused(_) => s
  }

  // ---- Trails -----------------------------------------------------------------------------------------------------

  /** The moves among the events of a request. */
  function Trail(events: seq<Event>): seq<EventKind> {
    if events == [] then []
    else
      var last := events[|events| - 1].kind;
      Trail(events[..|events| - 1]) + (if last.Moved? then [last] else [])
  }

  /** The numbers of the downloads of a job among the events of its request. */
  function DownloadNumbers(events: seq<Event>, job: JobId): seq<nat> {
    if events == [] then []
    else
      var last := events[|events| - 1].kind;
      DownloadNumbers(events[..|events| - 1], job) + (if last.Downloaded? && last.job == job then [last.number] else [])
  }

  function UpTo(n: nat): seq<nat> {
    seq(n, i requires 0 <= i < n => i + 1)
  }

  ghost predicate AuditsRunOn(events: seq<Event>) {
    forall k | 0 <= k < |events| :: events[k].auditNo == k + 1
  }

  lemma {:induction false} GreatestIsLast(events: seq<Event>)
    requires AuditsRunOn(events)
    ensures MaxAudit(events) == |events|
  {
    if events != [] {
      GreatestIsLast(events[..|events| - 1]);
    }
  }

  /**
   * A trail starts with the draft, uses each version once, follows
   * the allowed transitions and ends where the request is.
   */
  ghost predicate TrailIsSound(trail: seq<EventKind>, request: Request) {
    && |trail| == request.version && |trail| > 0 && trail[0] == Moved(None, Draft, 1)
    && (forall k | 0 <= k < |trail| :: trail[k].Moved? && trail[k].sequence == k + 1)
    && (forall k | 0 < k < |trail| ::
          trail[k].from == Some(trail[k - 1].to) && ValidTransition(trail[k - 1].to, trail[k].to))
    && trail[|trail| - 1].to == request.phase
  }

  predicate PastApproval(phase: Phase) {
    phase == Approved || phase == InProgress || phase == Delivered || phase == Closed
  }

  /**
   * Past approval, a sensitive request has a cosigner apart from requester and approver, a member when it was approved.
   */
  ghost predicate CosignIsIndependent(request: Request) {
    PastApproval(request.phase) ==>
      && request.approval.Some? && request.approval.value.approver in request.approvers
      && (RequiresSecurityCosign(request.sensitivity) ==> request.cosigner.Some?)
      && (request.cosigner.Some? ==>
            && request.cosigner.value != request.requester && request.cosigner.value != request.approval.value.approver
            && request.cosigner.value in request.approval.value.members)
  }

  ghost predicate RequestIsSound(s: State, id: RequestId)
    requires id in s.requests && id in s.events
  {
    AuditsRunOn(s.events[id]) && TrailIsSound(Trail(s.events[id]), s.requests[id])
        && CosignIsIndependent(s.requests[id])
  }

  ghost predicate JobIsSound(s: State, job: JobId)
    requires job in s.jobs
  {
    var row := s.jobs[job];
    && row.request in s.requests && row.request in s.events
    && row.hash == HashOf(row.request, s.requests[row.request])
    && row.downloads <= row.maximum == MAX_DOWNLOADS && (row.content.None? ==> row.downloads == 0)
    && DownloadNumbers(s.events[row.request], job) == UpTo(row.downloads)
  }

  /** Events name known jobs of their own request. */
  ghost predicate EventsAreKnown(s: State) {
    forall id | id in s.events :: NamesOwnJobs(s.jobs, id, s.events[id])
  }

  ghost predicate NamesOwnJobs(jobs: map<JobId, Job>, id: RequestId, events: seq<Event>) {
    forall k | 0 <= k < |events| && events[k].kind.Downloaded? ::
      events[k].kind.job in jobs && jobs[events[k].kind.job].request == id
  }

  ghost predicate OneExportEach(s: State) {
    forall job, other | job in s.jobs && other in s.jobs && s.jobs[job].request == s.jobs[other].request :: job == other
  }

  ghost predicate Invariant(s: State) {
    && s.events.Keys == s.requests.Keys
    && (forall id | id in s.requests :: RequestIsSound(s, id))
    && (forall job | job in s.jobs :: JobIsSound(s, job))
    && EventsAreKnown(s) && OneExportEach(s)
  }

  // ---- Steps ------------------------------------------------------------------------------------------------------

  lemma LoggedEvents(s: State, id: RequestId, actor: User, kind: EventKind)
    requires id in s.events && AuditsRunOn(s.events[id])
    ensures var after := Logged(s, id, actor, kind).events[id];
            && after == s.events[id] + [Event(|s.events[id]| + 1, actor, kind)] && AuditsRunOn(after)
            && Trail(after) == Trail(s.events[id]) + (if kind.Moved? then [kind] else [])
            && (forall job :: DownloadNumbers(after, job)
                  == DownloadNumbers(s.events[id], job)
                     + (if kind.Downloaded? && kind.job == job then [kind.number] else []))
  {
    GreatestIsLast(s.events[id]);
    var after := Logged(s, id, actor, kind).events[id];
    assert after[..|after| - 1] == s.events[id];
  }

  lemma {:induction false} UnknownJobsHaveNoDownloads(events: seq<Event>, job: JobId)
    requires forall k | 0 <= k < |events| :: !(events[k].kind.Downloaded? && events[k].kind.job == job)
    ensures DownloadNumbers(events, job) == []
  {
    if events != [] {
      UnknownJobsHaveNoDownloads(events[..|events| - 1], job);
    }
  }

  lemma MoveKeepsTrail(request: Request, trail: seq<EventKind>, actor: User, input: Input, members: set<User>)
    requires TrailIsSound(trail, request) && ValidTransition(request.phase, input.to)
    ensures TrailIsSound(
              trail + [Moved(Some(request.phase), input.to, request.version + 1)],
              MovedRequest(request, actor, input, members))
  {
  }

  lemma MoveKeepsCosign(
    s: State, id: RequestId, request: Request, actor: User, input: Input, members: set<User>, now: int)
    requires CosignIsIndependent(request) && ValidTransition(request.phase, input.to)
    requires CheckMove(s, id, request, actor, input, members, now).None?
    ensures CosignIsIndependent(MovedRequest(request, actor, input, members))
  {
  }

  /** A step that rewrites one request and its events, but none of their downloads. */
  ghost predicate ChangesRequest(s: State, r: State, id: RequestId) {
    && id in r.requests && id in r.events && r.jobs == s.jobs
    && r.requests == s.requests[id := r.requests[id]] && r.events == s.events[id := r.events[id]]
    && RequestIsSound(r, id) && NamesOwnJobs(r.jobs, id, r.events[id])
    && (id in s.requests && id in s.events ==>
          && HashOf(id, r.requests[id]) == HashOf(id, s.requests[id])
          && forall job :: DownloadNumbers(r.events[id], job) == DownloadNumbers(s.events[id], job))
  }

  lemma RequestChangeKeepsInvariant(s: State, r: State, id: RequestId)
    requires Invariant(s) && ChangesRequest(s, r, id)
    ensures Invariant(r)
  {
    forall other | other in r.requests ensures RequestIsSound(r, other) {
      assert other != id ==> RequestIsSound(s, other);
    }
    forall job | job in r.jobs ensures JobIsSound(r, job) {
      assert JobIsSound(s, job);
    }
  }

  /** A step that rewrites one job, and logs at most to its request. */
  ghost predicate ChangesJob(s: State, r: State, job: JobId) {
    && job in r.jobs && r.jobs == s.jobs[job := r.jobs[job]] && r.requests == s.requests
    && var id := r.jobs[job].request;
    && id in s.events && id in r.events && r.events == s.events[id := r.events[id]]
    && AuditsRunOn(r.events[id]) && Trail(r.events[id]) == Trail(s.events[id])
    && JobIsSound(r, job) && NamesOwnJobs(r.jobs, id, r.events[id])
    && (job in s.jobs ==> s.jobs[job].request == id)
    && (forall other | other != job :: DownloadNumbers(r.events[id], other) == DownloadNumbers(s.events[id], other))
    && (forall other | other in s.jobs && other != job :: s.jobs[other].request != id)
  }

  lemma JobChangeKeepsJobs(s: State, r: State, job: JobId)
    requires Invariant(s) && ChangesJob(s, r, job)
    ensures forall other | other in r.jobs :: JobIsSound(r, other)
    ensures OneExportEach(r)
  {
    forall other | other in r.jobs ensures JobIsSound(r, other) {
      assert other != job ==> JobIsSound(s, other);
    }
  }

  lemma JobChangeKeepsRequests(s: State, r: State, job: JobId)
    requires s.events.Keys == s.requests.Keys && ChangesJob(s, r, job)
    requires forall id | id in s.requests :: RequestIsSound(s, id)
    ensures r.events.Keys == r.requests.Keys && forall id | id in r.requests :: RequestIsSound(r, id)
  {
    assert r.jobs[job].request in s.events;
    forall id | id in r.requests ensures RequestIsSound(r, id) {
      assert RequestIsSound(s, id);
    }
  }

  lemma JobChangeKeepsEvents(s: State, r: State, job: JobId)
    requires EventsAreKnown(s) && ChangesJob(s, r, job)
    ensures EventsAreKnown(r)
  {
    forall id | id in r.events ensures NamesOwnJobs(r.jobs, id, r.events[id]) {
      if id != r.jobs[job].request {
        assert NamesOwnJobs(s.jobs, id, s.events[id]);
      }
    }
  }

  lemma JobChangeKeepsInvariant(s: State, r: State, job: JobId)
    requires Invariant(s) && ChangesJob(s, r, job)
    ensures Invariant(r)
  {
    assert (forall other | other in r.jobs :: JobIsSound(r, other)) && OneExportEach(r) by {
      JobChangeKeepsJobs(s, r, job);
    }
    assert r.events.Keys == r.requests.Keys && forall id | id in r.requests :: RequestIsSound(r, id) by {
      JobChangeKeepsRequests(s, r, job);
    }
    JobChangeKeepsEvents(s, r, job);
  }

  lemma OpeningChangesRequest(s: State, op: Operation)
    requires s.events.Keys == s.requests.Keys && op.Open? && Result(s, op).Done?
    ensures ChangesRequest(s, Step(s, op), op.id)
  {
    var event := Event(1, op.requester, Moved(None, Draft, 1));
    assert Step(s, op).events[op.id] == [event];
    assert [event][..0] == [];
    assert Trail([event]) == [event.kind];
  }

  lemma MovingChangesRequest(s: State, op: Operation)
    requires op.Move? && Result(s, op).Done? && op.id in s.events && RequestIsSound(s, op.id)
    requires NamesOwnJobs(s.jobs, op.id, s.events[op.id])
    ensures ChangesRequest(s, Step(s, op), op.id)
  {
    var request := s.requests[op.id];
    LoggedEvents(s, op.id, op.actor, Moved(Some(request.phase), op.input.to, request.version + 1));
    MoveKeepsTrail(request, Trail(s.events[op.id]), op.actor, op.input, op.members);
    MoveKeepsCosign(s, op.id, request, op.actor, op.input, op.members, op.now);
  }

  lemma EnqueuingChangesJob(s: State, op: Operation)
    requires op.Enqueue? && Result(s, op).Done? && !IsEnqueued(s, op.id, op.hash)
    requires op.id in s.events && AuditsRunOn(s.events[op.id]) && NamesOwnJobs(s.jobs, op.id, s.events[op.id])
    requires forall job | job in s.jobs && s.jobs[job].request == op.id :: s.jobs[job].hash == op.hash
    ensures ChangesJob(s, Step(s, op), op.job)
  {
    LoggedEvents(s, op.id, op.actor, Enqueued(op.job));
    UnknownJobsHaveNoDownloads(s.events[op.id], op.job);
    assert UpTo(0) == [];
  }

  lemma EnqueueKeepsInvariant(s: State, op: Operation)
    requires Invariant(s) && op.Enqueue? && Result(s, op).Done? && !IsEnqueued(s, op.id, op.hash)
    ensures Invariant(Step(s, op))
  {
    forall job | job in s.jobs && s.jobs[job].request == op.id ensures s.jobs[job].hash == op.hash {
      assert JobIsSound(s, job);
    }
    assert RequestIsSound(s, op.id);
    EnqueuingChangesJob(s, op);
    JobChangeKeepsInvariant(s, Step(s, op), op.job);
  }

  lemma MarkingChangesJob(s: State, op: Operation)
    requires op.MarkReady? && Result(s, op).Done? && op.job in s.jobs && JobIsSound(s, op.job) && OneExportEach(s)
    requires AuditsRunOn(s.events[s.jobs[op.job].request])
    requires NamesOwnJobs(s.jobs, s.jobs[op.job].request, s.events[s.jobs[op.job].request])
    ensures ChangesJob(s, Step(s, op), op.job)
  {
  }

  lemma AcquiringChangesJob(s: State, op: Operation)
    requires op.Acquire? && Result(s, op).Done? && op.job in s.jobs && JobIsSound(s, op.job) && OneExportEach(s)
    requires AuditsRunOn(s.events[s.jobs[op.job].request])
    requires NamesOwnJobs(s.jobs, s.jobs[op.job].request, s.events[s.jobs[op.job].request])
    ensures ChangesJob(s, Step(s, op), op.job)
  {
    var row := s.jobs[op.job];
    RefusalsAreExplained(s, op.job, op.actor, op.now);
    LoggedEvents(s, row.request, op.actor, Downloaded(op.job, row.downloads + 1));
    assert UpTo(row.downloads) + [row.downloads + 1] == UpTo(row.downloads + 1);
  }

  lemma StepKeepsInvariant(s: State, op: Operation)
    requires Invariant(s)
    ensures Invariant(Step(s, op))
  {
    if Result(s, op).Done? {
      match op
      case Open(id, _, _, _, _) =>
        OpeningChangesRequest(s, op);
        RequestChangeKeepsInvariant(s, Step(s, op), id);
      case Move(id, _, _, _, _) =>
        assert RequestIsSound(s, id);
        MovingChangesRequest(s, op);
        RequestChangeKeepsInvariant(s, Step(s, op), id);
      case Enqueue(_, _, _, _, _, _, _, _) =>
        if !IsEnqueued(s, op.id, op.hash) {
          EnqueueKeepsInvariant(s, op);
        }
      case MarkReady(job, _, _) =>
        assert JobIsSound(s, job) && RequestIsSound(s, s.jobs[job].request);
        MarkingChangesJob(s, op);
        JobChangeKeepsInvariant(s, Step(s, op), job);
      case Acquire(job, _, _) =>
        assert JobIsSound(s, job) && RequestIsSound(s, s.jobs[job].request);
        AcquiringChangesJob(s, op);
        JobChangeKeepsInvariant(s, Step(s, op), job);
    }
  }

  // ---- Entitlement ------------------------------------------------------------------------------------------------

  /** Who may bring a request into a phase. */
  predicate IsEntitled(request: Request, actor: User, to: Phase) {
    match to
    case Draft => false
    case Submitted => actor == request.requester
    case Approved => actor in request.approvers
    case Rejected => actor in request.approvers
    case InProgress => actor in request.approvers
    case Delivered => actor in request.approvers || request.assignee == Some(actor)
    case Closed => actor in request.approvers || actor == request.requester
  }

  /** The security cosign of an approval: asked for by the sensitivity, and valid wherever one is given. */
  predicate CosignIsValid(request: Request, actor: User, cosigner: Option<User>, members: set<User>) {
    && (cosigner.None? ==> !RequiresSecurityCosign(request.sensitivity))
    && (cosigner.Some? ==> cosigner.value !in {request.requester, actor} && cosigner.value in members)
  }

  /** A move succeeds exactly from the present version along the workflow, by somebody entitled, with what it needs. */
  lemma MovesNeedEntitlement(s: State, op: Operation)
    requires op.Move?
    ensures Result(s, op).Done? <==>
              && op.id in s.requests
              && var request, input := s.requests[op.id], op.input;
                 && request.version == input.version && ValidTransition(request.phase, input.to)
                 && IsEntitled(request, op.actor, input.to)
                 && (input.to == Approved ==> CosignIsValid(request, op.actor, input.cosigner, op.members))
                 && (input.to == InProgress ==> Assignee(input, op.actor) in op.members)
                 && (input.to == Delivered && input.delivery.Some? && input.delivery.value.OneTimeExport? ==>
                       ExportIsReady(s, input.delivery.value.job, op.id, op.now))
  {
  }

  /** The event logs the move of somebody entitled to it at that moment. */
  ghost predicate EntitledThen(s: State, id: RequestId, k: nat, event: Event) {
    && id in s.requests && id in s.events && |s.events[id]| == k && event.kind.Moved?
    && event.kind.from == Some(s.requests[id].phase)
    && IsEntitled(s.requests[id], event.actor, event.kind.to)
  }

  predicate IsLaterMove(event: Event) {
    event.kind.Moved? && event.kind.from.Some?
  }

  lemma MoveIsLogged(s: State, op: Operation, id: RequestId, k: nat)
    requires op.Move? && Result(s, op).Done? && s.events.Keys == s.requests.Keys
    requires id in Step(s, op).events && k < |Step(s, op).events[id]|
    requires id in s.events ==> |s.events[id]| <= k
    ensures EntitledThen(s, id, k, Step(s, op).events[id][k])
  {
    MovesNeedEntitlement(s, op);
  }

  lemma NewMovesAreEntitled(s: State, op: Operation, id: RequestId, k: nat)
    requires s.events.Keys == s.requests.Keys
    requires id in Step(s, op).events && k < |Step(s, op).events[id]| && IsLaterMove(Step(s, op).events[id][k])
    requires id in s.events ==> |s.events[id]| <= k
    ensures EntitledThen(s, id, k, Step(s, op).events[id][k])
  {
    if op.Move? && Result(s, op).Done? {
      MoveIsLogged(s, op, id, k);
    }
  }

  lemma EventsStay(s: State, op: Operation, id: RequestId, k: nat)
    requires s.events.Keys == s.requests.Keys && id in s.events && k < |s.events[id]|
    ensures id in Step(s, op).events && k < |Step(s, op).events[id]| && Step(s, op).events[id][k] == s.events[id][k]
  {
  }

  // ---- Runs -------------------------------------------------------------------------------------------------------

  ghost predicate Follow(s: State, r: State) {
    exists op :: r == Step(s, op)
  }

  ghost predicate StepAt(run: seq<State>, i: nat)
    requires i + 1 < |run|
  {
    Follow(run[i], run[i + 1])
  }

  ghost predicate IsRun(run: seq<State>) {
    |run| > 0 && run[0] == State(map[], map[], map[]) && forall i: nat | i + 1 < |run| :: StepAt(run, i)
  }

  lemma FollowKeepsInvariant(s: State, r: State)
    requires Invariant(s) && Follow(s, r)
    ensures Invariant(r)
  {
    var op :| r == Step(s, op);
    StepKeepsInvariant(s, op);
  }

  lemma {:induction false} RunKeepsInvariant(run: seq<State>, i: nat)
    requires IsRun(run) && i < |run|
    ensures Invariant(run[i])
  {
    if i > 0 {
      RunKeepsInvariant(run, i - 1);
      assert StepAt(run, i - 1);
      FollowKeepsInvariant(run[i - 1], run[i]);
    }
  }

  /** The version counts the moves, each version is used by one move, and the moves lead through allowed transitions. */
  lemma VersionsCountMoves(run: seq<State>, i: nat, id: RequestId)
    requires IsRun(run) && i < |run| && id in run[i].requests
    ensures id in run[i].events
    ensures var trail, request := Trail(run[i].events[id]), run[i].requests[id];
            && request.version - 1 == |trail| - 1 >= 0
            && (forall k | 0 <= k < |trail| :: trail[k].Moved? && trail[k].sequence == k + 1)
            && (forall k | 0 < k < |trail| ::
                  trail[k].from == Some(trail[k - 1].to) && ValidTransition(trail[k - 1].to, trail[k].to))
            && trail[0].to == Draft && trail[|trail| - 1].to == request.phase
    ensures forall k | 0 <= k < |run[i].events[id]| :: run[i].events[id][k].auditNo == k + 1
  {
    RunKeepsInvariant(run, i);
    assert RequestIsSound(run[i], id);
  }

  /** A sensitive request past approval was cosigned by an active member other than its requester and its approver. */
  lemma SensitiveRequestsAreCosigned(run: seq<State>, i: nat, id: RequestId)
    requires IsRun(run) && i < |run| && id in run[i].requests
    requires PastApproval(run[i].requests[id].phase) && RequiresSecurityCosign(run[i].requests[id].sensitivity)
    ensures var request := run[i].requests[id];
            && request.approval.Some? && request.cosigner.Some?
            && request.cosigner.value != request.requester
            && request.cosigner.value != request.approval.value.approver
            && request.cosigner.value in request.approval.value.members
            && request.approval.value.approver in request.approvers
  {
    RunKeepsInvariant(run, i);
    assert RequestIsSound(run[i], id);
  }

  /** A job never grants more downloads than its maximum, and each grant has its own numbered audit event. */
  lemma DownloadsAreBoundedAndAudited(run: seq<State>, i: nat, job: JobId)
    requires IsRun(run) && i < |run| && job in run[i].jobs
    ensures var row := run[i].jobs[job];
            && row.downloads <= row.maximum == MAX_DOWNLOADS
            && row.request in run[i].events && DownloadNumbers(run[i].events[row.request], job) == UpTo(row.downloads)
    ensures forall other | other in run[i].jobs && run[i].jobs[other].request == run[i].jobs[job].request ::
              other == job
  {
    RunKeepsInvariant(run, i);
    assert JobIsSound(run[i], job);
  }

  lemma MoveWasThereOrIsNew(s: State, r: State, id: RequestId, k: nat)
    requires s.events.Keys == s.requests.Keys && Follow(s, r)
    requires id in r.events && k < |r.events[id]| && IsLaterMove(r.events[id][k])
    ensures (id in s.events && k < |s.events[id]| && s.events[id][k] == r.events[id][k])
         || EntitledThen(s, id, k, r.events[id][k])
  {
    var op :| r == Step(s, op);
    if id in s.events && k < |s.events[id]| {
      EventsStay(s, op, id, k);
    } else {
      NewMovesAreEntitled(s, op, id, k);
    }
  }

  /** Every move in the log of every state was made at some earlier moment by somebody entitled to it then. */
  lemma {:induction false} MovesWereEntitled(run: seq<State>, i: nat, id: RequestId, k: nat) returns (j: nat)
    requires IsRun(run) && i < |run| && id in run[i].events && k < |run[i].events[id]|
    requires IsLaterMove(run[i].events[id][k])
    ensures j < i && EntitledThen(run[j], id, k, run[i].events[id][k])
  {
    RunKeepsInvariant(run, i - 1);
    assert StepAt(run, i - 1);
    MoveWasThereOrIsNew(run[i - 1], run[i], id, k);
    if EntitledThen(run[i - 1], id, k, run[i].events[id][k]) {
      j := i - 1;
    } else {
      j := MovesWereEntitled(run, i - 1, id, k);
    }
  }

  lemma VersionsOnlyGrow(s: State, r: State, id: RequestId)
    requires id in s.requests && Follow(s, r)
    ensures id in r.requests && r.requests[id].version >= s.requests[id].version
  {
    var op :| r == Step(s, op);
  }

  lemma {:induction false} VersionsGrowAlongRuns(run: seq<State>, i: nat, j: nat, id: RequestId)
    requires IsRun(run) && i <= j < |run| && id in run[i].requests
    ensures id in run[j].requests && run[j].requests[id].version >= run[i].requests[id].version
  {
    if i < j {
      VersionsGrowAlongRuns(run, i, j - 1, id);
      assert StepAt(run, j - 1);
      VersionsOnlyGrow(run[j - 1], run[j], id);
    }
  }

  /** Once a move has used a version, every other move that names it is refused, however much later it comes. */
  lemma VersionsAreConsumedOnce(run: seq<State>, i: nat, op: Operation, j: nat, other: Operation)
    requires IsRun(run) && i < j < |run| && op.Move? && Result(run[i], op) == Done(run[i + 1])
    requires other.Move? && other.id == op.id && other.input.version == op.input.version
    ensures Result(run[j], other) == Refused(VersionConflict)
  {
    VersionsGrowAlongRuns(run, i + 1, j, op.id);
  }
}
