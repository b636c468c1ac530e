/** The store of data requests: each method is one transaction, and a refused one changes nothing. */
module DataRequestStore {
  import opened Prelude
  import opened DataRequests
  import opened DataRequestRuns

  class Store {
    var requests: map<RequestId, Request>
    var jobs: map<JobId, Job>
    var events: map<RequestId, seq<Event>>

    ghost function View(): State
      reads this
    {
      State(requests, jobs, events)
    }

    /** The invariant of every run: the theorems about runs hold of each state the store goes through. */
    ghost predicate Valid()
      reads this
    {
      Invariant(View())
    }

    constructor ()
      ensures Valid() && View() == State(map[], map[], map[])
    {
      requests, jobs, events := map[], map[], map[];
    }

    method InsertEvent(id: RequestId, actor: User, kind: EventKind)
      modifies this`events
      ensures View() == Logged(old(View()), id, actor, kind)
    {
      var logged := if id in events then events[id] else [];
      var greatest := 0;
      for i := 0 to |logged|
        invariant greatest == MaxAudit(logged[..i])
      {
        assert logged[..i + 1][..i] == logged[..i];
        if logged[i].auditNo > greatest {
          greatest := logged[i].auditNo;
        }
      }
      assert logged[..|logged|] == logged;
      events := events[id := logged + [Event(greatest + 1, actor, kind)]];
    }

    method Create(id: RequestId, requester: User, fields: seq<Field>, sensitivity: Sensitivity, approvers: set<User>)
      returns (failure: Option<Failure>)
      requires Valid()
      modifies `requests, `events
      ensures Valid()
      ensures Reports(old(View()), Open(id, requester, fields, sensitivity, approvers), failure, View())
      ensures failure.None? ==> IsDraft(View(), id, requester) && WaitsForRequester(View(), id, requester)
      ensures OtherRequestsStay(old(View()), View(), id)
    {
      ghost var before, op := View(), Open(id, requester, fields, sensitivity, approvers);
      failure := InsertDraft(id, requester, fields, sensitivity, approvers);
      StepsKeepInvariant(before, View(), op);
      DraftsAreTheRequesters(before, View(), op, failure.None?);
    }

    method InsertDraft(
      id: RequestId, requester: User, fields: seq<Field>, sensitivity: Sensitivity, approvers: set<User>)
      returns (failure: Option<Failure>)
      modifies `requests, `events
      ensures Reports(old(View()), Open(id, requester, fields, sensitivity, approvers), failure, View())
    {
      if approvers == {} {
        return Some(ApproverUnavailable);
      }
      if id in requests {
        return Some(DuplicateKey);
      }
      requests := requests[id := Request(requester, fields, sensitivity, Draft, approvers, None, None, None, 1, None)];
      InsertEvent(id, requester, Moved(None, Draft, 1));
      failure := None;
    }

    method Transition(id: RequestId, actor: User, input: Input, members: set<User>, now: int)
      returns (failure: Option<Failure>)
      requires Valid()
      modifies `requests, `events
      ensures Valid()
      ensures Reports(old(View()), Move(id, actor, input, members, now), failure, View())
      ensures failure == Some(VersionConflict) <==> id in old(requests) && old(requests)[id].version != input.version
      ensures failure.None? ==> MovedOnce(old(View()), View(), id, actor, input, members)
      ensures failure.None? ==> forall op: Operation | op.Move? && op.id == id && op.input.version == input.version ::
                Result(View(), op) == Refused(VersionConflict)
      ensures OtherRequestsStay(old(View()), View(), id)
    {
      ghost var before, op := View(), Move(id, actor, input, members, now);
      if id !in requests {
        return Some(NotFound);
      }
      var current := requests[id];
      if current.version != input.version {
        return Some(VersionConflict);
      }
      if !ValidTransition(current.phase, input.to) {
        return Some(InvalidTransition);
      }
      failure := CheckMove(State(requests, jobs, events), id, current, actor, input, members, now);
      if failure.Some? {
        ChecksNameNoConflict(before, id, current, actor, input, members, now);
        return;
      }
      requests := requests[id := MovedRequest(current, actor, input, members)];
      InsertEvent(id, actor, Moved(Some(current.phase), input.to, requests[id].version));
      StepsKeepInvariant(before, View(), op);
      MovesAreLogged(before, View(), op);
    }

    method EnqueueControlledExport(
      id: RequestId, actor: User, fields: seq<Field>, sensitivity: Sensitivity, hash: RequestHash, expires: int,
      maximum: nat, job: JobId)
      returns (failure: Option<Failure>)
      requires Valid()
      modifies `jobs, `events
      ensures Valid()
      ensures Reports(
                old(View()), Enqueue(id, actor, fields, sensitivity, hash, expires, maximum, job), failure, View())
      ensures failure.None? ==> HasOneExport(View(), id)
      ensures failure.None? && HasOneExport(old(View()), id) ==> View() == old(View())
      ensures failure.None? && !HasOneExport(old(View()), id) ==> EnqueuedOnce(old(View()), View(), id, actor, job)
    {
      ghost var before, op := View(), Enqueue(id, actor, fields, sensitivity, hash, expires, maximum, job);
      if maximum != MAX_DOWNLOADS {
        return Some(ExportInvalid);
      }
      if id !in requests {
        return Some(NotFound);
      }
      if !MayExport(requests[id], actor, fields, sensitivity) || hash != Sha256(id, fields, sensitivity) {
        return Some(ExportInvalid);
      }
      ExportsAreFoundByHash(before, id);
      if IsEnqueued(State(requests, jobs, events), id, hash) {
        return None;
      }
      if job in jobs {
        return Some(DuplicateKey);
      }
      jobs := jobs[job := Job(id, hash, expires, maximum, 0, None)];
      InsertEvent(id, actor, Enqueued(job));
      failure := None;
      StepsKeepInvariant(before, View(), op);
      OneExport(View(), job);
      ExportsAreLogged(before, View(), op);
    }

    method MarkControlledExportReady(job: JobId, content: Content, now: int) returns (failure: Option<Failure>)
      requires Valid()
      modifies `jobs
      ensures Valid()
      ensures Reports(old(View()), MarkReady(job, content, now), failure, View())
      ensures failure.None? ==> OpensDownloads(old(View()), View(), job)
      ensures OtherJobsStay(old(View()), View(), job)
    {
      ghost var before, op := View(), MarkReady(job, content, now);
      if |content.storageKey| == 0 {
        return Some(ExportInvalid);
      }
      if job !in jobs || jobs[job].content.Some? || jobs[job].expires <= now {
        return Some(ExportNotReady);
      }
      jobs := jobs[job := jobs[job].(content := Some(content))];
      failure := None;
      StepsKeepInvariant(before, View(), op);
      assert JobIsSound(before, job);
      ReadinessOpensDownloads(before, View(), op);
    }

    method AcquireControlledExportDownload(job: JobId, actor: User, now: int) returns (failure: Option<Failure>)
      requires Valid()
      modifies `jobs, `events
      ensures Valid()
      ensures Reports(old(View()), Acquire(job, actor, now), failure, View())
      ensures failure.None? <==> IsDownloadable(old(View()), job, now)
      ensures failure.None? ==> DownloadedOnce(old(View()), View(), job, actor)
      ensures OtherJobsStay(old(View()), View(), job)
    {
      ghost var before, op := View(), Acquire(job, actor, now);
      failure := CountDownload(job, actor, now);
      StepsKeepInvariant(before, View(), op);
      DownloadsAreLogged(before, View(), op, failure.None?);
    }

    method CountDownload(job: JobId, actor: User, now: int) returns (failure: Option<Failure>)
      modifies `jobs, `events
      ensures Reports(old(View()), Acquire(job, actor, now), failure, View())
    {
      if job !in jobs {
        return Some(NotFound);
      }
      var row := jobs[job];
      if row.content.None? || row.expires <= now || row.downloads >= row.maximum {
        return ValidateControlledDownload(now, row.content.Some?, row.expires, row.downloads, row.maximum);
      }
      jobs := jobs[job := row.(downloads := row.downloads + 1)];
      InsertEvent(row.request, actor, Downloaded(job, row.downloads + 1));
      failure := None;
    }
  }

  /** What a call reports is the result of its operation, and a refusal leaves everything as it was. */
  ghost predicate Reports(s: State, op: Operation, failure: Option<Failure>, r: State) {
    Result(s, op) == (if failure.None? then Done(r) else Refused(failure.value)) && (failure.Some? ==> r == s)
  }

  ghost predicate OtherRequestsStay(s: State, r: State, id: RequestId) {
    forall other | other in s.requests && other != id ::
      other in r.requests && r.requests[other] == s.requests[other]
      && other in r.events && other in s.events && r.events[other] == s.events[other]
  }

  ghost predicate IsDraft(s: State, id: RequestId, requester: User) {
    && id in s.requests && s.requests[id].phase == Draft && s.requests[id].version == 1
    && s.requests[id].requester == requester
    && id in s.events && s.events[id] == [Event(1, requester, Moved(None, Draft, 1))]
  }

  /** Only the requester can move the request, only to submit it, and nobody can export. */
  ghost predicate WaitsForRequester(s: State, id: RequestId, requester: User) {
    && (forall op: Operation | op.Move? && op.id == id && Result(s, op).Done? ::
          op.actor == requester && op.input.to == Submitted)
    && (forall op: Operation | op.Enqueue? && op.id == id :: Result(s, op).Refused?)
  }

  /**
   * One version on, one allowed transition by somebody entitled to it, one event numbered for both, and the assignee,
   * delivery and cosigner of the moment; approval has an independent cosigner.
   */
  ghost predicate MovedOnce(s: State, r: State, id: RequestId, actor: User, input: Input, members: set<User>) {
    && id in s.requests && id in r.requests && id in s.events && id in r.events
    && var was, next := s.requests[id], r.requests[id];
    && next.version == was.version + 1 == input.version + 1
    && ValidTransition(was.phase, next.phase) && next.phase == input.to
    && r.events[id]
       == s.events[id] + [Event(|s.events[id]| + 1, actor, Moved(Some(was.phase), next.phase, next.version))]
    && Trail(r.events[id]) == Trail(s.events[id]) + [Moved(Some(was.phase), next.phase, next.version)]
    && next.requester == was.requester && next.fields == was.fields && next.sensitivity == was.sensitivity
    && next.approvers == was.approvers && IsEntitled(was, actor, next.phase)
    && next.assignee == (if next.phase != InProgress then was.assignee else Some(Assignee(input, actor)))
    && (next.phase == InProgress ==> next.assignee.Some? && next.assignee.value in members)
    && next.delivery == (if next.phase == Delivered then input.delivery else was.delivery)
    && next.cosigner == (if next.phase == Approved then input.cosigner else was.cosigner)
    && (next.phase == Approved && RequiresSecurityCosign(next.sensitivity) ==>
          && next.cosigner.Some? && next.cosigner.value in members
          && next.cosigner.value != next.requester && next.cosigner.value != actor)
  }

  ghost predicate HasOneExport(s: State, id: RequestId) {
    exists job | job in s.jobs && s.jobs[job].request == id ::
      forall other | other in s.jobs && s.jobs[other].request == id :: other == job
  }

  /** A fresh job for someone who may export, cosigned where that is asked for, and one event; no other job changes. */
  ghost predicate EnqueuedOnce(s: State, r: State, id: RequestId, actor: User, job: JobId) {
    && job !in s.jobs && job in r.jobs && r.jobs == s.jobs[job := r.jobs[job]]
    && r.jobs[job].request == id && r.jobs[job].content.None? && r.jobs[job].downloads == 0
    && id in s.events && id in r.events
    && r.events[id] == s.events[id] + [Event(|s.events[id]| + 1, actor, Enqueued(job))]
    && id in r.requests && PastApproval(r.requests[id].phase)
    && (RequiresSecurityCosign(r.requests[id].sensitivity) ==> r.requests[id].cosigner.Some?)
  }

  ghost predicate OtherJobsStay(s: State, r: State, job: JobId) {
    forall other | other in s.jobs && other != job :: other in r.jobs && r.jobs[other] == s.jobs[other]
  }

  ghost predicate IsDownloadable(s: State, job: JobId, now: int) {
    job in s.jobs && s.jobs[job].content.Some? && now < s.jobs[job].expires && s.jobs[job].downloads < MAX_DOWNLOADS
  }

  /** Before, nobody could download; now anybody can until the job expires, and it cannot be marked again. */
  ghost predicate OpensDownloads(s: State, r: State, job: JobId) {
    && job in r.jobs
    && (forall op: Operation | op.Acquire? && op.job == job ::
          Result(s, op).Refused? && (Result(r, op).Done? <==> op.now < r.jobs[job].expires))
    && (forall op: Operation | op.MarkReady? && op.job == job :: Result(r, op).Refused?)
  }

  /** One download more, still within the limit, with the same content and one event numbered for it. */
  ghost predicate DownloadedOnce(s: State, r: State, job: JobId, actor: User) {
    && job in s.jobs && job in r.jobs
    && var was, next := s.jobs[job], r.jobs[job];
    && next == was.(downloads := was.downloads + 1) && next.downloads <= MAX_DOWNLOADS
    && next.request in s.events && next.request in r.events
    && r.events[next.request]
       == s.events[next.request] + [Event(|s.events[next.request]| + 1, actor, Downloaded(job, next.downloads))]
    && DownloadNumbers(r.events[next.request], job) == UpTo(next.downloads)
  }

  lemma StepsKeepInvariant(s: State, r: State, op: Operation)
    requires Invariant(s) && r == Step(s, op)
    ensures Invariant(r)
  {
    StepKeepsInvariant(s, op);
  }

  lemma DraftsAreTheRequesters(s: State, r: State, op: Operation, created: bool)
    requires s.events.Keys == s.requests.Keys && op.Open? && r == Step(s, op) && created == Result(s, op).Done?
    ensures created ==> IsDraft(r, op.id, op.requester) && WaitsForRequester(r, op.id, op.requester)
    ensures OtherRequestsStay(s, r, op.id)
  {
  }

  lemma ChecksNameNoConflict(
    s: State, id: RequestId, request: Request, actor: User, input: Input, members: set<User>, now: int)
    ensures CheckMove(s, id, request, actor, input, members, now) != Some(VersionConflict)
  {
  }

  lemma MovesAreLogged(s: State, r: State, op: Operation)
    requires Invariant(s) && op.Move? && Result(s, op) == Done(r)
    ensures MovedOnce(s, r, op.id, op.actor, op.input, op.members)
  {
    assert RequestIsSound(s, op.id);
    MovesNeedEntitlement(s, op);
    var request := s.requests[op.id];
    LoggedEvents(s, op.id, op.actor, Moved(Some(request.phase), op.input.to, request.version + 1));
  }

  /** A request never changes what its hash covers, so its one export is found again by the hash of any later call. */
  lemma ExportsAreFoundByHash(s: State, id: RequestId)
    requires Invariant(s) && id in s.requests
    ensures HasOneExport(s, id) <==> IsEnqueued(s, id, HashOf(id, s.requests[id]))
  {
    if job :| job in s.jobs && s.jobs[job].request == id {
      assert JobIsSound(s, job);
    }
  }

  lemma OneExport(s: State, job: JobId)
    requires OneExportEach(s) && job in s.jobs
    ensures HasOneExport(s, s.jobs[job].request)
  {
  }

  lemma ExportsAreLogged(s: State, r: State, op: Operation)
    requires Invariant(s) && op.Enqueue? && Result(s, op) == Done(r) && !IsEnqueued(s, op.id, op.hash)
    ensures EnqueuedOnce(s, r, op.id, op.actor, op.job)
  {
    assert RequestIsSound(s, op.id);
    LoggedEvents(s, op.id, op.actor, Enqueued(op.job));
  }

  lemma ReadinessOpensDownloads(s: State, r: State, op: Operation)
    requires op.MarkReady? && Result(s, op) == Done(r) && JobIsSound(s, op.job)
    ensures OpensDownloads(s, r, op.job)
  {
  }

  lemma DownloadsAreLogged(s: State, r: State, op: Operation, granted: bool)
    requires Invariant(s) && op.Acquire? && r == Step(s, op) && granted == Result(s, op).Done?
    ensures granted <==> IsDownloadable(s, op.job, op.now)
    ensures granted ==> DownloadedOnce(s, r, op.job, op.actor)
    ensures OtherJobsStay(s, r, op.job)
  {
    if op.job in s.jobs {
      assert JobIsSound(s, op.job);
      RefusalsAreExplained(s, op.job, op.actor, op.now);
      if granted {
        assert RequestIsSound(s, s.jobs[op.job].request);
        DownloadIsLogged(s, r, op);
      }
    }
  }

  lemma DownloadIsLogged(s: State, r: State, op: Operation)
    requires op.Acquire? && Result(s, op) == Done(r) && IsDownloadable(s, op.job, op.now)
    requires JobIsSound(s, op.job) && AuditsRunOn(s.events[s.jobs[op.job].request])
    ensures DownloadedOnce(s, r, op.job, op.actor)
  {
    var row := s.jobs[op.job];
    LoggedEvents(s, row.request, op.actor, Downloaded(op.job, row.downloads + 1));
    assert UpTo(row.downloads) + [row.downloads + 1] == UpTo(row.downloads + 1);
  }
}
