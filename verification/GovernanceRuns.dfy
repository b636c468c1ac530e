/** What every run of administrative transactions keeps. */
module GovernanceRuns {
  import opened Prelude
  import opened DomainGovernance

  datatype Operation =
    | SetUserStatus(actor: User, user: User, active: bool)
    | Create(actor: User, domain: DomainId, administrators: set<User>)
    | Assign(actor: User, user: User, domain: DomainId)
    | Revoke(actor: User, user: User, domain: DomainId)
    | SetSensitivity(actor: User, domain: DomainId, sensitivity: Sensitivity)
    | SetDomainStatus(actor: User, domain: DomainId, active: bool)
    | SetPlatform(actor: User, user: User, enabled: bool)
    | Replace(actor: User, domain: DomainId, administrators: set<User>)
    | Apply(applicant: User, domain: DomainId, reason: string, id: ApplicationId, now: int)
    | Withdraw(applicant: User, id: ApplicationId)
    | Review(reviewer: User, id: ApplicationId, approve: bool, seat: Seat)
    | Escalate(actor: User, id: ApplicationId, now: int)

  function Outcome(s: State, op: Operation): Option<State> {
    match op
    case SetUserStatus(actor, user, active) => UpdateUserStatus(s, actor, user, active)
    case Create(actor, domain, administrators) => CreateDomain(s, actor, domain, administrators)
    case Assign(actor, user, domain) => AssignUserDomain(s, actor, user, domain)
    case Revoke(actor, user, domain) => RevokeUserDomain(s, actor, user, domain)
    case SetSensitivity(actor, domain, sensitivity) => UpdateDomainAccessSensitivity(s, actor, domain, sensitivity)
    case SetDomainStatus(actor, domain, active) => UpdateDomainStatus(s, actor, domain, active)
    case SetPlatform(actor, user, enabled) => SetPlatformAdministrator(s, actor, user, enabled)
    case Replace(actor, domain, administrators) => ReplaceDomainAdministrators(s, actor, domain, administrators)
    case Apply(applicant, domain, reason, id, now) => ApplyDomainAccess(s, applicant, domain, reason, id, now)
    case Withdraw(applicant, id) => WithdrawDomainApplication(s, applicant, id)
    case Review(reviewer, id, approve, seat) => ReviewDomainApplication(s, reviewer, id, approve, seat)
    case Escalate(actor, id, now) => EscalateDomainApplication(s, actor, id, now)
  }

  function Step(s: State, op: Operation): State {
    if Outcome(s, op).Some? then Outcome(s, op).value else s
  }

  // ---- Identities -------------------------------------------------------------------------------------------------

  ghost predicate Identities(s: State) {
    && s.platform != {} && (forall user | user in s.platform :: IsActive(s, user))
    && (forall key | key in s.members :: key.1 in s.users && key.1 !in s.platform)
    && (forall key | key in s.members && s.members[key] == DomainAdmin :: IsActive(s, key.1))
    && (forall key, other | key in s.members && other in s.members && key.1 == other.1 ::
       s.members[key] == s.members[other])
  }

  lemma UserStepKeepsIdentities(s: State, op: Operation)
    requires Identities(s)
    requires op.SetUserStatus? || op.SetSensitivity? || op.SetDomainStatus? || op.Withdraw? || op.Escalate?
    ensures Identities(Step(s, op))
  {
  }

  lemma MembershipStepKeepsIdentities(s: State, op: Operation)
    requires Identities(s) && (op.Assign? || op.Revoke?)
    ensures Identities(Step(s, op))
  {
  }

  lemma NewAdministratorsKeepIdentities(s: State, domain: DomainId, administrators: set<User>)
    requires Identities(s) && forall user | user in administrators :: MayAdministerNewDomain(s, user)
    ensures Identities(s.(members := WithAdministrators(s.members, domain, administrators)))
  {
  }

  lemma CreateKeepsIdentities(s: State, op: Operation)
    requires Identities(s) && op.Create?
    ensures Identities(Step(s, op))
  {
    if Outcome(s, op).Some? {
      NewAdministratorsKeepIdentities(s, op.domain, op.administrators);
      SameIdentities(s.(members := WithAdministrators(s.members, op.domain, op.administrators)), Step(s, op));
    }
  }

  lemma ReplaceKeepsIdentities(s: State, op: Operation)
    requires Identities(s) && op.Replace?
    ensures Identities(Step(s, op))
  {
  }

  lemma PlatformStepKeepsIdentities(s: State, op: Operation)
    requires Identities(s) && op.SetPlatform?
    ensures Identities(Step(s, op))
  {
    assert op.user in s.platform ==> |s.platform - {op.user}| == |s.platform| - 1;
  }

  lemma ApplyKeepsIdentities(s: State, op: Operation)
    requires Identities(s) && op.Apply?
    ensures Identities(Step(s, op))
  {
  }

  lemma AdmissionKeepsIdentities(s: State, application: Application)
    requires Identities(s) && application.applicant in s.users
    ensures Identities(s.(members := Admitted(s, application)))
  {
  }

  lemma OnlyAdmissionChangesMembers(s: State, op: Operation)
    requires op.Review?
    ensures Step(s, op).users == s.users && Step(s, op).platform == s.platform
    ensures Step(s, op).members == s.members
         || (op.id in s.applications && Step(s, op).members == Admitted(s, s.applications[op.id]))
  {
  }

  lemma ReviewKeepsIdentities(s: State, op: Operation)
    requires Identities(s) && ApplicantsAreUsers(s) && op.Review?
    ensures Identities(Step(s, op))
  {
    var r := Step(s, op);
    OnlyAdmissionChangesMembers(s, op);
    if r.members != s.members {
      AdmissionKeepsIdentities(s, s.applications[op.id]);
      SameIdentities(s.(members := Admitted(s, s.applications[op.id])), r);
    } else {
      SameIdentities(s, r);
    }
  }

  lemma SameIdentities(s: State, r: State)
    requires Identities(s) && r.users == s.users && r.platform == s.platform && r.members == s.members
    ensures Identities(r)
  {
  }

  ghost predicate ApplicantsAreUsers(s: State) {
    forall id | id in s.applications :: s.applications[id].applicant in s.users
  }

  lemma ReplacementAppoints(s: State, op: Operation)
    requires op.Replace? && Outcome(s, op).Some?
    ensures HasAdministrator(Step(s, op), op.domain)
  {
    var user :| user in op.administrators;
    assert (op.domain, user) in Step(s, op).members && Step(s, op).members[(op.domain, user)] == DomainAdmin;
  }

  lemma AdministratorStays(s: State, op: Operation, key: (DomainId, User))
    requires Identities(s) && key in s.members && s.members[key] == DomainAdmin
    requires op.Replace? ==> op.domain != key.0 || Outcome(s, op).None?
    ensures key in Step(s, op).members && Step(s, op).members[key] == DomainAdmin
  {
  }

  /** An administered domain stays administered, though not by the same people. */
  lemma DomainKeepsAnAdministrator(s: State, op: Operation, domain: DomainId)
    requires Identities(s) && HasAdministrator(s, domain)
    ensures HasAdministrator(Step(s, op), domain)
  {
    if op.Replace? && op.domain == domain && Outcome(s, op).Some? {
      ReplacementAppoints(s, op);
    } else {
      var key :| key in s.members && key.0 == domain && s.members[key] == DomainAdmin;
      AdministratorStays(s, op, key);
    }
  }

  // ---- Applications ------------------------------------------------------------------------------------------------

  /** One seat a reviewer and one reviewer a seat; nobody signs their own application. */
  ghost predicate Separated(application: Application) {
    var receipts := application.receipts;
    && (forall i, j | 0 <= i < j < |receipts| ::
          receipts[i].reviewer != receipts[j].reviewer && receipts[i].seat != receipts[j].seat)
    && (forall i | 0 <= i < |receipts| ::
          && receipts[i].reviewer != application.applicant
          && (receipts[i].seat == Security ==> application.dual && receipts[i].asPlatform))
  }

  predicate AllApproved(receipts: seq<Receipt>) {
    forall i | 0 <= i < |receipts| :: receipts[i].approved
  }

  predicate EverySeatApproves(application: Application) {
    Approves(application.receipts, Owner) && (application.dual ==> Approves(application.receipts, Security))
  }

  /** What the status of an application says about its signatures. */
  ghost predicate StatusIsEarned(application: Application) {
    var receipts := application.receipts;
    match application.status
    case Pending => AllApproved(receipts) && !EverySeatApproves(application)
    case Cancelled => AllApproved(receipts) && !EverySeatApproves(application)
    case Approved => AllApproved(receipts) && EverySeatApproves(application)
    case Rejected => receipts != [] && !receipts[|receipts| - 1].approved && AllApproved(receipts[..|receipts| - 1])
  }

  ghost predicate ApplicationIsSound(application: Application) {
    Separated(application) && StatusIsEarned(application) && application.level <= MAX_ESCALATION
  }

  ghost predicate OnePendingEach(s: State) {
    forall id, other | id in s.applications && other in s.applications && s.applications[id].status == Pending ::
      PendingFor(s, other, s.applications[id].applicant, s.applications[id].domain) ==> id == other
  }

  ghost predicate ApplicationsAreSound(s: State) {
    forall id | id in s.applications :: ApplicationIsSound(s.applications[id])
  }

  ghost predicate DefaultDomainsAreActive(s: State) {
    forall domain | domain in s.domains && s.domains[domain].isDefault :: s.domains[domain].active
  }

  ghost predicate Invariant(s: State) {
    Identities(s) && ApplicantsAreUsers(s) && ApplicationsAreSound(s) && OnePendingEach(s) && DefaultDomainsAreActive(s)
  }

  lemma SignatureKeepsSeparation(s: State, application: Application, reviewer: User, approve: bool, seat: Seat)
    requires Separated(application) && SeatIsFree(application.receipts, reviewer, seat)
    requires reviewer != application.applicant && (seat == Security ==> application.dual && reviewer in s.platform)
    ensures Separated(application.(receipts := Sign(s, application, reviewer, approve, seat)))
  {
  }

  lemma SignatureEarnsStatus(s: State, application: Application, reviewer: User, approve: bool, seat: Seat)
    requires application.status == Pending && StatusIsEarned(application) && (!application.dual ==> seat == Owner)
    ensures var receipts := Sign(s, application, reviewer, approve, seat);
            var signed := application.(receipts := receipts);
            StatusIsEarned(
              if !Decides(application.dual, receipts, approve) then signed
              else signed.(status := if approve then Approved else Rejected))
  {
    var receipts := Sign(s, application, reviewer, approve, seat);
    assert receipts[..|receipts| - 1] == application.receipts;
    assert approve ==> receipts[|receipts| - 1].approved && receipts[|receipts| - 1].seat == seat;
  }

  lemma ReviewedApplicationIsSound(s: State, op: Operation)
    requires op.Review? && Outcome(s, op).Some? && op.id in s.applications && ApplicationIsSound(s.applications[op.id])
    ensures op.id in Step(s, op).applications && ApplicationIsSound(Step(s, op).applications[op.id])
    ensures Step(s, op).applications == s.applications[op.id := Step(s, op).applications[op.id]]
  {
    var application := s.applications[op.id];
    SignatureKeepsSeparation(s, application, op.reviewer, op.approve, op.seat);
    SignatureEarnsStatus(s, application, op.reviewer, op.approve, op.seat);
  }

  lemma ReviewKeepsApplications(s: State, op: Operation)
    requires ApplicationsAreSound(s) && op.Review?
    ensures ApplicationsAreSound(Step(s, op))
  {
    if Outcome(s, op).Some? {
      ReviewedApplicationIsSound(s, op);
    }
  }

  lemma OtherStepsKeepApplications(s: State, op: Operation)
    requires ApplicationsAreSound(s) && !op.Review?
    ensures ApplicationsAreSound(Step(s, op))
  {
  }

  /** What any step may do to an application that was there before: sign, decide, escalate, withdraw, or restate it. */
  ghost predicate Follows(was: Application, next: Application) {
    && next.domain == was.domain && next.applicant == was.applicant && next.dual == was.dual && next.dueAt == was.dueAt
    && was.receipts <= next.receipts && was.level <= next.level
    && (was.status != Pending ==> next == was)
  }

  lemma ReviewFollows(s: State, op: Operation, id: ApplicationId)
    requires id in s.applications && op.Review?
    ensures id in Step(s, op).applications && Follows(s.applications[id], Step(s, op).applications[id])
  {
  }

  lemma ApplicationsFollow(s: State, op: Operation, id: ApplicationId)
    requires id in s.applications && !op.Review?
    ensures id in Step(s, op).applications && Follows(s.applications[id], Step(s, op).applications[id])
  {
  }

  /** Neither a sensitivity change nor an escalation decides, relaxes or signs anything. */
  lemma OnlyReviewsDecide(s: State, op: Operation, id: ApplicationId)
    requires id in s.applications && !op.Review? && !op.Withdraw?
    ensures id in Step(s, op).applications
    ensures var was, next := s.applications[id], Step(s, op).applications[id];
            next.status == was.status && next.receipts == was.receipts && next.dual == was.dual
  {
  }

  lemma ApplyKeepsOnePending(s: State, op: Operation)
    requires OnePendingEach(s) && op.Apply?
    ensures OnePendingEach(Step(s, op))
  {
  }

  lemma OthersKeepOnePending(s: State, op: Operation)
    requires OnePendingEach(s) && !op.Apply?
    ensures OnePendingEach(Step(s, op))
  {
    var r := Step(s, op);
    forall id | id in r.applications ensures id in s.applications && MayStayPending(s, r, id) {
      PendingWasPending(s, op, id);
    }
    PendingStaysUnique(s, r);
  }

  ghost predicate MayStayPending(s: State, r: State, id: ApplicationId)
    requires id in s.applications && id in r.applications
  {
    && r.applications[id].applicant == s.applications[id].applicant
    && r.applications[id].domain == s.applications[id].domain
    && (r.applications[id].status == Pending ==> s.applications[id].status == Pending)
  }

  lemma PendingWasPending(s: State, op: Operation, id: ApplicationId)
    requires !op.Apply? && id in Step(s, op).applications
    ensures id in s.applications && MayStayPending(s, Step(s, op), id)
  {
  }

  lemma PendingStaysUnique(s: State, r: State)
    requires OnePendingEach(s)
    requires forall id | id in r.applications :: id in s.applications && MayStayPending(s, r, id)
    ensures OnePendingEach(r)
  {
  }

  lemma ApplicantsStayUsers(s: State, op: Operation)
    requires ApplicantsAreUsers(s)
    ensures ApplicantsAreUsers(Step(s, op))
  {
  }

  lemma DefaultDomainsStayActive(s: State, op: Operation)
    requires DefaultDomainsAreActive(s)
    ensures DefaultDomainsAreActive(Step(s, op))
  {
  }

  lemma StepKeepsIdentities(s: State, op: Operation)
    requires Identities(s) && ApplicantsAreUsers(s)
    ensures Identities(Step(s, op))
  {
    match op
    case Assign(_, _, _) => MembershipStepKeepsIdentities(s, op);
    case Revoke(_, _, _) => MembershipStepKeepsIdentities(s, op);
    case Create(_, _, _) => CreateKeepsIdentities(s, op);
    case Replace(_, _, _) => ReplaceKeepsIdentities(s, op);
    case SetPlatform(_, _, _) => PlatformStepKeepsIdentities(s, op);
    case Apply(_, _, _, _, _) => ApplyKeepsIdentities(s, op);
    case Review(_, _, _, _) => ReviewKeepsIdentities(s, op);
    case _ => UserStepKeepsIdentities(s, op);
  }

  lemma StepKeepsInvariant(s: State, op: Operation)
    requires Invariant(s)
    ensures Invariant(Step(s, op))
  {
    StepKeepsIdentities(s, op);
    ApplicantsStayUsers(s, op);
    DefaultDomainsStayActive(s, op);
    if op.Review? {
      ReviewKeepsApplications(s, op);
    } else {
      OtherStepsKeepApplications(s, op);
    }
    if op.Apply? {
      ApplyKeepsOnePending(s, op);
    } else {
      OthersKeepOnePending(s, op);
    }
  }

  // ---- Authority ---------------------------------------------------------------------------------------------------

  /** Who may decide about a domain: a platform administrator, or an administrator of the domain while it is active. */
  predicate HasAuthority(s: State, user: User, domain: DomainId) {
    || user in s.platform
    || (&& domain in s.domains && s.domains[domain].active
        && (domain, user) in s.members && s.members[(domain, user)] == DomainAdmin)
  }

  /** What a review needs besides authority: a pending application of somebody else, and a seat for the reviewer. */
  predicate Reviewable(s: State, review: Operation)
    requires review.Review?
  {
    && review.id in s.applications
    && var application := s.applications[review.id];
       && application.status == Pending && application.applicant != review.reviewer
       && (forall i | 0 <= i < |application.receipts| ::
             application.receipts[i].reviewer != review.reviewer && application.receipts[i].seat != review.seat)
       && (review.seat == Security ==> application.dual && review.reviewer in s.platform)
       && (review.approve && review.reviewer !in s.platform ==>
             HoldsRole(s, application.applicant, DomainAdmin) ==>
               Administers(s, application.applicant, application.domain))
  }

  /** A review succeeds exactly when it is due and its reviewer has authority over the domain at that moment. */
  lemma ReviewsNeedAuthority(s: State, review: Operation)
    requires review.Review?
    ensures Outcome(s, review).Some?
       <==> Reviewable(s, review) && HasAuthority(s, review.reviewer, s.applications[review.id].domain)
  {
  }

  /** An escalation succeeds exactly on an overdue pending application, by somebody with authority over the domain. */
  lemma EscalationsNeedAuthority(s: State, escalation: Operation)
    requires escalation.Escalate?
    ensures Outcome(s, escalation).Some? <==>
              && escalation.id in s.applications
              && var application := s.applications[escalation.id];
                 && application.status == Pending && application.dueAt <= escalation.now && application.level < 3
                 && HasAuthority(s, escalation.actor, application.domain)
  {
  }

  /** Every other administrative operation succeeds only for a platform administrator. */
  lemma AdministratorsAct(s: State, op: Operation)
    requires Outcome(s, op).Some? && !op.Apply? && !op.Withdraw? && !op.Review? && !op.Escalate?
    ensures op.actor in s.platform
  {
  }

  /** A new receipt comes from an accepted review, signed with authority. */
  lemma NewReceiptsAreAuthorized(s: State, op: Operation, id: ApplicationId, k: nat)
    requires id in Step(s, op).applications && k < |Step(s, op).applications[id].receipts|
    requires id in s.applications ==> |s.applications[id].receipts| <= k
    ensures SignedWithAuthority(s, id, k, Step(s, op).applications[id].receipts[k])
  {
    if op.Review? && Outcome(s, op).Some? {
      ReviewsNeedAuthority(s, op);
    }
  }

  /** The receipt is what a reviewer with authority over the application's domain signs next. */
  ghost predicate SignedWithAuthority(s: State, id: ApplicationId, k: nat, receipt: Receipt) {
    && id in s.applications && |s.applications[id].receipts| == k && s.applications[id].status == Pending
    && HasAuthority(s, receipt.reviewer, s.applications[id].domain)
    && receipt.reviewer != s.applications[id].applicant
    && (receipt.asPlatform <==> receipt.reviewer in s.platform)
    && (receipt.seat == Security ==> receipt.reviewer in s.platform)
  }

  /** Access to a domain comes from a platform administrator, or from an application with every seat signed. */
  lemma AccessIsGranted(s: State, op: Operation, domain: DomainId, user: User)
    requires Invariant(s) && (domain, user) !in s.members && (domain, user) in Step(s, op).members
    ensures ((op.Assign? || op.Create? || op.Replace?) && op.actor in s.platform)
         || (op.Review? && op.id in Step(s, op).applications
             && var application := Step(s, op).applications[op.id];
                application.domain == domain && application.applicant == user && application.status == Approved
                && EverySeatApproves(application))
  {
    StepKeepsInvariant(s, op);
    if op.Review? {
      assert ApplicationIsSound(Step(s, op).applications[op.id]);
    }
  }

  /**
   * Replacing sets exactly the administrators of one domain, and touches no other domain and no plain member elsewhere.
   */
  lemma ReplacementIsExact(s: State, op: Operation, domain: DomainId, user: User)
    requires op.Replace? && Outcome(s, op).Some?
    ensures var r := Step(s, op);
            && (domain == op.domain ==> (Administers(r, user, domain) <==> user in op.administrators))
            && (domain != op.domain ==>
                  ((domain, user) in r.members <==> (domain, user) in s.members)
                  && (Administers(r, user, domain) <==> Administers(s, user, domain)))
            && (domain == op.domain && user !in op.administrators ==>
                  ((domain, user) in r.members <==> (domain, user) in s.members && !Administers(s, user, domain)))
  {
  }

  /** An appointment to platform administrator takes all memberships of that user and of nobody else. */
  lemma AppointmentIsExclusive(s: State, op: Operation, domain: DomainId, user: User)
    requires op.SetPlatform? && op.enabled && Outcome(s, op).Some?
    ensures var r := Step(s, op);
            && (user in r.platform <==> user == op.user || user in s.platform)
            && ((domain, user) in r.members <==> (domain, user) in s.members && user != op.user)
            && ((domain, user) in r.members ==> r.members[(domain, user)] == s.members[(domain, user)])
  {
  }

  /** Submitting pins the seats by the sensitivity of the moment; a repeated submission changes a reason only. */
  lemma SubmissionPinsSeats(s: State, op: Operation)
    requires Invariant(s) && op.Apply? && Outcome(s, op).Some?
    ensures var r := Step(s, op);
            exists id | id in r.applications :: PendingFor(r, id, op.applicant, op.domain)
              && r.applications[id].reason == op.reason
              && (if id in s.applications then
                    PendingFor(s, id, op.applicant, op.domain)
                    && r.applications == s.applications[id := s.applications[id].(reason := op.reason)]
                  else
                    && r.applications == s.applications[id := r.applications[id]]
                    && r.applications[id].dual == RequiresDualApproval(s.domains[op.domain].sensitivity)
                    && r.applications[id].receipts == [] && r.applications[id].level == 0
                    && r.applications[id].dueAt == op.now + REVIEW_WINDOW)
  {
    var r := Step(s, op);
    if exists id | id in s.applications :: PendingFor(s, id, op.applicant, op.domain) {
      var id :| id in s.applications && PendingFor(s, id, op.applicant, op.domain);
      assert r.applications == s.applications[id := s.applications[id].(reason := op.reason)];
      assert PendingFor(r, id, op.applicant, op.domain);
    } else {
      assert PendingFor(r, op.id, op.applicant, op.domain);
    }
  }

  /**
   * A review changes memberships exactly when it completes an
   * approval of an applicant who is no platform administrator.
   */
  lemma ReviewsAdmitOnApproval(s: State, op: Operation)
    requires op.Review? && op.id in s.applications && Outcome(s, op).Some?
    ensures var r, applicant, domain := Step(s, op), s.applications[op.id].applicant, s.applications[op.id].domain;
            if r.applications[op.id].status == Approved && applicant !in s.platform then
              && (domain, applicant) in r.members
              && r.members == s.members[(domain, applicant) := r.members[(domain, applicant)]]
              && (r.members[(domain, applicant)] == DomainAdmin <==> HoldsRole(s, applicant, DomainAdmin))
            else r.members == s.members
  {
  }

  /** Two states in which every review finds the same reviewers and the same application but for its level. */
  ghost predicate SameToReviewers(s: State, r: State, id: ApplicationId) {
    && r.platform == s.platform && r.members == s.members
    && (forall domain :: IsActiveDomain(r, domain) <==> IsActiveDomain(s, domain))
    && (id in r.applications <==> id in s.applications)
    && (id in s.applications ==> exists level :: r.applications[id] == s.applications[id].(level := level))
  }

  lemma QuietStepsLookTheSame(s: State, op: Operation, id: ApplicationId)
    requires op.Escalate? || op.SetSensitivity?
    ensures SameToReviewers(s, Step(s, op), id)
  {
    var r := Step(s, op);
    if id in s.applications {
      assert r.applications[id] == s.applications[id].(level := r.applications[id].level);
    }
  }

  lemma SameReviewersSameRoles(s: State, r: State, user: User, role: MemberRole, domain: DomainId)
    requires r.platform == s.platform && r.members == s.members
    requires IsActiveDomain(r, domain) <==> IsActiveDomain(s, domain)
    ensures HoldsRole(r, user, role) <==> HoldsRole(s, user, role)
    ensures MayReview(r, user, domain) <==> MayReview(s, user, domain)
  {
  }

  lemma SameReviewsAreAccepted(
    s: State, r: State, id: ApplicationId, reviewer: User, approve: bool, seat: Seat)
    requires SameToReviewers(s, r, id)
    ensures var before, after := ReviewDomainApplication(s, reviewer, id, approve, seat),
                                 ReviewDomainApplication(r, reviewer, id, approve, seat);
            before.Some? <==> after.Some?
  {
    if id in s.applications {
      var application := s.applications[id];
      SameReviewersSameRoles(s, r, application.applicant, DomainAdmin, application.domain);
      SameReviewersSameRoles(s, r, reviewer, DomainAdmin, application.domain);
    }
  }

  /** Escalations and sensitivity changes open no door: exactly the same reviews are accepted after them. */
  lemma ReviewsAreUnaffected(s: State, op: Operation, review: Operation)
    requires (op.Escalate? || op.SetSensitivity?) && review.Review?
    ensures Outcome(Step(s, op), review).Some? <==> Outcome(s, review).Some?
  {
    QuietStepsLookTheSame(s, op, review.id);
    SameReviewsAreAccepted(s, Step(s, op), review.id, review.reviewer, review.approve, review.seat);
  }

  /** Revoking takes back an assignment that was new. */
  lemma RevokingUndoesAssigning(s: State, assign: Operation, revoke: Operation)
    requires assign.Assign? && revoke == Revoke(assign.actor, assign.user, assign.domain)
    requires (assign.domain, assign.user) !in s.members && Outcome(s, assign).Some?
    ensures Outcome(Step(s, assign), revoke) == Some(s)
  {
    assert s.members[(assign.domain, assign.user) := Member] - {(assign.domain, assign.user)} == s.members;
  }

  // ---- Runs --------------------------------------------------------------------------------------------------------

  ghost predicate IsRun(run: seq<State>) {
    && |run| > 0 && Identities(run[0]) && DefaultDomainsAreActive(run[0]) && run[0].applications == map[]
    && forall i: nat | i + 1 < |run| :: StepAt(run, i)
  }

  ghost predicate StepAt(run: seq<State>, i: nat)
    requires i + 1 < |run|
  {
    Follow(run[i], run[i + 1])
  }

  ghost predicate Follow(s: State, r: State) {
    exists op :: r == Step(s, op)
  }

  lemma FollowKeepsInvariant(s: State, r: State)
    requires Invariant(s) && Follow(s, r)
    ensures Invariant(r)
  {
    var op :| r == Step(s, op);
    StepKeepsInvariant(s, op);
  }

  lemma FollowKeepsAdministrator(s: State, r: State, domain: DomainId)
    requires Identities(s) && HasAdministrator(s, domain) && Follow(s, r)
    ensures HasAdministrator(r, domain)
  {
    var op :| r == Step(s, op);
    DomainKeepsAnAdministrator(s, op, domain);
  }

  lemma FollowKeepsApplication(s: State, r: State, id: ApplicationId)
    requires id in s.applications && Follow(s, r)
    ensures id in r.applications && Follows(s.applications[id], r.applications[id])
  {
    var op :| r == Step(s, op);
    if op.Review? {
      ReviewFollows(s, op, id);
    } else {
      ApplicationsFollow(s, op, id);
    }
  }

  lemma {:induction false} RunKeepsInvariant(run: seq<State>, i: nat)
    requires IsRun(run) && i < |run|
    ensures Invariant(run[i])
  {
    if i > 0 {
      RunKeepsInvariant(run, i - 1);
      assert StepAt(run, i - 1);
      FollowKeepsInvariant(run[i - 1], run[i]);
    }
  }

  /** In every state: identities are exclusive, administrators are active, and the platform has an administrator. */
  lemma IdentitiesAreExclusive(run: seq<State>, i: nat, user: User)
    requires IsRun(run) && i < |run|
    ensures !(HoldsRole(run[i], user, Member) && HoldsRole(run[i], user, DomainAdmin))
    ensures user in run[i].platform ==> !HoldsRole(run[i], user, Member) && !HoldsRole(run[i], user, DomainAdmin)
    ensures user in run[i].platform || HoldsRole(run[i], user, DomainAdmin) ==> IsActive(run[i], user)
    ensures |run[i].platform| >= 1
  {
    RunKeepsInvariant(run, i);
    var some :| some in run[i].platform;
  }

  lemma RunKeepsIdentities(run: seq<State>, i: nat)
    requires IsRun(run) && i < |run|
    ensures Identities(run[i])
  {
    RunKeepsInvariant(run, i);
  }

  lemma NextStaysAdministered(run: seq<State>, i: nat, domain: DomainId)
    requires IsRun(run) && i + 1 < |run| && HasAdministrator(run[i], domain)
    ensures HasAdministrator(run[i + 1], domain)
  {
    RunKeepsIdentities(run, i);
    assert StepAt(run, i);
    FollowKeepsAdministrator(run[i], run[i + 1], domain);
  }

  /** From any state on, an administered domain is never without an administrator again. */
  lemma {:induction false} AdministeredDomainsStayAdministered(run: seq<State>, i: nat, j: nat, domain: DomainId)
    requires IsRun(run) && i <= j < |run| && HasAdministrator(run[i], domain)
    ensures HasAdministrator(run[j], domain)
  {
    if i < j {
      AdministeredDomainsStayAdministered(run, i, j - 1, domain);
      NextStaysAdministered(run, j - 1, domain);
    }
  }

  /** An approval that needed two seats has two different approvers, neither the applicant, one signing as platform. */
  lemma ApprovalsAreEarned(run: seq<State>, i: nat, id: ApplicationId) returns (owner: nat, security: nat)
    requires IsRun(run) && i < |run|
    requires id in run[i].applications && run[i].applications[id].status == Approved && run[i].applications[id].dual
    ensures var application := run[i].applications[id];
            var receipts := application.receipts;
            && owner < |receipts| && security < |receipts|
            && receipts[owner].approved && receipts[owner].seat == Owner
            && receipts[security].approved && receipts[security].seat == Security && receipts[security].asPlatform
            && receipts[owner].reviewer != receipts[security].reviewer
            && receipts[owner].reviewer != application.applicant && receipts[security].reviewer != application.applicant
  {
    RunKeepsInvariant(run, i);
    var application := run[i].applications[id];
    assert ApplicationIsSound(application);
    owner :| 0 <= owner < |application.receipts|
             && application.receipts[owner].approved && application.receipts[owner].seat == Owner;
    security :| 0 <= security < |application.receipts|
                && application.receipts[security].approved && application.receipts[security].seat == Security;
    assert owner < security || security < owner;
  }

  lemma ReceiptWasThereOrIsNew(s: State, r: State, id: ApplicationId, k: nat)
    requires Follow(s, r) && id in r.applications && k < |r.applications[id].receipts|
    ensures
      || (&& id in s.applications && k < |s.applications[id].receipts|
          && s.applications[id].receipts[k] == r.applications[id].receipts[k])
      || SignedWithAuthority(s, id, k, r.applications[id].receipts[k])
  {
    var op :| r == Step(s, op);
    if id in s.applications && k < |s.applications[id].receipts| {
      FollowKeepsApplication(s, r, id);
    } else {
      NewReceiptsAreAuthorized(s, op, id, k);
    }
  }

  /** Every receipt in every state was signed at some earlier moment by somebody who had authority then. */
  lemma {:induction false} ReceiptsWereAuthorized(run: seq<State>, i: nat, id: ApplicationId, k: nat) returns (j: nat)
    requires IsRun(run) && i < |run| && id in run[i].applications && k < |run[i].applications[id].receipts|
    ensures j < i && SignedWithAuthority(run[j], id, k, run[i].applications[id].receipts[k])
  {
    assert StepAt(run, i - 1);
    ReceiptWasThereOrIsNew(run[i - 1], run[i], id, k);
    if SignedWithAuthority(run[i - 1], id, k, run[i].applications[id].receipts[k]) {
      j := i - 1;
    } else {
      j := ReceiptsWereAuthorized(run, i - 1, id, k);
    }
  }

  /** A pending application has no rejection and still misses a seat. */
  lemma PendingIsUndecided(run: seq<State>, i: nat, id: ApplicationId)
    requires IsRun(run) && i < |run| && id in run[i].applications && run[i].applications[id].status == Pending
    ensures AllApproved(run[i].applications[id].receipts) && !EverySeatApproves(run[i].applications[id])
  {
    RunKeepsInvariant(run, i);
    assert ApplicationIsSound(run[i].applications[id]);
  }

  /** Through any later run the pinned seats stay, signatures are only added, and a decision is final. */
  lemma {:induction false} DecisionsAreFinal(run: seq<State>, i: nat, j: nat, id: ApplicationId)
    requires IsRun(run) && i <= j < |run| && id in run[i].applications
    ensures id in run[j].applications && Follows(run[i].applications[id], run[j].applications[id])
  {
    if i < j {
      DecisionsAreFinal(run, i, j - 1, id);
      assert StepAt(run, j - 1);
      FollowKeepsApplication(run[j - 1], run[j], id);
    }
  }
}
