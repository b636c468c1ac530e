/** The identity and domain-access tables, and what each administrative transaction does to them. */
module DomainGovernance {
  import opened Prelude

  type User = nat
  type DomainId = nat
  type ApplicationId = nat

  const REVIEW_WINDOW: nat := 24 * 3600
  const MAX_ESCALATION: nat := 3

  datatype MemberRole = Member | DomainAdmin
  datatype Sensitivity = Public | Internal | Confidential | Restricted
  datatype Domain = Domain(active: bool, isDefault: bool, sensitivity: Sensitivity)

  datatype Seat = Owner | Security
  /** A signature; asPlatform tells whether the reviewer was a platform administrator when signing. */
  datatype Receipt = Receipt(reviewer: User, seat: Seat, approved: bool, asPlatform: bool)
  datatype ApplicationStatus = Pending | Approved | Rejected | Cancelled
  datatype Application = Application(
    domain: DomainId,
    applicant: User,
    reason: string,
    status: ApplicationStatus,
    dual: bool,
    dueAt: int,
    level: nat,
    receipts: seq<Receipt>)

  /** users maps every account to whether it is ACTIVE; platform holds the platform_admin assignments. */
  datatype State = State(
    users: map<User, bool>,
    platform: set<User>,
    domains: map<DomainId, Domain>,
    members: map<(DomainId, User), MemberRole>,
    applications: map<ApplicationId, Application>)

  predicate IsActive(s: State, user: User) {
    user in s.users && s.users[user]
  }

  predicate HoldsRole(s: State, user: User, role: MemberRole) {
    exists key | key in s.members :: key.1 == user && s.members[key] == role
  }

  predicate HoldsMembershipElsewhere(s: State, user: User, domain: DomainId) {
    exists key | key in s.members :: key.1 == user && key.0 != domain && s.members[key] == Member
  }

  predicate Administers(s: State, user: User, domain: DomainId) {
    (domain, user) in s.members && s.members[(domain, user)] == DomainAdmin
  }

  predicate HasAdministrator(s: State, domain: DomainId) {
    exists key | key in s.members :: key.0 == domain && s.members[key] == DomainAdmin
  }

  predicate IsActiveDomain(s: State, domain: DomainId) {
    domain in s.domains && s.domains[domain].active
  }

  // ---- Identities -------------------------------------------------------------------------------------------------

  /** None is an error, and leaves the tables as they were. */
  function UpdateUserStatus(s: State, actor: User, user: User, active: bool): Option<State> {
    if actor !in s.platform || user !in s.users then None
    else if s.users[user] == active then Some(s)
    else if !active && (user == actor || user in s.platform || HoldsRole(s, user, DomainAdmin)) then None
    else Some(s.(users := s.users[user := active]))
  }

  function WithAdministrators(
    members: map<(DomainId, User), MemberRole>, domain: DomainId, administrators: set<User>)
    : map<(DomainId, User), MemberRole>
  {
    map key | key in members.Keys + (set user | user in administrators :: (domain, user)) ::
      if key.0 == domain && key.1 in administrators then DomainAdmin else members[key]
  }

  predicate MayAdministerNewDomain(s: State, user: User) {
    IsActive(s, user) && user !in s.platform && !HoldsRole(s, user, Member)
  }

  function CreateDomain(s: State, actor: User, domain: DomainId, administrators: set<User>): Option<State> {
    if actor !in s.platform || domain in s.domains then None
    else if exists user | user in administrators :: !MayAdministerNewDomain(s, user) then None
    else
      Some(s.(domains := s.domains[domain := Domain(true, false, Internal)],
              members := WithAdministrators(s.members, domain, administrators)))
  }

  function AssignUserDomain(s: State, actor: User, user: User, domain: DomainId): Option<State> {
    if actor !in s.platform || !IsActiveDomain(s, domain) || !IsActive(s, user) then None
    else if user in s.platform || HoldsRole(s, user, DomainAdmin) then None
    else Some(s.(members := s.members[(domain, user) := Member]))
  }

  function RevokeUserDomain(s: State, actor: User, user: User, domain: DomainId): Option<State> {
    if actor !in s.platform || (domain, user) !in s.members || Administers(s, user, domain) then None
    else Some(s.(members := s.members - {(domain, user)}))
  }

  function UpdateDomainAccessSensitivity(
    s: State, actor: User, domain: DomainId, sensitivity: Sensitivity): Option<State>
  {
    if actor !in s.platform || domain !in s.domains then None
    else Some(s.(domains := s.domains[domain := s.domains[domain].(sensitivity := sensitivity)]))
  }

  function UpdateDomainStatus(s: State, actor: User, domain: DomainId, active: bool): Option<State> {
    if actor !in s.platform || domain !in s.domains || (s.domains[domain].isDefault && !active) then None
    else Some(s.(domains := s.domains[domain := s.domains[domain].(active := active)]))
  }

  function WithoutUser(members: map<(DomainId, User), MemberRole>, user: User): map<(DomainId, User), MemberRole> {
    map key | key in members && key.1 != user :: members[key]
  }

  function SetPlatformAdministrator(s: State, actor: User, user: User, enabled: bool): Option<State> {
    if actor !in s.platform || !IsActive(s, user) then None
    else if enabled then
      if HoldsRole(s, user, DomainAdmin) then None
      else Some(s.(members := WithoutUser(s.members, user), platform := s.platform + {user}))
    else if user in s.platform && |s.platform| <= 1 then None
    else Some(s.(platform := s.platform - {user}))
  }

  predicate MayAdminister(s: State, user: User, domain: DomainId) {
    IsActive(s, user) && user !in s.platform && !HoldsMembershipElsewhere(s, user, domain)
  }

  function KeptAdministrators(
    members: map<(DomainId, User), MemberRole>, domain: DomainId, administrators: set<User>)
    : map<(DomainId, User), MemberRole>
  {
    map key | key in members && !(key.0 == domain && members[key] == DomainAdmin && key.1 !in administrators) ::
        members[key]
  }

  function ReplaceDomainAdministrators(
    s: State, actor: User, domain: DomainId, administrators: set<User>): Option<State>
  {
    if administrators == {} || actor !in s.platform || domain !in s.domains then None
    else if exists user | user in administrators :: !MayAdminister(s, user, domain) then None
    else
      Some(s.(members :=
          WithAdministrators(KeptAdministrators(s.members, domain, administrators), domain, administrators)))
  }

  // ---- Applications -----------------------------------------------------------------------------------------------

  predicate RequiresDualApproval(sensitivity: Sensitivity) {
    sensitivity == Confidential || sensitivity == Restricted
  }

  predicate PendingFor(s: State, id: ApplicationId, applicant: User, domain: DomainId) {
    id in s.applications && s.applications[id].status == Pending
    && s.applications[id].applicant == applicant && s.applications[id].domain == domain
  }

  /** A second submission merges into the pending one and refreshes its reason only; id names the new row otherwise. */
  function ApplyDomainAccess(
    s: State, applicant: User, domain: DomainId, reason: string, id: ApplicationId, now: int): Option<State>
  {
    if |reason| > 1000 || !IsActiveDomain(s, domain) || !IsActive(s, applicant) then None
    else if applicant in s.platform || (domain, applicant) in s.members then None
    else if exists other | other in s.applications :: PendingFor(s, other, applicant, domain) then
      Some(s.(applications := map other | other in s.applications ::
        if PendingFor(s, other, applicant, domain)
        then s.applications[other].(reason := reason)
        else s.applications[other]))
    else if id in s.applications then None
    else
      Some(s.(applications := s.applications[id := Application(
        domain, applicant, reason, Pending, RequiresDualApproval(s.domains[domain].sensitivity),
        now + REVIEW_WINDOW, 0, [])]))
  }

  function WithdrawDomainApplication(s: State, applicant: User, id: ApplicationId): Option<State> {
    if id !in s.applications || s.applications[id].applicant != applicant || s.applications[id].status != Pending
    then None
    else Some(s.(applications := s.applications[id := s.applications[id].(status := Cancelled)]))
  }

  predicate MayReview(s: State, reviewer: User, domain: DomainId) {
    reviewer in s.platform || (IsActiveDomain(s, domain) && Administers(s, reviewer, domain))
  }

  /** The two unique constraints on receipts: one seat a reviewer, one reviewer a seat. */
  predicate SeatIsFree(receipts: seq<Receipt>, reviewer: User, seat: Seat) {
    forall i | 0 <= i < |receipts| :: receipts[i].reviewer != reviewer && receipts[i].seat != seat
  }

  predicate Approves(receipts: seq<Receipt>, seat: Seat) {
    exists i | 0 <= i < |receipts| :: receipts[i].approved && receipts[i].seat == seat
  }

  /** One rejection decides; approval needs every required seat. */
  predicate Decides(dual: bool, receipts: seq<Receipt>, approve: bool) {
    !approve || !dual || (Approves(receipts, Owner) && Approves(receipts, Security))
  }

  function Sign(s: State, application: Application, reviewer: User, approve: bool, seat: Seat): seq<Receipt> {
    application.receipts + [Receipt(reviewer, seat, approve, reviewer in s.platform)]
  }

  /** A membership follows an approval, in the role the applicant already has; a platform administrator needs none. */
  function Admitted(s: State, application: Application): map<(DomainId, User), MemberRole> {
    var applicant := application.applicant;
    if applicant in s.platform then s.members
    else
      s.members[(application.domain, applicant) :=
        if HoldsRole(s, applicant, DomainAdmin) then DomainAdmin else Member]
  }

  function ReviewDomainApplication(
    s: State, reviewer: User, id: ApplicationId, approve: bool, seat: Seat): Option<State>
  {
    if id !in s.applications || s.applications[id].status != Pending then None
    else
      var application := s.applications[id];
      var receipts := Sign(s, application, reviewer, approve, seat);
      if !application.dual && seat != Owner then None
      else if reviewer == application.applicant || !MayReview(s, reviewer, application.domain) then None
      else if seat == Security && reviewer !in s.platform then None
      else if !SeatIsFree(application.receipts, reviewer, seat) then None
      else if approve && HoldsRole(s, application.applicant, DomainAdmin)
              && !Administers(s, application.applicant, application.domain) && reviewer !in s.platform then None
      else if !Decides(application.dual, receipts, approve) then
        Some(s.(applications := s.applications[id := application.(receipts := receipts)]))
      else
        Some(s.(applications := s.applications[id :=
                  application.(receipts := receipts, status := if approve then Approved else Rejected)],
                members := if approve then Admitted(s, application) else s.members))
  }

  function EscalateDomainApplication(s: State, actor: User, id: ApplicationId, now: int): Option<State> {
    if id !in s.applications then None
    else
      var application := s.applications[id];
      if application.status != Pending || application.level >= MAX_ESCALATION || now < application.dueAt then None
      else if !MayReview(s, actor, application.domain) then None
      else Some(s.(applications := s.applications[id := application.(level := application.level + 1)]))
  }
}
