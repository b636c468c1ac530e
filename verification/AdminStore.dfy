/**
 * The store behind the administration pages; each method is one transaction and returns false when it is rolled back.
 */
module AdminStore {
  import opened FiniteSets
  import opened Prelude
  import opened Governance = DomainGovernance
  import opened GovernanceRuns

  class Store {
    var users: map<User, bool>
    var platform: set<User>
    var domains: map<DomainId, Domain>
    var members: map<(DomainId, User), MemberRole>
    var applications: map<ApplicationId, Application>

    function View(): State
      reads this
    {
      State(users, platform, domains, members, applications)
    }

    /** The invariant of every run: the theorems about runs hold of each state the store goes through. */
    ghost predicate Valid()
      reads this
    {
      Invariant(View())
    }

    constructor (tables: State)
      requires Invariant(tables)
      ensures Valid() && View() == tables
    {
      users, platform, domains := tables.users, tables.platform, tables.domains;
      members, applications := tables.members, tables.applications;
    }

    method UpdateUserStatus(actor: User, user: User, active: bool) returns (ok: bool)
      requires Valid()
      modifies `users
      ensures Valid()
      ensures ok == Outcome(old(View()), SetUserStatus(actor, user, active)).Some?
      ensures View() == Step(old(View()), SetUserStatus(actor, user, active))
      ensures ok <==> actor in platform && user in old(users)
                      && (active || (user !in platform && !HoldsRole(old(View()), user, DomainAdmin)))
      ensures ok ==> users == old(users)[user := active]
    {
      StepKeepsInvariant(View(), SetUserStatus(actor, user, active));
      if actor !in platform || user !in users {
        return false;
      }
      if users[user] == active {
        return true;
      }
      if !active {
        if user == actor || user in platform {
          return false;
        }
        var domainAdministrator := HoldsRole(View(), user, DomainAdmin);
        if domainAdministrator {
          return false;
        }
      }
      users := users[user := active];
      return true;
    }

    method CreateDomain(actor: User, domain: DomainId, administrators: set<User>) returns (ok: bool)
      requires Valid()
      modifies `domains, `members
      ensures Valid()
      ensures ok == Outcome(old(View()), Create(actor, domain, administrators)).Some?
      ensures View() == Step(old(View()), Create(actor, domain, administrators))
      ensures ok <==> actor in platform && domain !in old(domains)
                      && forall user | user in administrators :: MayAdministerNewDomain(old(View()), user)
      ensures ok ==> forall user :: Administers(View(), user, domain) <==>
                                    user in administrators || Administers(old(View()), user, domain)
    {
      StepKeepsInvariant(View(), Create(actor, domain, administrators));
      if actor !in platform {
        return false;
      }
      var valid := set user | user in administrators && MayAdministerNewDomain(View(), user);
      SubsetOfSameSize(valid, administrators);
      if |valid| != |administrators| || domain in domains {
        return false;
      }
      domains := domains[domain := Domain(true, false, Internal)];
      members := WithAdministrators(members, domain, administrators);
      return true;
    }

    method AssignUserDomain(actor: User, user: User, domain: DomainId) returns (ok: bool)
      requires Valid()
      modifies `members
      ensures Valid()
      ensures ok == Outcome(old(View()), Assign(actor, user, domain)).Some?
      ensures View() == Step(old(View()), Assign(actor, user, domain))
      ensures ok <==> actor in platform && IsActiveDomain(View(), domain) && IsActive(View(), user)
                      && user !in platform && !HoldsRole(old(View()), user, DomainAdmin)
      ensures ok ==> HoldsRole(View(), user, Member) && !HoldsRole(View(), user, DomainAdmin) && user !in platform
      ensures ok ==> members.Keys == old(members).Keys + {(domain, user)}
      ensures ok ==> forall key | key in old(members) :: members[key] == old(members)[key]
    {
      StepKeepsInvariant(View(), Assign(actor, user, domain));
      if actor !in platform {
        return false;
      }
      if IsActiveDomain(View(), domain) && IsActive(View(), user) && user !in platform
          && !HoldsRole(View(), user, DomainAdmin) {
        members := members[(domain, user) := Member];
        assert (domain, user) in members && members[(domain, user)] == Member;
        return true;
      }
      return false;
    }

    method RevokeUserDomain(actor: User, user: User, domain: DomainId) returns (ok: bool)
      requires Valid()
      modifies `members
      ensures Valid()
      ensures ok == Outcome(old(View()), Revoke(actor, user, domain)).Some?
      ensures View() == Step(old(View()), Revoke(actor, user, domain))
      ensures ok <==> actor in platform && (domain, user) in old(members) && !Administers(old(View()), user, domain)
      ensures ok ==> (domain, user) !in members
      ensures ok ==> members == map key | key in old(members) && key != (domain, user) :: old(members)[key]
      ensures forall other :: HasAdministrator(View(), other) <==> HasAdministrator(old(View()), other)
    {
      StepKeepsInvariant(View(), Revoke(actor, user, domain));
      if actor !in platform || (domain, user) !in members || members[(domain, user)] == DomainAdmin {
        return false;
      }
      members := members - {(domain, user)};
      forall other | HasAdministrator(old(View()), other)
        ensures HasAdministrator(View(), other)
      {
        var key :| key in old(members) && key.0 == other && old(members)[key] == DomainAdmin;
        assert key in members;
      }
      return true;
    }

    method UpdateDomainAccessSensitivity(actor: User, domain: DomainId, sensitivity: Sensitivity) returns (ok: bool)
      requires Valid()
      modifies `domains
      ensures Valid()
      ensures ok == Outcome(old(View()), SetSensitivity(actor, domain, sensitivity)).Some?
      ensures View() == Step(old(View()), SetSensitivity(actor, domain, sensitivity))
      ensures ok ==> domain in domains && domains[domain].sensitivity == sensitivity
      ensures forall other :: IsActiveDomain(View(), other) <==> IsActiveDomain(old(View()), other)
      ensures forall review: Operation | review.Review? ::
                Outcome(View(), review).Some? <==> Outcome(old(View()), review).Some?
    {
      StepKeepsInvariant(View(), SetSensitivity(actor, domain, sensitivity));
      NoReviewIsAffected(
        View(), Step(View(), SetSensitivity(actor, domain, sensitivity)), SetSensitivity(actor, domain, sensitivity));
      if actor !in platform || domain !in domains {
        return false;
      }
      domains := domains[domain := domains[domain].(sensitivity := sensitivity)];
      return true;
    }

    method UpdateDomainStatus(actor: User, domain: DomainId, active: bool) returns (ok: bool)
      requires Valid()
      modifies `domains
      ensures Valid()
      ensures ok == Outcome(old(View()), SetDomainStatus(actor, domain, active)).Some?
      ensures View() == Step(old(View()), SetDomainStatus(actor, domain, active))
      ensures ok ==> forall review: Operation | ReviewsIn(applications, review, domain) ::
                Outcome(View(), review).Some?
                <==> Reviewable(View(), review)
                     && (review.reviewer in platform || (active && Administers(View(), review.reviewer, domain)))
      ensures ok && !active ==> forall op: Operation | (op.Assign? || op.Apply?) && op.domain == domain ::
                Outcome(View(), op).None?
      ensures forall other | other != domain :: IsActiveDomain(View(), other) <==> IsActiveDomain(old(View()), other)
    {
      StepKeepsInvariant(View(), SetDomainStatus(actor, domain, active));
      if actor !in platform || domain !in domains || (domains[domain].isDefault && !active) {
        return false;
      }
      domains := domains[domain := domains[domain].(active := active)];
      ReviewersOf(View(), domain);
      return true;
    }

    method SetPlatformAdministrator(actor: User, user: User, enabled: bool) returns (ok: bool)
      requires Valid()
      modifies `platform, `members
      ensures Valid()
      ensures ok == Outcome(old(View()), SetPlatform(actor, user, enabled)).Some?
      ensures View() == Step(old(View()), SetPlatform(actor, user, enabled))
      ensures platform ==
              if !ok then old(platform) else if enabled then old(platform) + {user} else old(platform) - {user}
      ensures !enabled ==> (ok <==> actor in old(platform) && IsActive(old(View()), user)
                                    && exists other | other in old(platform) :: other != user)
      ensures enabled ==> (ok <==> actor in old(platform) && IsActive(old(View()), user)
                                   && !HoldsRole(old(View()), user, DomainAdmin))
      ensures !enabled ==> members == old(members)
      ensures enabled && ok ==> !HoldsRole(View(), user, Member) && !HoldsRole(View(), user, DomainAdmin)
      ensures forall domain :: HasAdministrator(View(), domain) <==> HasAdministrator(old(View()), domain)
    {
      ghost var change := SetPlatform(actor, user, enabled);
      StepKeepsInvariant(View(), change);
      forall domain | HasAdministrator(View(), domain)
        ensures HasAdministrator(Step(View(), change), domain)
      {
        DomainKeepsAnAdministrator(View(), change, domain);
      }
      if actor !in platform || !IsActive(View(), user) {
        return false;
      }
      if enabled {
        var domainAdministrator := HoldsRole(View(), user, DomainAdmin);
        if domainAdministrator {
          return false;
        }
        members := WithoutUser(members, user);
        platform := platform + {user};
        return true;
      }
      var isAssigned, lastAdministrator := user in platform, |platform| <= 1;
      SomeoneElse(platform, user);
      if isAssigned && lastAdministrator {
        return false;
      }
      if isAssigned {
        platform := platform - {user};
      }
      assert !isAssigned ==> platform - {user} == platform;
      return true;
    }

    method ReplaceDomainAdministrators(actor: User, domain: DomainId, administrators: set<User>) returns (ok: bool)
      requires Valid()
      modifies `members
      ensures Valid()
      ensures ok == Outcome(old(View()), Replace(actor, domain, administrators)).Some?
      ensures View() == Step(old(View()), Replace(actor, domain, administrators))
      ensures ok <==> actor in platform && domain in domains && administrators != {}
                      && forall user | user in administrators :: MayAdminister(old(View()), user, domain)
    {
      ghost var before := View();
      if |administrators| == 0 || actor !in platform {
        return false;
      }
      var valid := set user | user in administrators && MayAdminister(View(), user, domain);
      SubsetOfSameSize(valid, administrators);
      if |valid| != |administrators| || domain !in domains {
        return false;
      }
      members := KeptAdministrators(members, domain, administrators);
      members := WithAdministrators(members, domain, administrators);
      StepsKeepInvariant(before, View(), Replace(actor, domain, administrators));
      return true;
    }

    method ApplyDomainAccess(applicant: User, domain: DomainId, reason: string, id: ApplicationId, now: int)
      returns (ok: bool)
      requires Valid()
      modifies `applications
      ensures Valid()
      ensures ok == Outcome(old(View()), Apply(applicant, domain, reason, id, now)).Some?
      ensures View() == Step(old(View()), Apply(applicant, domain, reason, id, now))
    {
      ghost var before := View();
      ok := MergeOrInsertApplication(applicant, domain, reason, id, now);
      StepsKeepInvariant(before, View(), Apply(applicant, domain, reason, id, now));
    }

    method MergeOrInsertApplication(applicant: User, domain: DomainId, reason: string, id: ApplicationId, now: int)
      returns (ok: bool)
      modifies `applications
      ensures ok == Governance.ApplyDomainAccess(old(View()), applicant, domain, reason, id, now).Some?
      ensures View() ==
              if ok then Governance.ApplyDomainAccess(old(View()), applicant, domain, reason, id, now).value
              else old(View())
    {
      if |reason| > 1000 || !IsActiveDomain(View(), domain) || !IsActive(View(), applicant) {
        return false;
      }
      if applicant in platform || (domain, applicant) in members {
        return false;
      }
      var duplicates := set other | other in applications && PendingFor(View(), other, applicant, domain);
      assert forall other | other in applications && PendingFor(View(), other, applicant, domain) ::
          other in duplicates;
      if duplicates != {} {
        var some :| some in duplicates;
        applications := map other | other in applications ::
          if other in duplicates then applications[other].(reason := reason) else applications[other];
        return true;
      }
      if id in applications {
        return false;
      }
      var dual := RequiresDualApproval(domains[domain].sensitivity);
      applications :=
          applications[id := Application(domain, applicant, reason, Pending, dual, now + REVIEW_WINDOW, 0, [])];
      return true;
    }

    method WithdrawDomainApplication(applicant: User, id: ApplicationId) returns (ok: bool)
      requires Valid()
      modifies `applications
      ensures Valid()
      ensures ok == Outcome(old(View()), Withdraw(applicant, id)).Some?
      ensures View() == Step(old(View()), Withdraw(applicant, id))
      ensures ok ==> IsWithdrawn(old(View()), View(), applicant, id)
    {
      ghost var before := View();
      ok := CancelApplication(applicant, id);
      StepsKeepInvariant(before, View(), Withdraw(applicant, id));
      WithdrawalIsFinal(before, View(), Withdraw(applicant, id), ok);
    }

    method CancelApplication(applicant: User, id: ApplicationId) returns (ok: bool)
      modifies `applications
      ensures ok == Outcome(old(View()), Withdraw(applicant, id)).Some?
      ensures View() == Step(old(View()), Withdraw(applicant, id))
    {
      if id !in applications || applications[id].applicant != applicant || applications[id].status != Pending {
        return false;
      }
      applications := applications[id := applications[id].(status := Cancelled)];
      return true;
    }

    method ReviewDomainApplication(reviewer: User, id: ApplicationId, approve: bool, seat: Seat) returns (ok: bool)
      requires Valid()
      modifies `applications, `members
      ensures Valid()
      ensures ok == Outcome(old(View()), Review(reviewer, id, approve, seat)).Some?
      ensures View() == Step(old(View()), Review(reviewer, id, approve, seat))
      ensures ok <==> Reviewable(old(View()), Review(reviewer, id, approve, seat))
                      && HasAuthority(old(View()), reviewer, old(applications)[id].domain)
    {
      ReviewsNeedAuthority(View(), Review(reviewer, id, approve, seat));
      ghost var before := View();
      ok := SignAndDecide(reviewer, id, approve, seat);
      StepsKeepInvariant(before, View(), Review(reviewer, id, approve, seat));
    }

    /** The receipt is appended before the decision is known; an error after that takes it back. */
    method SignAndDecide(reviewer: User, id: ApplicationId, approve: bool, seat: Seat) returns (ok: bool)
      modifies `applications, `members
      ensures ok == Governance.ReviewDomainApplication(old(View()), reviewer, id, approve, seat).Some?
      ensures View() ==
              if ok then Governance.ReviewDomainApplication(old(View()), reviewer, id, approve, seat).value
              else old(View())
    {
      if id !in applications || applications[id].status != Pending {
        return false;
      }
      var application := applications[id];
      if (!application.dual && seat != Owner) || reviewer == application.applicant {
        return false;
      }
      if !MayReview(View(), reviewer, application.domain) || (seat == Security && reviewer !in platform) {
        return false;
      }
      if !SeatIsFree(application.receipts, reviewer, seat) {
        return false;
      }
      var before := View();
      var receipt := Receipt(reviewer, seat, approve, reviewer in platform);
      application := application.(receipts := application.receipts + [receipt]);
      applications := applications[id := application];
      var applicantAdministers := HoldsRole(before, application.applicant, DomainAdmin);
      if approve && applicantAdministers && !Administers(before, application.applicant, application.domain)
         && reviewer !in platform {
        applications := before.applications;
        return false;
      }
      if !Decides(application.dual, application.receipts, approve) {
        return true;
      }
      applications := applications[id := application.(status := if approve then Approved else Rejected)];
      if approve && application.applicant !in platform {
        var role := if applicantAdministers then DomainAdmin else Member;
        members := members[(application.domain, application.applicant) := role];
      }
      return true;
    }

    method EscalateDomainApplication(actor: User, id: ApplicationId, now: int) returns (ok: bool)
      requires Valid()
      modifies `applications
      ensures Valid()
      ensures ok == Outcome(old(View()), Escalate(actor, id, now)).Some?
      ensures View() == Step(old(View()), Escalate(actor, id, now))
      ensures ok ==> id in applications && id in old(applications)
                     && applications[id].level == old(applications)[id].level + 1 <= MAX_ESCALATION
                     && applications[id].status == Pending
                     && applications[id].receipts == old(applications)[id].receipts
                     && HasAuthority(old(View()), actor, old(applications)[id].domain)
      ensures forall review: Operation | review.Review? ::
                Outcome(View(), review).Some? <==> Outcome(old(View()), review).Some?
    {
      ghost var before := View();
      if id !in applications {
        return false;
      }
      var application := applications[id];
      if application.status != Pending || application.level >= MAX_ESCALATION || now < application.dueAt
         || !MayReview(View(), actor, application.domain) {
        return false;
      }
      applications := applications[id := application.(level := application.level + 1)];
      assert View() == Step(before, Escalate(actor, id, now));
      StepsKeepInvariant(before, View(), Escalate(actor, id, now));
      NoReviewIsAffected(before, View(), Escalate(actor, id, now));
      return true;
    }
  }

  /** The two queries of the last-administrator check together ask whether somebody else remains. */
  lemma SomeoneElse<T>(all: set<T>, one: T)
    requires all != {}
    ensures !(one in all && |all| <= 1) <==> exists other | other in all :: other != one
  {
    if one in all {
      assert |all - {one}| == |all| - 1;
      if other :| other in all && other != one {
        assert other in all - {one};
      }
    }
  }

  lemma StepsKeepInvariant(s: State, r: State, op: Operation)
    requires Invariant(s) && r == Step(s, op)
    ensures Invariant(r)
  {
    StepKeepsInvariant(s, op);
  }

  predicate ReviewsIn(applications: map<ApplicationId, Application>, review: Operation, domain: DomainId) {
    review.Review? && review.id in applications && applications[review.id].domain == domain
  }

  lemma ReviewersOf(s: State, domain: DomainId)
    requires domain in s.domains
    ensures forall review: Operation | ReviewsIn(s.applications, review, domain) ::
              Outcome(s, review).Some?
              <==> Reviewable(s, review)
                   && (review.reviewer in s.platform
                       || (s.domains[domain].active && Administers(s, review.reviewer, domain)))
  {
    forall review: Operation | ReviewsIn(s.applications, review, domain)
      ensures Outcome(s, review).Some?
         <==> Reviewable(s, review)
              && (review.reviewer in s.platform
                  || (s.domains[domain].active && Administers(s, review.reviewer, domain)))
    {
      ReviewsNeedAuthority(s, review);
    }
  }

  lemma NoReviewIsAffected(s: State, r: State, op: Operation)
    requires r == Step(s, op) && (op.Escalate? || op.SetSensitivity?)
    ensures forall review: Operation | review.Review? :: Outcome(r, review).Some? <==> Outcome(s, review).Some?
  {
    forall review: Operation | review.Review?
      ensures Outcome(r, review).Some? <==> Outcome(s, review).Some?
    {
      ReviewsAreUnaffected(s, op, review);
    }
  }

  /** Its signatures stay, no later operation on it succeeds, and nothing of the user's is pending there any more. */
  ghost predicate IsWithdrawn(s: State, r: State, applicant: User, id: ApplicationId) {
    && id in s.applications && id in r.applications && r.applications[id].status == Cancelled
    && r.applications[id].receipts == s.applications[id].receipts
    && (forall other :: !PendingFor(r, other, applicant, r.applications[id].domain))
    && (forall op: Operation | (op.Review? || op.Escalate? || op.Withdraw?) && op.id == id :: Outcome(r, op).None?)
  }

  lemma WithdrawalIsFinal(s: State, r: State, op: Operation, ok: bool)
    requires OnePendingEach(s) && op.Withdraw? && r == Step(s, op) && ok == Outcome(s, op).Some?
    ensures ok ==> IsWithdrawn(s, r, op.applicant, op.id)
  {
    if ok {
      OnlyPending(s, op.id);
    }
  }

  lemma OnlyPending(s: State, id: ApplicationId)
    requires OnePendingEach(s) && id in s.applications && s.applications[id].status == Pending
    ensures forall other | other != id :: !PendingFor(s, other, s.applications[id].applicant, s.applications[id].domain)
  {
  }
}
