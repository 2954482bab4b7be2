/** What each request of user administration writes, and what keeps addresses and
    invitations unique within a tenant. */
module UserRequests {
  import opened Text
  import opened Users

  // ---------- What is written ----------

  /** A new address founds a tenant and is its active administrator. */
  lemma RegisterMeans(s: State, email: string)
    ensures var (n, outcome) := Apply(s, RegisterTenant(email));
      && (outcome == Done <==> forall i :: 0 <= i < |s.users| ==> s.users[i].email != email)
      && n == if outcome == Done
              then s.(tenants := s.tenants + [true], users := s.users + [User(Some(|s.tenants|), email, ADMIN, ACTIVE)]) else s
  {
  }

  /** Only an active administrator of the tenant creates administrators; a password
      makes the user active, and without one the user is invited. */
  lemma CreateMeans(s: State, tenant: nat, actor: nat, email: string, role: Role, withPassword: bool)
    ensures var (n, outcome) := Apply(s, CreateUser(tenant, actor, email, role, withPassword));
      && (outcome == Forbidden <==>
            role == ADMIN && !(actor < |s.users| && s.users[actor].tenant == Some(tenant)
                               && s.users[actor].role == ADMIN && s.users[actor].status == ACTIVE))
      && (outcome == Done || outcome == Conflict || outcome == Forbidden)
      && (outcome == Conflict ==> exists i :: 0 <= i < |s.users| && s.users[i].tenant == Some(tenant) && s.users[i].email == email)
      && (outcome == Done ==> forall i :: 0 <= i < |s.users| ==> !(s.users[i].tenant == Some(tenant) && s.users[i].email == email))
      && (outcome == Done && withPassword ==> n == s.(users := s.users + [User(Some(tenant), email, role, ACTIVE)]))
      && (outcome == Done && !withPassword ==> n == s.(users := s.users + [User(Some(tenant), email, role, INVITED)]))
      && (outcome != Done ==> n == s)
  {
  }

  /** An invitation is open until it expires, and a second one to the same address
      replaces the open one. */
  lemma InviteMeans(s: State, tenant: nat, email: string, role: Role, expiresAt: int)
    ensures var (n, outcome) := Apply(s, Invite(tenant, email, role, expiresAt));
      && (outcome == Done <==>
            forall i :: 0 <= i < |s.users| && s.users[i].tenant == Some(tenant) && s.users[i].email == email ==> s.users[i].status == DELETED)
      && (outcome != Done ==> n == s)
      && (outcome == Done ==>
            && n == s.(invitations := n.invitations)
            && (exists i :: 0 <= i < |n.invitations| && n.invitations[i] == Invitation(tenant, email, role, expiresAt, true))
            && |s.invitations| <= |n.invitations| <= |s.invitations| + 1
            && forall i :: 0 <= i < |s.invitations| && !(s.invitations[i].pending && s.invitations[i].tenant == tenant && s.invitations[i].email == email)
                 ==> n.invitations[i] == s.invitations[i])
  {
    var at := FindPending(s.invitations, tenant, email);
    var n := Apply(s, Invite(tenant, email, role, expiresAt)).0;
    if n != s {
      assert n.invitations[if at >= 0 then at else |s.invitations|] == Invitation(tenant, email, role, expiresAt, true);
    }
  }

  /** Accepting makes one active user with the invitation's tenant, address and role,
      and uses the invitation up. */
  lemma AcceptMeans(s: State, id: nat, now: int)
    ensures var (n, outcome) := Apply(s, AcceptInvite(id, now));
      && (outcome == BadRequest <==> id >= |s.invitations| || !s.invitations[id].pending || s.invitations[id].expiresAt <= now)
      && (outcome == Done || outcome == Conflict || outcome == BadRequest)
      && (outcome == Conflict ==>
            exists i :: 0 <= i < |s.users| && s.users[i].tenant == Some(s.invitations[id].tenant) && s.users[i].email == s.invitations[id].email)
      && (outcome == Done ==>
            var i := s.invitations[id];
            && (forall k :: 0 <= k < |s.users| ==> !(s.users[k].tenant == Some(i.tenant) && s.users[k].email == i.email))
            && n.users == s.users + [User(Some(i.tenant), i.email, i.role, ACTIVE)]
            && n.invitations == s.invitations[id := i.(pending := false)]
            && n.tenants == s.tenants && n.completions == s.completions
            && Apply(n, AcceptInvite(id, now)).1 == BadRequest)
      && (outcome != Done ==> n == s)
  {
  }

  /** An update writes the role and the status it names, and nothing else. */
  lemma UpdateMeans(s: State, tenant: nat, actor: nat, target: nat, role: Option<Role>, status: Option<Status>)
    ensures var (n, outcome) := Apply(s, UpdateUser(tenant, actor, target, role, status));
      && (outcome == NotFound <==> target >= |s.users| || s.users[target].tenant != Some(tenant))
      && (outcome == NotFound || outcome == Forbidden || outcome == Done)
      && (outcome == Done ==>
            && n == s.(users := n.users) && |n.users| == |s.users|
            && (forall i :: 0 <= i < |s.users| && i != target ==> n.users[i] == s.users[i])
            && n.users[target].tenant == s.users[target].tenant && n.users[target].email == s.users[target].email
            && n.users[target].role == (if role.Some? then role.value else s.users[target].role)
            && n.users[target].status == (if status.Some? then status.value else s.users[target].status))
      && (outcome != Done ==> n == s)
  {
    hide CountAdmins;
  }

  predicate ActiveAdmin(s: State, tenant: nat, id: nat) {
    && id < |s.users| && s.users[id].tenant == Some(tenant)
    && s.users[id].role == ADMIN && s.users[id].status == ACTIVE
  }

  /** An update is forbidden exactly when it makes an administrator without being one,
      or takes the tenant's only active administrator away. */
  lemma UpdateForbidden(s: State, tenant: nat, actor: nat, target: nat, role: Option<Role>, status: Option<Status>)
    requires target < |s.users| && s.users[target].tenant == Some(tenant)
    ensures Apply(s, UpdateUser(tenant, actor, target, role, status)).1 == Forbidden <==>
      || (role == Some(ADMIN) && !ActiveAdmin(s, tenant, actor))
      || (ActiveAdmin(s, tenant, target) && (role == Some(MANAGER) || role == Some(OPERATOR) || (status.Some? && status != Some(ACTIVE)))
          && forall i :: 0 <= i < |s.users| && i != target ==> !ActiveAdmin(s, tenant, i))
  {
    hide CountAdmins;
    assert forall i: nat :: ActiveAdmin(s, tenant, i) <==> i < |s.users| && IsActiveAdmin(s.users[i], tenant);
    hide ActiveAdmin, IsActiveAdmin;
    if ActiveAdmin(s, tenant, target) {
      OneAdmin(s.users, tenant, target);
    }
  }

  /** One administrator is counted exactly when there is no other. */
  lemma {:induction false} OneAdmin(users: seq<User>, tenant: nat, target: nat)
    requires target < |users| && IsActiveAdmin(users[target], tenant)
    ensures CountAdmins(users, tenant) <= 1 <==> forall i :: 0 <= i < |users| && i != target ==> !IsActiveAdmin(users[i], tenant)
  {
    hide IsActiveAdmin;
    var front := users[..|users| - 1];
    if target < |front| {
      OneAdmin(front, tenant, target);
      SomeAdmin(front, tenant);
    } else {
      SomeAdmin(front, tenant);
    }
    assert forall i :: 0 <= i < |front| ==> front[i] == users[i];
  }

  lemma {:induction false} SomeAdmin(users: seq<User>, tenant: nat)
    ensures CountAdmins(users, tenant) > 0 <==> exists i :: 0 <= i < |users| && IsActiveAdmin(users[i], tenant)
  {
    hide IsActiveAdmin;
    if users != [] {
      var front := users[..|users| - 1];
      SomeAdmin(front, tenant);
      assert forall i :: 0 <= i < |front| ==> front[i] == users[i];
    }
  }

  /** Only pending and invited users are approved, with the role given. */
  lemma ApproveMeans(s: State, tenant: nat, target: nat, role: Role)
    ensures var (n, outcome) := Apply(s, Approve(tenant, target, role));
      && (outcome == Done <==>
            && target < |s.users| && s.users[target].tenant == Some(tenant)
            && (s.users[target].status == PENDING || s.users[target].status == INVITED))
      && (outcome == Done ==> n == s.(users := s.users[target := User(Some(tenant), s.users[target].email, role, ACTIVE)]))
      && (outcome != Done ==> n == s)
  {
  }

  /** Signing up by OAuth leaves an incomplete user without a tenant, and completing
      makes it a pending operator of the tenant chosen. */
  lemma OAuthMeans(s: State, email: string, expiresAt: int, completion: nat, tenant: nat, now: int)
    ensures var (n, outcome) := Apply(s, RegisterOAuth(email, expiresAt));
      && (outcome == Done <==> forall i :: 0 <= i < |s.users| && s.users[i].email == email ==> s.users[i].status == DELETED)
      && (outcome == Done ==>
            && n.users == s.users + [User(None, email, OPERATOR, INCOMPLETE)]
            && n.completions == s.completions + [Completion(|s.users|, expiresAt, false)])
    ensures var (n, outcome) := Apply(s, CompleteOAuth(completion, tenant, now));
      && (outcome == Done <==>
            && completion < |s.completions| && !s.completions[completion].used && s.completions[completion].expiresAt > now
            && tenant < |s.tenants| && s.tenants[tenant] && s.completions[completion].user < |s.users|
            && forall i :: 0 <= i < |s.users| && i != s.completions[completion].user && s.users[i].tenant == Some(tenant)
                 ==> s.users[i].email != s.users[s.completions[completion].user].email)
      && (outcome == Done ==>
            var c := s.completions[completion];
            && n.users == s.users[c.user := User(Some(tenant), s.users[c.user].email, OPERATOR, PENDING)]
            && n.completions == s.completions[completion := c.(used := true)]
            && Apply(n, CompleteOAuth(completion, tenant, now)).1 == BadRequest)
      && (outcome != Done ==> n == s)
  {
  }

  /** A new completion token is for users who are still incomplete. */
  lemma ResumeMeans(s: State, user: nat, expiresAt: int)
    ensures var (n, outcome) := Apply(s, ResumeOAuth(user, expiresAt));
      && (outcome == Done <==> user < |s.users| && s.users[user].status == INCOMPLETE)
      && n == if outcome == Done then s.(completions := s.completions + [Completion(user, expiresAt, false)]) else s
  {
  }

  // ---------- Uniqueness ----------

  /** Two open invitations of one tenant to one address. */
  predicate SameOpen(a: Invitation, b: Invitation) {
    a.pending && b.pending && a.tenant == b.tenant && a.email == b.email
  }

  /** No address twice in a tenant, and no two open invitations to one. */
  predicate Unique(s: State) {
    && (forall i, j :: 0 <= i < j < |s.users| && s.users[i].tenant.Some? && s.users[i].tenant == s.users[j].tenant ==>
          s.users[i].email != s.users[j].email)
    && (forall i, j :: 0 <= i < j < |s.invitations| ==> !SameOpen(s.invitations[i], s.invitations[j]))
  }

  lemma InviteUnique(s: State, action: Action)
    requires Unique(s) && action.Invite?
    ensures Unique(Apply(s, action).0)
  {
    var n, at := Apply(s, action).0, FindPending(s.invitations, action.tenant, action.email);
    if n != s {
      var place := if at >= 0 then at else |s.invitations|;
      forall i | 0 <= i < |n.invitations| && i != place ensures !SameOpen(n.invitations[i], n.invitations[place]) {
        assert n.invitations[i] == s.invitations[i];
        if at >= 0 {
          assert !SameOpen(s.invitations[if i < at then i else at], s.invitations[if i < at then at else i]);
        } else {
          assert !PendingInvitation(s.invitations, i, action.tenant, action.email);
        }
      }
      forall i, j | 0 <= i < j < |n.invitations| ensures !SameOpen(n.invitations[i], n.invitations[j]) {
        if i != place && j != place {
          assert !SameOpen(s.invitations[i], s.invitations[j]);
        } else if i == place {
          assert !SameOpen(n.invitations[j], n.invitations[place]);
        }
      }
    }
  }

  lemma StepUnique(s: State, action: Action)
    requires Unique(s)
    ensures Unique(Apply(s, action).0)
  {
    hide CountAdmins, IsActiveAdmin, ActorIsAdmin, FindPending;
    if action.Invite? {
      InviteUnique(s, action);
    }
  }

  /** In every run addresses stay unique within each tenant, and so do open invitations. */
  lemma {:induction false} AlwaysUnique(s: State, actions: seq<Action>)
    requires Unique(s)
    ensures Unique(Run(s, actions))
    decreases |actions|
  {
    hide Unique, Apply;
    if actions != [] {
      StepUnique(s, actions[0]);
      AlwaysUnique(Apply(s, actions[0]).0, actions[1..]);
    }
  }
}
