/** User administration: registration, creation, invitations, updates, approval
    and OAuth sign-up. Each request is one atomic step. */
module Users {
  import opened Text

  datatype Role = ADMIN | MANAGER | OPERATOR
  datatype Status = INCOMPLETE | PENDING | ACTIVE | BLOCKED | INVITED | DISABLED | DELETED

  datatype User = User(tenant: Option<nat>, email: string, role: Role, status: Status)
  datatype Invitation = Invitation(tenant: nat, email: string, role: Role, expiresAt: int, pending: bool)
  datatype Completion = Completion(user: nat, expiresAt: int, used: bool)

  /** Ids are positions; `tenants[t]` says whether tenant t is active. */
  datatype State = State(tenants: seq<bool>, users: seq<User>, invitations: seq<Invitation>, completions: seq<Completion>)

  datatype Outcome = Done | Conflict | Forbidden | NotFound | BadRequest

  datatype Action =
    | RegisterTenant(email: string)
    | CreateUser(tenant: nat, actor: nat, email: string, role: Role, withPassword: bool)
    | Invite(tenant: nat, email: string, role: Role, expiresAt: int)
    | AcceptInvite(invitation: nat, now: int)
    | UpdateUser(tenant: nat, actor: nat, target: nat, newRole: Option<Role>, newStatus: Option<Status>)
    | Approve(tenant: nat, target: nat, role: Role)
    | RegisterOAuth(email: string, expiresAt: int)
    | ResumeOAuth(user: nat, expiresAt: int)
    | CompleteOAuth(completion: nat, tenant: nat, now: int)

  // ---------- Queries ----------

  predicate IsActiveAdmin(u: User, tenant: nat) {
    u.tenant == Some(tenant) && u.role == ADMIN && u.status == ACTIVE
  }

  function CountAdmins(users: seq<User>, tenant: nat): nat {
    if users == [] then 0
    else CountAdmins(users[..|users| - 1], tenant) + if IsActiveAdmin(users[|users| - 1], tenant) then 1 else 0
  }

  predicate ActorIsAdmin(users: seq<User>, tenant: nat, actor: nat) {
    actor < |users| && IsActiveAdmin(users[actor], tenant)
  }

  /** The unique constraint on tenant and e-mail; users without a tenant never clash. */
  predicate EmailTaken(users: seq<User>, tenant: nat, email: string, except: int) {
    exists i :: 0 <= i < |users| && i != except && users[i].tenant == Some(tenant) && users[i].email == email
  }

  predicate InTenant(users: seq<User>, id: nat, tenant: nat) {
    id < |users| && users[id].tenant == Some(tenant)
  }

  predicate RemovesAdmin(role: Option<Role>, status: Option<Status>) {
    (role.Some? && role.value != ADMIN) || (status.Some? && status.value != ACTIVE)
  }

  function Changed(u: User, role: Option<Role>, status: Option<Status>): User {
    u.(role := if role.Some? then role.value else u.role, status := if status.Some? then status.value else u.status)
  }

  predicate PendingInvitation(s: seq<Invitation>, i: int, tenant: nat, email: string) {
    0 <= i < |s| && s[i].pending && s[i].tenant == tenant && s[i].email == email
  }

  /** The pending invitation of an address, if any: the target of the upsert. */
  function FindPending(s: seq<Invitation>, tenant: nat, email: string): (i: int)
    ensures i == -1 || PendingInvitation(s, i, tenant, email)
    ensures i == -1 ==> forall k :: 0 <= k < |s| ==> !PendingInvitation(s, k, tenant, email)
  {
    if s == [] then -1
    else if PendingInvitation(s, |s| - 1, tenant, email) then |s| - 1
    else
      var rest := FindPending(s[..|s| - 1], tenant, email);
      assert forall k :: 0 <= k < |s| - 1 ==> PendingInvitation(s[..|s| - 1], k, tenant, email) == PendingInvitation(s, k, tenant, email);
      rest
  }

  // ---------- Steps ----------

  function Update(s: State, tenant: nat, actor: nat, target: nat, role: Option<Role>, status: Option<Status>): (State, Outcome) {
    if !InTenant(s.users, target, tenant) then (s, NotFound)
    else
      var current := s.users[target];
      if role == Some(ADMIN) && !ActorIsAdmin(s.users, tenant, actor) then (s, Forbidden)
      else if IsActiveAdmin(current, tenant) && RemovesAdmin(role, status) && CountAdmins(s.users, tenant) <= 1 then (s, Forbidden)
      else (s.(users := s.users[target := Changed(current, role, status)]), Done)
  }

  /** The tests of a completion: its token, the tenant and the address. Nothing asks
      which status the user is in. */
  predicate CompletionOpen(s: State, completion: nat, tenant: nat, now: int) {
    && completion < |s.completions| && !s.completions[completion].used && s.completions[completion].expiresAt > now
    && var user := s.completions[completion].user;
       && tenant < |s.tenants| && s.tenants[tenant] && user < |s.users|
       && !EmailTaken(s.users, tenant, s.users[user].email, user)
  }

  /** The whole update as coded. */
  function Complete(s: State, completion: nat, tenant: nat, now: int): (State, Outcome) {
    if completion >= |s.completions| || s.completions[completion].used || s.completions[completion].expiresAt <= now then (s, BadRequest)
    else
      var user := s.completions[completion].user;
      if tenant >= |s.tenants| || !s.tenants[tenant] || user >= |s.users| then (s, NotFound)
      else if EmailTaken(s.users, tenant, s.users[user].email, user) then (s, Conflict)
      else
        (s.(users := s.users[user := s.users[user].(tenant := Some(tenant), role := OPERATOR, status := PENDING)],
            completions := s.completions[completion := s.completions[completion].(used := true)]),
         Done)
  }

  function Apply(s: State, action: Action): (State, Outcome) {
    match action
    case RegisterTenant(email) =>
      if exists i :: 0 <= i < |s.users| && s.users[i].email == email then (s, Conflict)
      else (s.(tenants := s.tenants + [true], users := s.users + [User(Some(|s.tenants|), email, ADMIN, ACTIVE)]), Done)
    case CreateUser(tenant, actor, email, role, withPassword) =>
      if role == ADMIN && !ActorIsAdmin(s.users, tenant, actor) then (s, Forbidden)
      else if EmailTaken(s.users, tenant, email, -1) then (s, Conflict)
      else (s.(users := s.users + [User(Some(tenant), email, role, if withPassword then ACTIVE else INVITED)]), Done)
    case Invite(tenant, email, role, expiresAt) =>
      if exists i :: 0 <= i < |s.users| && s.users[i].tenant == Some(tenant) && s.users[i].email == email && s.users[i].status != DELETED then (s, Conflict)
      else
        var invitation, at := Invitation(tenant, email, role, expiresAt, true), FindPending(s.invitations, tenant, email);
        (s.(invitations := if at >= 0 then s.invitations[at := invitation] else s.invitations + [invitation]), Done)
    case AcceptInvite(id, now) =>
      if id >= |s.invitations| || !s.invitations[id].pending || s.invitations[id].expiresAt <= now then (s, BadRequest)
      else
        var i := s.invitations[id];
        if EmailTaken(s.users, i.tenant, i.email, -1) then (s, Conflict)
        else (s.(users := s.users + [User(Some(i.tenant), i.email, i.role, ACTIVE)], invitations := s.invitations[id := i.(pending := false)]), Done)
    case UpdateUser(tenant, actor, target, role, status) => Update(s, tenant, actor, target, role, status)
    case Approve(tenant, target, role) =>
      if !InTenant(s.users, target, tenant) then (s, NotFound)
      else if s.users[target].status != PENDING && s.users[target].status != INVITED then (s, BadRequest)
      else (s.(users := s.users[target := s.users[target].(role := role, status := ACTIVE)]), Done)
    case RegisterOAuth(email, expiresAt) =>
      if exists i :: 0 <= i < |s.users| && s.users[i].email == email && s.users[i].status != DELETED then (s, Conflict)
      else (s.(users := s.users + [User(None, email, OPERATOR, INCOMPLETE)], completions := s.completions + [Completion(|s.users|, expiresAt, false)]), Done)
    case ResumeOAuth(user, expiresAt) =>
      if user >= |s.users| || s.users[user].status != INCOMPLETE then (s, BadRequest)
      else (s.(completions := s.completions + [Completion(user, expiresAt, false)]), Done)
    case CompleteOAuth(completion, tenant, now) => Complete(s, completion, tenant, now)
  }

  function Run(s: State, actions: seq<Action>): State
    decreases |actions|
  {
    if actions == [] then s else Run(Apply(s, actions[0]).0, actions[1..])
  }

  // ---------- The service and its tables ----------

  class UsersService {
    var tenants: seq<bool>
    var users: seq<User>
    var invitations: seq<Invitation>
    var completions: seq<Completion>

    function Abs(): State
      reads this
    {
      State(tenants, users, invitations, completions)
    }

    method DoRegisterTenant(email: string) returns (outcome: Outcome)
      modifies this`tenants, this`users
      ensures (Abs(), outcome) == Apply(old(Abs()), RegisterTenant(email))
    {
      if exists i :: 0 <= i < |users| && users[i].email == email {
        return Conflict;
      }
      var tenant := |tenants|;
      tenants := tenants + [true];
      users := users + [User(Some(tenant), email, ADMIN, ACTIVE)];
      return Done;
    }

    method DoCreate(tenant: nat, actor: nat, email: string, role: Role, withPassword: bool) returns (outcome: Outcome)
      modifies this`users
      ensures (Abs(), outcome) == Apply(old(Abs()), CreateUser(tenant, actor, email, role, withPassword))
    {
      if role == ADMIN && !ActorIsAdmin(users, tenant, actor) {
        return Forbidden;
      }
      if EmailTaken(users, tenant, email, -1) {
        return Conflict;
      }
      users := users + [User(Some(tenant), email, role, if withPassword then ACTIVE else INVITED)];
      return Done;
    }

    method DoAcceptInvite(id: nat, now: int) returns (outcome: Outcome)
      modifies this`users, this`invitations
      ensures (Abs(), outcome) == Apply(old(Abs()), AcceptInvite(id, now))
    {
      if id >= |invitations| || !invitations[id].pending || invitations[id].expiresAt <= now {
        return BadRequest;
      }
      var invitation := invitations[id];
      if EmailTaken(users, invitation.tenant, invitation.email, -1) {
        return Conflict;
      }
      users := users + [User(Some(invitation.tenant), invitation.email, invitation.role, ACTIVE)];
      invitations := invitations[id := invitation.(pending := false)];
      return Done;
    }

    /** `assertLastAdminSafe`: false is the exception. */
    method LastAdminSafe(tenant: nat, current: User, role: Option<Role>, status: Option<Status>) returns (safe: bool)
      requires current.tenant == Some(tenant)
      ensures safe <==> !(IsActiveAdmin(current, tenant) && RemovesAdmin(role, status) && CountAdmins(users, tenant) <= 1)
    {
      if current.role != ADMIN || current.status != ACTIVE {
        return true;
      }
      var demotesAdmin := role.Some? && role.value != ADMIN;
      var disablesAdmin := status.Some? && status.value != ACTIVE;
      if !demotesAdmin && !disablesAdmin {
        return true;
      }
      return CountAdmins(users, tenant) > 1;
    }

    /** `signsOut`: every session of the user is revoked as well. */
    method DoUpdate(tenant: nat, actor: nat, target: nat, role: Option<Role>, status: Option<Status>)
      returns (outcome: Outcome, signsOut: bool)
      modifies this`users
      ensures (Abs(), outcome) == Apply(old(Abs()), UpdateUser(tenant, actor, target, role, status))
      ensures signsOut <==> outcome == Done && status.Some? && status != Some(ACTIVE)
    {
      if !InTenant(users, target, tenant) {
        return NotFound, false;
      }
      var current := users[target];
      if role == Some(ADMIN) && !ActorIsAdmin(users, tenant, actor) {
        return Forbidden, false;
      }
      if (role.Some? && role.value != current.role) || (status.Some? && status.value != current.status) {
        var safe := LastAdminSafe(tenant, current, role, status);
        if !safe {
          return Forbidden, false;
        }
      }
      users := users[target := Changed(current, role, status)];
      return Done, status.Some? && status.value != ACTIVE;
    }

    method DoApprove(tenant: nat, target: nat, role: Role) returns (outcome: Outcome)
      modifies this`users
      ensures (Abs(), outcome) == Apply(old(Abs()), Approve(tenant, target, role))
    {
      if !InTenant(users, target, tenant) {
        return NotFound;
      }
      if users[target].status != PENDING && users[target].status != INVITED {
        return BadRequest;
      }
      users := users[target := users[target].(role := role, status := ACTIVE)];
      return Done;
    }

    method DoCompleteOAuth(completion: nat, tenant: nat, now: int) returns (outcome: Outcome)
      modifies this`users, this`completions
      ensures (Abs(), outcome) == Apply(old(Abs()), CompleteOAuth(completion, tenant, now))
    {
      if completion >= |completions| || completions[completion].used || completions[completion].expiresAt <= now {
        return BadRequest;
      }
      var user := completions[completion].user;
      if tenant >= |tenants| || !tenants[tenant] || user >= |users| {
        return NotFound;
      }
      if EmailTaken(users, tenant, users[user].email, user) {
        return Conflict;
      }
      users := users[user := users[user].(tenant := Some(tenant), role := OPERATOR, status := PENDING)];
      completions := completions[completion := completions[completion].(used := true)];
      return Done;
    }
  }

  // ---------- Every tenant keeps an administrator ----------

  predicate Administered(s: State) {
    forall t :: 0 <= t < |s.tenants| ==> CountAdmins(s.users, t) >= 1
  }

  lemma {:induction false} CountAfterUpdate(users: seq<User>, i: nat, u: User, tenant: nat)
    requires i < |users|
    ensures CountAdmins(users[i := u], tenant)
         == CountAdmins(users, tenant) - (if IsActiveAdmin(users[i], tenant) then 1 else 0) + (if IsActiveAdmin(u, tenant) then 1 else 0)
  {
    hide IsActiveAdmin;
    var n := |users| - 1;
    if i < n {
      CountAfterUpdate(users[..n], i, u, tenant);
      assert users[i := u][..n] == users[..n][i := u];
    } else {
      assert users[i := u][..n] == users[..n];
    }
  }

  lemma CountAfterAppend(users: seq<User>, u: User, tenant: nat)
    ensures CountAdmins(users + [u], tenant) == CountAdmins(users, tenant) + if IsActiveAdmin(u, tenant) then 1 else 0
  {
    assert (users + [u])[..|users|] == users;
  }

  /** The guard that completion lacks: it must not take away the only active
      administrator of the tenant the user is in. */
  predicate TakesLastAdmin(s: State, action: Action) {
    action.CompleteOAuth? && CompletionOpen(s, action.completion, action.tenant, action.now) &&
    var u := s.users[s.completions[action.completion].user];
    u.tenant.Some? && u.tenant.value < |s.tenants| && IsActiveAdmin(u, u.tenant.value) && CountAdmins(s.users, u.tenant.value) <= 1
  }

  lemma AppendingKeeps(s: State, n: State, u: User)
    requires Administered(s) && n.users == s.users + [u] && n.tenants == s.tenants
    ensures Administered(n)
  {
    hide CountAdmins, IsActiveAdmin;
    forall t | 0 <= t < |n.tenants| ensures CountAdmins(n.users, t) >= 1 {
      CountAfterAppend(s.users, u, t);
    }
  }

  lemma RegisteringKeeps(s: State, email: string)
    requires Administered(s)
    ensures Administered(Apply(s, RegisterTenant(email)).0)
  {
    hide CountAdmins;
    var n := Apply(s, RegisterTenant(email)).0;
    forall t | 0 <= t < |n.tenants| ensures CountAdmins(n.users, t) >= 1 {
      CountAfterAppend(s.users, User(Some(|s.tenants|), email, ADMIN, ACTIVE), t);
    }
  }

  lemma ReplacingKeeps(s: State, n: State, i: nat, u: User)
    requires Administered(s) && i < |s.users| && n.users == s.users[i := u] && n.tenants == s.tenants
    requires forall t :: 0 <= t < |s.tenants| && IsActiveAdmin(s.users[i], t) && !IsActiveAdmin(u, t) ==> CountAdmins(s.users, t) > 1
    ensures Administered(n)
  {
    hide CountAdmins, IsActiveAdmin;
    forall t | 0 <= t < |n.tenants| ensures CountAdmins(n.users, t) >= 1 {
      CountAfterUpdate(s.users, i, u, t);
    }
  }

  lemma CompletionExact(s: State, action: Action)
    requires Administered(s) && action.CompleteOAuth?
    ensures Administered(Apply(s, action).0) <==> !TakesLastAdmin(s, action)
  {
    hide CountAdmins, EmailTaken;
    var n := Apply(s, action).0;
    if Apply(s, action).1 == Done {
      var i := s.completions[action.completion].user;
      if TakesLastAdmin(s, action) {
        var t := s.users[i].tenant.value;
        CountAfterUpdate(s.users, i, n.users[i], t);
      } else {
        ReplacingKeeps(s, n, i, n.users[i]);
      }
    }
  }

  /** A step keeps every tenant administered exactly when it is not an OAuth
      completion of a tenant's last active administrator. */
  lemma StepExact(s: State, action: Action)
    requires Administered(s)
    ensures Administered(Apply(s, action).0) <==> !TakesLastAdmin(s, action)
  {
    hide CountAdmins, EmailTaken, Administered, Complete;
    var n := Apply(s, action).0;
    match action
    case RegisterTenant(email) => RegisteringKeeps(s, email);
    case CreateUser(_, _, _, _, _) => if n != s { AppendingKeeps(s, n, n.users[|s.users|]); }
    case Invite(_, _, _, _) => SameUsers(s, n);
    case AcceptInvite(_, _) => if n != s { AppendingKeeps(s, n, n.users[|s.users|]); }
    case UpdateUser(_, _, target, _, _) => if n != s { ReplacingKeeps(s, n, target, n.users[target]); }
    case Approve(_, target, _) => if n != s { ReplacingKeeps(s, n, target, n.users[target]); }
    case RegisterOAuth(_, _) => if n != s { AppendingKeeps(s, n, n.users[|s.users|]); }
    case ResumeOAuth(_, _) => SameUsers(s, n);
    case CompleteOAuth(_, _, _) => CompletionExact(s, action);
  }

  /** The guard of an update is exact: a permitted change is refused when, and
      only when, it would leave the tenant without an active administrator. */
  lemma UpdateGuardExact(s: State, tenant: nat, actor: nat, target: nat, role: Option<Role>, status: Option<Status>)
    requires Administered(s) && tenant < |s.tenants| && InTenant(s.users, target, tenant)
    requires role == Some(ADMIN) ==> ActorIsAdmin(s.users, tenant, actor)
    ensures var outcome := Apply(s, UpdateUser(tenant, actor, target, role, status)).1;
      outcome == if CountAdmins(s.users[target := Changed(s.users[target], role, status)], tenant) == 0 then Forbidden else Done
  {
    hide CountAdmins;
    CountAfterUpdate(s.users, target, Changed(s.users[target], role, status), tenant);
  }

  lemma SameUsers(s: State, n: State)
    requires Administered(s) && n.users == s.users && n.tenants == s.tenants
    ensures Administered(n)
  {
  }

  /** Every completion finds its user still INCOMPLETE, as its screen intends. */
  predicate CompletesIncomplete(s: State, action: Action) {
    action.CompleteOAuth? && CompletionOpen(s, action.completion, action.tenant, action.now) ==> s.users[s.completions[action.completion].user].status == INCOMPLETE
  }

  predicate IntendedRun(s: State, actions: seq<Action>)
    decreases |actions|
  {
    actions == [] || (CompletesIncomplete(s, actions[0]) && IntendedRun(Apply(s, actions[0]).0, actions[1..]))
  }

  /** In every run in which completions are used as intended, every tenant always
      has an active administrator. */
  lemma {:induction false} AlwaysAdministered(s: State, actions: seq<Action>)
    requires Administered(s) && IntendedRun(s, actions)
    ensures Administered(Run(s, actions))
    decreases |actions|
  {
    if actions != [] {
      hide Administered, Apply, CountAdmins;
      StepExact(s, actions[0]);
      AlwaysAdministered(Apply(s, actions[0]).0, actions[1..]);
    }
  }

  lemma {:induction false} RunLast(s: State, actions: seq<Action>, last: Action)
    ensures Run(s, actions + [last]) == Apply(Run(s, actions), last).0
    decreases |actions|
  {
    hide Apply;
    if actions == [] {
      assert [] + [last] == [last] && [last][1..] == [];
    } else {
      RunLast(Apply(s, actions[0]).0, actions[1..], last);
      assert (actions + [last])[1..] == actions[1..] + [last];
    }
  }

  predicate AdministeredUpTo(s: State, actions: seq<Action>, n: nat)
    requires n <= |actions|
  {
    forall k :: 0 <= k <= n ==> Administered(Run(s, actions[..k]))
  }

  predicate NeverTakes(s: State, actions: seq<Action>, n: nat)
    requires n <= |actions|
  {
    forall k :: 0 <= k < n ==> !TakesLastAdmin(Run(s, actions[..k]), actions[k])
  }

  lemma {:induction false} RunExactUpTo(s: State, actions: seq<Action>, n: nat)
    requires Administered(s) && n <= |actions|
    ensures AdministeredUpTo(s, actions, n) <==> NeverTakes(s, actions, n)
  {
    hide Run, Apply, Administered, TakesLastAdmin;
    if n == 0 {
      assert actions[..0] == [];
      RunNothing(s);
    } else {
      RunExactUpTo(s, actions, n - 1);
      RunLast(s, actions[..n - 1], actions[n - 1]);
      assert actions[..n] == actions[..n - 1] + [actions[n - 1]];
      if AdministeredUpTo(s, actions, n - 1) {
        StepExact(Run(s, actions[..n - 1]), actions[n - 1]);
      }
    }
  }

  /** A whole run keeps every tenant administered at every moment exactly when none
      of its steps completes a tenant's last active administrator. */
  lemma RunExact(s: State, actions: seq<Action>)
    requires Administered(s)
    ensures (forall k :: 0 <= k <= |actions| ==> Administered(Run(s, actions[..k]))) <==>
            (forall k :: 0 <= k < |actions| ==> !TakesLastAdmin(Run(s, actions[..k]), actions[k]))
  {
    hide Run, Administered, TakesLastAdmin;
    RunExactUpTo(s, actions, |actions|);
  }

  const EMPTY := State([], [], [], [])

  lemma {:induction false} Next(s: State, action: Action, rest: seq<Action>)
    ensures Run(s, [action] + rest) == Run(Apply(s, action).0, rest)
  {
    hide Apply;
    assert ([action] + rest)[1..] == rest;
  }

  /** A tenant, and an address that signs up by OAuth and comes back before
      completing, which leaves it with two completion tokens. */
  function TwoTokens(second: User, used: bool): State {
    State([true], [User(Some(0), "a", ADMIN, ACTIVE), second], [], [Completion(1, 9, used), Completion(1, 9, false)])
  }

  lemma SignUps(rest: seq<Action>)
    ensures Run(EMPTY, [RegisterTenant("a")] + ([RegisterOAuth("b", 9)] + ([ResumeOAuth(1, 9)] + rest)))
         == Run(TwoTokens(User(None, "b", OPERATOR, INCOMPLETE), false), rest)
  {
    hide Run;
    var a1, a2, a3 := RegisterTenant("a"), RegisterOAuth("b", 9), ResumeOAuth(1, 9);
    var s1 := State([true], [User(Some(0), "a", ADMIN, ACTIVE)], [], []);
    var s2 := s1.(users := s1.users + [User(None, "b", OPERATOR, INCOMPLETE)], completions := [Completion(1, 9, false)]);
    assert Apply(EMPTY, a1).0 == s1;
    assert Apply(s1, a2).0 == s2;
    assert Apply(s2, a3).0 == TwoTokens(User(None, "b", OPERATOR, INCOMPLETE), false);
    Next(EMPTY, a1, [a2] + ([a3] + rest));
    Next(s1, a2, [a3] + rest);
    Next(s2, a3, rest);
  }

  /** The first token is completed and the user approved as administrator. */
  lemma Promoted(rest: seq<Action>)
    ensures Run(TwoTokens(User(None, "b", OPERATOR, INCOMPLETE), false), [CompleteOAuth(0, 0, 0)] + ([Approve(0, 1, ADMIN)] + rest))
         == Run(TwoTokens(User(Some(0), "b", ADMIN, ACTIVE), true), rest)
  {
    hide Run;
    var s1, s2 := TwoTokens(User(None, "b", OPERATOR, INCOMPLETE), false), TwoTokens(User(Some(0), "b", OPERATOR, PENDING), true);
    assert Apply(s1, CompleteOAuth(0, 0, 0)).0 == s2;
    assert Apply(s2, Approve(0, 1, ADMIN)).0 == TwoTokens(User(Some(0), "b", ADMIN, ACTIVE), true);
    Next(s1, CompleteOAuth(0, 0, 0), [Approve(0, 1, ADMIN)] + rest);
    Next(s2, Approve(0, 1, ADMIN), rest);
  }

  /** The new administrator demotes the old one, and then the second token is used. */
  lemma Orphaned()
    ensures !Administered(Run(TwoTokens(User(Some(0), "b", ADMIN, ACTIVE), true),
      [UpdateUser(0, 1, 0, Some(OPERATOR), None)] + ([CompleteOAuth(1, 0, 0)] + [])))
  {
    hide Run, CountAdmins;
    var a, b := UpdateUser(0, 1, 0, Some(OPERATOR), None), CompleteOAuth(1, 0, 0);
    var s := TwoTokens(User(Some(0), "b", ADMIN, ACTIVE), true);
    PairCount(s.users[0], s.users[1]);
    var t := Apply(s, a).0;
    assert t.users == [User(Some(0), "a", OPERATOR, ACTIVE), s.users[1]];
    var n := Apply(t, b).0;
    assert n.users == [t.users[0], User(Some(0), "b", OPERATOR, PENDING)];
    PairCount(n.users[0], n.users[1]);
    Next(s, a, [b] + []);
    Next(t, b, []);
    RunNothing(n);
  }

  lemma RunNothing(s: State)
    ensures Run(s, []) == s
  {
  }

  lemma PairCount(u: User, v: User)
    ensures CountAdmins([u, v], 0) == (if IsActiveAdmin(u, 0) then 1 else 0) + (if IsActiveAdmin(v, 0) then 1 else 0)
  {
    CountAfterAppend([u], v, 0);
    CountAfterAppend([], u, 0);
    assert [] + [u] == [u] && [u] + [v] == [u, v];
  }

  /** Without that intention the claim fails: a second completion token, used
      after its user has become the only administrator, orphans the tenant. */
  lemma StaleCompletionOrphansTenant()
    ensures exists actions :: !Administered(Run(EMPTY, actions))
  {
    hide Run, Administered;
    var last := [UpdateUser(0, 1, 0, Some(OPERATOR), None)] + ([CompleteOAuth(1, 0, 0)] + []);
    var middle := [CompleteOAuth(0, 0, 0)] + ([Approve(0, 1, ADMIN)] + last);
    SignUps(middle);
    Promoted(last);
    Orphaned();
  }
}
