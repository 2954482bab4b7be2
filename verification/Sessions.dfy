/** Whose sessions each request of the session service starts, continues and ends. */
module Sessions {
  import opened Text
  import opened RefreshTokens

  /** The tokens after a request are the tokens before it, some of them revoked. */
  predicate OnlyRevoked(s: State, n: State, i: nat, revoked: bool)
    requires i < |s.tokens|
  {
    |n.tokens| == |s.tokens| && n.tokens[i] == if revoked then s.tokens[i].(revoked := true) else s.tokens[i]
  }

  // ---------- Ending sessions ----------

  /** Revoking all of a user's sessions touches that user's in that tenant, and no other. */
  lemma RevokeAllMeans(s: State, user: nat, tenant: nat, i: nat)
    requires i < |s.tokens|
    ensures var t := s.tokens[i];
      OnlyRevoked(s, Apply(s, RevokeAll(user, tenant)).0, i, t.user == user && t.tenant == Some(tenant))
  {
  }

  /** The presented session is spared, and the user's others in the tenant are not. */
  lemma RevokeOthersMeans(s: State, user: nat, tenant: nat, current: Option<nat>, i: nat)
    requires i < |s.tokens|
    ensures var t := s.tokens[i];
      OnlyRevoked(s, Apply(s, RevokeOthers(user, tenant, current)).0, i,
                  t.user == user && t.tenant == Some(tenant) && (current.Some? ==> t.secret != current.value))
  {
  }

  /** Only a session of one's own, in the tenant, can be revoked by its id. */
  lemma RevokeSessionMeans(s: State, user: nat, tenant: nat, id: nat, i: nat)
    requires i < |s.tokens|
    ensures var t := s.tokens[i];
      OnlyRevoked(s, Apply(s, RevokeSession(user, tenant, id)).0, i, i == id && t.user == user && t.tenant == Some(tenant))
  {
  }

  /** A password reset ends the user's sessions in every tenant. */
  lemma ResetPasswordMeans(s: State, user: nat, i: nat)
    requires i < |s.tokens|
    ensures OnlyRevoked(s, Apply(s, ResetPassword(user)).0, i, s.tokens[i].user == user)
  {
  }

  /** Logging out ends the presented session. */
  lemma LogoutMeans(s: State, presented: Option<nat>, i: nat)
    requires Inv(s) && i < |s.tokens|
    ensures OnlyRevoked(s, Apply(s, Logout(presented)).0, i, presented == Some(s.tokens[i].secret))
  {
    if presented.Some? {
      var id := FindToken(s.tokens, presented.value);
      assert s.tokens[i].secret == presented.value ==> id == Some(i);
    }
  }

  /** Presenting a spent token ends its family, and no other family. */
  lemma ReplayMeans(s: State, spent: nat, ttl: nat, i: nat)
    requires Inv(s) && spent < |s.tokens| && s.tokens[spent].revoked && i < |s.tokens|
    ensures OnlyRevoked(s, Apply(s, Refresh(Some(s.tokens[spent].secret), ttl)).0, i, s.tokens[i].family == s.tokens[spent].family)
  {
    var id := FindToken(s.tokens, s.tokens[spent].secret);
    assert id == Some(spent);
  }

  /** An expired token, one of a user who is not active, or an unknown one is refused
      and changes nothing. */
  lemma RefusalMeans(s: State, secret: nat, ttl: nat)
    requires Inv(s)
    requires forall i :: 0 <= i < |s.tokens| && s.tokens[i].secret == secret ==>
      var t := s.tokens[i];
      !t.revoked && (t.expiresAt <= s.now || !(t.user in s.users && s.users[t.user].active))
    ensures Apply(s, Refresh(Some(secret), ttl)) == (s, Refused)
  {
  }

  // ---------- Starting and continuing sessions ----------

  /** A refresh spends the presented token and adds its successor: same family and
      user, the user's tenant, a new lifetime; nothing else changes. */
  lemma GrantMeans(s: State, secret: nat, ttl: nat)
    requires Inv(s) && Apply(s, Refresh(Some(secret), ttl)).1.Granted?
    ensures exists id :: 0 <= id < |s.tokens| && Continues(s, id, secret, ttl, Apply(s, Refresh(Some(secret), ttl)).0)
  {
    var id := FindToken(s.tokens, secret);
    assert Continues(s, id.value, secret, ttl, Apply(s, Refresh(Some(secret), ttl)).0);
  }

  /** Token `id` is spent and its successor is added. */
  predicate Continues(s: State, id: nat, secret: nat, ttl: nat, n: State)
    requires id < |s.tokens|
  {
    var t := s.tokens[id];
    && t.secret == secret && t.user in s.users && s.users[t.user].active
    && s.users[t.user].tenant.Some? && s.users[t.user].tenant.value in s.activeTenants && s.now < t.expiresAt && !t.revoked
    && n.tokens == s.tokens[id := t.(revoked := true, rotated := true)]
                   + [Token(s.nextSecret, t.family, t.user, s.users[t.user].tenant, s.now + ttl, false, false)]
  }

  /** Logging in is for active users of active tenants, and starts a family that
      expires after its lifetime. */
  lemma LoginMeans(s: State, user: nat, ttl: nat)
    ensures var (n, outcome) := Apply(s, Login(user, ttl));
      && (outcome.Granted? <==>
            user in s.users && s.users[user].active && s.users[user].tenant.Some? && s.users[user].tenant.value in s.activeTenants)
      && (outcome.Granted? ==>
            n.tokens == s.tokens + [Token(s.nextSecret, s.nextFamily, user, s.users[user].tenant, s.now + ttl, false, false)]
            && outcome.secret == s.nextSecret)
      && (!outcome.Granted? ==> n == s)
  {
  }

  /** An accepted invitation signs its user in, in the user's tenant. */
  lemma AcceptInviteMeans(s: State, user: nat, ttl: nat)
    ensures var (n, outcome) := Apply(s, AcceptInvite(user, ttl));
      && (outcome.Granted? <==> user in s.users && s.users[user].tenant.Some?)
      && (outcome.Granted? ==>
            n.tokens == s.tokens + [Token(s.nextSecret, s.nextFamily, user, s.users[user].tenant, s.now + ttl, false, false)])
  {
  }

  // ---------- Others are left alone ----------

  /** The requests of one user, by which sessions end. */
  predicate EndsSessionsOf(action: Action, user: nat) {
    match action
    case RevokeSession(u, _, _) => u == user
    case RevokeOthers(u, _, _) => u == user
    case RevokeAll(u, _) => u == user
    case ResetPassword(u) => u == user
    case _ => false
  }

  lemma OthersKept(s: State, action: Action, user: nat, i: nat)
    requires EndsSessionsOf(action, user) && i < |s.tokens| && s.tokens[i].user != user
    ensures var n := Apply(s, action).0;
      |n.tokens| == |s.tokens| && n.tokens[i] == s.tokens[i] && n == s.(tokens := n.tokens)
  {
  }

  /** Whatever sessions one user ends, every other user's token can still be refreshed
      exactly when it could before. */
  lemma OthersStaySignedIn(s: State, action: Action, user: nat, i: nat, ttl: nat)
    requires Inv(s) && EndsSessionsOf(action, user) && i < |s.tokens| && s.tokens[i].user != user
    ensures var n := Apply(s, action).0;
      Apply(n, Refresh(Some(s.tokens[i].secret), ttl)).1.Granted? <==> Apply(s, Refresh(Some(s.tokens[i].secret), ttl)).1.Granted?
  {
    hide Apply, Inv;
    var n, secret := Apply(s, action).0, s.tokens[i].secret;
    OthersKept(s, action, user, i);
    StepKeeps(s, action);
    RefreshGrantedExactly(s, secret, ttl);
    RefreshGrantedExactly(n, secret, ttl);
    SecretsDiffer(s, i);
    SecretsDiffer(n, i);
    assert Usable(s, i, secret) <==> Usable(n, i, secret);
  }

  lemma SecretsDiffer(s: State, i: nat)
    requires Inv(s) && i < |s.tokens|
    ensures forall j :: 0 <= j < |s.tokens| && s.tokens[j].secret == s.tokens[i].secret ==> j == i
  {
  }

  // ---------- Time and blocked users ----------

  /** A session can be refreshed until its lifetime has passed, and not after. */
  lemma LifetimeMeans(s: State, user: nat, ttl: nat, ticks: nat, again: nat)
    requires Inv(s) && Apply(s, Login(user, ttl)).1.Granted?
    ensures var (n, login) := Apply(s, Login(user, ttl));
      Apply(Apply(n, Wait(ticks)).0, Refresh(Some(login.secret), again)).1.Granted? <==> ticks < ttl
  {
    hide Inv;
    var n, secret := Apply(s, Login(user, ttl)).0, s.nextSecret;
    var later := Apply(n, Wait(ticks)).0;
    IssueKeeps(s, user, ttl);
    StepKeeps(n, Wait(ticks));
    SecretsDiffer(later, |s.tokens|);
    RefreshGrantedExactly(later, secret, again);
    assert later.tokens[|s.tokens|].secret == secret;
    assert Usable(later, |s.tokens|, secret) <==> ticks < ttl;
  }

  /** No session of a user who is blocked, or left without a tenant, can be refreshed;
      those of other users are not touched. */
  lemma BlockedUser(s: State, user: nat, record: User, i: nat, ttl: nat)
    requires Inv(s) && i < |s.tokens| && !(record.active && record.tenant.Some?)
    ensures var n, secret := Apply(s, SetUser(user, record)).0, s.tokens[i].secret;
      && (s.tokens[i].user == user ==> Apply(n, Refresh(Some(secret), ttl)).1 == Refused)
      && (s.tokens[i].user != user ==>
            (Apply(n, Refresh(Some(secret), ttl)).1.Granted? <==> Apply(s, Refresh(Some(secret), ttl)).1.Granted?))
  {
    hide Inv;
    var n, secret := Apply(s, SetUser(user, record)).0, s.tokens[i].secret;
    StepKeeps(s, SetUser(user, record));
    RefreshGrantedExactly(s, secret, ttl);
    RefreshGrantedExactly(n, secret, ttl);
    SecretsDiffer(s, i);
    SecretsDiffer(n, i);
    assert s.tokens[i].user != user ==> (Usable(s, i, secret) <==> Usable(n, i, secret));
  }
}
