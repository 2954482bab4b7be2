/** Refresh-token families: rotation with replay detection (section 4.14.2 of
    RFC 9700). Each request is one atomic step; secrets and family ids are fresh
    and a secret stands for its hash. */
module RefreshTokens {
  import opened Text

  datatype Token = Token(
    secret: nat, family: nat, user: nat, tenant: Option<nat>, expiresAt: int, revoked: bool, rotated: bool)

  datatype User = User(active: bool, tenant: Option<nat>)

  /** Token ids are positions. `exchanged` is history: the secrets that a refresh
      has been granted for, in order. */
  datatype State = State(
    tokens: seq<Token>, users: map<nat, User>, activeTenants: set<nat>,
    nextSecret: nat, nextFamily: nat, now: int, exchanged: seq<nat>)

  datatype Outcome = Refused | Granted(secret: nat)

  datatype Action =
    | Login(user: nat, ttl: nat)
    | AcceptInvite(user: nat, ttl: nat)
    | Refresh(presented: Option<nat>, ttl: nat)
    | Logout(presented: Option<nat>)
    | RevokeSession(user: nat, tenant: nat, id: nat)
    | RevokeOthers(user: nat, tenant: nat, current: Option<nat>)
    | RevokeAll(user: nat, tenant: nat)
    | ResetPassword(user: nat)
    | SetUser(user: nat, record: User)
    | SetTenants(active: set<nat>)
    | Wait(ticks: nat)

  // ---------- Queries and updates ----------

  /** `findFirst` by token hash. */
  function FindToken(tokens: seq<Token>, secret: nat): (id: Option<nat>)
    ensures id.Some? ==> id.value < |tokens| && tokens[id.value].secret == secret
    ensures id.None? ==> forall i :: 0 <= i < |tokens| ==> tokens[i].secret != secret
  {
    if tokens == [] then None
    else
      var rest := FindToken(tokens[..|tokens| - 1], secret);
      if rest.Some? then rest else if tokens[|tokens| - 1].secret == secret then Some(|tokens| - 1) else None
  }

  /** `updateMany({ where, data: { revokedAt } })`. */
  function RevokeWhere(tokens: seq<Token>, where: Token -> bool): (r: seq<Token>)
    ensures |r| == |tokens|
    ensures forall i :: 0 <= i < |tokens| ==> r[i] == if where(tokens[i]) then tokens[i].(revoked := true) else tokens[i]
  {
    seq(|tokens|, i requires 0 <= i < |tokens| => if where(tokens[i]) then tokens[i].(revoked := true) else tokens[i])
  }

  predicate HasActiveTenant(users: map<nat, User>, activeTenants: set<nat>, user: nat) {
    user in users && users[user].active && users[user].tenant.Some? && users[user].tenant.value in activeTenants
  }

  function OfUser(user: nat, tenant: nat): Token -> bool {
    (t: Token) => t.user == user && t.tenant == Some(tenant)
  }

  function OthersOf(user: nat, tenant: nat, current: Option<nat>): Token -> bool {
    (t: Token) => t.user == user && t.tenant == Some(tenant) && Some(t.secret) != current
  }

  function OfFamily(family: nat): Token -> bool {
    (t: Token) => t.family == family
  }

  function UserTenant(users: map<nat, User>, user: nat): Option<nat> {
    if user in users then users[user].tenant else None
  }

  /** A session that starts a family. */
  function Issue(s: State, user: nat, ttl: nat): (State, Outcome) {
    var token := Token(s.nextSecret, s.nextFamily, user, UserTenant(s.users, user), s.now + ttl, false, false);
    (s.(tokens := s.tokens + [token], nextSecret := s.nextSecret + 1, nextFamily := s.nextFamily + 1), Granted(s.nextSecret))
  }

  /** `rotateRefreshToken`: spend one token, insert its successor. */
  function Rotate(s: State, id: nat, ttl: nat): (State, Outcome)
    requires id < |s.tokens|
  {
    var t := s.tokens[id];
    var next := Token(s.nextSecret, t.family, t.user, UserTenant(s.users, t.user), s.now + ttl, false, false);
    (s.(tokens := s.tokens[id := t.(revoked := true, rotated := true)] + [next], nextSecret := s.nextSecret + 1,
        exchanged := s.exchanged + [t.secret]),
     Granted(s.nextSecret))
  }

  function Exchange(s: State, presented: Option<nat>, ttl: nat): (State, Outcome) {
    if presented.None? then (s, Refused)
    else
      var id := FindToken(s.tokens, presented.value);
      if id.None? then (s, Refused)
      else
        var t := s.tokens[id.value];
        if t.revoked then (s.(tokens := RevokeWhere(s.tokens, OfFamily(t.family))), Refused)
        else if t.expiresAt <= s.now || !HasActiveTenant(s.users, s.activeTenants, t.user) then (s, Refused)
        else Rotate(s, id.value, ttl)
  }

  function SignOut(s: State, presented: Option<nat>): State {
    if presented.None? then s
    else
      var id := FindToken(s.tokens, presented.value);
      if id.None? || s.tokens[id.value].revoked then s
      else s.(tokens := s.tokens[id.value := s.tokens[id.value].(revoked := true)])
  }

  function Apply(s: State, action: Action): (State, Outcome) {
    match action
    case Login(user, ttl) => if HasActiveTenant(s.users, s.activeTenants, user) then Issue(s, user, ttl) else (s, Refused)
    case AcceptInvite(user, ttl) => if UserTenant(s.users, user).None? then (s, Refused) else Issue(s, user, ttl)
    case Refresh(presented, ttl) => Exchange(s, presented, ttl)
    case Logout(presented) => (SignOut(s, presented), Refused)
    case RevokeSession(user, tenant, id) =>
      (if id < |s.tokens| && OfUser(user, tenant)(s.tokens[id])
       then s.(tokens := s.tokens[id := s.tokens[id].(revoked := true)]) else s, Refused)
    case RevokeOthers(user, tenant, current) =>
      (s.(tokens := RevokeWhere(s.tokens, OthersOf(user, tenant, current))), Refused)
    case RevokeAll(user, tenant) => (s.(tokens := RevokeWhere(s.tokens, OfUser(user, tenant))), Refused)
    case ResetPassword(user) => (s.(tokens := RevokeWhere(s.tokens, (t: Token) => t.user == user)), Refused)
    case SetUser(user, record) => (s.(users := s.users[user := record]), Refused)
    case SetTenants(active) => (s.(activeTenants := active), Refused)
    case Wait(ticks) => (s.(now := s.now + ticks), Refused)
  }

  function Run(s: State, actions: seq<Action>): State
    decreases |actions|
  {
    if actions == [] then s else Run(Apply(s, actions[0]).0, actions[1..])
  }

  // ---------- The service and its token table ----------

  class SessionService {
    var tokens: seq<Token>
    var users: map<nat, User>
    var activeTenants: set<nat>
    var nextSecret: nat
    var nextFamily: nat
    var now: int
    ghost var exchanged: seq<nat>

    ghost function Abs(): State
      reads this
    {
      State(tokens, users, activeTenants, nextSecret, nextFamily, now, exchanged)
    }

    method CreateRefreshToken(user: nat, ttl: nat) returns (secret: nat)
      modifies this`tokens, this`nextSecret, this`nextFamily
      ensures (Abs(), Granted(secret)) == Issue(old(Abs()), user, ttl)
      ensures Inv(old(Abs())) ==>
        && Inv(Abs())
        && (forall i :: 0 <= i < |old(tokens)| ==>
              tokens[i] == old(tokens)[i] && tokens[i].secret != secret && tokens[i].family != tokens[|old(tokens)|].family)
        && Live(Abs(), tokens[|old(tokens)|].family, |old(tokens)|) && tokens[|old(tokens)|].user == user
    {
      if Inv(Abs()) {
        IssueKeeps(Abs(), user, ttl);
      }
      secret := nextSecret;
      tokens := tokens + [Token(secret, nextFamily, user, UserTenant(users, user), now + ttl, false, false)];
      nextSecret := nextSecret + 1;
      nextFamily := nextFamily + 1;
    }

    method RotateRefreshToken(id: nat, ttl: nat) returns (secret: nat)
      requires id < |tokens|
      modifies this`tokens, this`nextSecret, this`exchanged
      ensures (Abs(), Granted(secret)) == Rotate(old(Abs()), id, ttl)
      ensures Inv(old(Abs())) && !old(tokens)[id].revoked ==>
        && Inv(Abs())
        && Live(Abs(), old(tokens)[id].family, |old(tokens)|) && tokens[|old(tokens)|].secret == secret
        && tokens[|old(tokens)|].user == old(tokens)[id].user
        && (forall i :: 0 <= i < |old(tokens)| ==> tokens[i].secret != secret)
        && (forall i :: 0 <= i < |old(tokens)| && i != id ==> tokens[i] == old(tokens)[i])
    {
      if Inv(Abs()) && !tokens[id].revoked {
        RotateKeeps(Abs(), id, ttl);
      }
      var session := tokens[id];
      secret := nextSecret;
      exchanged := exchanged + [session.secret];
      tokens := tokens[id := session.(revoked := true, rotated := true)];
      tokens := tokens + [Token(secret, session.family, session.user, UserTenant(users, session.user), now + ttl, false, false)];
      nextSecret := nextSecret + 1;
    }

    method RevokeRefreshToken(id: nat)
      requires id < |tokens|
      modifies this`tokens
      ensures tokens == old(tokens)[id := old(tokens)[id].(revoked := true)]
      ensures Inv(old(Abs())) ==> Inv(Abs())
      ensures Inv(old(Abs())) && !old(tokens)[id].revoked ==> Dead(Abs(), tokens[id].family)
    {
      if Inv(Abs()) {
        RevokeKillsFamily(Abs(), id);
      }
      tokens := tokens[id := tokens[id].(revoked := true)];
    }

    /** Row by row: already revoked rows are skipped, as the query says. */
    method UpdateMany(where: Token -> bool)
      modifies this`tokens
      ensures tokens == RevokeWhere(old(tokens), where)
    {
      for i := 0 to |tokens|
        invariant |tokens| == |old(tokens)|
        invariant tokens[..i] == RevokeWhere(old(tokens), where)[..i] && tokens[i..] == old(tokens)[i..]
      {
        assert tokens[i] == old(tokens)[i];
        if where(tokens[i]) && !tokens[i].revoked {
          tokens := tokens[i := tokens[i].(revoked := true)];
        }
      }
    }

    method DoLogin(user: nat, ttl: nat) returns (outcome: Outcome)
      modifies this`tokens, this`nextSecret, this`nextFamily
      ensures (Abs(), outcome) == Apply(old(Abs()), Login(user, ttl))
    {
      if !HasActiveTenant(users, activeTenants, user) {
        return Refused;
      }
      var secret := CreateRefreshToken(user, ttl);
      return Granted(secret);
    }

    method DoRefresh(presented: Option<nat>, ttl: nat) returns (outcome: Outcome)
      modifies this`tokens, this`nextSecret, this`exchanged
      ensures (Abs(), outcome) == Apply(old(Abs()), Refresh(presented, ttl))
    {
      if presented.None? {
        return Refused;
      }
      var id := FindToken(tokens, presented.value);
      if id.None? {
        return Refused;
      }
      var session := tokens[id.value];
      if session.revoked {
        UpdateMany(OfFamily(session.family));
        return Refused;
      }
      if session.expiresAt <= now || !HasActiveTenant(users, activeTenants, session.user) {
        return Refused;
      }
      var secret := RotateRefreshToken(id.value, ttl);
      return Granted(secret);
    }

    method DoLogout(presented: Option<nat>)
      modifies this`tokens
      ensures Abs() == Apply(old(Abs()), Logout(presented)).0
    {
      if presented.None? {
        return;
      }
      var id := FindToken(tokens, presented.value);
      if id.None? || tokens[id.value].revoked {
        return;
      }
      RevokeRefreshToken(id.value);
    }

    method DoRevokeSession(user: nat, tenant: nat, id: nat)
      modifies this`tokens
      ensures Abs() == Apply(old(Abs()), RevokeSession(user, tenant, id)).0
    {
      if id < |tokens| && OfUser(user, tenant)(tokens[id]) {
        RevokeRefreshToken(id);
      }
    }

    method DoResetPassword(user: nat)
      modifies this`tokens
      ensures Abs() == Apply(old(Abs()), ResetPassword(user)).0
    {
      UpdateMany((t: Token) => t.user == user);
    }

    method DoRevokeOthers(user: nat, tenant: nat, current: Option<nat>)
      modifies this`tokens
      ensures Abs() == Apply(old(Abs()), RevokeOthers(user, tenant, current)).0
    {
      UpdateMany(OthersOf(user, tenant, current));
    }

    method DoRevokeAll(user: nat, tenant: nat)
      modifies this`tokens
      ensures Abs() == Apply(old(Abs()), RevokeAll(user, tenant)).0
    {
      UpdateMany(OfUser(user, tenant));
    }
  }

  // ---------- What every run keeps ----------

  /** Within a family only the newest token can be live. */
  predicate OnlyNewestLive(tokens: seq<Token>) {
    forall i, j :: 0 <= i < j < |tokens| && tokens[i].family == tokens[j].family ==> tokens[i].revoked
  }

  predicate OneUserPerFamily(tokens: seq<Token>) {
    forall i, j :: 0 <= i < j < |tokens| && tokens[i].family == tokens[j].family ==> tokens[i].user == tokens[j].user
  }

  predicate Numbered(s: State) {
    && (forall i :: 0 <= i < |s.tokens| ==> s.tokens[i].secret < s.nextSecret && s.tokens[i].family < s.nextFamily)
    && (forall i, j :: 0 <= i < j < |s.tokens| ==> s.tokens[i].secret != s.tokens[j].secret)
  }

  /** The exchanged secrets are the rotated tokens', each once. */
  predicate ExchangedOnce(s: State) {
    && (forall i :: 0 <= i < |s.tokens| ==> (s.tokens[i].rotated <==> s.tokens[i].secret in s.exchanged))
    && (forall i :: 0 <= i < |s.tokens| && s.tokens[i].rotated ==> s.tokens[i].revoked)
    && (forall i :: 0 <= i < |s.exchanged| ==> s.exchanged[i] < s.nextSecret)
    && (forall i, j :: 0 <= i < j < |s.exchanged| ==> s.exchanged[i] != s.exchanged[j])
  }

  predicate Inv(s: State) {
    OnlyNewestLive(s.tokens) && OneUserPerFamily(s.tokens) && Numbered(s) && ExchangedOnce(s)
  }

  /** Revoking any set of tokens is harmless. */
  lemma RevokingKeeps(s: State, tokens: seq<Token>)
    requires Inv(s) && |tokens| == |s.tokens|
    requires forall i :: 0 <= i < |tokens| ==> tokens[i] == s.tokens[i] || tokens[i] == s.tokens[i].(revoked := true)
    ensures Inv(s.(tokens := tokens))
  {
    forall i, j | 0 <= i < j < |tokens| && tokens[i].family == tokens[j].family ensures tokens[i].revoked && tokens[i].user == tokens[j].user {
      assert s.tokens[i].family == s.tokens[j].family;
    }
  }

  /** Token `id` is the one live token of the family. */
  predicate Live(s: State, family: nat, id: nat) {
    && id < |s.tokens| && s.tokens[id].family == family && !s.tokens[id].revoked
    && forall i :: 0 <= i < |s.tokens| && s.tokens[i].family == family && !s.tokens[i].revoked ==> i == id
  }

  /** A live token is its family's only one, so revoking it ends the family. */
  lemma RevokeKillsFamily(s: State, id: nat)
    requires Inv(s) && id < |s.tokens|
    ensures var n := s.(tokens := s.tokens[id := s.tokens[id].(revoked := true)]);
      Inv(n) && (!s.tokens[id].revoked ==> Dead(n, s.tokens[id].family))
  {
    RevokingKeeps(s, s.tokens[id := s.tokens[id].(revoked := true)]);
    forall i | 0 <= i < |s.tokens| && i != id && s.tokens[i].family == s.tokens[id].family && !s.tokens[id].revoked
      ensures s.tokens[i].revoked
    {
      if i < id { assert s.tokens[i].family == s.tokens[id].family; }
    }
  }

  lemma IssueKeeps(s: State, user: nat, ttl: nat)
    requires Inv(s)
    ensures Inv(Issue(s, user, ttl).0) && Live(Issue(s, user, ttl).0, s.nextFamily, |s.tokens|)
  {
  }

  lemma RotateKeeps(s: State, id: nat, ttl: nat)
    requires Inv(s) && id < |s.tokens| && !s.tokens[id].revoked
    ensures Inv(Rotate(s, id, ttl).0) && Live(Rotate(s, id, ttl).0, s.tokens[id].family, |s.tokens|)
  {
    var n := Rotate(s, id, ttl).0;
    var last := |s.tokens|;
    assert n.tokens[last].family == s.tokens[id].family && n.tokens[last].user == s.tokens[id].user;
    forall i | 0 <= i < last && n.tokens[i].family == n.tokens[last].family
      ensures n.tokens[i].revoked && n.tokens[i].user == n.tokens[last].user
    {
      if i < id { assert s.tokens[i].family == s.tokens[id].family; }
    }
    assert OnlyNewestLive(n.tokens) && OneUserPerFamily(n.tokens);
    forall i | 0 <= i < |n.tokens| ensures n.tokens[i].rotated <==> n.tokens[i].secret in n.exchanged {
      if i < last && i != id {
        assert n.tokens[i] == s.tokens[i] && s.tokens[i].secret != s.tokens[id].secret;
      }
    }
  }

  lemma StepKeeps(s: State, action: Action)
    requires Inv(s)
    ensures Inv(Apply(s, action).0)
  {
    hide OnlyNewestLive, OneUserPerFamily, Numbered, ExchangedOnce, Issue, Rotate, RevokeWhere;
    var n := Apply(s, action).0;
    match action
    case Login(user, ttl) => IssueKeeps(s, user, ttl);
    case AcceptInvite(user, ttl) => IssueKeeps(s, user, ttl);
    case Refresh(presented, ttl) =>
      if presented.Some? {
        var id := FindToken(s.tokens, presented.value);
        if id.Some? {
          if s.tokens[id.value].revoked {
            RevokingKeeps(s, n.tokens);
          } else {
            RotateKeeps(s, id.value, ttl);
          }
        }
      }
    case Logout(_) => RevokingKeeps(s, n.tokens);
    case RevokeSession(_, _, _) => RevokingKeeps(s, n.tokens);
    case RevokeOthers(_, _, _) => RevokingKeeps(s, n.tokens);
    case RevokeAll(_, _) => RevokingKeeps(s, n.tokens);
    case ResetPassword(_) => RevokingKeeps(s, n.tokens);
    case SetUser(_, _) => SameTokens(s, n);
    case SetTenants(_) => SameTokens(s, n);
    case Wait(_) => SameTokens(s, n);
  }

  lemma SameTokens(s: State, n: State)
    requires Inv(s)
    requires n == s.(users := n.users, activeTenants := n.activeTenants, now := n.now)
    ensures Inv(n)
  {
  }

  /** In every run each family has at most one live token, all its tokens belong
      to one user, and no token is exchanged twice. */
  lemma {:induction false} FamiliesSafe(s: State, actions: seq<Action>)
    requires Inv(s)
    ensures var n := Run(s, actions);
      && Inv(n)
      && (forall i, j :: 0 <= i < |n.tokens| && 0 <= j < |n.tokens| && n.tokens[i].family == n.tokens[j].family ==>
            n.tokens[i].user == n.tokens[j].user && (!n.tokens[i].revoked && !n.tokens[j].revoked ==> i == j))
      && (forall i, j :: 0 <= i < j < |n.exchanged| ==> n.exchanged[i] != n.exchanged[j])
    decreases |actions|
  {
    if actions != [] {
      hide Inv, Apply;
      StepKeeps(s, actions[0]);
      FamiliesSafe(Apply(s, actions[0]).0, actions[1..]);
    }
  }

  lemma EmptyStateSafe(users: map<nat, User>, activeTenants: set<nat>, now: int)
    ensures Inv(State([], users, activeTenants, 0, 0, now, []))
  {
  }

  /** A refresh is granted exactly for a known, live, unexpired token of an active
      user of an active tenant, and then the family has a live token again: the
      one handed out. */
  lemma RefreshGrantedExactly(s: State, secret: nat, ttl: nat)
    requires Inv(s)
    ensures var (n, outcome) := Apply(s, Refresh(Some(secret), ttl));
      && (outcome.Granted? <==> exists i :: 0 <= i < |s.tokens| && Usable(s, i, secret))
      && (outcome.Granted? ==>
            && n.tokens[|n.tokens| - 1].secret == outcome.secret && !n.tokens[|n.tokens| - 1].revoked
            && n.tokens[|n.tokens| - 1].expiresAt == s.now + ttl
            && exists i :: 0 <= i < |s.tokens| && Usable(s, i, secret)
                 && n.tokens[|n.tokens| - 1].family == s.tokens[i].family && n.tokens[|n.tokens| - 1].user == s.tokens[i].user)
  {
    var id := FindToken(s.tokens, secret);
    if id.Some? {
      assert forall i :: 0 <= i < |s.tokens| && s.tokens[i].secret == secret ==> i == id.value;
      var outcome := Apply(s, Refresh(Some(secret), ttl)).1;
      if outcome.Granted? {
        assert Usable(s, id.value, secret);
      }
    }
  }

  predicate Usable(s: State, i: nat, secret: nat)
    requires i < |s.tokens|
  {
    var t := s.tokens[i];
    t.secret == secret && !t.revoked && t.expiresAt > s.now && HasActiveTenant(s.users, s.activeTenants, t.user)
  }

  // ---------- Dead families ----------

  /** A family that has existed and has no live token. */
  predicate Dead(s: State, family: nat) {
    family < s.nextFamily && forall i :: 0 <= i < |s.tokens| && s.tokens[i].family == family ==> s.tokens[i].revoked
  }

  lemma StepKeepsDead(s: State, action: Action, family: nat)
    requires Dead(s, family)
    ensures Dead(Apply(s, action).0, family)
  {
    var n := Apply(s, action).0;
    assert s.nextFamily <= n.nextFamily && |s.tokens| <= |n.tokens| <= |s.tokens| + 1;
    forall i | 0 <= i < |s.tokens| ensures n.tokens[i].family == s.tokens[i].family && (s.tokens[i].revoked ==> n.tokens[i].revoked) {
    }
    if |n.tokens| > |s.tokens| && action.Refresh? {
      var id := FindToken(s.tokens, action.presented.value).value;
      assert s.tokens[id].family != family;
    }
  }

  /** No continuation revives a dead family. */
  lemma {:induction false} DeadForever(s: State, actions: seq<Action>, family: nat)
    requires Dead(s, family)
    ensures Dead(Run(s, actions), family)
    decreases |actions|
  {
    hide Dead, Apply;
    if actions != [] {
      StepKeepsDead(s, actions[0], family);
      DeadForever(Apply(s, actions[0]).0, actions[1..], family);
    }
  }

  /** A refresh with a token of a dead family is refused. */
  lemma DeadRefuses(s: State, family: nat, id: nat, ttl: nat)
    requires Inv(s) && Dead(s, family) && id < |s.tokens| && s.tokens[id].family == family
    ensures Apply(s, Refresh(Some(s.tokens[id].secret), ttl)).1 == Refused
  {
    var found := FindToken(s.tokens, s.tokens[id].secret).value;
    assert found == id;
  }

  /** Presenting a spent or revoked token kills its family at once, and from then
      on, after any requests, every refresh with any token of it is refused. */
  lemma ReplayKillsFamily(s: State, spent: nat, ttl: nat, later: seq<Action>, id: nat, ttl': nat)
    requires Inv(s) && spent < |s.tokens| && s.tokens[spent].revoked
    requires var n := Run(Apply(s, Refresh(Some(s.tokens[spent].secret), ttl)).0, later);
      id < |n.tokens| && n.tokens[id].family == s.tokens[spent].family
    ensures var first := Apply(s, Refresh(Some(s.tokens[spent].secret), ttl));
      var n := Run(first.0, later);
      && first.1 == Refused
      && Apply(n, Refresh(Some(n.tokens[id].secret), ttl')).1 == Refused
  {
    hide Run;
    var secret, family := s.tokens[spent].secret, s.tokens[spent].family;
    var found := FindToken(s.tokens, secret).value;
    assert found == spent;
    var after := Apply(s, Refresh(Some(secret), ttl)).0;
    assert Dead(after, family);
    DeadForever(after, later, family);
    StepKeeps(s, Refresh(Some(secret), ttl));
    FamiliesSafe(after, later);
    DeadRefuses(Run(after, later), family, id, ttl');
  }
}
