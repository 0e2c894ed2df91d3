/**
 The handlers of the admin server as they run: calls on the five stores, in order.  Each is
 proved to do what `Login` says of it.
 */
module AuthHandlers {
  import opened Prelude
  import opened Accounts
  import opened Tokens
  import opened Login
  import Totp
  import C = ChallengeStore

  class Server {
    const users: UserStore
    const sessions: SessionStore
    const pending: PendingMfaStore
    const enrolling: PendingTotpStore
    const challenges: C.Store
    var require2fa: bool

    ghost function Abs(): State
      reads this, users, sessions, pending, enrolling, challenges
    {
      State(users.users, users.lastStep, sessions.sessions, pending.pending, enrolling.enrolling, challenges.Abs(), require2fa)
    }

    constructor (policy: bool)
      ensures Abs() == Fresh(policy)
      ensures fresh(users) && fresh(sessions) && fresh(pending) && fresh(enrolling) && fresh(challenges)
    {
      users := new UserStore();
      sessions := new SessionStore();
      pending := new PendingMfaStore();
      enrolling := new PendingTotpStore();
      challenges := new C.Store();
      require2fa := policy;
    }

    method IssueSession(drawn: string, username: string, needsMfaSetup: bool, now: int) returns (reply: Reply)
      modifies sessions
      ensures (Abs(), reply) == Grant(old(Abs()), drawn, username, needsMfaSetup, now)
    {
      sessions.Create(drawn, username, needsMfaSetup, now);
      return Granted(drawn, username, needsMfaSetup);
    }

    method SetupFirst(name: string, password: string, hash: string, drawn: string, now: int) returns (reply: Reply)
      modifies users, sessions
      ensures (Abs(), reply) == HandleSetup(old(Abs()), name, password, hash, drawn, now)
    {
      if users.users != [] {
        return Denied;
      }
      var created, error := users.CreateIfEmpty(name, password, hash);
      if error.Some? || !created {
        return Denied;
      }
      reply := IssueSession(drawn, name, require2fa, now);
    }

    method Login(env: Env, name: string, password: string, drawn: string, now: int) returns (reply: Reply)
      modifies sessions, pending
      ensures (Abs(), reply) == HandleSignIn(env, old(Abs()), name, password, drawn, now)
    {
      var user := users.Find(name);
      if user.None? || !env.verify(password, user.value.hash) {
        return Denied;
      }
      if user.value.totp.Some? || user.value.passkeys != [] {
        pending.Create(drawn, name, now);
        return Challenged(drawn, name);
      }
      reply := IssueSession(drawn, name, require2fa, now);
    }

    method VerifyTotp(env: Env, pendingToken: string, code: string, drawn: string, now: int) returns (reply: Reply)
      modifies users`lastStep, sessions, pending
      ensures (Abs(), reply) == HandleTotpVerify(env, old(Abs()), pendingToken, code, drawn, now)
    {
      var username := pending.Validate(pendingToken, now);
      if username.None? {
        return Denied;
      }
      var user := users.Find(username.value);
      if user.None? || user.value.totp.None? {
        return Denied;
      }
      var step := env.matches(user.value.totp.value, code, now);
      if step.None? {
        return Denied;
      }
      var consumed := users.ConsumeTotpStep(username.value, step.value);
      if !consumed {
        return Denied;
      }
      pending.Invalidate(pendingToken);
      reply := IssueSession(drawn, username.value, false, now);
    }

    method VerifyBackupCode(env: Env, pendingToken: string, code: string, drawn: string, now: int) returns (reply: Reply)
      modifies users, sessions, pending
      ensures (Abs(), reply) == HandleBackupVerify(env, old(Abs()), pendingToken, code, drawn, now)
    {
      var username := pending.Validate(pendingToken, now);
      if username.None? {
        return Denied;
      }
      var consumed := users.ConsumeBackupCode(username.value, code, env.verify);
      if !consumed {
        return Denied;
      }
      pending.Invalidate(pendingToken);
      reply := IssueSession(drawn, username.value, false, now);
    }

    method ConfirmTotp(env: Env, user: string, session: string, code: string, hashes: seq<string>, now: int) returns (reply: Reply)
      modifies users, sessions, enrolling
      ensures (Abs(), reply) == HandleTotpConfirm(env, old(Abs()), user, session, code, hashes, now)
    {
      var secret := enrolling.Find(user, now);
      if secret.None? {
        return Denied;
      }
      var step := env.matches(secret.value, code, now);
      if step.None? {
        return Denied;
      }
      var stored := users.StoreTotp(user, secret.value, hashes);
      if !stored {
        return Denied;
      }
      var _ := users.ConsumeTotpStep(user, step.value);
      enrolling.Clear(user);
      sessions.MarkMfaSatisfied(session);
      return Enrolled;
    }

    method VerifyCurrentPassword(env: Env, user: string, password: string) returns (ok: bool)
      ensures ok == PasswordIs(env, Abs(), user, password)
    {
      var found := users.Find(user);
      ok := found.Some? && env.verify(password, found.value.hash);
    }

    method DisableTotp(env: Env, user: string, password: string) returns (reply: Reply)
      modifies users
      ensures (Abs(), reply) == HandleTotpDisable(env, old(Abs()), user, password)
    {
      var ok := VerifyCurrentPassword(env, user, password);
      if !ok {
        return Denied;
      }
      if require2fa {
        return Denied;
      }
      var dropped := users.DropTotp(user);
      return if dropped then Done else Denied;
    }

    method RegenerateBackupCodes(env: Env, user: string, password: string, hashes: seq<string>) returns (reply: Reply)
      modifies users
      ensures (Abs(), reply) == HandleNewCodes(env, old(Abs()), user, password, hashes)
    {
      var ok := VerifyCurrentPassword(env, user, password);
      if !ok {
        return Denied;
      }
      var error := users.Regenerate(user, hashes);
      return if error.None? then Done else Denied;
    }

    method VerifyRegistration(env: Env, user: string, session: string, response: string, now: int) returns (reply: Reply)
      modifies users, sessions, challenges
      ensures (Abs(), reply) == HandleRegisterVerify(env, old(Abs()), user, session, response, now)
    {
      var challenge := challenges.Take("register:" + user, now);
      if challenge.None? {
        return Denied;
      }
      var passkey := env.attests(challenge.value, response);
      if passkey.None? {
        return Denied;
      }
      var stored := users.StorePasskey(user, passkey.value);
      if !stored {
        return Denied;
      }
      sessions.MarkMfaSatisfied(session);
      return Enrolled;
    }

    method RemovePasskeyOf(user: string, id: string) returns (reply: Reply)
      modifies users
      ensures (Abs(), reply) == HandleDeletePasskey(old(Abs()), user, id)
    {
      var found := users.Find(user);
      if found.None? {
        return Denied;
      }
      var onlyFactor := found.value.totp.None? && |found.value.passkeys| <= 1;
      if onlyFactor && require2fa {
        return Denied;
      }
      var removed := users.DropPasskey(user, id);
      return if removed then Done else Denied;
    }

    method VerifyPasskeyLogin(env: Env, loginToken: string, credential: Option<Credential>, drawn: string, now: int) returns (reply: Reply)
      modifies users, sessions, challenges
      ensures (Abs(), reply) == HandleLoginVerify(env, old(Abs()), loginToken, credential, drawn, now)
    {
      var challenge := challenges.Take("login:" + loginToken, now);
      if challenge.None? || credential.None? {
        return Denied;
      }
      var c := credential.value;
      var user := users.FindByCredential(c.id);
      if user.None? {
        return Denied;
      }
      var count := env.asserts(challenge.value, c.response, user.value.passkeys[KeyIndex(user.value.passkeys, c.id)]);
      if count.None? {
        return Denied;
      }
      users.StoreSignCount(user.value.username, c.id, count.value);
      reply := IssueSession(drawn, user.value.username, false, now);
    }

    method VerifySecondPasskey(env: Env, pendingToken: string, credential: Option<Credential>, drawn: string, now: int) returns (reply: Reply)
      modifies users, sessions, pending, challenges
      ensures (Abs(), reply) == HandleSecondVerify(env, old(Abs()), pendingToken, credential, drawn, now)
    {
      var username := pending.Validate(pendingToken, now);
      if username.None? {
        return Denied;
      }
      var challenge := challenges.Take("login2fa:" + username.value, now);
      if challenge.None? || credential.None? {
        return Denied;
      }
      var c := credential.value;
      var user := users.Find(username.value);
      if user.None? {
        return Denied;
      }
      var k := KeyIndex(user.value.passkeys, c.id);
      if k == |user.value.passkeys| {
        return Denied;
      }
      var count := env.asserts(challenge.value, c.response, user.value.passkeys[k]);
      if count.None? {
        return Denied;
      }
      users.StoreSignCount(username.value, c.id, count.value);
      pending.Invalidate(pendingToken);
      reply := IssueSession(drawn, username.value, false, now);
    }

    method DeleteAccount(name: string) returns (reply: Reply)
      modifies users
      ensures (Abs(), reply) == HandleDeleteUser(old(Abs()), name)
    {
      var removed, error := users.RemoveUser(name);
      return if error.None? && removed then Done else Denied;
    }

    /** The session gate of the connection loop, for a route of the given kind. */
    method PassGate(access: Access, session: string, now: int) returns (actor: Option<string>)
      ensures actor == Gate(Abs(), access, session, now)
    {
      var found := sessions.Validate(session, now);
      if found.None? || (found.value.needsMfaSetup && access != WhileEnrolling) {
        return None;
      }
      return Some(found.value.username);
    }

    method StartPasskeyLogin(loginToken: string, challenge: C.Bytes, now: int) returns (reply: Reply)
      modifies challenges
      ensures (Abs(), reply) == HandleLoginOptions(old(Abs()), loginToken, challenge, now)
    {
      challenges.Begin("login:" + loginToken, challenge, now, CHALLENGE_TTL);
      return Done;
    }

    method StartSecondPasskey(pendingToken: string, challenge: C.Bytes, now: int) returns (reply: Reply)
      modifies challenges
      ensures (Abs(), reply) == HandleSecondOptions(old(Abs()), pendingToken, challenge, now)
    {
      var username := pending.Validate(pendingToken, now);
      if username.None? {
        return Denied;
      }
      var user := users.Find(username.value);
      if user.None? {
        return Denied;
      }
      challenges.Begin("login2fa:" + username.value, challenge, now, CHALLENGE_TTL);
      return Done;
    }

    method StartRegistration(user: string, challenge: C.Bytes, now: int) returns (reply: Reply)
      modifies challenges
      ensures (Abs(), reply) == HandleRegisterOptions(old(Abs()), user, challenge, now)
    {
      var found := users.Find(user);
      if found.None? {
        return Denied;
      }
      challenges.Begin("register:" + user, challenge, now, CHALLENGE_TTL);
      return Done;
    }

    method CreateAccount(name: string, password: string, hash: string) returns (reply: Reply)
      modifies users
      ensures (Abs(), reply) == Keep(old(Abs()), Create(old(users.users), name, password, hash))
    {
      var error := users.CreateUser(name, password, hash);
      return if error.None? then Done else Denied;
    }

    // ---------------------------------------------------------------- dispatch

    method CallPublic(env: Env, op: Op) returns (reply: Reply)
      requires AccessOf(op) == Public
      modifies users, sessions, pending, challenges
      ensures (Abs(), reply) == HandlePublic(env, old(Abs()), op)
    {
      match op
      case Setup(name, password, hash, drawn, now) => reply := SetupFirst(name, password, hash, drawn, now);
      case SignIn(name, password, drawn, now) => reply := Login(env, name, password, drawn, now);
      case TotpVerify(p, code, drawn, now) => reply := VerifyTotp(env, p, code, drawn, now);
      case BackupVerify(p, code, drawn, now) => reply := VerifyBackupCode(env, p, code, drawn, now);
      case LoginOptions(t, challenge, now) => reply := StartPasskeyLogin(t, challenge, now);
      case LoginVerify(t, credential, drawn, now) => reply := VerifyPasskeyLogin(env, t, credential, drawn, now);
      case SecondOptions(p, challenge, now) => reply := StartSecondPasskey(p, challenge, now);
      case SecondVerify(p, credential, drawn, now) => reply := VerifySecondPasskey(env, p, credential, drawn, now);
    }

    method CallAs(env: Env, user: string, op: Op) returns (reply: Reply)
      requires AccessOf(op) != Public
      modifies `require2fa, users, sessions, enrolling, challenges
      ensures (Abs(), reply) == HandleAs(env, old(Abs()), user, op)
    {
      match op
      case Logout(session, _) =>
        sessions.Invalidate(session);
        return LoggedOut;
      case TotpSetup(_, secret, now) =>
        enrolling.Start(user, secret, now);
        return Done;
      case TotpConfirm(session, code, hashes, now) => reply := ConfirmTotp(env, user, session, code, hashes, now);
      case RegisterOptions(_, challenge, now) => reply := StartRegistration(user, challenge, now);
      case RegisterVerify(session, response, now) => reply := VerifyRegistration(env, user, session, response, now);
      case TotpDisable(_, password, _) => reply := DisableTotp(env, user, password);
      case NewCodes(_, password, hashes, _) => reply := RegenerateBackupCodes(env, user, password, hashes);
      case DeletePasskey(_, id, _) => reply := RemovePasskeyOf(user, id);
      case SetRequire2fa(_, on, _) =>
        require2fa := on;
        return Done;
      case CreateUser(_, name, password, hash, _) => reply := CreateAccount(name, password, hash);
      case DeleteUser(_, name, _) => reply := DeleteAccount(name);
    }

    /** One API call, gate and handler: a step of the state machine. */
    method Call(env: Env, op: Op) returns (reply: Reply)
      modifies `require2fa, users, sessions, pending, enrolling, challenges
      ensures (Abs(), reply) == Step(env, old(Abs()), op)
    {
      if AccessOf(op) == Public {
        reply := CallPublic(env, op);
        return;
      }
      var actor := PassGate(AccessOf(op), op.session, op.now);
      if actor.None? {
        return Denied;
      }
      reply := CallAs(env, actor.value, op);
    }
  }
}
