/**
 The admin login as a state machine.  One step is one API call: the session gate, then the
 handler, with every store it touches.  Password hashes, TOTP codes and WebAuthn signatures are
 parameters; tokens, salts, secrets and challenges are drawn by the caller of a step, and a
 run is `Feasible` when no token is drawn twice.
 */
module Login {
  import opened Prelude
  import opened Accounts
  import opened Tokens
  import Totp
  import C = ChallengeStore

  const CHALLENGE_TTL := 2 * 60

  /** What an assertion or a registration of a passkey carries. */
  datatype Credential = Credential(id: string, response: string)

  /**
   The checks that are foreign or proved elsewhere: password hashes, the step at which a secret
   shows a code (`Totp.VerifyTotp`), and the two WebAuthn ceremonies.
   */
  datatype Env = Env(
    verify: Verify,
    matches: (string, string, int) -> Option<int>,
    attests: (C.Bytes, string) -> Option<Passkey>,
    asserts: (C.Bytes, string, Passkey) -> Option<nat>)

  datatype State = State(
    users: seq<User>, lastStep: map<string, int>,
    sessions: map<string, Session>, pending: map<string, Pending>, enrolling: map<string, Enrolment>,
    challenges: C.State, require2fa: bool)

  datatype Op =
    | Setup(name: string, password: string, hash: string, drawn: string, now: int)
    | SignIn(name: string, password: string, drawn: string, now: int)
    | TotpVerify(pendingToken: string, code: string, drawn: string, now: int)
    | BackupVerify(pendingToken: string, code: string, drawn: string, now: int)
    | LoginOptions(loginToken: string, challenge: C.Bytes, now: int)
    | LoginVerify(loginToken: string, credential: Option<Credential>, drawn: string, now: int)
    | SecondOptions(pendingToken: string, challenge: C.Bytes, now: int)
    | SecondVerify(pendingToken: string, credential: Option<Credential>, drawn: string, now: int)
    | Logout(session: string, now: int)
    | TotpSetup(session: string, secret: string, now: int)
    | TotpConfirm(session: string, code: string, hashes: seq<string>, now: int)
    | RegisterOptions(session: string, challenge: C.Bytes, now: int)
    | RegisterVerify(session: string, response: string, now: int)
    | TotpDisable(session: string, password: string, now: int)
    | NewCodes(session: string, password: string, hashes: seq<string>, now: int)
    | DeletePasskey(session: string, id: string, now: int)
    | SetRequire2fa(session: string, on: bool, now: int)
    | CreateUser(session: string, name: string, password: string, hash: string, now: int)
    | DeleteUser(session: string, name: string, now: int)

  datatype Reply =
    | Denied
    | Granted(token: string, username: string, needsMfaSetup: bool)
    | Challenged(token: string, username: string)
    | Enrolled
    | LoggedOut
    | Done

  // ------------------------------------------------------------------ the session gate

  datatype Access = Public | WhileEnrolling | Full

  function AccessOf(op: Op): Access {
    match op
    case Setup(_, _, _, _, _) | SignIn(_, _, _, _) | TotpVerify(_, _, _, _) | BackupVerify(_, _, _, _)
       | LoginOptions(_, _, _) | LoginVerify(_, _, _, _) | SecondOptions(_, _, _) | SecondVerify(_, _, _, _) => Public
    case Logout(_, _) | TotpSetup(_, _, _) | TotpConfirm(_, _, _, _) | RegisterOptions(_, _, _) | RegisterVerify(_, _, _) => WhileEnrolling
    case TotpDisable(_, _, _) | NewCodes(_, _, _, _) | DeletePasskey(_, _, _) | SetRequire2fa(_, _, _)
       | CreateUser(_, _, _, _, _) | DeleteUser(_, _, _) => Full
  }

  /** The user a session acts for, if it may make calls of that kind. */
  function Gate(s: State, access: Access, session: string, now: int): Option<string> {
    match SessionOf(s.sessions, session, now)
    case None => None
    case Some(found) => if found.needsMfaSetup && access != WhileEnrolling then None else Some(found.username)
  }

  // ------------------------------------------------------------------ the handlers

  function Grant(s: State, drawn: string, username: string, needsMfaSetup: bool, now: int): (State, Reply) {
    (s.(sessions := OpenSession(s.sessions, drawn, username, needsMfaSetup, now)), Granted(drawn, username, needsMfaSetup))
  }

  /** A second factor was shown for a pending login: it is used up, and a session opens. */
  function GrantPending(s: State, pendingToken: string, drawn: string, username: string, now: int): (State, Reply) {
    Grant(s.(pending := s.pending - {pendingToken}), drawn, username, false, now)
  }

  function HandleSetup(s: State, name: string, password: string, hash: string, drawn: string, now: int): (State, Reply) {
    if s.users != [] then (s, Denied)
    else match Create([], name, password, hash)
         case Err(_) => (s, Denied)
         case Ok(users) => Grant(s.(users := users), drawn, name, s.require2fa, now)
  }

  function HandleSignIn(env: Env, s: State, name: string, password: string, drawn: string, now: int): (State, Reply) {
    match Lookup(s.users, name)
    case None => (s, Denied)
    case Some(u) =>
      if !env.verify(password, u.hash) then (s, Denied)
      else if HasFactor(u) then (s.(pending := OpenPending(s.pending, drawn, name, now)), Challenged(drawn, name))
      else Grant(s, drawn, name, s.require2fa, now)
  }

  function HandleTotpVerify(env: Env, s: State, pendingToken: string, code: string, drawn: string, now: int): (State, Reply) {
    match PendingUser(s.pending, pendingToken, now)
    case None => (s, Denied)
    case Some(name) =>
      match TotpStep(env, s, name, code, now)
      case None => (s, Denied)
      case Some(step) =>
        var consumed := Totp.ConsumeStep(s.lastStep, name, step);
        if !consumed.1 then (s, Denied)
        else GrantPending(s.(lastStep := consumed.0), pendingToken, drawn, name, now)
  }

  /** The step at which the user's own secret shows the code. */
  function TotpStep(env: Env, s: State, name: string, code: string, now: int): Option<int> {
    match Lookup(s.users, name)
    case None => None
    case Some(u) => if u.totp.None? then None else env.matches(u.totp.value, code, now)
  }

  function HandleBackupVerify(env: Env, s: State, pendingToken: string, code: string, drawn: string, now: int): (State, Reply) {
    match PendingUser(s.pending, pendingToken, now)
    case None => (s, Denied)
    case Some(name) =>
      match SpendCode(s.users, name, code, env.verify)
      case None => (s, Denied)
      case Some(users) => GrantPending(s.(users := users), pendingToken, drawn, name, now)
  }

  function HandleLoginOptions(s: State, loginToken: string, challenge: C.Bytes, now: int): (State, Reply) {
    (s.(challenges := C.Start(s.challenges, "login:" + loginToken, challenge, now, CHALLENGE_TTL)), Done)
  }

  /** The user after an assertion by one of its passkeys, if that is good. */
  function Asserted(env: Env, s: State, u: User, c: Credential, challenge: C.Bytes): Option<seq<User>> {
    var k := KeyIndex(u.passkeys, c.id);
    if k == |u.passkeys| then None
    else match env.asserts(challenge, c.response, u.passkeys[k])
         case None => None
         case Some(count) => Some(UpdateSignCount(s.users, u.username, c.id, count))
  }

  function HandleLoginVerify(env: Env, s: State, loginToken: string, credential: Option<Credential>, drawn: string, now: int): (State, Reply) {
    var consumed := C.Consume(s.challenges, "login:" + loginToken, now);
    var t := s.(challenges := consumed.0);
    if consumed.1.None? || credential.None? then (t, Denied)
    else match OwnerOf(t.users, credential.value.id)
         case None => (t, Denied)
         case Some(u) =>
           match Asserted(env, t, u, credential.value, consumed.1.value)
           case None => (t, Denied)
           case Some(users) => Grant(t.(users := users), drawn, u.username, false, now)
  }

  function HandleSecondOptions(s: State, pendingToken: string, challenge: C.Bytes, now: int): (State, Reply) {
    match PendingUser(s.pending, pendingToken, now)
    case None => (s, Denied)
    case Some(name) =>
      if Lookup(s.users, name).None? then (s, Denied)
      else (s.(challenges := C.Start(s.challenges, "login2fa:" + name, challenge, now, CHALLENGE_TTL)), Done)
  }

  function HandleSecondVerify(env: Env, s: State, pendingToken: string, credential: Option<Credential>, drawn: string, now: int): (State, Reply) {
    match PendingUser(s.pending, pendingToken, now)
    case None => (s, Denied)
    case Some(name) =>
      var consumed := C.Consume(s.challenges, "login2fa:" + name, now);
      var t := s.(challenges := consumed.0);
      if consumed.1.None? || credential.None? then (t, Denied)
      else match Lookup(t.users, name)
           case None => (t, Denied)
           case Some(u) =>
             match Asserted(env, t, u, credential.value, consumed.1.value)
             case None => (t, Denied)
             case Some(users) => GrantPending(t.(users := users), pendingToken, drawn, name, now)
  }

  /** Enrolment frees the session that made it. */
  function Enrol(s: State, session: string): (State, Reply) {
    (s.(sessions := Satisfied(s.sessions, session)), Enrolled)
  }

  function HandleTotpConfirm(env: Env, s: State, user: string, session: string, code: string, hashes: seq<string>, now: int): (State, Reply) {
    match SecretFor(s.enrolling, user, now)
    case None => (s, Denied)
    case Some(secret) =>
      match env.matches(secret, code, now)
      case None => (s, Denied)
      case Some(step) =>
        match SetTotp(s.users, user, secret, hashes)
        case Err(_) => (s, Denied)
        case Ok(users) =>
          Enrol(s.(users := users, lastStep := Totp.ConsumeStep(s.lastStep, user, step).0, enrolling := s.enrolling - {user}), session)
  }

  function HandleRegisterOptions(s: State, user: string, challenge: C.Bytes, now: int): (State, Reply) {
    if Lookup(s.users, user).None? then (s, Denied)
    else (s.(challenges := C.Start(s.challenges, "register:" + user, challenge, now, CHALLENGE_TTL)), Done)
  }

  function HandleRegisterVerify(env: Env, s: State, user: string, session: string, response: string, now: int): (State, Reply) {
    var consumed := C.Consume(s.challenges, "register:" + user, now);
    var t := s.(challenges := consumed.0);
    if consumed.1.None? then (t, Denied)
    else match env.attests(consumed.1.value, response)
         case None => (t, Denied)
         case Some(passkey) =>
           match AddPasskey(t.users, user, passkey)
           case Err(_) => (t, Denied)
           case Ok(users) => Enrol(t.(users := users), session)
  }

  predicate PasswordIs(env: Env, s: State, user: string, password: string) {
    var u := Lookup(s.users, user);
    u.Some? && env.verify(password, u.value.hash)
  }

  /** The handlers' common end: the new list of users, or the old state. */
  function Keep(s: State, users: Result<seq<User>>): (State, Reply) {
    match users
    case Err(_) => (s, Denied)
    case Ok(after) => (s.(users := after), Done)
  }

  function HandleTotpDisable(env: Env, s: State, user: string, password: string): (State, Reply) {
    if !PasswordIs(env, s, user, password) || s.require2fa then (s, Denied) else Keep(s, ClearTotp(s.users, user))
  }

  function HandleNewCodes(env: Env, s: State, user: string, password: string, hashes: seq<string>): (State, Reply) {
    if !PasswordIs(env, s, user, password) then (s, Denied) else Keep(s, RegenerateCodes(s.users, user, hashes))
  }

  function HandleDeletePasskey(s: State, user: string, id: string): (State, Reply) {
    match Lookup(s.users, user)
    case None => (s, Denied)
    case Some(u) =>
      if u.totp.None? && |u.passkeys| <= 1 && s.require2fa then (s, Denied)
      else match RemovePasskey(s.users, user, id)
           case None => (s, Denied)
           case Some(users) => (s.(users := users), Done)
  }

  function HandleDeleteUser(s: State, name: string): (State, Reply) {
    match Remove(s.users, name)
    case Err(_) => (s, Denied)
    case Ok((removed, users)) => if removed then (s.(users := users), Done) else (s, Denied)
  }

  // ------------------------------------------------------------------ steps and runs

  function HandlePublic(env: Env, s: State, op: Op): (State, Reply)
    requires AccessOf(op) == Public
  {
    match op
    case Setup(name, password, hash, drawn, now) => HandleSetup(s, name, password, hash, drawn, now)
    case SignIn(name, password, drawn, now) => HandleSignIn(env, s, name, password, drawn, now)
    case TotpVerify(p, code, drawn, now) => HandleTotpVerify(env, s, p, code, drawn, now)
    case BackupVerify(p, code, drawn, now) => HandleBackupVerify(env, s, p, code, drawn, now)
    case LoginOptions(t, challenge, now) => HandleLoginOptions(s, t, challenge, now)
    case LoginVerify(t, credential, drawn, now) => HandleLoginVerify(env, s, t, credential, drawn, now)
    case SecondOptions(p, challenge, now) => HandleSecondOptions(s, p, challenge, now)
    case SecondVerify(p, credential, drawn, now) => HandleSecondVerify(env, s, p, credential, drawn, now)
  }

  function HandleAs(env: Env, s: State, user: string, op: Op): (State, Reply)
    requires AccessOf(op) != Public
  {
    match op
    case Logout(session, _) => (s.(sessions := s.sessions - {session}), LoggedOut)
    case TotpSetup(_, secret, now) => (s.(enrolling := s.enrolling[user := Enrolment(secret, now + ENROLMENT_TTL)]), Done)
    case TotpConfirm(session, code, hashes, now) => HandleTotpConfirm(env, s, user, session, code, hashes, now)
    case RegisterOptions(_, challenge, now) => HandleRegisterOptions(s, user, challenge, now)
    case RegisterVerify(session, response, now) => HandleRegisterVerify(env, s, user, session, response, now)
    case TotpDisable(_, password, _) => HandleTotpDisable(env, s, user, password)
    case NewCodes(_, password, hashes, _) => HandleNewCodes(env, s, user, password, hashes)
    case DeletePasskey(_, id, _) => HandleDeletePasskey(s, user, id)
    case SetRequire2fa(_, on, _) => (s.(require2fa := on), Done)
    case CreateUser(_, name, password, hash, _) => Keep(s, Create(s.users, name, password, hash))
    case DeleteUser(_, name, _) => HandleDeleteUser(s, name)
  }

  /** The user a call acts for, by the gate. */
  function Actor(s: State, op: Op): Option<string>
    requires AccessOf(op) != Public
  {
    Gate(s, AccessOf(op), op.session, op.now)
  }

  function Step(env: Env, s: State, op: Op): (State, Reply) {
    if AccessOf(op) == Public then HandlePublic(env, s, op)
    else match Actor(s, op)
         case None => (s, Denied)
         case Some(user) => HandleAs(env, s, user, op)
  }

  function Run(env: Env, start: State, ops: seq<Op>): State {
    if ops == [] then start else Step(env, Run(env, start, Front(ops)), Last(ops)).0
  }

  /** The state in which call `i` of a run is made, and its reply. */
  function Before(env: Env, start: State, ops: seq<Op>, i: nat): State
    requires i <= |ops|
  {
    Run(env, start, ops[..i])
  }

  function ReplyTo(env: Env, start: State, ops: seq<Op>, i: nat): Reply
    requires i < |ops|
  {
    Step(env, Before(env, start, ops, i), ops[i]).1
  }

  /** A server with no account yet. */
  function Fresh(require2fa: bool): State {
    State([], map[], map[], map[], map[], C.State(map[], []), require2fa)
  }

  // ------------------------------------------------------------------ what a reply tells

  /** The pending login that a call uses up when it is granted. */
  function Redeemed(op: Op): Option<string> {
    match op
    case TotpVerify(p, _, _, _) => Some(p)
    case BackupVerify(p, _, _, _) => Some(p)
    case SecondVerify(p, _, _, _) => Some(p)
    case _ => None
  }

  function SessionsAfter(s: State, op: Op, reply: Reply): map<string, Session> {
    match reply
    case Granted(token, username, needs) => OpenSession(s.sessions, token, username, needs, op.now)
    case Enrolled => if AccessOf(op) == Public then s.sessions else Satisfied(s.sessions, op.session)
    case LoggedOut => if AccessOf(op) == Public then s.sessions else s.sessions - {op.session}
    case _ => s.sessions
  }

  function PendingAfter(s: State, op: Op, reply: Reply): map<string, Pending> {
    match reply
    case Granted(_, _, _) => if Redeemed(op).Some? then s.pending - {Redeemed(op).value} else s.pending
    case Challenged(token, username) => OpenPending(s.pending, token, username, op.now)
    case _ => s.pending
  }

  /** A reply tells all that a call does to sessions and pending logins; few calls touch the policy or the last TOTP steps. */
  ghost predicate Told(s: State, op: Op, result: (State, Reply)) {
    && result.0.sessions == SessionsAfter(s, op, result.1)
    && result.0.pending == PendingAfter(s, op, result.1)
    && (result.0.require2fa == s.require2fa || op.SetRequire2fa?)
    && (result.0.lastStep == s.lastStep || op.TotpVerify? || op.TotpConfirm?)
  }

  lemma {:induction false} RepliesTellAll(env: Env, s: State, op: Op)
    ensures Told(s, op, Step(env, s, op))
  {
    if AccessOf(op) == Public { PublicReplies(env, s, op); }
    else if Actor(s, op).Some? { ActorReplies(env, s, Actor(s, op).value, op); }
  }

  lemma {:induction false} PublicReplies(env: Env, s: State, op: Op)
    requires AccessOf(op) == Public
    ensures Told(s, op, HandlePublic(env, s, op))
  {
    match op
    case Setup(name, password, hash, drawn, now) => SetupReplies(s, op);
    case SignIn(name, password, drawn, now) => SignInReplies(env, s, op);
    case TotpVerify(p, code, drawn, now) => TotpReplies(env, s, op);
    case BackupVerify(p, code, drawn, now) => BackupReplies(env, s, op);
    case LoginOptions(t, challenge, now) =>
    case LoginVerify(t, credential, drawn, now) => LoginReplies(env, s, op);
    case SecondOptions(p, challenge, now) => OptionsReplies(s, op);
    case SecondVerify(p, credential, drawn, now) => SecondReplies(env, s, op);
  }

  lemma {:induction false} SetupReplies(s: State, op: Op)
    requires op.Setup?
    ensures Told(s, op, HandleSetup(s, op.name, op.password, op.hash, op.drawn, op.now))
  {
  }

  lemma {:induction false} SignInReplies(env: Env, s: State, op: Op)
    requires op.SignIn?
    ensures Told(s, op, HandleSignIn(env, s, op.name, op.password, op.drawn, op.now))
  {
  }

  lemma {:induction false} TotpReplies(env: Env, s: State, op: Op)
    requires op.TotpVerify?
    ensures Told(s, op, HandleTotpVerify(env, s, op.pendingToken, op.code, op.drawn, op.now))
  {
  }

  lemma {:induction false} BackupReplies(env: Env, s: State, op: Op)
    requires op.BackupVerify?
    ensures Told(s, op, HandleBackupVerify(env, s, op.pendingToken, op.code, op.drawn, op.now))
  {
  }

  lemma {:induction false} LoginReplies(env: Env, s: State, op: Op)
    requires op.LoginVerify?
    ensures Told(s, op, HandleLoginVerify(env, s, op.loginToken, op.credential, op.drawn, op.now))
  {
  }

  lemma {:induction false} OptionsReplies(s: State, op: Op)
    requires op.SecondOptions?
    ensures Told(s, op, HandleSecondOptions(s, op.pendingToken, op.challenge, op.now))
  {
  }

  lemma {:induction false} SecondReplies(env: Env, s: State, op: Op)
    requires op.SecondVerify?
    ensures Told(s, op, HandleSecondVerify(env, s, op.pendingToken, op.credential, op.drawn, op.now))
  {
  }

  lemma {:induction false} ActorReplies(env: Env, s: State, user: string, op: Op)
    requires AccessOf(op) != Public
    ensures Told(s, op, HandleAs(env, s, user, op))
  {
    match op
    case Logout(session, _) =>
    case TotpSetup(_, secret, now) =>
    case TotpConfirm(session, code, hashes, now) => ConfirmReplies(env, s, user, op);
    case RegisterOptions(_, challenge, now) =>
    case RegisterVerify(session, response, now) => RegisterReplies(env, s, user, op);
    case _ => AccountReplies(env, s, user, op);
  }

  lemma {:induction false} ConfirmReplies(env: Env, s: State, user: string, op: Op)
    requires op.TotpConfirm?
    ensures Told(s, op, HandleTotpConfirm(env, s, user, op.session, op.code, op.hashes, op.now))
  {
  }

  lemma {:induction false} RegisterReplies(env: Env, s: State, user: string, op: Op)
    requires op.RegisterVerify?
    ensures Told(s, op, HandleRegisterVerify(env, s, user, op.session, op.response, op.now))
  {
  }

  lemma {:induction false} AccountReplies(env: Env, s: State, user: string, op: Op)
    requires AccessOf(op) == Full
    ensures Told(s, op, HandleAs(env, s, user, op))
  {
    match op
    case TotpDisable(_, password, _) => KeepReplies(s, op, ClearTotp(s.users, user));
    case NewCodes(_, password, hashes, _) => KeepReplies(s, op, RegenerateCodes(s.users, user, hashes));
    case DeletePasskey(_, id, _) => DeleteReplies(s, user, op);
    case SetRequire2fa(_, on, _) =>
    case CreateUser(_, name, password, hash, _) => KeepReplies(s, op, Create(s.users, name, password, hash));
    case DeleteUser(_, name, _) => EraseReplies(s, op);
  }

  lemma {:induction false} KeepReplies(s: State, op: Op, users: Result<seq<User>>)
    ensures Told(s, op, Keep(s, users)) && Told(s, op, (s, Denied))
  {
  }

  lemma {:induction false} DeleteReplies(s: State, user: string, op: Op)
    requires op.DeletePasskey?
    ensures Told(s, op, HandleDeletePasskey(s, user, op.id))
  {
  }

  lemma {:induction false} EraseReplies(s: State, op: Op)
    requires op.DeleteUser?
    ensures Told(s, op, HandleDeleteUser(s, op.name))
  {
  }
}
