/**
 What the handlers do to the accounts, over whole runs: while two-factor authentication stays
 required nothing but a deletion leaves an enrolled user without a factor, backup codes are
 spent one by one, and TOTP codes are accepted at most once per step.
 */
module LoginPolicy {
  import opened Prelude
  import opened Accounts
  import opened Tokens
  import opened Login
  import opened LoginRuns
  import Totp
  import C = ChallengeStore

  // ------------------------------------------------------------------ one call changes one user

  datatype Change = Unchanged | NewUser(u: User) | Edited(u: User) | Erased(name: string)

  function Made(users: seq<User>, c: Change): seq<User> {
    match c
    case Unchanged => users
    case NewUser(u) => users + [u]
    case Edited(u) => Put(users, u)
    case Erased(name) => Erase(users, name)
  }

  /** Backup codes of `name` accepted by this call. */
  function SpentBy(op: Op, reply: Reply, name: string): nat {
    if op.BackupVerify? && reply.Granted? && reply.username == name then 1 else 0
  }

  /** Backup codes handed to `name` by this call. */
  function IssuedBy(s: State, op: Op, reply: Reply, name: string): nat {
    if op.TotpConfirm? && reply == Enrolled && Actor(s, op) == Some(name) then |op.hashes|
    else if op.NewCodes? && reply == Done && Actor(s, op) == Some(name) then |op.hashes|
    else 0
  }

  /** The backup code `code` was accepted for `name` by this call. */
  function SpentWith(op: Op, reply: Reply, name: string, code: string): nat {
    if op.BackupVerify? && op.code == code then SpentBy(op, reply, name) else 0
  }

  /** Of the codes handed to `name` by this call, those that `code` is good for. */
  function IssuedFor(env: Env, s: State, op: Op, reply: Reply, name: string, code: string): nat {
    if IssuedBy(s, op, reply, name) > 0 then Chances(Issue(op.hashes), code, env.verify) else 0
  }

  /** The call enrolled `name` in a second factor. */
  predicate Enrols(s: State, op: Op, reply: Reply, name: string) {
    reply == Enrolled && AccessOf(op) != Public && Actor(s, op) == Some(name)
  }

  /** The call deleted the account `name`: a refused deletion does not count. */
  predicate Removes(op: Op, reply: Reply, name: string) {
    op.DeleteUser? && op.name == name && reply == Done
  }

  /** Backup codes come with TOTP only. */
  predicate CodesNeedTotp(u: User) {
    u.codes != [] ==> u.totp.Some?
  }

  /** For every code, acceptances of it are paid for with codes it is good for. */
  ghost predicate CodesPaid(env: Env, s: State, op: Op, reply: Reply, u: User, v: User) {
    forall code :: CodePaid(env, s, op, reply, u, v, code)
  }

  predicate CodePaid(env: Env, s: State, op: Op, reply: Reply, u: User, v: User, code: string) {
    Chances(v.codes, code, env.verify) + SpentWith(op, reply, v.username, code)
    <= Chances(u.codes, code, env.verify) + IssuedFor(env, s, op, reply, v.username, code)
  }

  // ------------------------------------------------------------------ what a change rests on

  /** The session of the call has not expired, is `name`'s, and is good for this kind of call. */
  predicate ActsAs(s: State, op: Op, name: string) {
    match op
    case Setup(_, _, _, _, _) | SignIn(_, _, _, _) | TotpVerify(_, _, _, _) | BackupVerify(_, _, _, _)
       | LoginOptions(_, _, _) | LoginVerify(_, _, _, _) | SecondOptions(_, _, _) | SecondVerify(_, _, _, _) => false
    case Logout(_, _) | TotpSetup(_, _, _) | TotpConfirm(_, _, _, _) | RegisterOptions(_, _, _) | RegisterVerify(_, _, _) =>
      op.session in s.sessions && op.now <= s.sessions[op.session].expiresAt && s.sessions[op.session].username == name
    case TotpDisable(_, _, _) | NewCodes(_, _, _, _) | DeletePasskey(_, _, _) | SetRequire2fa(_, _, _)
       | CreateUser(_, _, _, _, _) | DeleteUser(_, _, _) =>
      op.session in s.sessions && op.now <= s.sessions[op.session].expiresAt && s.sessions[op.session].username == name
      && !s.sessions[op.session].needsMfaSetup
  }

  /** The same codes, some more of them used. */
  predicate OnlySpent(before: seq<BackupCode>, after: seq<BackupCode>) {
    |before| == |after| && forall i :: 0 <= i < |before| ==> before[i].hash == after[i].hash && (before[i].used ==> after[i].used)
  }

  /** The same passkeys, counters aside. */
  predicate SameKeys(before: seq<Passkey>, after: seq<Passkey>) {
    |before| == |after| && forall i :: 0 <= i < |before| ==> before[i].id == after[i].id && before[i].publicKey == after[i].publicKey
  }

  /** A code that the pending, unexpired secret shows was confirmed by a session of the user. */
  predicate Confirmed(env: Env, s: State, op: Op, reply: Reply, u: User, v: User) {
    && op.TotpConfirm? && reply == Enrolled && ActsAs(s, op, u.username)
    && u.username in s.enrolling && op.now <= s.enrolling[u.username].expiresAt
    && env.matches(s.enrolling[u.username].secret, op.code, op.now).Some? && v.totp == Some(s.enrolling[u.username].secret)
  }

  /** A session of the user took TOTP away or renewed the codes, with the right password. */
  predicate WithPassword(env: Env, s: State, op: Op, reply: Reply, u: User, v: User) {
    && reply == Done && ActsAs(s, op, u.username)
    && if op.TotpDisable? then env.verify(op.password, u.hash) && !s.require2fa && v.totp.None? && v.codes == []
       else op.NewCodes? && env.verify(op.password, u.hash) && u.totp.Some? && v.totp == u.totp
  }

  predicate PasskeysChanged(s: State, op: Op, reply: Reply, u: User) {
    ActsAs(s, op, u.username) && ((op.RegisterVerify? && reply == Enrolled) || (op.DeletePasskey? && reply == Done))
  }

  predicate CodeUsed(op: Op, reply: Reply, u: User) {
    op.BackupVerify? && reply.Granted? && reply.username == u.username
  }

  /** Nothing about a user changes but on these grounds; the password never does. */
  predicate Warranted(env: Env, s: State, op: Op, reply: Reply, u: User, v: User) {
    && u.username == v.username && u.hash == v.hash
    && (u.totp != v.totp || !OnlySpent(u.codes, v.codes) ==> Confirmed(env, s, op, reply, u, v) || WithPassword(env, s, op, reply, u, v))
    && (u.codes != v.codes && OnlySpent(u.codes, v.codes) && u.totp == v.totp ==>
          CodeUsed(op, reply, u) || Confirmed(env, s, op, reply, u, v) || WithPassword(env, s, op, reply, u, v))
    && (!SameKeys(u.passkeys, v.passkeys) ==> PasskeysChanged(s, op, reply, u))
  }

  /** A new account has the name and the hash of the call, and nothing more. */
  predicate Opened(s: State, op: Op, reply: Reply, u: User) {
    && u == User(u.username, u.hash, None, [], []) && u.username != ""
    && if op.Setup? then s.users == [] && reply.Granted? && u.username == op.name && u.hash == op.hash && |op.password| >= 8
       else op.CreateUser? && reply == Done && u.username == op.name && u.hash == op.hash && |op.password| >= 8
            && op.session in s.sessions && ActsAs(s, op, s.sessions[op.session].username)
  }

  ghost predicate EditOk(env: Env, s: State, op: Op, reply: Reply, u: User, v: User) {
    && Warranted(env, s, op, reply, u, v)
    && (CodesNeedTotp(u) ==> CodesNeedTotp(v))
    && (s.require2fa && HasFactor(u) ==> HasFactor(v))
    && (HasFactor(v) ==> HasFactor(u) || Enrols(s, op, reply, v.username))
    && Unused(v.codes) + SpentBy(op, reply, v.username) <= Unused(u.codes) + IssuedBy(s, op, reply, v.username)
    && CodesPaid(env, s, op, reply, u, v)
  }

  /** How a call may change the accounts. */
  ghost predicate ChangeOk(env: Env, s: State, op: Op, result: (State, Reply), c: Change) {
    && result.0.users == Made(s.users, c)
    && (op.DeleteUser? && result.1 == Done ==> c == Erased(op.name))
    && match c
       case Unchanged => forall name :: SpentBy(op, result.1, name) == 0
       case NewUser(u) => Lookup(s.users, u.username).None? && Opened(s, op, result.1, u) && forall name :: SpentBy(op, result.1, name) == 0
       case Erased(name) => Removes(op, result.1, name) && |s.users| > 1 && op.session in s.sessions && ActsAs(s, op, s.sessions[op.session].username) && forall other :: SpentBy(op, result.1, other) == 0
       case Edited(v) =>
         && Lookup(s.users, v.username).Some?
         && EditOk(env, s, op, result.1, Lookup(s.users, v.username).value, v)
         && forall name :: name != v.username ==> SpentBy(op, result.1, name) == 0
  }

  lemma {:induction false} ChangeOf(env: Env, s: State, op: Op) returns (c: Change)
    requires Distinct(s.users)
    ensures ChangeOk(env, s, op, Step(env, s, op), c)
  {
    c := Unchanged;
    if AccessOf(op) == Public {
      match op
      case Setup(_, _, _, _, _) => c := SetupChange(env, s, op);
      case SignIn(_, _, _, _) => SignInChange(env, s, op);
      case TotpVerify(_, _, _, _) => TotpChange(env, s, op);
      case BackupVerify(_, _, _, _) => c := BackupChange(env, s, op);
      case LoginOptions(_, _, _) =>
      case LoginVerify(_, _, _, _) => c := LoginChange(env, s, op);
      case SecondOptions(_, _, _) => OptionsChange(env, s, op);
      case SecondVerify(_, _, _, _) => c := SecondChange(env, s, op);
    } else if Actor(s, op).Some? {
      c := ActorChange(env, s, Actor(s, op).value, op);
    }
  }

  lemma {:induction false} SetupChange(env: Env, s: State, op: Op) returns (c: Change)
    requires op.Setup?
    ensures ChangeOk(env, s, op, HandleSetup(s, op.name, op.password, op.hash, op.drawn, op.now), c)
  {
    var made := Create([], op.name, op.password, op.hash);
    c := if s.users == [] && made.Ok? then NewUser(User(op.name, op.hash, None, [], [])) else Unchanged;
  }

  lemma {:induction false} SignInChange(env: Env, s: State, op: Op)
    requires op.SignIn?
    ensures ChangeOk(env, s, op, HandleSignIn(env, s, op.name, op.password, op.drawn, op.now), Unchanged)
  {
  }

  lemma {:induction false} TotpChange(env: Env, s: State, op: Op)
    requires op.TotpVerify?
    ensures ChangeOk(env, s, op, HandleTotpVerify(env, s, op.pendingToken, op.code, op.drawn, op.now), Unchanged)
  {
  }

  lemma {:induction false} OptionsChange(env: Env, s: State, op: Op)
    requires op.SecondOptions?
    ensures ChangeOk(env, s, op, HandleSecondOptions(s, op.pendingToken, op.challenge, op.now), Unchanged)
  {
  }

  lemma {:induction false} BackupChange(env: Env, s: State, op: Op) returns (c: Change)
    requires op.BackupVerify?
    ensures ChangeOk(env, s, op, HandleBackupVerify(env, s, op.pendingToken, op.code, op.drawn, op.now), c)
  {
    c := Unchanged;
    var name := PendingUser(s.pending, op.pendingToken, op.now);
    if name.Some? && Lookup(s.users, name.value).Some? {
      var u := Lookup(s.users, name.value).value;
      SpendTakesOne(u.codes, op.code, env.verify);
      if Spend(u.codes, op.code, env.verify).Some? {
        var v := u.(codes := Spend(u.codes, op.code, env.verify).value);
        var reply := HandleBackupVerify(env, s, op.pendingToken, op.code, op.drawn, op.now).1;
        forall code ensures CodePaid(env, s, op, reply, u, v, code) {
          SpendPays(u.codes, op.code, code, env.verify);
        }
        c := Edited(v);
      }
    }
  }

  /** A good assertion changes nothing but a counter. */
  lemma {:induction false} CountEdit(users: seq<User>, u: User, id: string, count: nat) returns (c: Change)
    requires Lookup(users, u.username) == Some(u) && KeyIndex(u.passkeys, id) < |u.passkeys|
    ensures c.Edited? && c.u.username == u.username && UpdateSignCount(users, u.username, id, count) == Made(users, c)
    ensures c.u.totp == u.totp && c.u.codes == u.codes && HasFactor(c.u)
  {
    var k := KeyIndex(u.passkeys, id);
    c := Edited(u.(passkeys := u.passkeys[k := u.passkeys[k].(signCount := count)]));
  }

  lemma {:induction false} OwnerIsFound(users: seq<User>, id: string)
    requires Distinct(users) && OwnerOf(users, id).Some?
    ensures Lookup(users, OwnerOf(users, id).value.username) == OwnerOf(users, id)
  {
    var u := OwnerOf(users, id).value;
    var i :| 0 <= i < |users| && users[i] == u;
    IndexIs(users, u.username, i);
  }

  lemma {:induction false} LoginChange(env: Env, s: State, op: Op) returns (c: Change)
    requires op.LoginVerify? && Distinct(s.users)
    ensures ChangeOk(env, s, op, HandleLoginVerify(env, s, op.loginToken, op.credential, op.drawn, op.now), c)
  {
    c := Unchanged;
    if op.credential.Some? && OwnerOf(s.users, op.credential.value.id).Some? {
      var u := OwnerOf(s.users, op.credential.value.id).value;
      OwnerIsFound(s.users, op.credential.value.id);
      var consumed := C.Consume(s.challenges, "login:" + op.loginToken, op.now);
      var challenge := if consumed.1.Some? then consumed.1.value else [];
      c := AssertionChange(env, s, op, u, challenge, HandleLoginVerify(env, s, op.loginToken, op.credential, op.drawn, op.now));
    }
  }

  lemma {:induction false} SecondChange(env: Env, s: State, op: Op) returns (c: Change)
    requires op.SecondVerify?
    ensures ChangeOk(env, s, op, HandleSecondVerify(env, s, op.pendingToken, op.credential, op.drawn, op.now), c)
  {
    c := Unchanged;
    var name := PendingUser(s.pending, op.pendingToken, op.now);
    if name.Some? && op.credential.Some? && Lookup(s.users, name.value).Some? {
      var consumed := C.Consume(s.challenges, "login2fa:" + name.value, op.now);
      var challenge := if consumed.1.Some? then consumed.1.value else [];
      c := AssertionChange(env, s, op, Lookup(s.users, name.value).value, challenge, HandleSecondVerify(env, s, op.pendingToken, op.credential, op.drawn, op.now));
    }
  }

  /** Users after a passkey was asserted, or not. */
  lemma {:induction false} AssertionChange(env: Env, s: State, op: Op, u: User, challenge: C.Bytes, result: (State, Reply)) returns (c: Change)
    requires Lookup(s.users, u.username) == Some(u) && (op.LoginVerify? || op.SecondVerify?) && op.credential.Some?
    requires result.0.users == s.users || Asserted(env, s, u, op.credential.value, challenge) == Some(result.0.users)
    ensures ChangeOk(env, s, op, result, c)
  {
    c := Unchanged;
    if result.0.users != s.users {
      var count := env.asserts(challenge, op.credential.value.response, u.passkeys[KeyIndex(u.passkeys, op.credential.value.id)]).value;
      c := CountEdit(s.users, u, op.credential.value.id, count);
    }
  }

  lemma {:induction false} ActorChange(env: Env, s: State, user: string, op: Op) returns (c: Change)
    requires AccessOf(op) != Public && Actor(s, op) == Some(user)
    ensures ChangeOk(env, s, op, HandleAs(env, s, user, op), c)
  {
    c := Unchanged;
    match op
    case TotpConfirm(_, _, _, _) => c := ConfirmChange(env, s, user, op);
    case RegisterVerify(_, _, _) => c := RegisterChange(env, s, user, op);
    case TotpDisable(_, _, _) => c := DisableChange(env, s, user, op);
    case NewCodes(_, _, _, _) => c := NewCodesChange(env, s, user, op);
    case DeletePasskey(_, _, _) => c := DeleteChange(env, s, user, op);
    case CreateUser(_, name, password, hash, _) =>
      if Create(s.users, name, password, hash).Ok? { c := NewUser(User(name, hash, None, [], [])); }
    case DeleteUser(_, name, _) =>
      if Lookup(s.users, name).Some? && |s.users| != 1 { c := Erased(name); }
    case _ =>
  }

  lemma {:induction false} ConfirmChange(env: Env, s: State, user: string, op: Op) returns (c: Change)
    requires op.TotpConfirm? && Actor(s, op) == Some(user)
    ensures ChangeOk(env, s, op, HandleTotpConfirm(env, s, user, op.session, op.code, op.hashes, op.now), c)
  {
    c := Unchanged;
    var secret := SecretFor(s.enrolling, user, op.now);
    if secret.Some? && env.matches(secret.value, op.code, op.now).Some? && Lookup(s.users, user).Some? {
      UnusedIssued(op.hashes);
      c := Edited(Lookup(s.users, user).value.(totp := Some(secret.value), codes := Issue(op.hashes)));
    }
  }

  lemma {:induction false} UnusedIssued(hashes: seq<string>)
    ensures Unused(Issue(hashes)) == |hashes|
  {
    if hashes != [] {
      assert Issue(hashes)[1..] == Issue(hashes[1..]);
      UnusedIssued(hashes[1..]);
    }
  }

  lemma {:induction false} RegisterChange(env: Env, s: State, user: string, op: Op) returns (c: Change)
    requires op.RegisterVerify? && Actor(s, op) == Some(user)
    ensures ChangeOk(env, s, op, HandleRegisterVerify(env, s, user, op.session, op.response, op.now), c)
  {
    c := Unchanged;
    var challenge := C.Consume(s.challenges, "register:" + user, op.now).1;
    if challenge.Some? && env.attests(challenge.value, op.response).Some? && Lookup(s.users, user).Some? {
      var u := Lookup(s.users, user).value;
      c := Edited(u.(passkeys := u.passkeys + [env.attests(challenge.value, op.response).value]));
    }
  }

  lemma {:induction false} DisableChange(env: Env, s: State, user: string, op: Op) returns (c: Change)
    requires op.TotpDisable? && Actor(s, op) == Some(user)
    ensures ChangeOk(env, s, op, HandleTotpDisable(env, s, user, op.password), c)
  {
    c := Unchanged;
    if PasswordIs(env, s, user, op.password) && !s.require2fa {
      c := Edited(Lookup(s.users, user).value.(totp := None, codes := []));
    }
  }

  lemma {:induction false} NewCodesChange(env: Env, s: State, user: string, op: Op) returns (c: Change)
    requires op.NewCodes? && Actor(s, op) == Some(user)
    ensures ChangeOk(env, s, op, HandleNewCodes(env, s, user, op.password, op.hashes), c)
  {
    c := Unchanged;
    if PasswordIs(env, s, user, op.password) && Lookup(s.users, user).value.totp.Some? {
      UnusedIssued(op.hashes);
      c := Edited(Lookup(s.users, user).value.(codes := Issue(op.hashes)));
    }
  }

  lemma {:induction false} DeleteChange(env: Env, s: State, user: string, op: Op) returns (c: Change)
    requires op.DeletePasskey? && Actor(s, op) == Some(user)
    ensures ChangeOk(env, s, op, HandleDeletePasskey(s, user, op.id), c)
  {
    c := Unchanged;
    if Lookup(s.users, user).Some? {
      var u := Lookup(s.users, user).value;
      var k := KeyIndex(u.passkeys, op.id);
      if !(u.totp.None? && |u.passkeys| <= 1 && s.require2fa) && k < |u.passkeys| {
        c := Edited(u.(passkeys := u.passkeys[..k] + u.passkeys[k + 1..]));
      }
    }
  }

  // ------------------------------------------------------------------ what every call keeps of the accounts

  ghost predicate Sound(users: seq<User>) {
    Distinct(users) && forall name :: SoundAt(users, name)
  }

  predicate SoundAt(users: seq<User>, name: string) {
    Lookup(users, name).Some? ==> CodesNeedTotp(Lookup(users, name).value)
  }

  /** The user exists and has a second factor. */
  predicate Strong(users: seq<User>, name: string) {
    Lookup(users, name).Some? && HasFactor(Lookup(users, name).value)
  }

  function UnusedOf(users: seq<User>, name: string): nat {
    if Lookup(users, name).Some? then Unused(Lookup(users, name).value.codes) else 0
  }

  function ChancesOf(users: seq<User>, name: string, code: string, verify: Verify): nat {
    if Lookup(users, name).Some? then Chances(Lookup(users, name).value.codes, code, verify) else 0
  }

  lemma {:induction false} LookupMade(env: Env, s: State, op: Op, result: (State, Reply), c: Change, name: string)
    requires Distinct(s.users) && ChangeOk(env, s, op, result, c)
    ensures Distinct(result.0.users)
    ensures Lookup(result.0.users, name) == match c
                                            case Unchanged => Lookup(s.users, name)
                                            case NewUser(u) => if u.username == name then Some(u) else Lookup(s.users, name)
                                            case Edited(u) => if u.username == name then Some(u) else Lookup(s.users, name)
                                            case Erased(gone) => if gone == name then None else Lookup(s.users, name)
  {
    match c
    case Unchanged =>
    case NewUser(u) => LookupSnoc(s.users, u, name);
    case Edited(u) => LookupPut(s.users, u, name);
    case Erased(gone) => LookupErase(s.users, gone, name);
  }

  lemma {:induction false} StepKeepsAccounts(env: Env, s: State, op: Op, name: string)
    requires Distinct(s.users) && SoundAt(s.users, name)
    ensures var (t, reply) := Step(env, s, op);
            && Distinct(t.users) && SoundAt(t.users, name)
            && UnusedOf(t.users, name) + SpentBy(op, reply, name) <= UnusedOf(s.users, name) + IssuedBy(s, op, reply, name)
  {
    var c := ChangeOf(env, s, op);
    AccountAfter(env, s, op, Step(env, s, op), c, name);
  }

  lemma {:induction false} AccountAfter(env: Env, s: State, op: Op, result: (State, Reply), c: Change, name: string)
    requires Distinct(s.users) && SoundAt(s.users, name) && ChangeOk(env, s, op, result, c)
    ensures var (t, reply) := result;
            && Distinct(t.users) && SoundAt(t.users, name)
            && UnusedOf(t.users, name) + SpentBy(op, reply, name) <= UnusedOf(s.users, name) + IssuedBy(s, op, reply, name)
  {
    LookupMade(env, s, op, result, c, name);
  }

  /** Who shows a factor has one. */
  lemma {:induction false} ShownFactorsExist(env: Env, s: State, op: Op, user: string)
    requires Sound(s.users) && ShowsFactor(env, s, op, user)
    ensures Strong(s.users, user)
  {
    match op
    case BackupVerify(_, code, _, _) => assert SoundAt(s.users, user);
    case LoginVerify(_, c, _, _) => OwnerIsFound(s.users, c.value.id);
    case _ =>
  }

  lemma {:induction false} EnrolledHasFactor(env: Env, s: State, user: string, op: Op)
    requires AccessOf(op) != Public && HandleAs(env, s, user, op).1 == Enrolled
    ensures Strong(HandleAs(env, s, user, op).0.users, user)
  {
    match op
    case TotpConfirm(_, _, _, _) => ConfirmedHasTotp(env, s, user, op);
    case RegisterVerify(_, _, _) => RegisteredHasPasskey(env, s, user, op);
    case _ =>
  }

  lemma {:induction false} ConfirmedHasTotp(env: Env, s: State, user: string, op: Op)
    requires op.TotpConfirm? && HandleTotpConfirm(env, s, user, op.session, op.code, op.hashes, op.now).1 == Enrolled
    ensures Strong(HandleTotpConfirm(env, s, user, op.session, op.code, op.hashes, op.now).0.users, user)
  {
    var u := Lookup(s.users, user).value;
    LookupPut(s.users, u.(totp := Some(SecretFor(s.enrolling, user, op.now).value), codes := Issue(op.hashes)), user);
  }

  lemma {:induction false} RegisteredHasPasskey(env: Env, s: State, user: string, op: Op)
    requires op.RegisterVerify? && HandleRegisterVerify(env, s, user, op.session, op.response, op.now).1 == Enrolled
    ensures Strong(HandleRegisterVerify(env, s, user, op.session, op.response, op.now).0.users, user)
  {
    var u := Lookup(s.users, user).value;
    var challenge := C.Consume(s.challenges, "register:" + user, op.now).1.value;
    LookupPut(s.users, u.(passkeys := u.passkeys + [env.attests(challenge, op.response).value]), user);
  }

  /**
   Whatever a call does to a user's account, it does on these grounds: a second factor or its codes change only by a
   confirmed enrolment or with the password, passkeys only by a session of the user, the password never.
   */
  lemma {:induction false} ChangesAreWarranted(env: Env, s: State, op: Op, name: string)
    requires Distinct(s.users)
    ensures var (t, reply) := Step(env, s, op); var u, v := Lookup(s.users, name), Lookup(t.users, name);
            && (u.Some? && v.Some? ==> Warranted(env, s, op, reply, u.value, v.value))
            && (u.None? && v.Some? ==> v.value.username == name && Opened(s, op, reply, v.value))
            && (u.Some? && v.None? ==> op.DeleteUser? && op.name == name && reply == Done && |s.users| > 1
                                       && op.session in s.sessions && ActsAs(s, op, s.sessions[op.session].username))
  {
    var c := ChangeOf(env, s, op);
    LookupMade(env, s, op, Step(env, s, op), c, name);
  }

  /** Under the policy exactly these calls decide who has a second factor: enrolments, and deletions that are carried out. */
  lemma {:induction false} StepFactorsExactly(env: Env, s: State, op: Op, name: string)
    requires Distinct(s.users) && s.require2fa
    ensures var (t, reply) := Step(env, s, op);
            Strong(t.users, name) <==> Enrols(s, op, reply, name) || (Strong(s.users, name) && !Removes(op, reply, name))
  {
    var c := ChangeOf(env, s, op);
    LookupMade(env, s, op, Step(env, s, op), c, name);
    if Enrols(s, op, Step(env, s, op).1, name) { EnrolledHasFactor(env, s, name, op); }
  }

  lemma {:induction false} StepPaysForCodes(env: Env, s: State, op: Op, name: string, code: string)
    requires Distinct(s.users)
    ensures var (t, reply) := Step(env, s, op);
            ChancesOf(t.users, name, code, env.verify) + SpentWith(op, reply, name, code)
            <= ChancesOf(s.users, name, code, env.verify) + IssuedFor(env, s, op, reply, name, code)
  {
    var c := ChangeOf(env, s, op);
    var result := Step(env, s, op);
    LookupMade(env, s, op, result, c, name);
    if c.Edited? && c.u.username == name {
      assert CodePaid(env, s, op, result.1, Lookup(s.users, name).value, c.u, code);
    }
  }

  lemma {:induction false} RunKeepsSound(env: Env, start: State, ops: seq<Op>)
    requires Sound(start.users)
    ensures Sound(Run(env, start, ops).users)
  {
    if ops != [] {
      var s := Run(env, start, Front(ops));
      RunKeepsSound(env, start, Front(ops));
      assert SoundAt(s.users, "");
      StepKeepsAccounts(env, s, Last(ops), "");
      forall name ensures SoundAt(Run(env, start, ops).users, name) {
        assert SoundAt(s.users, name);
        StepKeepsAccounts(env, s, Last(ops), name);
      }
    }
  }

  // ------------------------------------------------------------------ the policy

  /** The policy is on whenever a call of the run is made. */
  ghost predicate AlwaysRequired(env: Env, start: State, ops: seq<Op>) {
    forall i: nat :: i < |ops| ==> Before(env, start, ops, i).require2fa
  }

  /** Only a call of a user with a full session, answered `Done`, changes the policy. */
  lemma {:induction false} PolicyChanges(env: Env, s: State, op: Op)
    requires Step(env, s, op).0.require2fa != s.require2fa
    ensures op.SetRequire2fa? && Actor(s, op).Some? && Step(env, s, op).1 == Done
  {
    RepliesTellAll(env, s, op);
  }

  /** Call `i` enrolled `name` in a second factor. */
  predicate EnrolledAt(env: Env, start: State, ops: seq<Op>, name: string, i: nat)
    requires i < |ops|
  {
    Enrols(Before(env, start, ops, i), ops[i], ReplyTo(env, start, ops, i), name)
  }

  /** Call `i` deleted the account `name`. */
  predicate RemovedAt(env: Env, start: State, ops: seq<Op>, name: string, i: nat)
    requires i < |ops|
  {
    Removes(ops[i], ReplyTo(env, start, ops, i), name)
  }

  ghost predicate RemovedSince(env: Env, start: State, ops: seq<Op>, name: string, from: nat) {
    exists i :: from <= i < |ops| && RemovedAt(env, start, ops, name, i)
  }

  ghost predicate EverEnrolled(env: Env, start: State, ops: seq<Op>, name: string) {
    exists i: nat :: i < |ops| && EnrolledAt(env, start, ops, name, i)
  }

  /** Some enrolment of `name` was not followed by a deletion of that account. */
  ghost predicate StillEnrolled(env: Env, start: State, ops: seq<Op>, name: string) {
    exists i: nat :: i < |ops| && EnrolledAt(env, start, ops, name, i) && !RemovedSince(env, start, ops, name, i + 1)
  }

  lemma {:induction false} EnrolledAtFront(env: Env, start: State, ops: seq<Op>, name: string, i: nat)
    requires i + 1 < |ops|
    ensures EnrolledAt(env, start, ops, name, i) <==> EnrolledAt(env, start, Front(ops), name, i)
  {
    SamePrefix(env, start, ops, i);
  }

  lemma {:induction false} RemovedAtFront(env: Env, start: State, ops: seq<Op>, name: string, i: nat)
    requires i + 1 < |ops|
    ensures RemovedAt(env, start, ops, name, i) <==> RemovedAt(env, start, Front(ops), name, i)
  {
    SamePrefix(env, start, ops, i);
  }

  lemma {:induction false} AtLast(env: Env, start: State, ops: seq<Op>, name: string)
    requires ops != []
    ensures var s, n := Run(env, start, Front(ops)), |ops| - 1;
            && (EnrolledAt(env, start, ops, name, n) <==> Enrols(s, Last(ops), Step(env, s, Last(ops)).1, name))
            && (RemovedAt(env, start, ops, name, n) <==> Removes(Last(ops), Step(env, s, Last(ops)).1, name))
  {
    assert ops[..|ops| - 1] == Front(ops);
  }

  lemma {:induction false} RequiredBefore(env: Env, start: State, ops: seq<Op>)
    requires ops != [] && AlwaysRequired(env, start, ops)
    ensures AlwaysRequired(env, start, Front(ops)) && Run(env, start, Front(ops)).require2fa
  {
    forall i: nat | i < |Front(ops)| ensures Before(env, start, Front(ops), i).require2fa {
      SamePrefix(env, start, ops, i);
    }
    assert Before(env, start, ops, |ops| - 1).require2fa && ops[..|ops| - 1] == Front(ops);
  }

  lemma {:induction false} RemovedSinceStep(env: Env, start: State, ops: seq<Op>, name: string, from: nat)
    requires ops != [] && from < |ops|
    ensures RemovedSince(env, start, ops, name, from)
       <==> RemovedSince(env, start, Front(ops), name, from) || RemovedAt(env, start, ops, name, |ops| - 1)
  {
    if RemovedSince(env, start, ops, name, from) && !RemovedAt(env, start, ops, name, |ops| - 1) { RemovedLess(env, start, ops, name, from); }
    if RemovedSince(env, start, Front(ops), name, from) { RemovedMore(env, start, ops, name, from); }
    if RemovedAt(env, start, ops, name, |ops| - 1) { assert RemovedSince(env, start, ops, name, from); }
  }

  lemma {:induction false} RemovedLess(env: Env, start: State, ops: seq<Op>, name: string, from: nat)
    requires ops != [] && RemovedSince(env, start, ops, name, from) && !RemovedAt(env, start, ops, name, |ops| - 1)
    ensures RemovedSince(env, start, Front(ops), name, from)
  {
    var i :| from <= i < |ops| && RemovedAt(env, start, ops, name, i);
    RemovedAtFront(env, start, ops, name, i);
  }

  lemma {:induction false} RemovedMore(env: Env, start: State, ops: seq<Op>, name: string, from: nat)
    requires ops != [] && RemovedSince(env, start, Front(ops), name, from)
    ensures RemovedSince(env, start, ops, name, from)
  {
    var i :| from <= i < |Front(ops)| && RemovedAt(env, start, Front(ops), name, i);
    RemovedAtFront(env, start, ops, name, i);
  }

  lemma {:induction false} StillEnrolledStep(env: Env, start: State, ops: seq<Op>, name: string)
    requires ops != []
    ensures StillEnrolled(env, start, ops, name)
       <==> EnrolledAt(env, start, ops, name, |ops| - 1)
            || (StillEnrolled(env, start, Front(ops), name) && !RemovedAt(env, start, ops, name, |ops| - 1))
  {
    var n := |ops| - 1;
    if StillEnrolled(env, start, ops, name) {
      var i: nat :| i < |ops| && EnrolledAt(env, start, ops, name, i) && !RemovedSince(env, start, ops, name, i + 1);
      if i < n {
        EnrolledAtFront(env, start, ops, name, i);
        RemovedSinceStep(env, start, ops, name, i + 1);
      }
    }
    if StillEnrolled(env, start, Front(ops), name) && !RemovedAt(env, start, ops, name, n) {
      var i: nat :| i < n && EnrolledAt(env, start, Front(ops), name, i) && !RemovedSince(env, start, Front(ops), name, i + 1);
      EnrolledAtFront(env, start, ops, name, i);
      RemovedSinceStep(env, start, ops, name, i + 1);
    }
    if EnrolledAt(env, start, ops, name, n) {
      assert !RemovedSince(env, start, ops, name, n + 1);
    }
  }

  /**
   Who has a second factor while the policy is on: whoever had one at the start or enrolled, and whose account was not
   deleted since.  A refused deletion takes nothing away.
   */
  lemma {:induction false} FactorsExactly(env: Env, start: State, ops: seq<Op>, name: string)
    requires Sound(start.users) && AlwaysRequired(env, start, ops)
    ensures Strong(Run(env, start, ops).users, name)
       <==> StillEnrolled(env, start, ops, name) || (Strong(start.users, name) && !RemovedSince(env, start, ops, name, 0))
  {
    if ops != [] {
      RequiredBefore(env, start, ops);
      FactorsExactly(env, start, Front(ops), name);
      RunKeepsSound(env, start, Front(ops));
      StepFactorsExactly(env, Run(env, start, Front(ops)), Last(ops), name);
      AtLast(env, start, ops, name);
      StillEnrolledStep(env, start, ops, name);
      RemovedSinceStep(env, start, ops, name, 0);
    }
  }

  /** While the policy is on, an enrolled user keeps a factor through every call but the deletion of the account. */
  lemma {:induction false} NobodyLosesTheLastFactor(env: Env, start: State, ops: seq<Op>, name: string)
    requires Sound(start.users) && AlwaysRequired(env, start, ops) && Strong(start.users, name)
    requires !RemovedSince(env, start, ops, name, 0)
    ensures Strong(Run(env, start, ops).users, name)
  {
    FactorsExactly(env, start, ops, name);
  }

  /** Behind every session that can do everything is an enrolment of its user. */
  ghost predicate SafeSession(env: Env, start: State, ops: seq<Op>, t: string) {
    var sessions := Run(env, start, ops).sessions;
    IsFull(sessions, t) ==> EverEnrolled(env, start, ops, sessions[t].username)
  }

  lemma {:induction false} EnrolledMore(env: Env, start: State, ops: seq<Op>, name: string)
    requires ops != [] && EverEnrolled(env, start, Front(ops), name)
    ensures EverEnrolled(env, start, ops, name)
  {
    var i: nat :| i < |Front(ops)| && EnrolledAt(env, start, Front(ops), name, i);
    EnrolledAtFront(env, start, ops, name, i);
  }

  lemma {:induction false} SameUser(s: State, op: Op, reply: Reply, t: string)
    requires IsFull(SessionsAfter(s, op, reply), t) && !MadeFull(op, reply, t)
    ensures IsFull(s.sessions, t) && s.sessions[t].username == SessionsAfter(s, op, reply)[t].username
  {
  }

  /** A session that this call made full belongs to a user who had a factor, or who enrolled in this call. */
  lemma {:induction false} NewFullSession(env: Env, s: State, op: Op, t: string)
    requires Sound(s.users) && s.require2fa && MadeFull(op, Step(env, s, op).1, t) && IsFull(Step(env, s, op).0.sessions, t)
    ensures var (after, reply) := Step(env, s, op); var name := after.sessions[t].username;
            Strong(s.users, name) || Enrols(s, op, reply, name)
  {
    RepliesTellAll(env, s, op);
    var reply := Step(env, s, op).1;
    if reply.Granted? {
      FullGrantsAreJustified(env, s, op);
      ShownFactorsExist(env, s, op, reply.username);
    }
  }

  lemma {:induction false} SessionsStaySafe(env: Env, require: bool, ops: seq<Op>, t: string)
    requires AlwaysRequired(env, Fresh(require), ops)
    ensures SafeSession(env, Fresh(require), ops, t)
  {
    var start := Fresh(require);
    if ops != [] {
      var s, op := Run(env, start, Front(ops)), Last(ops);
      RequiredBefore(env, start, ops);
      SessionsStaySafe(env, require, Front(ops), t);
      RunKeepsSound(env, start, Front(ops));
      var after := Step(env, s, op).0;
      if IsFull(after.sessions, t) {
        var name := after.sessions[t].username;
        AtLast(env, start, ops, name);
        if MadeFull(op, Step(env, s, op).1, t) {
          NewFullSession(env, s, op, t);
          FactorsExactly(env, start, Front(ops), name);
        } else {
          RepliesTellAll(env, s, op);
          SameUser(s, op, Step(env, s, op).1, t);
        }
        if EverEnrolled(env, start, Front(ops), name) { EnrolledMore(env, start, ops, name); }
      }
    }
  }

  /**
   With the policy on from the first account, every call beyond enrolment is made by a user who enrolled in the run; that
   user has a second factor at that moment if and only if the account was not deleted after its latest enrolment.
   */
  lemma {:induction false} RequiredMeansRequired(env: Env, require: bool, ops: seq<Op>, op: Op, user: string)
    requires AlwaysRequired(env, Fresh(require), ops) && AccessOf(op) == Full
    requires Actor(Run(env, Fresh(require), ops), op) == Some(user)
    ensures EverEnrolled(env, Fresh(require), ops, user)
    ensures Strong(Run(env, Fresh(require), ops).users, user) <==> StillEnrolled(env, Fresh(require), ops, user)
    ensures !RemovedSince(env, Fresh(require), ops, user, 0) ==> Strong(Run(env, Fresh(require), ops).users, user)
  {
    var start := Fresh(require);
    SessionsStaySafe(env, require, ops, op.session);
    FactorsExactly(env, start, ops, user);
    if !RemovedSince(env, start, ops, user, 0) {
      var i: nat :| i < |ops| && EnrolledAt(env, start, ops, user, i);
      assert !RemovedSince(env, start, ops, user, i + 1);
    }
  }

  predicate ActsFor(s: State, session: string, name: string, now: int) {
    Gate(s, Full, session, now) == Some(name)
  }

  /** Deletion is a real exception: the session outlives the account and acts for whoever gets the name next. */
  lemma {:induction false} SessionsOutliveTheirUser(env: Env, s: State, name: string, admin: string, session: string, own: string, password: string, hash: string, now: int)
    requires Sound(s.users) && name != admin && name != "" && |password| >= 8
    requires Lookup(s.users, name).Some? && Lookup(s.users, admin).Some?
    requires ActsFor(s, session, admin, now) && ActsFor(s, own, name, now)
    ensures var t := Run(env, s, [DeleteUser(session, name, now), CreateUser(session, name, password, hash, now)]);
            ActsFor(t, own, name, now) && Lookup(t.users, name).Some? && !Strong(t.users, name)
  {
    var first, second := DeleteUser(session, name, now), CreateUser(session, name, password, hash, now);
    var t := s.(users := Erase(s.users, name));
    TwoUsers(s.users, name, admin);
    assert Step(env, s, first).0 == t;
    LookupErase(s.users, name, name);
    Recreated(env, t, session, admin, name, password, hash, now);
    assert Front([first]) == [] && Run(env, s, []) == s;
    assert Run(env, s, [first]) == t;
    assert Front([first, second]) == [first];
  }

  lemma {:induction false} Recreated(env: Env, t: State, session: string, admin: string, name: string, password: string, hash: string, now: int)
    requires ActsFor(t, session, admin, now) && Lookup(t.users, name).None? && name != "" && |password| >= 8
    ensures var (after, reply) := Step(env, t, CreateUser(session, name, password, hash, now));
            after.sessions == t.sessions && Lookup(after.users, name) == Some(User(name, hash, None, [], []))
  {
    LookupSnoc(t.users, User(name, hash, None, [], []), name);
  }

  lemma {:induction false} TwoUsers(users: seq<User>, a: string, b: string)
    requires a != b && Lookup(users, a).Some? && Lookup(users, b).Some?
    ensures |users| >= 2
  {
  }

  // ------------------------------------------------------------------ backup codes

  /** How many logins of `name` a run let in for a backup code. */
  function BackupLogins(env: Env, start: State, ops: seq<Op>, name: string): nat {
    if ops == [] then 0
    else BackupLogins(env, start, Front(ops), name) + SpentBy(Last(ops), Step(env, Run(env, start, Front(ops)), Last(ops)).1, name)
  }

  /** How many backup codes it handed to `name`. */
  function CodesIssued(env: Env, start: State, ops: seq<Op>, name: string): nat {
    if ops == [] then 0
    else
      var s := Run(env, start, Front(ops));
      CodesIssued(env, start, Front(ops), name) + IssuedBy(s, Last(ops), Step(env, s, Last(ops)).1, name)
  }

  /** Every login for a backup code used up one of the codes handed out. */
  lemma {:induction false} BackupCodesAreSpent(env: Env, start: State, ops: seq<Op>, name: string)
    requires Sound(start.users)
    ensures BackupLogins(env, start, ops, name) + UnusedOf(Run(env, start, ops).users, name)
         <= UnusedOf(start.users, name) + CodesIssued(env, start, ops, name)
  {
    if ops != [] {
      BackupCodesAreSpent(env, start, Front(ops), name);
      RunKeepsSound(env, start, Front(ops));
      assert SoundAt(Run(env, start, Front(ops)).users, name);
      StepKeepsAccounts(env, Run(env, start, Front(ops)), Last(ops), name);
    }
  }

  /** How many logins of `name` a run let in for this very code. */
  function LoginsWith(env: Env, start: State, ops: seq<Op>, name: string, code: string): nat {
    if ops == [] then 0
    else LoginsWith(env, start, Front(ops), name, code) + SpentWith(Last(ops), Step(env, Run(env, start, Front(ops)), Last(ops)).1, name, code)
  }

  /** How many of the codes that it handed to `name` are matched by `code`. */
  function MatchingCodesIssued(env: Env, start: State, ops: seq<Op>, name: string, code: string): nat {
    if ops == [] then 0
    else
      var s := Run(env, start, Front(ops));
      MatchingCodesIssued(env, start, Front(ops), name, code) + IssuedFor(env, s, Last(ops), Step(env, s, Last(ops)).1, name, code)
  }

  /** However calls are interleaved, a text is accepted at most as often as codes that it matches were handed out. */
  lemma {:induction false} EachCodeIsSpent(env: Env, start: State, ops: seq<Op>, name: string, code: string)
    requires Sound(start.users)
    ensures LoginsWith(env, start, ops, name, code) + ChancesOf(Run(env, start, ops).users, name, code, env.verify)
         <= ChancesOf(start.users, name, code, env.verify) + MatchingCodesIssued(env, start, ops, name, code)
  {
    if ops != [] {
      EachCodeIsSpent(env, start, Front(ops), name, code);
      RunKeepsSound(env, start, Front(ops));
      StepPaysForCodes(env, Run(env, start, Front(ops)), Last(ops), name, code);
    }
  }

  /** Call `i` let `name` in for this code. */
  predicate AcceptedAt(env: Env, start: State, ops: seq<Op>, name: string, code: string, i: nat)
    requires i < |ops|
  {
    SpentWith(ops[i], ReplyTo(env, start, ops, i), name, code) == 1
  }

  lemma {:induction false} LoginsAreCounted(env: Env, start: State, ops: seq<Op>, name: string, code: string, i: nat)
    requires i < |ops| && AcceptedAt(env, start, ops, name, code, i)
    ensures LoginsWith(env, start, ops, name, code) >= LoginsWith(env, start, ops[..i], name, code) + 1
  {
    var n := |ops| - 1;
    assert ops[..n] == Front(ops);
    if i < n {
      SamePrefix(env, start, ops, i);
      LoginsAreCounted(env, start, Front(ops), name, code, i);
      assert Front(ops)[..i] == ops[..i];
    }
  }

  /** A text that matches a single code is good for a single login. */
  lemma {:induction false} NoCodeIsGoodTwice(env: Env, start: State, ops: seq<Op>, name: string, code: string, i: nat, j: nat)
    requires Sound(start.users) && i < j < |ops| && AcceptedAt(env, start, ops, name, code, i)
    requires ChancesOf(start.users, name, code, env.verify) + MatchingCodesIssued(env, start, ops, name, code) <= 1
    ensures !AcceptedAt(env, start, ops, name, code, j)
  {
    if AcceptedAt(env, start, ops, name, code, j) {
      LoginsAreCounted(env, start, ops, name, code, j);
      assert ops[..j][..i] == ops[..i];
      LoginsAreCounted(env, start, ops[..j], name, code, i);
      EachCodeIsSpent(env, start, ops, name, code);
    }
  }

  // ------------------------------------------------------------------ TOTP codes

  /** A code is only ever matched at the current step or a neighbour: `Totp.FirstMatch`. */
  ghost predicate NearbySteps(env: Env) {
    forall secret, code, now :: Nearby(env.matches(secret, code, now), now)
  }

  predicate Nearby(step: Option<int>, now: int) {
    step.Some? ==> Totp.TruncDiv(now, Totp.STEP_SECONDS) - 1 <= step.value <= Totp.TruncDiv(now, Totp.STEP_SECONDS) + 1
  }

  /** The check of the source is such a one, whatever the codes are. */
  lemma {:induction false} RealCheckIsNear(env: Env, codes: Totp.Codes)
    requires forall secret, code, now :: env.matches(secret, code, now) == Totp.FirstMatch(codes, secret, code, now)
    ensures NearbySteps(env)
  {
    forall secret, code, now ensures Nearby(env.matches(secret, code, now), now) {
      assert env.matches(secret, code, now) == Totp.FirstMatch(codes, secret, code, now);
    }
  }

  predicate TotpLogin(op: Op, reply: Reply, name: string) {
    op.TotpVerify? && reply.Granted? && reply.username == name
  }

  predicate Reached(lastStep: map<string, int>, name: string, step: int) {
    name in lastStep && lastStep[name] >= step
  }

  lemma {:induction false} StepsOnlyGrow(env: Env, s: State, op: Op, name: string, step: int)
    requires Reached(s.lastStep, name, step)
    ensures Reached(Step(env, s, op).0.lastStep, name, step)
    ensures TotpLogin(op, Step(env, s, op).1, name) ==> Reached(Step(env, s, op).0.lastStep, name, step + 1)
  {
    RepliesTellAll(env, s, op);
    if op.TotpVerify? { VerifyRaises(env, s, op, name, step); }
    else if op.TotpConfirm? && Actor(s, op).Some? { ConfirmRaises(env, s, Actor(s, op).value, op, name, step); }
  }

  lemma {:induction false} VerifyRaises(env: Env, s: State, op: Op, name: string, step: int)
    requires op.TotpVerify? && Reached(s.lastStep, name, step)
    ensures var (t, reply) := HandleTotpVerify(env, s, op.pendingToken, op.code, op.drawn, op.now);
            && Reached(t.lastStep, name, step)
            && (TotpLogin(op, reply, name) ==> Reached(t.lastStep, name, step + 1))
  {
  }

  lemma {:induction false} ConfirmRaises(env: Env, s: State, user: string, op: Op, name: string, step: int)
    requires op.TotpConfirm? && Reached(s.lastStep, name, step)
    ensures Reached(HandleTotpConfirm(env, s, user, op.session, op.code, op.hashes, op.now).0.lastStep, name, step)
  {
  }

  lemma {:induction false} LoginStepIsNear(env: Env, s: State, op: Op, name: string)
    requires NearbySteps(env) && TotpLogin(op, Step(env, s, op).1, name)
    ensures var last := Step(env, s, op).0.lastStep;
            name in last && Nearby(Some(last[name]), op.now)
  {
    var u := Lookup(s.users, name).value;
    assert Nearby(env.matches(u.totp.value, op.code, op.now), op.now);
  }

  /** How many logins of `name` a run let in for a TOTP code with the clock in [t0, t1]. */
  function TotpLogins(env: Env, start: State, ops: seq<Op>, name: string, t0: int, t1: int): nat {
    if ops == [] then 0
    else
      TotpLogins(env, start, Front(ops), name, t0, t1)
      + if TotpLogin(Last(ops), Step(env, Run(env, start, Front(ops)), Last(ops)).1, name) && t0 <= Last(ops).now <= t1 then 1 else 0
  }

  /** However the calls are interleaved, an interval of time lets in one TOTP login per step it touches, and three more at most. */
  lemma {:induction false} TotpLoginsAreBounded(env: Env, start: State, ops: seq<Op>, name: string, t0: int, t1: int)
    requires NearbySteps(env) && t0 <= t1
    ensures TotpLogins(env, start, ops, name, t0, t1) <= Totp.TruncDiv(t1, Totp.STEP_SECONDS) - Totp.TruncDiv(t0, Totp.STEP_SECONDS) + 3
  {
    LoginsRaiseTheStep(env, start, ops, name, t0, t1);
    Totp.TruncDivMonotone(t0, t1);
  }

  lemma {:induction false} LoginsRaiseTheStep(env: Env, start: State, ops: seq<Op>, name: string, t0: int, t1: int)
    requires NearbySteps(env) && t0 <= t1
    ensures var n := TotpLogins(env, start, ops, name, t0, t1); var first := Totp.TruncDiv(t0, Totp.STEP_SECONDS);
            && n <= Totp.TruncDiv(t1, Totp.STEP_SECONDS) - first + 3
            && (n > 0 ==> Reached(Run(env, start, ops).lastStep, name, first - 2 + n))
  {
    Totp.TruncDivMonotone(t0, t1);
    if ops != [] {
      var s, op := Run(env, start, Front(ops)), Last(ops);
      var n := TotpLogins(env, start, Front(ops), name, t0, t1);
      LoginsRaiseTheStep(env, start, Front(ops), name, t0, t1);
      if n > 0 { StepsOnlyGrow(env, s, op, name, Totp.TruncDiv(t0, Totp.STEP_SECONDS) - 2 + n); }
      if TotpLogin(op, Step(env, s, op).1, name) && t0 <= op.now <= t1 {
        LoginStepIsNear(env, s, op, name);
        Totp.TruncDivMonotone(t0, op.now);
        Totp.TruncDivMonotone(op.now, t1);
      }
    }
  }
}
