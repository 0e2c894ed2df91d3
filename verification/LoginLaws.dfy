/**
 What each call of the admin login answers, in terms of the state alone: which calls are accepted and
 which are refused, and for how long what they hand out is good.
 */
module LoginLaws {
  import opened Prelude
  import opened Accounts
  import opened Tokens
  import opened Login
  import opened LoginRuns
  import opened LoginPolicy
  import Totp
  import C = ChallengeStore

  /** The token stands for a login of `name` that still waits for its second factor. */
  predicate Waits(s: State, token: string, now: int, name: string) {
    token in s.pending && now <= s.pending[token].expiresAt && s.pending[token].username == name
  }

  function Waiting(s: State, token: string): string {
    if token in s.pending then s.pending[token].username else ""
  }

  /** A challenge is outstanding under the key, and the credential answers it by a passkey of the user. */
  predicate Answered(env: Env, s: State, key: string, now: int, u: User, c: Option<Credential>) {
    && key in s.challenges.entries && now <= s.challenges.entries[key].expiresAt && c.Some?
    && exists k :: 0 <= k < |u.passkeys| && AnsweredBy(env, s.challenges.entries[key].challenge, u, c.value, k)
  }

  /** Passkey `k` is the first of that id and makes the assertion good. */
  predicate AnsweredBy(env: Env, challenge: C.Bytes, u: User, c: Credential, k: nat)
    requires k < |u.passkeys|
  {
    && u.passkeys[k].id == c.id && (forall j :: 0 <= j < k ==> u.passkeys[j].id != c.id)
    && env.asserts(challenge, c.response, u.passkeys[k]).Some?
  }

  /** Four characters, a hyphen and four more, none that could be taken for another. */
  predicate LooksLikeACode(code: string) {
    && |code| == 9 && code[4] == '-'
    && forall i :: 0 <= i < 9 && i != 4 ==> code[i] in "23456789ABCDEFGHJKMNPQRSTUVWXYZ"
  }

  predicate HasKey(u: User, id: string) {
    exists k :: 0 <= k < |u.passkeys| && u.passkeys[k].id == id
  }

  /** When a call is accepted. */
  predicate Grounds(env: Env, s: State, op: Op) {
    match op
    case Setup(name, password, _, _, _) => s.users == [] && name != "" && |password| >= 8
    case SignIn(name, password, _, _) => Lookup(s.users, name).Some? && env.verify(password, Lookup(s.users, name).value.hash)
    case TotpVerify(p, code, _, now) =>
      var name := Waiting(s, p);
      && Waits(s, p, now, name) && Lookup(s.users, name).Some? && Lookup(s.users, name).value.totp.Some?
      && var step := env.matches(Lookup(s.users, name).value.totp.value, code, now);
         step.Some? && (name in s.lastStep ==> s.lastStep[name] < step.value)
    case BackupVerify(p, code, _, now) =>
      var name := Waiting(s, p);
      && Waits(s, p, now, name) && Lookup(s.users, name).Some? && LooksLikeACode(code)
      && exists i :: 0 <= i < |Lookup(s.users, name).value.codes| && UnusedFor(env, Lookup(s.users, name).value.codes[i], code)
    case LoginOptions(_, _, _) => true
    case LoginVerify(t, c, _, now) => c.Some? && OwnerOf(s.users, c.value.id).Some?
                                      && Answered(env, s, "login:" + t, now, OwnerOf(s.users, c.value.id).value, c)
    case SecondOptions(p, _, now) => Waits(s, p, now, Waiting(s, p)) && Lookup(s.users, Waiting(s, p)).Some?
    case SecondVerify(p, c, _, now) =>
      var name := Waiting(s, p);
      Waits(s, p, now, name) && Lookup(s.users, name).Some? && Answered(env, s, "login2fa:" + name, now, Lookup(s.users, name).value, c)
    case _ => op.session in s.sessions && ActsAs(s, op, s.sessions[op.session].username) && ActorGrounds(env, s, op, s.sessions[op.session].username)
  }

  predicate UnusedFor(env: Env, code: BackupCode, candidate: string) {
    !code.used && env.verify(candidate, code.hash)
  }

  /** When a call made with a session of `name` that is good for it is accepted. */
  predicate ActorGrounds(env: Env, s: State, op: Op, name: string)
    requires AccessOf(op) != Public
  {
    match op
    case Logout(_, _) => true
    case TotpSetup(_, _, _) => true
    case TotpConfirm(_, code, _, now) =>
      && name in s.enrolling && now <= s.enrolling[name].expiresAt && env.matches(s.enrolling[name].secret, code, now).Some?
      && Lookup(s.users, name).Some?
    case RegisterOptions(_, _, _) => Lookup(s.users, name).Some?
    case RegisterVerify(_, response, now) =>
      && Lookup(s.users, name).Some?
      && var key := "register:" + name;
         && key in s.challenges.entries && now <= s.challenges.entries[key].expiresAt
         && env.attests(s.challenges.entries[key].challenge, response).Some?
    case TotpDisable(_, password, _) =>
      Lookup(s.users, name).Some? && env.verify(password, Lookup(s.users, name).value.hash) && !s.require2fa
    case NewCodes(_, password, _, _) =>
      Lookup(s.users, name).Some? && env.verify(password, Lookup(s.users, name).value.hash) && Lookup(s.users, name).value.totp.Some?
    case DeletePasskey(_, id, _) =>
      && Lookup(s.users, name).Some? && HasKey(Lookup(s.users, name).value, id)
      && (s.require2fa ==> Lookup(s.users, name).value.totp.Some? || |Lookup(s.users, name).value.passkeys| >= 2)
    case SetRequire2fa(_, _, _) => true
    case CreateUser(_, new_, password, _, _) => new_ != "" && |password| >= 8 && Lookup(s.users, new_).None?
    case DeleteUser(_, gone, _) => Lookup(s.users, gone).Some? && |s.users| > 1
  }

  /** A call is refused exactly when its grounds are missing. */
  lemma {:induction false} AcceptedExactly(env: Env, s: State, op: Op)
    ensures Step(env, s, op).1 != Denied <==> Grounds(env, s, op)
  {
    if AccessOf(op) == Public {
      match op
      case BackupVerify(_, _, _, _) => BackupAccepted(env, s, op);
      case LoginVerify(_, _, _, _) => LoginAccepted(env, s, op);
      case SecondVerify(_, _, _, _) => SecondAccepted(env, s, op);
      case TotpVerify(_, _, _, _) => TotpAccepted(env, s, op);
      case _ =>
    } else {
      GateIsActsAs(s, op);
      if Actor(s, op).Some? { ActorAccepted(env, s, op, Actor(s, op).value); }
    }
  }

  lemma {:induction false} GateIsActsAs(s: State, op: Op)
    requires AccessOf(op) != Public
    ensures Actor(s, op).Some? <==> op.session in s.sessions && ActsAs(s, op, s.sessions[op.session].username)
    ensures Actor(s, op).Some? ==> Actor(s, op).value == s.sessions[op.session].username
  {
  }

  lemma {:induction false} TotpAccepted(env: Env, s: State, op: Op)
    requires op.TotpVerify?
    ensures HandleTotpVerify(env, s, op.pendingToken, op.code, op.drawn, op.now).1 != Denied <==> Grounds(env, s, op)
  {
  }

  lemma {:induction false} BackupAccepted(env: Env, s: State, op: Op)
    requires op.BackupVerify?
    ensures HandleBackupVerify(env, s, op.pendingToken, op.code, op.drawn, op.now).1 != Denied <==> Grounds(env, s, op)
  {
    var name := PendingUser(s.pending, op.pendingToken, op.now);
    if name.Some? && Lookup(s.users, name.value).Some? {
      var codes := Lookup(s.users, name.value).value.codes;
      var i := MatchIndex(codes, op.code, env.verify);
      if i < |codes| { assert UnusedFor(env, codes[i], op.code); }
      assert forall k :: 0 <= k < |codes| ==> UnusedFor(env, codes[k], op.code) == Fits(codes[k], op.code, env.verify);
    }
  }

  lemma {:induction false} AssertedExactly(env: Env, s: State, key: string, now: int, u: User, c: Credential)
    ensures var challenge := C.Consume(s.challenges, key, now).1;
            Answered(env, s, key, now, u, Some(c)) <==> challenge.Some? && Asserted(env, s, u, c, challenge.value).Some?
  {
    var k := KeyIndex(u.passkeys, c.id);
    var challenge := C.Consume(s.challenges, key, now).1;
    if challenge.Some? && k < |u.passkeys| && env.asserts(challenge.value, c.response, u.passkeys[k]).Some? {
      assert AnsweredBy(env, challenge.value, u, c, k);
    }
  }

  lemma {:induction false} LoginAccepted(env: Env, s: State, op: Op)
    requires op.LoginVerify?
    ensures HandleLoginVerify(env, s, op.loginToken, op.credential, op.drawn, op.now).1 != Denied <==> Grounds(env, s, op)
  {
    if op.credential.Some? && OwnerOf(s.users, op.credential.value.id).Some? {
      AssertedExactly(env, s, "login:" + op.loginToken, op.now, OwnerOf(s.users, op.credential.value.id).value, op.credential.value);
    }
  }

  lemma {:induction false} SecondAccepted(env: Env, s: State, op: Op)
    requires op.SecondVerify?
    ensures HandleSecondVerify(env, s, op.pendingToken, op.credential, op.drawn, op.now).1 != Denied <==> Grounds(env, s, op)
  {
    var name := PendingUser(s.pending, op.pendingToken, op.now);
    if name.Some? && op.credential.Some? && Lookup(s.users, name.value).Some? {
      AssertedExactly(env, s, "login2fa:" + name.value, op.now, Lookup(s.users, name.value).value, op.credential.value);
    }
  }

  lemma {:induction false} ActorAccepted(env: Env, s: State, op: Op, name: string)
    requires AccessOf(op) != Public
    ensures HandleAs(env, s, name, op).1 != Denied <==> ActorGrounds(env, s, op, name)
  {
    match op
    case RegisterVerify(session, response, now) => RegisterAccepted(env, s, op, name);
    case TotpConfirm(session, code, hashes, now) => ConfirmAccepted(env, s, op, name);
    case DeletePasskey(_, id, _) => DeleteKeyAccepted(env, s, op, name);
    case _ =>
  }

  lemma {:induction false} RegisterAccepted(env: Env, s: State, op: Op, name: string)
    requires op.RegisterVerify?
    ensures HandleRegisterVerify(env, s, name, op.session, op.response, op.now).1 != Denied <==> ActorGrounds(env, s, op, name)
  {
  }

  lemma {:induction false} ConfirmAccepted(env: Env, s: State, op: Op, name: string)
    requires op.TotpConfirm?
    ensures HandleTotpConfirm(env, s, name, op.session, op.code, op.hashes, op.now).1 != Denied <==> ActorGrounds(env, s, op, name)
  {
  }

  lemma {:induction false} DeleteKeyAccepted(env: Env, s: State, op: Op, name: string)
    requires op.DeletePasskey?
    ensures HandleDeletePasskey(s, name, op.id).1 != Denied <==> ActorGrounds(env, s, op, name)
  {
    if Lookup(s.users, name).Some? {
      var u := Lookup(s.users, name).value;
      var k := KeyIndex(u.passkeys, op.id);
      if k < |u.passkeys| { assert u.passkeys[k].id == op.id; }
    }
  }

  // ------------------------------------------------------------------ what an accepted call does

  /** All of these codes, and none used. */
  predicate AllFresh(codes: seq<BackupCode>, hashes: seq<string>) {
    |codes| == |hashes| && forall i :: 0 <= i < |hashes| ==> codes[i] == BackupCode(hashes[i], false)
  }

  /** A session of twelve hours that is good for every call, or for enrolling only. */
  predicate Opens(t: State, reply: Reply, token: string, name: string, onlyEnrolling: bool, now: int) {
    && reply == Granted(token, name, onlyEnrolling)
    && token in t.sessions && t.sessions[token] == Session(name, onlyEnrolling, now + 43200)
  }

  /** The first unused code that the text matches, and no other, is used now. */
  predicate FirstIsUsed(env: Env, before: seq<BackupCode>, after: seq<BackupCode>, code: string, i: nat)
    requires i < |before|
  {
    && UnusedFor(env, before[i], code) && (forall j :: 0 <= j < i ==> !UnusedFor(env, before[j], code))
    && after == before[i := BackupCode(before[i].hash, true)]
  }

  /** The first passkey of that id is gone. */
  predicate FirstIsGone(before: seq<Passkey>, after: seq<Passkey>, id: string, k: nat)
    requires k < |before|
  {
    before[k].id == id && (forall j :: 0 <= j < k ==> before[j].id != id) && after == before[..k] + before[k + 1..]
  }

  /** The counter of the passkey that answered is the one that came with the answer, and nothing else of the user changed. */
  ghost predicate Counted(env: Env, s: State, key: string, u: User, t: State, c: Credential) {
    && key in s.challenges.entries
    && exists k :: 0 <= k < |u.passkeys| && AnsweredBy(env, s.challenges.entries[key].challenge, u, c, k)
                   && Lookup(t.users, u.username) == Some(CountedAt(env, s.challenges.entries[key].challenge, u, c, k))
  }

  function CountedAt(env: Env, challenge: C.Bytes, u: User, c: Credential, k: nat): User
    requires k < |u.passkeys| && AnsweredBy(env, challenge, u, c, k)
  {
    var key := u.passkeys[k];
    User(u.username, u.hash, u.totp, u.codes, u.passkeys[k := Passkey(key.id, key.publicKey, env.asserts(challenge, c.response, key).value)])
  }

  ghost predicate PublicEffect(env: Env, s: State, op: Op, t: State, reply: Reply)
    requires AccessOf(op) == Public && Grounds(env, s, op)
  {
    match op
    case Setup(name, _, hash, drawn, now) => t.users == [User(name, hash, None, [], [])] && Opens(t, reply, drawn, name, s.require2fa, now)
    case SignIn(name, _, drawn, now) =>
      var u := Lookup(s.users, name).value;
      if u.totp.Some? || u.passkeys != []
      then reply == Challenged(drawn, name) && drawn in t.pending && t.pending[drawn] == Pending(name, now + 300) && t.sessions == s.sessions
      else Opens(t, reply, drawn, name, s.require2fa, now)
    case TotpVerify(p, code, drawn, now) =>
      && Opens(t, reply, drawn, Waiting(s, p), false, now) && p !in t.pending
      && t.lastStep == s.lastStep[Waiting(s, p) := env.matches(Lookup(s.users, Waiting(s, p)).value.totp.value, code, now).value]
    case BackupVerify(p, code, drawn, now) =>
      var before, after := Lookup(s.users, Waiting(s, p)), Lookup(t.users, Waiting(s, p));
      && Opens(t, reply, drawn, Waiting(s, p), false, now) && p !in t.pending
      && after.Some? && exists i :: 0 <= i < |before.value.codes| && FirstIsUsed(env, before.value.codes, after.value.codes, code, i)
    case LoginOptions(token, challenge, now) => t.challenges == C.Start(s.challenges, "login:" + token, challenge, now, 120)
    case LoginVerify(token, c, drawn, now) =>
      var u := OwnerOf(s.users, c.value.id).value;
      Opens(t, reply, drawn, u.username, false, now) && "login:" + token !in t.challenges.entries && Counted(env, s, "login:" + token, u, t, c.value)
    case SecondOptions(p, challenge, now) => t.challenges == C.Start(s.challenges, "login2fa:" + Waiting(s, p), challenge, now, 120)
    case SecondVerify(p, c, drawn, now) =>
      var key := "login2fa:" + Waiting(s, p);
      Opens(t, reply, drawn, Waiting(s, p), false, now) && p !in t.pending && key !in t.challenges.entries
      && Counted(env, s, key, Lookup(s.users, Waiting(s, p)).value, t, c.value)
  }

  predicate ActorEffect(env: Env, s: State, op: Op, name: string, t: State, reply: Reply)
    requires AccessOf(op) != Public && ActorGrounds(env, s, op, name)
  {
    var u, v := Lookup(s.users, name), Lookup(t.users, name);
    match op
    case Logout(session, _) => reply == LoggedOut && session !in t.sessions
    case TotpSetup(_, secret, now) => reply == Done && name in t.enrolling && t.enrolling[name] == Enrolment(secret, now + 600)
    case TotpConfirm(session, code, hashes, now) =>
      && reply == Enrolled && name !in t.enrolling && (session in s.sessions ==> session in t.sessions && !t.sessions[session].needsMfaSetup)
      && v.Some? && v.value.totp == Some(s.enrolling[name].secret) && AllFresh(v.value.codes, hashes)
      && name in t.lastStep && t.lastStep[name] >= env.matches(s.enrolling[name].secret, code, now).value
    case RegisterOptions(_, challenge, now) => reply == Done && t.challenges == C.Start(s.challenges, "register:" + name, challenge, now, 120)
    case RegisterVerify(session, response, now) =>
      && reply == Enrolled && "register:" + name !in t.challenges.entries
      && (session in s.sessions ==> session in t.sessions && !t.sessions[session].needsMfaSetup)
      && v.Some? && v.value.passkeys == u.value.passkeys + [env.attests(s.challenges.entries["register:" + name].challenge, response).value]
    case TotpDisable(_, _, _) => reply == Done && v.Some? && v.value.totp.None? && v.value.codes == [] && v.value.passkeys == u.value.passkeys
    case NewCodes(_, _, hashes, _) => reply == Done && v.Some? && v.value.totp == u.value.totp && AllFresh(v.value.codes, hashes)
    case DeletePasskey(_, id, _) =>
      reply == Done && v.Some? && exists k :: 0 <= k < |u.value.passkeys| && FirstIsGone(u.value.passkeys, v.value.passkeys, id, k)
    case SetRequire2fa(_, on, _) => reply == Done && t.require2fa == on
    case CreateUser(_, new_, _, hash, _) => reply == Done && Lookup(t.users, new_) == Some(User(new_, hash, None, [], []))
    case DeleteUser(_, gone, _) => reply == Done && Lookup(t.users, gone).None?
  }

  /** An accepted call does what it is for, and what it hands out is good for twelve hours, or five, ten or two minutes. */
  lemma {:induction false} AcceptedIsDone(env: Env, s: State, op: Op)
    requires Distinct(s.users) && Grounds(env, s, op)
    ensures var (t, reply) := Step(env, s, op);
            if AccessOf(op) == Public then PublicEffect(env, s, op, t, reply)
            else ActorEffect(env, s, op, s.sessions[op.session].username, t, reply)
  {
    if AccessOf(op) == Public {
      PublicDone(env, s, op);
    } else {
      GateIsActsAs(s, op);
      ActorDone(env, s, op, s.sessions[op.session].username);
    }
  }

  lemma {:induction false} PublicDone(env: Env, s: State, op: Op)
    requires AccessOf(op) == Public && Distinct(s.users) && Grounds(env, s, op)
    ensures var (t, reply) := HandlePublic(env, s, op); PublicEffect(env, s, op, t, reply)
  {
    if op.Setup? || op.SignIn? || op.LoginOptions? || op.LoginVerify? { FirstDone(env, s, op); } else { SecondFactorDone(env, s, op); }
  }

  lemma {:induction false} FirstDone(env: Env, s: State, op: Op)
    requires op.Setup? || op.SignIn? || op.LoginOptions? || op.LoginVerify?
    requires Distinct(s.users) && Grounds(env, s, op)
    ensures var (t, reply) := HandlePublic(env, s, op); PublicEffect(env, s, op, t, reply)
  {
    if op.Setup? { SetupDone(env, s, op); }
    else if op.SignIn? { SignInDone(env, s, op); }
    else if op.LoginOptions? { ChallengeDone(env, s, op); }
    else { LoginDone(env, s, op); }
  }

  lemma {:induction false} SecondFactorDone(env: Env, s: State, op: Op)
    requires op.TotpVerify? || op.BackupVerify? || op.SecondOptions? || op.SecondVerify?
    requires Distinct(s.users) && Grounds(env, s, op)
    ensures var (t, reply) := HandlePublic(env, s, op); PublicEffect(env, s, op, t, reply)
  {
    if op.TotpVerify? { TotpDone(env, s, op); }
    else if op.BackupVerify? { BackupDone(env, s, op); }
    else if op.SecondOptions? { SecondChallengeDone(env, s, op); }
    else { SecondDone(env, s, op); }
  }

  lemma {:induction false} ChallengeDone(env: Env, s: State, op: Op)
    requires op.LoginOptions?
    ensures var (t, reply) := HandleLoginOptions(s, op.loginToken, op.challenge, op.now); PublicEffect(env, s, op, t, reply)
  {
  }

  lemma {:induction false} SecondChallengeDone(env: Env, s: State, op: Op)
    requires op.SecondOptions? && Grounds(env, s, op)
    ensures var (t, reply) := HandleSecondOptions(s, op.pendingToken, op.challenge, op.now); PublicEffect(env, s, op, t, reply)
  {
  }

  lemma {:induction false} SetupDone(env: Env, s: State, op: Op)
    requires op.Setup? && Grounds(env, s, op)
    ensures var (t, reply) := HandleSetup(s, op.name, op.password, op.hash, op.drawn, op.now); PublicEffect(env, s, op, t, reply)
  {
  }

  lemma {:induction false} SignInDone(env: Env, s: State, op: Op)
    requires op.SignIn? && Grounds(env, s, op)
    ensures var (t, reply) := HandleSignIn(env, s, op.name, op.password, op.drawn, op.now); PublicEffect(env, s, op, t, reply)
  {
  }

  lemma {:induction false} TotpDone(env: Env, s: State, op: Op)
    requires op.TotpVerify? && Grounds(env, s, op)
    ensures var (t, reply) := HandleTotpVerify(env, s, op.pendingToken, op.code, op.drawn, op.now); PublicEffect(env, s, op, t, reply)
  {
  }

  lemma {:induction false} BackupDone(env: Env, s: State, op: Op)
    requires op.BackupVerify? && Grounds(env, s, op)
    ensures var (t, reply) := HandleBackupVerify(env, s, op.pendingToken, op.code, op.drawn, op.now); PublicEffect(env, s, op, t, reply)
  {
    BackupAccepted(env, s, op);
    var name := Waiting(s, op.pendingToken);
    var u := Lookup(s.users, name).value;
    var i := MatchIndex(u.codes, op.code, env.verify);
    LookupPut(s.users, u.(codes := Spend(u.codes, op.code, env.verify).value), name);
    assert forall k :: 0 <= k < |u.codes| ==> UnusedFor(env, u.codes[k], op.code) == Fits(u.codes[k], op.code, env.verify);
    assert FirstIsUsed(env, u.codes, Spend(u.codes, op.code, env.verify).value, op.code, i);
  }

  lemma {:induction false} CountsDone(env: Env, s: State, key: string, now: int, u: User, c: Credential, t: State)
    requires Lookup(s.users, u.username) == Some(u) && Answered(env, s, key, now, u, Some(c))
    requires t.users == UpdateSignCount(s.users, u.username, c.id, env.asserts(s.challenges.entries[key].challenge, c.response, u.passkeys[KeyIndex(u.passkeys, c.id)]).value)
    ensures Counted(env, s, key, u, t, c)
  {
    var challenge := s.challenges.entries[key].challenge;
    var k :| 0 <= k < |u.passkeys| && AnsweredBy(env, challenge, u, c, k);
    assert KeyIndex(u.passkeys, c.id) == k;
    LookupPut(s.users, CountedAt(env, challenge, u, c, k), u.username);
  }

  lemma {:induction false} LoginDone(env: Env, s: State, op: Op)
    requires op.LoginVerify? && Grounds(env, s, op) && Distinct(s.users)
    ensures var (t, reply) := HandleLoginVerify(env, s, op.loginToken, op.credential, op.drawn, op.now); PublicEffect(env, s, op, t, reply)
  {
    var key, u, c := "login:" + op.loginToken, OwnerOf(s.users, op.credential.value.id).value, op.credential.value;
    AssertedExactly(env, s, key, op.now, u, c);
    OwnerIsFound(s.users, c.id);
    CountsDone(env, s, key, op.now, u, c, HandleLoginVerify(env, s, op.loginToken, op.credential, op.drawn, op.now).0);
  }

  lemma {:induction false} SecondDone(env: Env, s: State, op: Op)
    requires op.SecondVerify? && Grounds(env, s, op)
    ensures var (t, reply) := HandleSecondVerify(env, s, op.pendingToken, op.credential, op.drawn, op.now); PublicEffect(env, s, op, t, reply)
  {
    var name := Waiting(s, op.pendingToken);
    var u := Lookup(s.users, name).value;
    AssertedExactly(env, s, "login2fa:" + name, op.now, u, op.credential.value);
    CountsDone(env, s, "login2fa:" + name, op.now, u, op.credential.value,
               HandleSecondVerify(env, s, op.pendingToken, op.credential, op.drawn, op.now).0);
  }

  lemma {:induction false} ActorDone(env: Env, s: State, op: Op, name: string)
    requires AccessOf(op) != Public && Distinct(s.users) && ActorGrounds(env, s, op, name)
    ensures var (t, reply) := HandleAs(env, s, name, op); ActorEffect(env, s, op, name, t, reply)
  {
    match op
    case RegisterVerify(session, response, now) => RegisterDone(env, s, op, name);
    case TotpConfirm(session, code, hashes, now) => ConfirmDone(env, s, op, name);
    case DeletePasskey(_, id, _) => DeleteKeyDone(env, s, op, name);
    case TotpDisable(_, _, _) => LookupPut(s.users, Lookup(s.users, name).value.(totp := None, codes := []), name);
    case NewCodes(_, _, hashes, _) => LookupPut(s.users, Lookup(s.users, name).value.(codes := Issue(hashes)), name);
    case CreateUser(_, new_, _, hash, _) => LookupSnoc(s.users, User(new_, hash, None, [], []), new_);
    case DeleteUser(_, gone, _) => LookupErase(s.users, gone, gone);
    case _ =>
  }

  lemma {:induction false} RegisterDone(env: Env, s: State, op: Op, name: string)
    requires op.RegisterVerify? && ActorGrounds(env, s, op, name)
    ensures var (t, reply) := HandleRegisterVerify(env, s, name, op.session, op.response, op.now); ActorEffect(env, s, op, name, t, reply)
  {
    var u := Lookup(s.users, name).value;
    var made := env.attests(s.challenges.entries["register:" + name].challenge, op.response).value;
    LookupPut(s.users, u.(passkeys := u.passkeys + [made]), name);
  }

  lemma {:induction false} ConfirmDone(env: Env, s: State, op: Op, name: string)
    requires op.TotpConfirm? && ActorGrounds(env, s, op, name)
    ensures var (t, reply) := HandleTotpConfirm(env, s, name, op.session, op.code, op.hashes, op.now); ActorEffect(env, s, op, name, t, reply)
  {
    var u := Lookup(s.users, name).value;
    LookupPut(s.users, u.(totp := Some(s.enrolling[name].secret), codes := Issue(op.hashes)), name);
  }

  lemma {:induction false} DeleteKeyDone(env: Env, s: State, op: Op, name: string)
    requires op.DeletePasskey? && ActorGrounds(env, s, op, name)
    ensures var (t, reply) := HandleDeletePasskey(s, name, op.id); ActorEffect(env, s, op, name, t, reply)
  {
    var u := Lookup(s.users, name).value;
    var k := KeyIndex(u.passkeys, op.id);
    var left := u.passkeys[..k] + u.passkeys[k + 1..];
    LookupPut(s.users, u.(passkeys := left), name);
    assert FirstIsGone(u.passkeys, left, op.id, k);
  }

  // ------------------------------------------------------------------ what a call leaves alone

  /** Secrets waiting to be confirmed: only setting up and confirming TOTP touch them. */
  ghost predicate EnrollingTold(s: State, op: Op, t: State, reply: Reply)
    requires op.TotpSetup? || op.TotpConfirm? ==> op.session in s.sessions
  {
    t.enrolling == if op.TotpSetup? && reply == Done then s.enrolling[s.sessions[op.session].username := Enrolment(op.secret, op.now + 600)]
                   else if op.TotpConfirm? && reply == Enrolled then s.enrolling - {s.sessions[op.session].username}
                   else s.enrolling
  }

  /** A refused call changes nothing; a verification that fails has still used up its challenge. */
  ghost predicate RefusalTold(s: State, op: Op, t: State, reply: Reply) {
    reply == Denied ==> t == s.(challenges := t.challenges) && (t.challenges == s.challenges || op.LoginVerify? || op.SecondVerify? || op.RegisterVerify?)
  }

  lemma {:induction false} RestIsUntouched(env: Env, s: State, op: Op)
    ensures var (t, reply) := Step(env, s, op);
            && RefusalTold(s, op, t, reply)
            && (if reply != Denied && (op.TotpSetup? || op.TotpConfirm?)
                then op.session in s.sessions && EnrollingTold(s, op, t, reply) else t.enrolling == s.enrolling)
  {
    if AccessOf(op) == Public {
      match op
      case LoginVerify(_, _, _, _) => LoginRest(env, s, op);
      case SecondVerify(_, _, _, _) => SecondRest(env, s, op);
      case TotpVerify(_, _, _, _) => TotpRest(env, s, op);
      case BackupVerify(_, _, _, _) => BackupRest(env, s, op);
      case _ =>
    } else if Actor(s, op).Some? {
      ActorRest(env, s, op, Actor(s, op).value);
    }
  }

  lemma {:induction false} LoginRest(env: Env, s: State, op: Op)
    requires op.LoginVerify?
    ensures var (t, reply) := HandleLoginVerify(env, s, op.loginToken, op.credential, op.drawn, op.now);
            RefusalTold(s, op, t, reply) && t.enrolling == s.enrolling
  {
  }

  lemma {:induction false} SecondRest(env: Env, s: State, op: Op)
    requires op.SecondVerify?
    ensures var (t, reply) := HandleSecondVerify(env, s, op.pendingToken, op.credential, op.drawn, op.now);
            RefusalTold(s, op, t, reply) && t.enrolling == s.enrolling
  {
  }

  lemma {:induction false} TotpRest(env: Env, s: State, op: Op)
    requires op.TotpVerify?
    ensures var (t, reply) := HandleTotpVerify(env, s, op.pendingToken, op.code, op.drawn, op.now);
            RefusalTold(s, op, t, reply) && t.enrolling == s.enrolling
  {
  }

  lemma {:induction false} BackupRest(env: Env, s: State, op: Op)
    requires op.BackupVerify?
    ensures var (t, reply) := HandleBackupVerify(env, s, op.pendingToken, op.code, op.drawn, op.now);
            RefusalTold(s, op, t, reply) && t.enrolling == s.enrolling
  {
  }

  lemma {:induction false} ActorRest(env: Env, s: State, op: Op, name: string)
    requires AccessOf(op) != Public && Actor(s, op) == Some(name)
    ensures var (t, reply) := HandleAs(env, s, name, op);
            && RefusalTold(s, op, t, reply) && op.session in s.sessions
            && if reply != Denied && (op.TotpSetup? || op.TotpConfirm?) then EnrollingTold(s, op, t, reply) else t.enrolling == s.enrolling
  {
    match op
    case TotpConfirm(_, _, _, _) => ConfirmRest(env, s, op, name);
    case RegisterVerify(_, _, _) => RegisterRest(env, s, op, name);
    case _ =>
  }

  lemma {:induction false} ConfirmRest(env: Env, s: State, op: Op, name: string)
    requires op.TotpConfirm? && Actor(s, op) == Some(name)
    ensures var (t, reply) := HandleTotpConfirm(env, s, name, op.session, op.code, op.hashes, op.now);
            RefusalTold(s, op, t, reply) && if reply == Denied then t.enrolling == s.enrolling else EnrollingTold(s, op, t, reply)
  {
  }

  lemma {:induction false} RegisterRest(env: Env, s: State, op: Op, name: string)
    requires op.RegisterVerify?
    ensures var (t, reply) := HandleRegisterVerify(env, s, name, op.session, op.response, op.now);
            RefusalTold(s, op, t, reply) && t.enrolling == s.enrolling
  {
  }
}
