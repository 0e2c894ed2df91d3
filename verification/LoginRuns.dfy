/**
 What holds of every run of the admin login: where a session that may do everything comes
 from, that a pending login is redeemed at most once and soon after the right password, that
 each backup code and each TOTP step is good for one login, and that a policy that stays on is kept.
 */
module LoginRuns {
  import opened Prelude
  import opened Accounts
  import opened Tokens
  import opened Login
  import Totp
  import C = ChallengeStore

  lemma {:induction false} Prefix(env: Env, start: State, ops: seq<Op>, i: nat)
    requires i < |ops|
    ensures Before(env, start, ops, i + 1) == Step(env, Before(env, start, ops, i), ops[i]).0
  {
    assert Front(ops[..i + 1]) == ops[..i];
  }

  lemma {:induction false} SamePrefix(env: Env, start: State, ops: seq<Op>, i: nat)
    requires ops != [] && i <= |ops| - 1
    ensures Before(env, start, Front(ops), i) == Before(env, start, ops, i)
    ensures i < |ops| - 1 ==> ReplyTo(env, start, Front(ops), i) == ReplyTo(env, start, ops, i)
  {
    assert Front(ops)[..i] == ops[..i];
  }

  // ------------------------------------------------------------------ tokens

  /** The token that a call may put into circulation. */
  function Drawn(op: Op): Option<string> {
    match op
    case Setup(_, _, _, t, _) => Some(t)
    case SignIn(_, _, t, _) => Some(t)
    case TotpVerify(_, _, t, _) => Some(t)
    case BackupVerify(_, _, t, _) => Some(t)
    case LoginVerify(_, _, t, _) => Some(t)
    case SecondVerify(_, _, t, _) => Some(t)
    case _ => None
  }

  /** No random token is drawn twice. */
  ghost predicate Feasible(ops: seq<Op>) {
    forall i, j :: 0 <= i < j < |ops| && Drawn(ops[i]).Some? ==> Drawn(ops[i]) != Drawn(ops[j])
  }

  predicate TokenOf(reply: Reply, op: Op) {
    match reply
    case Granted(t, _, _) => Drawn(op) == Some(t)
    case Challenged(t, _) => Drawn(op) == Some(t) && op.SignIn?
    case _ => true
  }

  lemma {:induction false} RepliesCarryDrawnTokens(env: Env, s: State, op: Op)
    ensures TokenOf(Step(env, s, op).1, op)
  {
    if AccessOf(op) == Public {
      match op
      case LoginVerify(t, credential, drawn, now) => LoginToken(env, s, op);
      case SecondVerify(p, credential, drawn, now) => SecondToken(env, s, op);
      case _ =>
    } else {
      ActorToken(env, s, op);
    }
  }

  lemma {:induction false} LoginToken(env: Env, s: State, op: Op)
    requires op.LoginVerify?
    ensures TokenOf(HandleLoginVerify(env, s, op.loginToken, op.credential, op.drawn, op.now).1, op)
  {
  }

  lemma {:induction false} SecondToken(env: Env, s: State, op: Op)
    requires op.SecondVerify?
    ensures TokenOf(HandleSecondVerify(env, s, op.pendingToken, op.credential, op.drawn, op.now).1, op)
  {
  }

  lemma {:induction false} ActorToken(env: Env, s: State, op: Op)
    requires AccessOf(op) != Public
    ensures !Step(env, s, op).1.Granted? && !Step(env, s, op).1.Challenged?
  {
  }

  // ------------------------------------------------------------------ where full sessions come from

  /** A factor of the user was shown in this call. */
  ghost predicate ShowsFactor(env: Env, s: State, op: Op, user: string) {
    match op
    case TotpVerify(_, code, _, now) => TotpStep(env, s, user, code, now).Some?
    case BackupVerify(_, code, _, _) => Lookup(s.users, user).Some? && Spend(Lookup(s.users, user).value.codes, code, env.verify).Some?
    case SecondVerify(_, c, _, now) => c.Some? && Lookup(s.users, user).Some?
                                       && Signed(env, s, "login2fa:" + user, now, Lookup(s.users, user).value, c.value)
    case LoginVerify(t, c, _, now) => c.Some? && OwnerOf(s.users, c.value.id).Some? && OwnerOf(s.users, c.value.id).value.username == user
                                      && Signed(env, s, "login:" + t, now, OwnerOf(s.users, c.value.id).value, c.value)
    case _ => false
  }

  /** The assertion is good for a passkey of that id, under the challenge that is outstanding for this ceremony. */
  predicate Signed(env: Env, s: State, key: string, now: int, u: User, c: Credential) {
    var k, challenge := KeyIndex(u.passkeys, c.id), C.Consume(s.challenges, key, now).1;
    k < |u.passkeys| && challenge.Some? && env.asserts(challenge.value, c.response, u.passkeys[k]).Some?
  }

  /** Why a call may hand out a session that can do everything. */
  ghost predicate MayGrant(env: Env, s: State, op: Op, user: string) {
    if op.Setup? then !s.require2fa && s.users == []
    else if op.SignIn? then !s.require2fa && Lookup(s.users, user).Some? && !HasFactor(Lookup(s.users, user).value)
                            && env.verify(op.password, Lookup(s.users, user).value.hash)
    else ShowsFactor(env, s, op, user) && (Redeemed(op).Some? ==> PendingUser(s.pending, Redeemed(op).value, op.now) == Some(user))
  }

  ghost predicate FullGrant(env: Env, s: State, op: Op, reply: Reply) {
    reply.Granted? && !reply.needsMfaSetup ==> MayGrant(env, s, op, reply.username)
  }

  lemma {:induction false} FullGrantsAreJustified(env: Env, s: State, op: Op)
    ensures FullGrant(env, s, op, Step(env, s, op).1)
  {
    if AccessOf(op) == Public {
      match op
      case Setup(_, _, _, _, _) => SetupGrant(env, s, op);
      case SignIn(_, _, _, _) => SignInGrant(env, s, op);
      case TotpVerify(_, _, _, _) => TotpGrant(env, s, op);
      case BackupVerify(_, _, _, _) => BackupGrant(env, s, op);
      case LoginOptions(_, _, _) =>
      case LoginVerify(_, _, _, _) => LoginGrant(env, s, op);
      case SecondOptions(_, _, _) =>
      case SecondVerify(_, _, _, _) => SecondGrant(env, s, op);
    } else {
      ActorToken(env, s, op);
    }
  }

  lemma {:induction false} SetupGrant(env: Env, s: State, op: Op)
    requires op.Setup?
    ensures FullGrant(env, s, op, HandleSetup(s, op.name, op.password, op.hash, op.drawn, op.now).1)
  {
  }

  lemma {:induction false} SignInGrant(env: Env, s: State, op: Op)
    requires op.SignIn?
    ensures FullGrant(env, s, op, HandleSignIn(env, s, op.name, op.password, op.drawn, op.now).1)
  {
  }

  lemma {:induction false} TotpGrant(env: Env, s: State, op: Op)
    requires op.TotpVerify?
    ensures FullGrant(env, s, op, HandleTotpVerify(env, s, op.pendingToken, op.code, op.drawn, op.now).1)
  {
  }

  lemma {:induction false} BackupGrant(env: Env, s: State, op: Op)
    requires op.BackupVerify?
    ensures FullGrant(env, s, op, HandleBackupVerify(env, s, op.pendingToken, op.code, op.drawn, op.now).1)
  {
  }

  lemma {:induction false} LoginGrant(env: Env, s: State, op: Op)
    requires op.LoginVerify?
    ensures FullGrant(env, s, op, HandleLoginVerify(env, s, op.loginToken, op.credential, op.drawn, op.now).1)
  {
  }

  lemma {:induction false} SecondGrant(env: Env, s: State, op: Op)
    requires op.SecondVerify?
    ensures FullGrant(env, s, op, HandleSecondVerify(env, s, op.pendingToken, op.credential, op.drawn, op.now).1)
  {
  }

  predicate IsFull(sessions: map<string, Session>, t: string) {
    t in sessions && !sessions[t].needsMfaSetup
  }

  /** This call made `t` a session that can do everything: by granting it, or by an enrolment made with it. */
  predicate MadeFull(op: Op, reply: Reply, t: string) {
    (reply.Granted? && reply.token == t && !reply.needsMfaSetup) || (reply == Enrolled && AccessOf(op) != Public && op.session == t)
  }

  lemma {:induction false} FullAfterStep(env: Env, s: State, op: Op, t: string)
    requires IsFull(Step(env, s, op).0.sessions, t)
    ensures IsFull(s.sessions, t) || MadeFull(op, Step(env, s, op).1, t)
  {
    RepliesTellAll(env, s, op);
    FullAfterReply(s, op, Step(env, s, op).1, t);
  }

  lemma {:induction false} FullAfterReply(s: State, op: Op, reply: Reply, t: string)
    requires IsFull(SessionsAfter(s, op, reply), t)
    ensures IsFull(s.sessions, t) || MadeFull(op, reply, t)
  {
  }

  ghost predicate MadeFullAt(env: Env, start: State, ops: seq<Op>, t: string, i: nat)
    requires i < |ops|
  {
    MadeFull(ops[i], ReplyTo(env, start, ops, i), t)
    && FullGrant(env, Before(env, start, ops, i), ops[i], ReplyTo(env, start, ops, i))
  }

  /**
   A session that can do everything was once granted for a factor that was shown, or by password
   alone while the policy was off and the user had none; or its user enrolled a factor with it.
   */
  lemma {:induction false} FullSessionsHaveAReason(env: Env, start: State, ops: seq<Op>, t: string)
    requires IsFull(Run(env, start, ops).sessions, t) && !IsFull(start.sessions, t)
    ensures exists i :: 0 <= i < |ops| && MadeFullAt(env, start, ops, t, i)
  {
    var n := |ops| - 1;
    var s := Run(env, start, Front(ops));
    assert Front(ops) == ops[..n];
    FullAfterStep(env, s, Last(ops), t);
    if IsFull(s.sessions, t) {
      FullSessionsHaveAReason(env, start, Front(ops), t);
      var i :| 0 <= i < n && MadeFullAt(env, start, Front(ops), t, i);
      SamePrefix(env, start, ops, i);
      assert MadeFullAt(env, start, ops, t, i);
    } else {
      FullGrantsAreJustified(env, s, Last(ops));
      assert MadeFullAt(env, start, ops, t, n);
    }
  }

  // ------------------------------------------------------------------ pending logins

  /** Call `i` checked the password of `user` and answered with the pending login `p`. */
  ghost predicate AskedAt(env: Env, start: State, ops: seq<Op>, p: string, user: string, i: nat)
    requires i < |ops|
  {
    ReplyTo(env, start, ops, i) == Challenged(p, user) && PasswordShown(env, Before(env, start, ops, i), ops[i], user)
  }

  predicate PasswordShown(env: Env, s: State, op: Op, user: string) {
    op.SignIn? && op.name == user && Lookup(s.users, user).Some? && HasFactor(Lookup(s.users, user).value)
    && env.verify(op.password, Lookup(s.users, user).value.hash)
  }

  lemma {:induction false} ChallengesFollowPasswords(env: Env, s: State, op: Op)
    requires Step(env, s, op).1.Challenged?
    ensures PasswordShown(env, s, op, Step(env, s, op).1.username)
  {
    RepliesCarryDrawnTokens(env, s, op);
  }

  lemma {:induction false} PendingWereAsked(env: Env, start: State, ops: seq<Op>, p: string)
    requires p in Run(env, start, ops).pending && p !in start.pending
    ensures exists i :: 0 <= i < |ops| && AskedAt(env, start, ops, p, Run(env, start, ops).pending[p].username, i)
                        && Run(env, start, ops).pending[p].expiresAt == ops[i].now + PENDING_TTL
  {
    var n := |ops| - 1;
    var s := Run(env, start, Front(ops));
    assert Front(ops) == ops[..n];
    RepliesTellAll(env, s, Last(ops));
    var reply := Step(env, s, Last(ops)).1;
    if reply.Challenged? && reply.token == p {
      ChallengesFollowPasswords(env, s, Last(ops));
      assert AskedAt(env, start, ops, p, reply.username, n);
    } else {
      PendingWereAsked(env, start, Front(ops), p);
      var i :| 0 <= i < n && AskedAt(env, start, Front(ops), p, s.pending[p].username, i) && s.pending[p].expiresAt == ops[i].now + PENDING_TTL;
      SamePrefix(env, start, ops, i);
      assert AskedAt(env, start, ops, p, s.pending[p].username, i);
    }
  }

  /** The call redeemed a pending login. */
  predicate RedeemedAt(env: Env, start: State, ops: seq<Op>, p: string, i: nat)
    requires i < |ops|
  {
    Redeemed(ops[i]) == Some(p) && ReplyTo(env, start, ops, i).Granted?
  }

  lemma {:induction false} RedeemingNeedsPending(env: Env, s: State, op: Op)
    requires Redeemed(op).Some? && Step(env, s, op).1.Granted?
    ensures !Step(env, s, op).1.needsMfaSetup
    ensures PendingUser(s.pending, Redeemed(op).value, op.now) == Some(Step(env, s, op).1.username)
    ensures Redeemed(op).value !in Step(env, s, op).0.pending
  {
    RepliesTellAll(env, s, op);
    match op
    case TotpVerify(_, _, _, _) =>
    case BackupVerify(_, _, _, _) =>
    case SecondVerify(_, _, _, _) => SecondIsPending(env, s, op);
  }

  lemma {:induction false} SecondIsPending(env: Env, s: State, op: Op)
    requires op.SecondVerify? && HandleSecondVerify(env, s, op.pendingToken, op.credential, op.drawn, op.now).1.Granted?
    ensures var reply := HandleSecondVerify(env, s, op.pendingToken, op.credential, op.drawn, op.now).1;
            !reply.needsMfaSetup && PendingUser(s.pending, op.pendingToken, op.now) == Some(reply.username)
  {
  }

  /** Behind every login with a second factor is one with the right password, of the same user, at most five minutes old. */
  lemma {:induction false} SecondFactorFollowsPassword(env: Env, start: State, ops: seq<Op>, p: string, j: nat)
    requires start.pending == map[] && j < |ops| && RedeemedAt(env, start, ops, p, j)
    ensures exists i :: 0 <= i < j && AskedAt(env, start, ops, p, ReplyTo(env, start, ops, j).username, i) && ops[j].now <= ops[i].now + PENDING_TTL
  {
    var user := WasPending(env, start, ops, p, j);
    PendingWereAsked(env, start, ops[..j], p);
    var i :| 0 <= i < j && AskedAt(env, start, ops[..j], p, user, i) && Before(env, start, ops, j).pending[p].expiresAt == ops[..j][i].now + PENDING_TTL;
    AskedInPrefix(env, start, ops, p, user, i, j);
  }

  lemma {:induction false} WasPending(env: Env, start: State, ops: seq<Op>, p: string, j: nat) returns (user: string)
    requires j < |ops| && RedeemedAt(env, start, ops, p, j)
    ensures ReplyTo(env, start, ops, j).username == user
    ensures var pending := Before(env, start, ops, j).pending; p in pending && pending[p].username == user && ops[j].now <= pending[p].expiresAt
  {
    RedeemingNeedsPending(env, Before(env, start, ops, j), ops[j]);
    user := ReplyTo(env, start, ops, j).username;
  }

  lemma {:induction false} AskedInPrefix(env: Env, start: State, ops: seq<Op>, p: string, user: string, i: nat, j: nat)
    requires i < j <= |ops| && AskedAt(env, start, ops[..j], p, user, i)
    ensures AskedAt(env, start, ops, p, user, i)
  {
    assert ops[..j][..i] == ops[..i];
  }

  /** Once redeemed, a pending login is gone for good. */
  lemma {:induction false} StaysGone(env: Env, start: State, ops: seq<Op>, p: string, drawnAt: nat, i: nat, j: nat)
    requires Feasible(ops) && drawnAt < i <= j <= |ops| && Drawn(ops[drawnAt]) == Some(p)
    requires p !in Before(env, start, ops, i).pending
    ensures p !in Before(env, start, ops, j).pending
    decreases j - i
  {
    if i < j {
      Prefix(env, start, ops, i);
      assert Drawn(ops[drawnAt]) != Drawn(ops[i]);
      NotRevived(env, Before(env, start, ops, i), ops[i], p);
      StaysGone(env, start, ops, p, drawnAt, i + 1, j);
    }
  }

  lemma {:induction false} NotRevived(env: Env, s: State, op: Op, p: string)
    requires p !in s.pending && Drawn(op) != Some(p)
    ensures p !in Step(env, s, op).0.pending
  {
    RepliesTellAll(env, s, op);
    RepliesCarryDrawnTokens(env, s, op);
  }

  lemma {:induction false} DrawnBefore(env: Env, start: State, ops: seq<Op>, p: string, i: nat) returns (a: nat)
    requires start.pending == map[] && i < |ops| && RedeemedAt(env, start, ops, p, i)
    ensures a < i && Drawn(ops[a]) == Some(p)
  {
    SecondFactorFollowsPassword(env, start, ops, p, i);
    a :| 0 <= a < i && AskedAt(env, start, ops, p, ReplyTo(env, start, ops, i).username, a);
    RepliesCarryDrawnTokens(env, Before(env, start, ops, a), ops[a]);
  }

  lemma {:induction false} GoneAfter(env: Env, start: State, ops: seq<Op>, p: string, i: nat)
    requires i < |ops| && RedeemedAt(env, start, ops, p, i)
    ensures p !in Before(env, start, ops, i + 1).pending
  {
    Prefix(env, start, ops, i);
    RedeemingNeedsPending(env, Before(env, start, ops, i), ops[i]);
  }

  /** Each pending login yields at most one session. */
  lemma {:induction false} PendingLoginsAreSingleUse(env: Env, start: State, ops: seq<Op>, p: string, i: nat, j: nat)
    requires start.pending == map[] && Feasible(ops) && i < j < |ops|
    requires RedeemedAt(env, start, ops, p, i)
    ensures !RedeemedAt(env, start, ops, p, j)
  {
    var a := DrawnBefore(env, start, ops, p, i);
    GoneAfter(env, start, ops, p, i);
    StaysGone(env, start, ops, p, a, i + 1, j);
    if RedeemedAt(env, start, ops, p, j) { var _ := WasPending(env, start, ops, p, j); }
  }

  // ------------------------------------------------------------------ passkey challenges

  /** What a call does to the outstanding challenges. */
  function ChallengeOp(s: State, op: Op): Option<C.Op> {
    match op
    case LoginOptions(t, challenge, now) => Some(C.StartOp("login:" + t, challenge, now, CHALLENGE_TTL))
    case LoginVerify(t, _, _, now) => Some(C.ConsumeOp("login:" + t, now))
    case SecondOptions(p, challenge, now) =>
      var name := PendingUser(s.pending, p, now);
      if name.Some? && Lookup(s.users, name.value).Some? then Some(C.StartOp("login2fa:" + name.value, challenge, now, CHALLENGE_TTL)) else None
    case SecondVerify(p, _, _, now) =>
      var name := PendingUser(s.pending, p, now);
      if name.Some? then Some(C.ConsumeOp("login2fa:" + name.value, now)) else None
    case RegisterOptions(_, challenge, now) =>
      var name := Actor(s, op);
      if name.Some? && Lookup(s.users, name.value).Some? then Some(C.StartOp("register:" + name.value, challenge, now, CHALLENGE_TTL)) else None
    case RegisterVerify(_, _, now) =>
      var name := Actor(s, op);
      if name.Some? then Some(C.ConsumeOp("register:" + name.value, now)) else None
    case _ => None
  }

  function ChallengesAfter(s: State, op: Op): C.State {
    match ChallengeOp(s, op)
    case None => s.challenges
    case Some(c) => C.Apply(s.challenges, c)
  }

  lemma {:induction false} ChallengesTold(env: Env, s: State, op: Op)
    ensures Step(env, s, op).0.challenges == ChallengesAfter(s, op)
  {
    if AccessOf(op) == Public { PublicChallenges(env, s, op); }
    else if Actor(s, op).Some? { ActorChallenges(env, s, Actor(s, op).value, op); }
  }

  lemma {:induction false} PublicChallenges(env: Env, s: State, op: Op)
    requires AccessOf(op) == Public
    ensures HandlePublic(env, s, op).0.challenges == ChallengesAfter(s, op)
  {
    match op
    case LoginVerify(_, _, _, _) => LoginChallenges(env, s, op);
    case SecondVerify(_, _, _, _) => SecondChallenges(env, s, op);
    case _ =>
  }

  lemma {:induction false} LoginChallenges(env: Env, s: State, op: Op)
    requires op.LoginVerify?
    ensures HandleLoginVerify(env, s, op.loginToken, op.credential, op.drawn, op.now).0.challenges == ChallengesAfter(s, op)
  {
  }

  lemma {:induction false} SecondChallenges(env: Env, s: State, op: Op)
    requires op.SecondVerify?
    ensures HandleSecondVerify(env, s, op.pendingToken, op.credential, op.drawn, op.now).0.challenges == ChallengesAfter(s, op)
  {
  }

  lemma {:induction false} ActorChallenges(env: Env, s: State, user: string, op: Op)
    requires AccessOf(op) != Public && Actor(s, op) == Some(user)
    ensures HandleAs(env, s, user, op).0.challenges == ChallengesAfter(s, op)
  {
    match op
    case RegisterVerify(session, response, now) => RegisterChallenges(env, s, user, op);
    case _ =>
  }

  lemma {:induction false} RegisterChallenges(env: Env, s: State, user: string, op: Op)
    requires op.RegisterVerify? && Actor(s, op) == Some(user)
    ensures HandleRegisterVerify(env, s, user, op.session, op.response, op.now).0.challenges == ChallengesAfter(s, op)
  {
  }

  /** The calls of a run as the store of challenges sees them. */
  function ChallengeOps(env: Env, start: State, ops: seq<Op>): seq<C.Op> {
    if ops == [] then []
    else
      ChallengeOps(env, start, Front(ops))
      + match ChallengeOp(Run(env, start, Front(ops)), Last(ops)) case None => [] case Some(c) => [c]
  }

  lemma {:induction false} ChallengesRun(env: Env, require: bool, ops: seq<Op>)
    ensures Run(env, Fresh(require), ops).challenges == C.Run(C.INITIAL, ChallengeOps(env, Fresh(require), ops))
  {
    if ops != [] {
      ChallengesRun(env, require, Front(ops));
      var s := Run(env, Fresh(require), Front(ops));
      ChallengesTold(env, s, Last(ops));
      var before := ChallengeOps(env, Fresh(require), Front(ops));
      match ChallengeOp(s, Last(ops))
      case None => assert before + [] == before;
      case Some(c) => assert Front(before + [c]) == before;
    }
  }

  /** Call `i` is what the store of challenges sees as its call number `a`. */
  predicate SeenAs(env: Env, start: State, ops: seq<Op>, i: nat, a: nat)
    requires i < |ops|
  {
    && a == |ChallengeOps(env, start, ops[..i])| < |ChallengeOps(env, start, ops)|
    && ChallengeOp(Before(env, start, ops, i), ops[i]) == Some(ChallengeOps(env, start, ops)[a])
  }

  lemma {:induction false} SeenAsMore(env: Env, start: State, ops: seq<Op>, i: nat, a: nat)
    requires i + 1 < |ops| && SeenAs(env, start, Front(ops), i, a)
    ensures SeenAs(env, start, ops, i, a)
  {
    SamePrefix(env, start, ops, i);
    assert Front(ops)[..i] == ops[..i];
  }

  lemma {:induction false} SeenLast(env: Env, start: State, ops: seq<Op>)
    requires ops != [] && ChallengeOp(Before(env, start, ops, |ops| - 1), ops[|ops| - 1]).Some?
    ensures SeenAs(env, start, ops, |ops| - 1, |ChallengeOps(env, start, Front(ops))|)
  {
    assert ops[..|ops| - 1] == Front(ops);
  }

  lemma {:induction false} ComesFrom(env: Env, start: State, ops: seq<Op>, a: nat) returns (i: nat)
    requires a < |ChallengeOps(env, start, ops)|
    ensures i < |ops| && SeenAs(env, start, ops, i, a)
  {
    if a < |ChallengeOps(env, start, Front(ops))| {
      i := ComesFrom(env, start, Front(ops), a);
      SeenAsMore(env, start, ops, i, a);
    } else {
      i := |ops| - 1;
      assert ops[..i] == Front(ops);
      SeenLast(env, start, ops);
    }
  }

  lemma {:induction false} GoesTo(env: Env, start: State, ops: seq<Op>, i: nat)
    requires i < |ops| && ChallengeOp(Before(env, start, ops, i), ops[i]).Some?
    ensures SeenAs(env, start, ops, i, |ChallengeOps(env, start, ops[..i])|)
  {
    if i == |ops| - 1 {
      assert ops[..i] == Front(ops);
      SeenLast(env, start, ops);
    } else {
      SamePrefix(env, start, ops, i);
      GoesTo(env, start, Front(ops), i);
      assert Front(ops)[..i] == ops[..i];
      SeenAsMore(env, start, ops, i, |ChallengeOps(env, start, ops[..i])|);
    }
  }

  lemma {:induction false} FewerBefore(env: Env, start: State, ops: seq<Op>, i: nat, j: nat)
    requires i <= j <= |ops|
    ensures |ChallengeOps(env, start, ops[..i])| <= |ChallengeOps(env, start, ops[..j])|
    ensures i < j && ChallengeOp(Before(env, start, ops, i), ops[i]).Some? ==> |ChallengeOps(env, start, ops[..i])| < |ChallengeOps(env, start, ops[..j])|
    decreases j
  {
    if i < j {
      FewerBefore(env, start, ops, i, j - 1);
      assert Front(ops[..j]) == ops[..j - 1];
    }
  }

  /** Call `i` issued this challenge under that key. */
  predicate IssuedAt(env: Env, start: State, ops: seq<Op>, key: string, challenge: C.Bytes, i: nat)
    requires i < |ops|
  {
    ChallengeOp(Before(env, start, ops, i), ops[i]) == Some(C.StartOp(key, challenge, ops[i].now, CHALLENGE_TTL))
  }

  /** Call `k` issues or consumes a challenge under that key. */
  predicate Touches(env: Env, start: State, ops: seq<Op>, key: string, k: nat)
    requires k < |ops|
  {
    var c := ChallengeOp(Before(env, start, ops, k), ops[k]);
    c.Some? && c.value.key == key
  }

  /** Call `j` consumes a challenge under that key and gets this one. */
  predicate ConsumedAt(env: Env, start: State, ops: seq<Op>, key: string, challenge: C.Bytes, j: nat)
    requires j < |ops|
  {
    && ChallengeOp(Before(env, start, ops, j), ops[j]) == Some(C.ConsumeOp(key, ops[j].now))
    && C.Consume(Before(env, start, ops, j).challenges, key, ops[j].now).1 == Some(challenge)
  }

  /** It is the one that was issued last under the key, at most two minutes ago, and nobody consumed it in between. */
  ghost predicate ServedFrom(env: Env, start: State, ops: seq<Op>, key: string, challenge: C.Bytes, i: nat, j: nat)
    requires j < |ops|
  {
    && i < j && IssuedAt(env, start, ops, key, challenge, i) && ops[j].now <= ops[i].now + CHALLENGE_TTL
    && forall k :: i < k < j ==> !Touches(env, start, ops, key, k)
  }

  /** Number `a` of the calls that the store of challenges sees is the start that serves number `b`. */
  ghost predicate Hands(all: seq<C.Op>, key: string, challenge: C.Bytes, now: int, a: nat, b: nat) {
    && a < b < |all| && all[a].StartOp? && all[a].key == key && all[a].challenge == challenge && now <= all[a].now + all[a].ttl
    && forall k :: a < k < b ==> all[k].key != key
  }

  lemma {:induction false} ConsumedIsHanded(env: Env, require: bool, ops: seq<Op>, key: string, challenge: C.Bytes, j: nat) returns (a: nat)
    requires j < |ops| && ConsumedAt(env, Fresh(require), ops, key, challenge, j)
    ensures Hands(ChallengeOps(env, Fresh(require), ops), key, challenge, ops[j].now, a, |ChallengeOps(env, Fresh(require), ops[..j])|)
  {
    var start := Fresh(require);
    var all, b := ChallengeOps(env, start, ops), |ChallengeOps(env, start, ops[..j])|;
    GoesTo(env, start, ops, j);
    ChallengesRun(env, require, ops[..j]);
    OpsPrefix(env, start, ops, j);
    assert all[..b] == ChallengeOps(env, start, ops[..j]);
    C.HandsOutLatestStart(all, b);
    a :| a < b && all[a].StartOp? && all[a].key == key && C.Handed(all, b) == Some(all[a].challenge)
         && ops[j].now <= all[a].now + all[a].ttl && forall k :: a < k < b ==> all[k].key != key;
  }

  lemma {:induction false} NotTouchedBetween(env: Env, start: State, ops: seq<Op>, key: string, challenge: C.Bytes, now: int, a: nat, i: nat, j: nat, k: nat)
    requires i < k < j < |ops| && SeenAs(env, start, ops, i, a)
    requires Hands(ChallengeOps(env, start, ops), key, challenge, now, a, |ChallengeOps(env, start, ops[..j])|)
    ensures !Touches(env, start, ops, key, k)
  {
    if Touches(env, start, ops, key, k) {
      GoesTo(env, start, ops, k);
      FewerBefore(env, start, ops, i, k);
      FewerBefore(env, start, ops, k, j);
    }
  }

  lemma {:induction false} ConsumedWasIssued(env: Env, require: bool, ops: seq<Op>, key: string, challenge: C.Bytes, j: nat)
    requires j < |ops| && ConsumedAt(env, Fresh(require), ops, key, challenge, j)
    ensures exists i: nat :: ServedFrom(env, Fresh(require), ops, key, challenge, i, j)
  {
    var start := Fresh(require);
    var a := ConsumedIsHanded(env, require, ops, key, challenge, j);
    var i := ComesFrom(env, start, ops, a);
    if i >= j { FewerBefore(env, start, ops, j, i); }
    forall k | i < k < j ensures !Touches(env, start, ops, key, k) {
      NotTouchedBetween(env, start, ops, key, challenge, ops[j].now, a, i, j, k);
    }
    StartsAt(env, start, ops, i);
    assert ServedFrom(env, start, ops, key, challenge, i, j);
  }

  lemma {:induction false} StartsAt(env: Env, start: State, ops: seq<Op>, i: nat)
    requires i < |ops|
    ensures var c := ChallengeOp(Before(env, start, ops, i), ops[i]);
            c.Some? && c.value.StartOp? ==> c.value.now == ops[i].now && c.value.ttl == CHALLENGE_TTL
  {
  }

  lemma {:induction false} OpsPrefix(env: Env, start: State, ops: seq<Op>, j: nat)
    requires j <= |ops|
    ensures ChallengeOps(env, start, ops[..j]) <= ChallengeOps(env, start, ops)
  {
    if j < |ops| {
      OpsPrefix(env, start, Front(ops), j);
      assert Front(ops)[..j] == ops[..j];
    } else {
      assert ops[..j] == ops;
    }
  }

  /** Each challenge serves one call: the one served later was issued after the earlier call. */
  lemma {:induction false} ChallengesServeOnce(env: Env, require: bool, ops: seq<Op>, key: string, challenge: C.Bytes, other: C.Bytes, i: nat, j: nat, later: nat)
    requires j < later < |ops| && ConsumedAt(env, Fresh(require), ops, key, other, j)
    requires ServedFrom(env, Fresh(require), ops, key, challenge, i, later)
    ensures j < i
  {
    assert Touches(env, Fresh(require), ops, key, j);
  }

  // ------------------------------------------------------------------ logins by passkey

  predicate PasskeyLogin(op: Op) {
    op.LoginVerify? || op.SecondVerify?
  }

  /** The key of the ceremony in which a passkey is shown. */
  function Ceremony(op: Op, user: string): string
    requires PasskeyLogin(op)
  {
    if op.LoginVerify? then "login:" + op.loginToken else "login2fa:" + user
  }

  /** The user's passkey of that id makes the assertion good under this challenge. */
  ghost predicate Answers(env: Env, s: State, op: Op, user: string, challenge: C.Bytes)
    requires PasskeyLogin(op)
  {
    && op.credential.Some?
    && exists u :: u in s.users && u.username == user && KeyIndex(u.passkeys, op.credential.value.id) < |u.passkeys|
                   && env.asserts(challenge, op.credential.value.response, u.passkeys[KeyIndex(u.passkeys, op.credential.value.id)]).Some?
  }

  lemma {:induction false} PasskeyConsumes(env: Env, s: State, op: Op)
    requires PasskeyLogin(op) && Step(env, s, op).1.Granted?
    ensures var user := Step(env, s, op).1.username; var key := Ceremony(op, user);
            && ChallengeOp(s, op) == Some(C.ConsumeOp(key, op.now))
            && C.Consume(s.challenges, key, op.now).1.Some?
            && Answers(env, s, op, user, C.Consume(s.challenges, key, op.now).1.value)
  {
    if op.LoginVerify? { LoginConsumes(env, s, op); } else { SecondConsumes(env, s, op); }
  }

  lemma {:induction false} LoginConsumes(env: Env, s: State, op: Op)
    requires op.LoginVerify? && HandleLoginVerify(env, s, op.loginToken, op.credential, op.drawn, op.now).1.Granted?
    ensures var user := HandleLoginVerify(env, s, op.loginToken, op.credential, op.drawn, op.now).1.username;
            var challenge := C.Consume(s.challenges, "login:" + op.loginToken, op.now).1;
            challenge.Some? && Answers(env, s, op, user, challenge.value)
  {
    assert OwnerOf(s.users, op.credential.value.id).value in s.users;
  }

  lemma {:induction false} SecondConsumes(env: Env, s: State, op: Op)
    requires op.SecondVerify? && HandleSecondVerify(env, s, op.pendingToken, op.credential, op.drawn, op.now).1.Granted?
    ensures var user := HandleSecondVerify(env, s, op.pendingToken, op.credential, op.drawn, op.now).1.username;
            var challenge := C.Consume(s.challenges, "login2fa:" + user, op.now).1;
            && PendingUser(s.pending, op.pendingToken, op.now) == Some(user)
            && challenge.Some? && Answers(env, s, op, user, challenge.value)
  {
    var user := PendingUser(s.pending, op.pendingToken, op.now).value;
    assert Lookup(s.users, user).value in s.users;
  }

  /**
   Behind every login with a passkey is a challenge: the last one issued for its ceremony, at most two minutes earlier,
   not consumed in between, and answered by a passkey of that user.
   */
  lemma {:induction false} PasskeyLoginsAnswerAChallenge(env: Env, require: bool, ops: seq<Op>, j: nat)
    requires j < |ops| && PasskeyLogin(ops[j]) && ReplyTo(env, Fresh(require), ops, j).Granted?
    ensures var user := ReplyTo(env, Fresh(require), ops, j).username;
            exists i: nat, challenge ::
              && ConsumedAt(env, Fresh(require), ops, Ceremony(ops[j], user), challenge, j)
              && ServedFrom(env, Fresh(require), ops, Ceremony(ops[j], user), challenge, i, j)
              && Answers(env, Before(env, Fresh(require), ops, j), ops[j], user, challenge)
  {
    var s, user := Before(env, Fresh(require), ops, j), ReplyTo(env, Fresh(require), ops, j).username;
    PasskeyConsumes(env, s, ops[j]);
    var key := Ceremony(ops[j], user);
    var challenge := C.Consume(s.challenges, key, ops[j].now).1.value;
    ConsumedWasIssued(env, require, ops, key, challenge, j);
    var i: nat :| ServedFrom(env, Fresh(require), ops, key, challenge, i, j);
  }
}
