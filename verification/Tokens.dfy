/**
 The short-lived stores behind a login: sessions, logins waiting for their second factor,
 and TOTP secrets waiting to be confirmed.  Nothing is looked up after it has expired, and
 expired entries are swept when a new one comes in.
 */
module Tokens {
  import opened Prelude

  const SESSION_TTL := 12 * 3600
  const PENDING_TTL := 5 * 60
  const ENROLMENT_TTL := 10 * 60

  datatype Session = Session(username: string, needsMfaSetup: bool, expiresAt: int)

  datatype Pending = Pending(username: string, expiresAt: int)

  datatype Enrolment = Enrolment(secret: string, expiresAt: int)

  // ------------------------------------------------------------------ sessions

  function LiveSessions(sessions: map<string, Session>, now: int): map<string, Session> {
    map t | t in sessions && sessions[t].expiresAt >= now :: sessions[t]
  }

  function OpenSession(sessions: map<string, Session>, token: string, username: string, needsMfaSetup: bool, now: int): map<string, Session> {
    LiveSessions(sessions, now)[token := Session(username, needsMfaSetup, now + SESSION_TTL)]
  }

  function SessionOf(sessions: map<string, Session>, token: string, now: int): Option<Session> {
    if token in sessions && sessions[token].expiresAt >= now then Some(sessions[token]) else None
  }

  function Satisfied(sessions: map<string, Session>, token: string): map<string, Session> {
    if token in sessions then sessions[token := sessions[token].(needsMfaSetup := false)] else sessions
  }

  class SessionStore {
    var sessions: map<string, Session>

    constructor ()
      ensures sessions == map[]
    {
      sessions := map[];
    }

    /** `token` is the random token drawn for it. */
    method Create(token: string, username: string, needsMfaSetup: bool, now: int)
      modifies this
      ensures sessions == OpenSession(old(sessions), token, username, needsMfaSetup, now)
    {
      SweepExpired(now);
      sessions := sessions[token := Session(username, needsMfaSetup, now + SESSION_TTL)];
    }

    method SweepExpired(now: int)
      modifies this
      ensures sessions == LiveSessions(old(sessions), now)
    {
      var rest := sessions.Keys;
      while rest != {}
        invariant sessions.Keys <= old(sessions).Keys && rest <= sessions.Keys
        invariant forall t :: t in sessions ==> sessions[t] == old(sessions)[t]
        invariant forall t :: t in old(sessions) && t !in rest ==> (t in sessions <==> old(sessions)[t].expiresAt >= now)
        decreases |rest|
      {
        var t :| t in rest;
        if now > sessions[t].expiresAt {
          sessions := sessions - {t};
        }
        rest := rest - {t};
      }
    }

    method Validate(token: string, now: int) returns (session: Option<Session>)
      ensures session == SessionOf(sessions, token, now)
    {
      if token !in sessions || now > sessions[token].expiresAt {
        return None;
      }
      return Some(sessions[token]);
    }

    method Invalidate(token: string)
      modifies this
      ensures sessions == old(sessions) - {token}
    {
      sessions := sessions - {token};
    }

    method MarkMfaSatisfied(token: string)
      modifies this
      ensures sessions == Satisfied(old(sessions), token)
    {
      if token in sessions {
        sessions := sessions[token := sessions[token].(needsMfaSetup := false)];
      }
    }
  }

  // ------------------------------------------------------------------ pending logins

  function LivePending(pending: map<string, Pending>, now: int): map<string, Pending> {
    map t | t in pending && pending[t].expiresAt >= now :: pending[t]
  }

  function OpenPending(pending: map<string, Pending>, token: string, username: string, now: int): map<string, Pending> {
    LivePending(pending, now)[token := Pending(username, now + PENDING_TTL)]
  }

  function PendingUser(pending: map<string, Pending>, token: string, now: int): Option<string> {
    if token in pending && pending[token].expiresAt >= now then Some(pending[token].username) else None
  }

  class PendingMfaStore {
    var pending: map<string, Pending>

    constructor ()
      ensures pending == map[]
    {
      pending := map[];
    }

    method Create(token: string, username: string, now: int)
      modifies this
      ensures pending == OpenPending(old(pending), token, username, now)
    {
      SweepExpired(now);
      pending := pending[token := Pending(username, now + PENDING_TTL)];
    }

    method SweepExpired(now: int)
      modifies this
      ensures pending == LivePending(old(pending), now)
    {
      var rest := pending.Keys;
      while rest != {}
        invariant pending.Keys <= old(pending).Keys && rest <= pending.Keys
        invariant forall t :: t in pending ==> pending[t] == old(pending)[t]
        invariant forall t :: t in old(pending) && t !in rest ==> (t in pending <==> old(pending)[t].expiresAt >= now)
        decreases |rest|
      {
        var t :| t in rest;
        if now > pending[t].expiresAt {
          pending := pending - {t};
        }
        rest := rest - {t};
      }
    }

    method Validate(token: string, now: int) returns (username: Option<string>)
      ensures username == PendingUser(pending, token, now)
    {
      if token !in pending || now > pending[token].expiresAt {
        return None;
      }
      return Some(pending[token].username);
    }

    method Invalidate(token: string)
      modifies this
      ensures pending == old(pending) - {token}
    {
      pending := pending - {token};
    }
  }

  // ------------------------------------------------------------------ secrets waiting to be confirmed

  function SecretFor(enrolling: map<string, Enrolment>, username: string, now: int): Option<string> {
    if username in enrolling && enrolling[username].expiresAt >= now then Some(enrolling[username].secret) else None
  }

  class PendingTotpStore {
    var enrolling: map<string, Enrolment>

    constructor ()
      ensures enrolling == map[]
    {
      enrolling := map[];
    }

    method Start(username: string, secret: string, now: int)
      modifies this
      ensures enrolling == old(enrolling)[username := Enrolment(secret, now + ENROLMENT_TTL)]
    {
      enrolling := enrolling[username := Enrolment(secret, now + ENROLMENT_TTL)];
    }

    method Find(username: string, now: int) returns (secret: Option<string>)
      ensures secret == SecretFor(enrolling, username, now)
    {
      if username !in enrolling || now > enrolling[username].expiresAt {
        return None;
      }
      return Some(enrolling[username].secret);
    }

    method Clear(username: string)
      modifies this
      ensures enrolling == old(enrolling) - {username}
    {
      enrolling := enrolling - {username};
    }
  }
}
