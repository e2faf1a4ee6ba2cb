/**
  The registry object of the admin panel (api/auth.py): sessions by token and
  failed logins by source. Clock readings and fresh tokens are parameters; each
  method runs under the registry's lock, so it is one step.
 */
module AuthRegistry {
  import opened Options
  import opened AuthSessions
  import Failures = LoginFailures

  datatype Outcome = Unconfigured | TooManyAttempts | InvalidCredentials | Accepted

  class AuthSessionRegistry {
    const lifetime: nat
    var sessions: Sessions
    var failures: map<string, seq<int>>

    constructor (lifetime: nat)
      ensures this.lifetime == lifetime && sessions == map[] && failures == map[]
    {
      this.lifetime := lifetime;
      sessions := map[];
      failures := map[];
    }

    /** `self._failures.get(source, [])` */
    ghost function Times(source: string): seq<int>
      reads this`failures
    {
      if source in failures then failures[source] else []
    }

    twostate predicate OtherSourcesKept(source: string)
      reads this`failures
    {
      forall s :: s != source ==> Times(s) == old(Times(s))
    }

    method Prune(now: int)
      modifies this`sessions
      ensures sessions == Pruned(old(sessions), now, lifetime)
    {
      var expired := set t | t in sessions && Expired(sessions[t], now, lifetime);
      ghost var all := expired;
      while expired != {}
        invariant expired <= all
        invariant sessions == map t | t in old(sessions) && (t !in all || t in expired) :: old(sessions)[t]
        decreases expired
      {
        var token :| token in expired;
        sessions := sessions - {token};
        expired := expired - {token};
      }
    }

    method Create(token: string, username: string, csrfToken: string, pruneAt: int, now: int)
      returns (session: Session)
      modifies this`sessions
      ensures sessions == Step(old(sessions), Call.Create(token, username, csrfToken, pruneAt, now), lifetime)
      ensures token in sessions && sessions[token] == session
      ensures !Expired(session, now, lifetime) <==> lifetime > 0
    {
      Prune(pruneAt);
      session := Session(username, csrfToken, now + lifetime, now);
      sessions := sessions[token := session];
    }

    method Get(token: string, pruneAt: int, now: int) returns (found: Option<Session>)
      modifies this`sessions
      ensures sessions == Step(old(sessions), Call.Get(token, pruneAt, now), lifetime)
      ensures found.Some? <==> token in Pruned(old(sessions), pruneAt, lifetime)
      ensures found.Some? ==> sessions[token] == found.value && found.value.expiresAt == now + lifetime
    {
      Prune(pruneAt);
      if token !in sessions {
        return None;
      }
      sessions := sessions[token := sessions[token].(expiresAt := now + lifetime)];
      found := Some(sessions[token]);
    }

    method Revoke(token: string)
      modifies this`sessions
      ensures sessions == Step(old(sessions), Call.Revoke(token), lifetime)
    {
      sessions := sessions - {token};
    }

    method LoginAllowed(source: string, now: int, limit: nat, window: nat) returns (allowed: bool)
      modifies this`failures
      ensures Times(source) == Failures.Step(old(Times(source)), Failures.Check(now), window)
      ensures allowed == Failures.Allowed(old(Times(source)), now, limit, window)
      ensures OtherSourcesKept(source)
    {
      var times := if source in failures then failures[source] else [];
      var attempts: seq<int> := [];
      for i := 0 to |times|
        invariant attempts == Failures.Kept(times[..i], now - window)
      {
        assert times[..i + 1][..i] == times[..i];
        if times[i] >= now - window {
          attempts := attempts + [times[i]];
        }
      }
      assert times[..|times|] == times;
      failures := failures[source := attempts];
      allowed := |attempts| < limit;
    }

    method RecordFailure(source: string, now: int)
      modifies this`failures
      ensures Times(source) == old(Times(source)) + [now]
      ensures OtherSourcesKept(source)
    {
      var times := if source in failures then failures[source] else [];
      failures := failures[source := times + [now]];
    }

    method ClearFailures(source: string)
      modifies this`failures
      ensures Times(source) == []
      ensures OtherSourcesKept(source)
    {
      failures := failures - {source};
    }
  }

  const LIMIT: nat := 5
  const WINDOW: nat := 300

  /**
    `authenticate_password`, with nothing in between: the order check, then record.
    Whether the credentials match is decided elsewhere.
   */
  method AuthenticatePassword(registry: AuthSessionRegistry, source: string, configured: bool, matches: bool,
                              checkAt: int, failAt: int)
    returns (outcome: Outcome)
    modifies registry`failures
    ensures outcome.Unconfigured? <==> !configured
    ensures configured ==>
              (outcome.TooManyAttempts? <==> !Failures.Allowed(old(registry.Times(source)), checkAt, LIMIT, WINDOW))
    ensures outcome.Accepted? ==> matches
    ensures outcome.InvalidCredentials? ==> !matches
    ensures
      var checked := Failures.Step(old(registry.Times(source)), Failures.Check(checkAt), WINDOW);
      registry.Times(source) == match outcome
        case Unconfigured => old(registry.Times(source))
        case TooManyAttempts => checked
        case InvalidCredentials => checked + [failAt]
        case Accepted => []
    ensures registry.OtherSourcesKept(source)
  {
    if !configured {
      return Unconfigured;
    }
    var allowed := registry.LoginAllowed(source, checkAt, LIMIT, WINDOW);
    if !allowed {
      return TooManyAttempts;
    }
    if !matches {
      registry.RecordFailure(source, failAt);
      return InvalidCredentials;
    }
    registry.ClearFailures(source);
    return Accepted;
  }
}
