/**
  Admin sessions (api/auth.py, `AuthSessionRegistry`): sliding expiry, an absolute
  cap, and pruning that happens only when some session is created or looked up.
  The registry is compared with the full history of what was asked of it.
 */
module AuthSessions {
  /** Clock readings and the lifetime are in one unit, so a reading is a plain number. */
  datatype Session = Session(username: string, csrfToken: string, expiresAt: int, createdAt: int)

  type Sessions = map<string, Session>

  const ABSOLUTE_SESSION_LIFETIME_MULTIPLIER := 4

  /** A call; it reads the clock once to prune and once more for its own purpose. */
  datatype Call =
    | Create(token: string, username: string, csrfToken: string, pruneAt: int, at: int)
    | Get(token: string, pruneAt: int, at: int)
    | Revoke(token: string)

  predicate Expired(s: Session, now: int, lifetime: nat) {
    s.expiresAt <= now || now - s.createdAt > lifetime * ABSOLUTE_SESSION_LIFETIME_MULTIPLIER
  }

  function Pruned(m: Sessions, now: int, lifetime: nat): Sessions {
    map t | t in m && !Expired(m[t], now, lifetime) :: m[t]
  }

  function Step(m: Sessions, c: Call, lifetime: nat): Sessions {
    match c
    case Create(token, username, csrfToken, pruneAt, at) =>
      Pruned(m, pruneAt, lifetime)[token := Session(username, csrfToken, at + lifetime, at)]
    case Get(token, pruneAt, at) =>
      var left := Pruned(m, pruneAt, lifetime);
      if token in left then left[token := left[token].(expiresAt := at + lifetime)] else left
    case Revoke(token) => m - {token}
  }

  /** The registry after a history of calls. */
  function After(h: seq<Call>, lifetime: nat): Sessions {
    if h == [] then map[] else Step(After(h[..|h| - 1], lifetime), h[|h| - 1], lifetime)
  }

  // --- What the history says -----------------------------------------------

  /** The clock never runs backwards, within a call or from one to the next. */
  ghost predicate Timed(h: seq<Call>) {
    && (forall i :: 0 <= i < |h| && !h[i].Revoke? ==> h[i].pruneAt <= h[i].at)
    && (forall i, j :: 0 <= i < j < |h| && !h[i].Revoke? && !h[j].Revoke? ==> h[i].at <= h[j].pruneAt)
  }

  ghost predicate Since(h: seq<Call>, now: int) {
    forall i :: 0 <= i < |h| && !h[i].Revoke? ==> h[i].at <= now
  }

  predicate Uses(c: Call, token: string) {
    !c.Revoke? && c.token == token
  }

  /** The latest use of the token in the history lies less than a lifetime before `now`. */
  ghost predicate UsedWithin(h: seq<Call>, token: string, now: int, lifetime: nat) {
    if h == [] then false
    else
      var last := h[|h| - 1];
      if Uses(last, token) then now - last.at < lifetime else UsedWithin(h[..|h| - 1], token, now, lifetime)
  }

  /** The token was created by call `c`, and neither created again nor revoked since. */
  ghost predicate CreatedBy(h: seq<Call>, token: string, c: nat) {
    && c < |h| && h[c].Create? && h[c].token == token
    && forall k :: c < k < |h| ==> h[k] != Revoke(token) && !(h[k].Create? && h[k].token == token)
  }

  /** Every use after call `c` came within a lifetime of the use before it. */
  ghost predicate NoLongGap(h: seq<Call>, token: string, c: nat, lifetime: nat) {
    forall j :: c < j < |h| && Uses(h[j], token) ==> UsedWithin(h[..j], token, h[j].pruneAt, lifetime)
  }

  /** Created, not revoked, used often enough ever since and up to `now`, and not too old. */
  ghost predicate Active(h: seq<Call>, token: string, c: nat, now: int, lifetime: nat) {
    && CreatedBy(h, token, c)
    && NoLongGap(h, token, c, lifetime)
    && UsedWithin(h, token, now, lifetime)
    && now - h[c].at <= 4 * lifetime
  }

  // --- The registry agrees with it -----------------------------------------

  /** A session still held is the one created last; its expiry is a lifetime after its last use. */
  ghost predicate Held(h: seq<Call>, token: string, c: nat, s: Session, lifetime: nat) {
    && CreatedBy(h, token, c)
    && NoLongGap(h, token, c, lifetime)
    && s.username == h[c].username && s.csrfToken == h[c].csrfToken && s.createdAt == h[c].at
    && forall now :: UsedWithin(h, token, now, lifetime) <==> now < s.expiresAt
  }

  /** One no longer held is not active, nor will it be before it is created again. */
  ghost predicate Gone(h: seq<Call>, token: string, lifetime: nat) {
    forall c: nat, now :: Since(h, now) ==> !Active(h, token, c, now, lifetime)
  }

  /** How one further call changes what the history says about a token. */
  lemma Extended(h: seq<Call>, last: Call, token: string, c: nat, lifetime: nat)
    ensures
      var g := h + [last];
      && (forall now :: UsedWithin(g, token, now, lifetime)
            <==> if Uses(last, token) then now - last.at < lifetime else UsedWithin(h, token, now, lifetime))
      && (c < |h| ==>
            (NoLongGap(g, token, c, lifetime) <==>
             NoLongGap(h, token, c, lifetime)
             && (Uses(last, token) ==> UsedWithin(h, token, last.pruneAt, lifetime))))
      && (last != Revoke(token) && !(last.Create? && last.token == token) ==>
            (CreatedBy(g, token, c) <==> CreatedBy(h, token, c)))
  {
    var g := h + [last];
    assert g[|h|] == last && g[..|h|] == h;
    assert forall j :: 0 <= j < |h| ==> g[j] == h[j] && g[..j] == h[..j];
  }

  /** The registry's own expiry test is the history's. */
  lemma HeldIsActiveUntilExpiry(h: seq<Call>, token: string, c: nat, s: Session, now: int, lifetime: nat)
    requires Held(h, token, c, s, lifetime)
    ensures Active(h, token, c, now, lifetime) <==> !Expired(s, now, lifetime)
    ensures forall d: nat :: CreatedBy(h, token, d) ==> d == c
  {
  }

  lemma ExpiredIsGone(h: seq<Call>, token: string, c: nat, s: Session, last: Call, lifetime: nat)
    requires Held(h, token, c, s, lifetime)
    requires !last.Revoke? && (last.Create? ==> last.token != token)
    requires Expired(s, last.pruneAt, lifetime) && last.pruneAt <= last.at
    ensures Gone(h + [last], token, lifetime)
  {
    hide CreatedBy, NoLongGap, UsedWithin;
    var g := h + [last];
    assert g[|h|] == last;
    forall d: nat, now | Since(g, now) ensures !Active(g, token, d, now, lifetime) {
      HeldIsActiveUntilExpiry(h, token, c, s, last.pruneAt, lifetime);
      Extended(h, last, token, d, lifetime);
      CreatedWithin(h, token, d);
      if CreatedBy(g, token, d) {
        assert g[d] == h[d];
      }
    }
  }

  lemma CreatedWithin(h: seq<Call>, token: string, c: nat)
    ensures CreatedBy(h, token, c) ==> c < |h| && h[c].Create?
  {
  }

  lemma GoneStays(h: seq<Call>, last: Call, token: string, lifetime: nat)
    requires Timed(h + [last]) && Gone(h, token, lifetime)
    requires last.Create? ==> last.token != token
    ensures Gone(h + [last], token, lifetime)
  {
    hide NoLongGap, UsedWithin;
    var g := h + [last];
    assert g[|h|] == last && forall k :: 0 <= k < |h| ==> g[k] == h[k];
    forall d: nat, now | Since(g, now) ensures !Active(g, token, d, now, lifetime) {
      Extended(h, last, token, d, lifetime);
      assert Since(h, now) && (last.Revoke? || Since(h, last.pruneAt));
      assert !Active(h, token, d, now, lifetime) && (last.Revoke? || !Active(h, token, d, last.pruneAt, lifetime));
    }
  }

  lemma StillHeld(h: seq<Call>, last: Call, token: string, c: nat, s: Session, lifetime: nat)
    requires Held(h, token, c, s, lifetime) && last != Revoke(token)
    requires last.Create? ==> last.token != token
    requires !last.Revoke? ==> !Expired(s, last.pruneAt, lifetime)
    ensures Held(h + [last], token, c, if Uses(last, token) then s.(expiresAt := last.at + lifetime) else s, lifetime)
  {
    hide NoLongGap, UsedWithin;
    var g := h + [last];
    assert g[|h|] == last && g[c] == h[c];
    Extended(h, last, token, c, lifetime);
  }

  lemma CreatedIsHeld(h: seq<Call>, last: Call, token: string, lifetime: nat)
    requires last.Create? && last.token == token
    ensures Held(h + [last], token, |h|, Session(last.username, last.csrfToken, last.at + lifetime, last.at), lifetime)
  {
    assert (h + [last])[|h|] == last;
    Extended(h, last, token, |h|, lifetime);
  }

  lemma RevokedIsGone(h: seq<Call>, token: string, lifetime: nat)
    requires h != [] && h[|h| - 1] == Revoke(token)
    ensures Gone(h, token, lifetime)
  {
    forall c: nat ensures !CreatedBy(h, token, c) {
      assert CreatedBy(h, token, c) ==> c != |h| - 1;
    }
  }

  /** What the registry holds of a token after any history, in terms of that history. */
  lemma {:induction false} Agreement(h: seq<Call>, token: string, lifetime: nat) returns (c: nat)
    requires Timed(h)
    ensures token in After(h, lifetime) ==> Held(h, token, c, After(h, lifetime)[token], lifetime)
    ensures token !in After(h, lifetime) ==> Gone(h, token, lifetime)
    decreases |h|
  {
    hide Held, Gone;
    c := 0;
    if h == [] {
      NothingYet(token, lifetime);
    } else {
      var past, last := h[..|h| - 1], h[|h| - 1];
      assert h == past + [last] && last == h[|past|];
      c := Agreement(past, token, lifetime);
      var held := After(past, lifetime);
      if last == Revoke(token) {
        RevokedIsGone(h, token, lifetime);
      } else if last.Create? && last.token == token {
        CreatedIsHeld(past, last, token, lifetime);
        c := |past|;
      } else if token !in held {
        GoneStays(past, last, token, lifetime);
      } else if !last.Revoke? && Expired(held[token], last.pruneAt, lifetime) {
        ExpiredIsGone(past, token, c, held[token], last, lifetime);
      } else {
        StillHeld(past, last, token, c, held[token], lifetime);
      }
    }
  }

  lemma NothingYet(token: string, lifetime: nat)
    ensures Gone([], token, lifetime)
  {
  }

  /**
    Pruning only now and then changes nothing: after any history, whatever else
    was looked up in between, looking a token up succeeds if and only if it was
    created and not revoked since, no use up to this one came a lifetime or more
    after the one before, and it is at most four lifetimes old. What is found is
    the session of that creation.
   */
  lemma GetSucceedsIff(h: seq<Call>, token: string, now: int, lifetime: nat)
    requires Timed(h) && Since(h, now)
    ensures
      var left := Pruned(After(h, lifetime), now, lifetime);
      && (token in left <==> exists c: nat :: Active(h, token, c, now, lifetime))
      && (token in left ==> forall c: nat :: CreatedBy(h, token, c) ==>
            left[token].username == h[c].username && left[token].csrfToken == h[c].csrfToken)
  {
    hide CreatedBy, NoLongGap, UsedWithin;
    var c := Agreement(h, token, lifetime);
    var m := After(h, lifetime);
    if token in m {
      HeldIsActiveUntilExpiry(h, token, c, m[token], now, lifetime);
      assert forall d: nat :: Active(h, token, d, now, lifetime) ==> d == c;
    }
  }
}
