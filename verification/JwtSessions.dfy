/**
 The miner's JWT session table and revocation table. Instants are integer
 nanoseconds; the claims of a token carry whole seconds, as section 4.1.4 of
 RFC 7519 has them. A token is its claims; whether its signature holds is a
 parameter. The wall clock is assumed never to go back.
 */
module JwtSessions {
  import opened Basics

  const SECOND: int := 1_000_000_000
  const DAY: int := 24 * 3600 * SECOND
  const MIN_SECRET: nat := 32

  type SessionId = string
  type TokenId = nat

  datatype Claims = Claims(
    sub: string, iss: string, aud: string, exp: int, iat: int, nbf: int, jti: TokenId,
    sessionId: SessionId, permissions: seq<string>)

  /** Whom a token is for, what it allows, and the address it was asked from. */
  datatype Grant = Grant(hotkey: string, permissions: seq<string>, ip: Option<string>)

  datatype Session = Session(grant: Grant, tokenId: TokenId, createdAt: int, expiresAt: int, lastActivity: int)

  datatype Settings = Settings(issuer: string, audience: string, lifetime: int)

  /** The revocation table maps a token id to the expiry instant the revoker named. */
  datatype Tables = Tables(sessions: map<SessionId, Session>, revoked: map<TokenId, int>)

  datatype Error = BadSignature | Expired | Immature | WrongIssuer | WrongAudience | TokenRevoked | SessionNotFound

  // ----- The service's operations on its tables -----

  function ClaimsFor(cfg: Settings, g: Grant, sid: SessionId, jti: TokenId, now: int): Claims {
    Claims(g.hotkey, cfg.issuer, cfg.audience, (now + cfg.lifetime) / SECOND, now / SECOND, now / SECOND, jti,
           sid, g.permissions)
  }

  function Generate(cfg: Settings, t: Tables, g: Grant, sid: SessionId, jti: TokenId, now: int): Tables {
    t.(sessions := t.sessions[sid := Session(g, jti, now, now + cfg.lifetime, now)])
  }

  /** The verdict on a signed token; the clock is compared in whole seconds, with no leeway. */
  function Check(cfg: Settings, t: Tables, c: Claims, now: int): Result<Claims, Error> {
    if c.exp < now / SECOND then Failure(Expired)
    else if c.nbf > now / SECOND then Failure(Immature)
    else if c.iss != cfg.issuer then Failure(WrongIssuer)
    else if c.aud != cfg.audience then Failure(WrongAudience)
    else if c.jti in t.revoked then Failure(TokenRevoked)
    else if c.sessionId !in t.sessions then Failure(SessionNotFound)
    else Success(c)
  }

  function Touch(t: Tables, sid: SessionId, now: int): Tables {
    if sid in t.sessions
    then t.(sessions := t.sessions[sid := t.sessions[sid].(lastActivity := now)])
    else t
  }

  function RevokeToken(t: Tables, jti: TokenId, expiresAt: int): Tables {
    t.(revoked := t.revoked[jti := expiresAt])
  }

  function RevokeSession(t: Tables, sid: SessionId): Tables {
    if sid in t.sessions
    then Tables(t.sessions - {sid}, t.revoked[t.sessions[sid].tokenId := t.sessions[sid].expiresAt])
    else t
  }

  /** Expired sessions are revoked one after the other, then entries a day past expiry are dropped. */
  function Retire(t: Tables, ids: seq<SessionId>): Tables
    decreases |ids|
  {
    if ids == [] then t else Retire(RevokeSession(t, ids[0]), ids[1..])
  }

  function DropOld(t: Tables, now: int): Tables {
    t.(revoked := map j | j in t.revoked && t.revoked[j] + DAY > now :: t.revoked[j])
  }

  /** `ids` lists the expired sessions in the order the table yields them. */
  ghost predicate ListsExpired(t: Tables, ids: seq<SessionId>, now: int) {
    forall sid :: sid in ids <==> sid in t.sessions && t.sessions[sid].expiresAt < now
  }

  function Cleanup(t: Tables, ids: seq<SessionId>, now: int): Tables {
    DropOld(Retire(t, ids), now)
  }

  /** An expired session that holds this token. */
  predicate HoldsExpired(t: Tables, sid: SessionId, jti: TokenId, now: int) {
    sid in t.sessions && t.sessions[sid].expiresAt < now && t.sessions[sid].tokenId == jti
  }

  /** The expiry comes from an expired session that holds the token, or was there and no such session is. */
  ghost predicate Justified(t: Tables, jti: TokenId, expiresAt: int, now: int) {
    || (exists sid :: HoldsExpired(t, sid, jti, now) && expiresAt == t.sessions[sid].expiresAt)
    || (jti in t.revoked && expiresAt == t.revoked[jti] && forall sid :: !HoldsExpired(t, sid, jti, now))
  }

  /**
   What a cleanup leaves: the sessions that have not expired, as they were; and
   for every token a justified revocation, unless one is a day past its expiry.
   */
  ghost predicate IsCleaned(t: Tables, t': Tables, now: int) {
    && t'.sessions == (map sid | sid in t.sessions && t.sessions[sid].expiresAt >= now :: t.sessions[sid])
    && (forall j :: j in t'.revoked ==> t'.revoked[j] + DAY > now && Justified(t, j, t'.revoked[j], now))
    && (forall j, e :: Justified(t, j, e, now) && j !in t'.revoked ==>
          exists e' :: Justified(t, j, e', now) && e' + DAY <= now)
  }

  /** A listed session that holds this token. */
  predicate Holder(t: Tables, ids: seq<SessionId>, sid: SessionId, jti: TokenId) {
    sid in ids && sid in t.sessions && t.sessions[sid].tokenId == jti
  }

  /** Retiring the listed sessions removes them, and revokes a token as one of those that hold it says. */
  lemma {:induction false} RetiredSessions(t: Tables, ids: seq<SessionId>)
    ensures Retire(t, ids).sessions == map sid | sid in t.sessions && sid !in ids :: t.sessions[sid]
    decreases |ids|
  {
    if ids == [] {
    } else {
      RetiredSessions(RevokeSession(t, ids[0]), ids[1..]);
      assert ids == [ids[0]] + ids[1..];
    }
  }

  lemma {:induction false} RetiredToken(t: Tables, ids: seq<SessionId>, jti: TokenId) returns (from: Option<SessionId>)
    ensures from.None? <==> forall sid :: !Holder(t, ids, sid, jti)
    ensures from.None? ==> (jti in Retire(t, ids).revoked <==> jti in t.revoked)
    ensures from.None? && jti in t.revoked ==> Retire(t, ids).revoked[jti] == t.revoked[jti]
    ensures from.Some? ==> Holder(t, ids, from.value, jti) && jti in Retire(t, ids).revoked
    ensures from.Some? ==> Retire(t, ids).revoked[jti] == t.sessions[from.value].expiresAt
    decreases |ids|
  {
    if ids == [] {
      from := None;
    } else {
      var t1 := RevokeSession(t, ids[0]);
      assert ids == [ids[0]] + ids[1..];
      from := RetiredToken(t1, ids[1..], jti);
      assert forall sid :: Holder(t1, ids[1..], sid, jti) ==> Holder(t, ids, sid, jti);
      assert forall sid :: Holder(t, ids, sid, jti) && sid != ids[0] ==> Holder(t1, ids[1..], sid, jti);
      if from.None? && Holder(t, ids, ids[0], jti) {
        from := Some(ids[0]);
      }
    }
  }

  lemma RetiredIsJustified(t: Tables, ids: seq<SessionId>, now: int, jti: TokenId)
    requires ListsExpired(t, ids, now)
    ensures var revoked := Retire(t, ids).revoked;
            && (jti in revoked ==> Justified(t, jti, revoked[jti], now))
            && (forall e :: Justified(t, jti, e, now) ==> jti in revoked)
  {
    var from := RetiredToken(t, ids, jti);
    hide Retire;
    assert forall sid :: Holder(t, ids, sid, jti) <==> HoldsExpired(t, sid, jti, now);
    if from.Some? {
      assert HoldsExpired(t, from.value, jti, now);
    }
  }

  lemma CleanupIsCleaned(t: Tables, ids: seq<SessionId>, now: int)
    requires ListsExpired(t, ids, now)
    ensures IsCleaned(t, Cleanup(t, ids, now), now)
  {
    var (retired, t') := (Retire(t, ids), Cleanup(t, ids, now));
    hide Retire, Justified;
    RetiredSessions(t, ids);
    forall j | j in t'.revoked
      ensures t'.revoked[j] + DAY > now && Justified(t, j, t'.revoked[j], now)
    {
      RetiredIsJustified(t, ids, now, j);
    }
    forall j, e | Justified(t, j, e, now) && j !in t'.revoked
      ensures exists e' :: Justified(t, j, e', now) && e' + DAY <= now
    {
      RetiredIsJustified(t, ids, now, j);
      assert Justified(t, j, retired.revoked[j], now);
    }
  }

  class JwtAuthService {
    var sessions: map<SessionId, Session>
    var revokedTokens: map<TokenId, int>
    const cfg: Settings

    constructor (cfg: Settings)
      ensures Contents() == Tables(map[], map[]) && this.cfg == cfg
    {
      sessions, revokedTokens := map[], map[];
      this.cfg := cfg;
    }

    /** A secret of less than 32 bytes is refused. */
    static method Create(secret: seq<bv8>, cfg: Settings) returns (service: Option<JwtAuthService>)
      ensures service.Some? <==> |secret| >= MIN_SECRET
      ensures service.Some? ==> service.value.Contents() == Tables(map[], map[]) && service.value.cfg == cfg
    {
      if |secret| < MIN_SECRET {
        return None;
      }
      var s := new JwtAuthService(cfg);
      return Some(s);
    }

    function Contents(): Tables
      reads this
    {
      Tables(sessions, revokedTokens)
    }

    method GenerateToken(g: Grant, sid: SessionId, jti: TokenId, now: int) returns (c: Claims)
      modifies this
      ensures c == ClaimsFor(cfg, g, sid, jti, now)
      ensures Contents() == Generate(cfg, old(Contents()), g, sid, jti, now)
      ensures c.sub == g.hotkey && c.permissions == g.permissions && c.jti == jti && c.sessionId == sid
      ensures c.iss == cfg.issuer && c.aud == cfg.audience && c.iat == c.nbf
      ensures c.exp * SECOND <= now + cfg.lifetime < (c.exp + 1) * SECOND && c.nbf * SECOND <= now < (c.nbf + 1) * SECOND
      ensures sessions == old(sessions)[sid := Session(g, jti, now, now + cfg.lifetime, now)]
      ensures revokedTokens == old(revokedTokens)
    {
      var expiresAt := now + cfg.lifetime;
      c := Claims(g.hotkey, cfg.issuer, cfg.audience, expiresAt / SECOND, now / SECOND, now / SECOND, jti,
                  sid, g.permissions);
      sessions := sessions[sid := Session(g, jti, now, expiresAt, now)];
    }

    method ValidateToken(c: Claims, signed: bool, now: int, touchedAt: int) returns (r: Result<Claims, Error>)
      modifies this
      ensures r == if signed then Check(cfg, old(Contents()), c, now) else Failure(BadSignature)
      ensures Contents() == if r.Success? then Touch(old(Contents()), c.sessionId, touchedAt) else old(Contents())
      ensures r.Success? <==>
              && signed && c.nbf * SECOND <= now < (c.exp + 1) * SECOND && c.iss == cfg.issuer && c.aud == cfg.audience
              && c.jti !in old(revokedTokens) && c.sessionId in old(sessions)
      ensures r.Success? ==> r.value == c
      ensures r.Success? ==>
                sessions == old(sessions)[c.sessionId := old(sessions)[c.sessionId].(lastActivity := touchedAt)]
      ensures revokedTokens == old(revokedTokens)
    {
      if !signed {
        return Failure(BadSignature);
      }
      if c.exp < now / SECOND {
        return Failure(Expired);
      }
      if c.nbf > now / SECOND {
        return Failure(Immature);
      }
      if c.iss != cfg.issuer {
        return Failure(WrongIssuer);
      }
      if c.aud != cfg.audience {
        return Failure(WrongAudience);
      }
      if c.jti in revokedTokens {
        return Failure(TokenRevoked);
      }
      if c.sessionId !in sessions {
        return Failure(SessionNotFound);
      }
      sessions := sessions[c.sessionId := sessions[c.sessionId].(lastActivity := touchedAt)];
      return Success(c);
    }

    method RevokeOne(jti: TokenId, expiresAt: int)
      modifies this
      ensures Contents() == RevokeToken(old(Contents()), jti, expiresAt)
      ensures sessions == old(sessions) && revokedTokens == old(revokedTokens)[jti := expiresAt]
    {
      revokedTokens := revokedTokens[jti := expiresAt];
    }

    method RevokeBySession(sid: SessionId) returns (r: Result<(), Error>)
      modifies this
      ensures Contents() == RevokeSession(old(Contents()), sid)
      ensures r == if sid in old(sessions) then Success(()) else Failure(SessionNotFound)
      ensures sessions == old(sessions) - {sid}
      ensures revokedTokens == if sid !in old(sessions) then old(revokedTokens)
                               else old(revokedTokens)[old(sessions)[sid].tokenId := old(sessions)[sid].expiresAt]
    {
      if sid !in sessions {
        return Failure(SessionNotFound);
      }
      var session := sessions[sid];
      sessions := sessions - {sid};
      revokedTokens := revokedTokens[session.tokenId := session.expiresAt];
      return Success(());
    }

    /** Collects the expired sessions in the table's own order, retires them, then drops old revocations. */
    method CleanupExpired(now: int) returns (ids: seq<SessionId>)
      modifies this
      ensures ListsExpired(old(Contents()), ids, now)
      ensures Contents() == Cleanup(old(Contents()), ids, now)
      ensures IsCleaned(old(Contents()), Contents(), now)
    {
      ids := [];
      var left := set sid | sid in sessions && sessions[sid].expiresAt < now;
      while left != {}
        invariant forall sid :: sid in ids || sid in left <==> sid in sessions && sessions[sid].expiresAt < now
        invariant unchanged(this)
        decreases left
      {
        var sid :| sid in left;
        left := left - {sid};
        ids := ids + [sid];
      }
      var k := 0;
      while k < |ids|
        invariant 0 <= k <= |ids|
        invariant Retire(Contents(), ids[k..]) == Retire(old(Contents()), ids)
      {
        assert ids[k..][1..] == ids[k + 1..];
        if ids[k] in sessions {
          var session := sessions[ids[k]];
          sessions := sessions - {ids[k]};
          revokedTokens := revokedTokens[session.tokenId := session.expiresAt];
        }
        k := k + 1;
      }
      revokedTokens := map j | j in revokedTokens && revokedTokens[j] + DAY > now :: revokedTokens[j];
      CleanupIsCleaned(old(Contents()), ids, now);
    }
  }

  // ----- Runs -----

  /** A token with the instant it expires at, of which its `exp` claim is the whole seconds, and what it was granted for. */
  datatype Issued = Issued(claims: Claims, expiresAt: int, grant: Grant)

  /** `issued` is the history of generated tokens. */
  datatype State = State(cfg: Settings, clock: int, tables: Tables, issued: seq<Issued>)

  function Init(cfg: Settings, clock: int): State {
    State(cfg, clock, Tables(map[], map[]), [])
  }

  datatype Step =
    | Tick(elapsed: nat)
    | GenerateStep(grant: Grant, sid: SessionId, jti: TokenId)
    | ValidateStep(claims: Claims, signed: bool)
    | RevokeTokenStep(jti: TokenId, expiresAt: int)
    | RevokeSessionStep(sid: SessionId)
    | CleanupStep(ids: seq<SessionId>)

  function Next(s: State, step: Step): State {
    match step
    case Tick(elapsed) => s.(clock := s.clock + elapsed)
    case GenerateStep(g, sid, jti) =>
      s.(tables := Generate(s.cfg, s.tables, g, sid, jti, s.clock),
         issued := s.issued + [Issued(ClaimsFor(s.cfg, g, sid, jti, s.clock), s.clock + s.cfg.lifetime, g)])
    case ValidateStep(c, signed) =>
      if signed && Check(s.cfg, s.tables, c, s.clock).Success? then s.(tables := Touch(s.tables, c.sessionId, s.clock)) else s
    case RevokeTokenStep(jti, e) => s.(tables := RevokeToken(s.tables, jti, e))
    case RevokeSessionStep(sid) => s.(tables := RevokeSession(s.tables, sid))
    case CleanupStep(ids) => s.(tables := Cleanup(s.tables, ids, s.clock))
  }

  predicate FreshToken(s: State, jti: TokenId) {
    jti !in s.tables.revoked && forall k :: 0 <= k < |s.issued| ==> s.issued[k].claims.jti != jti
  }

  /** Token ids are never reused, and a cleanup collects exactly the expired sessions. */
  ghost predicate Allowed(s: State, step: Step) {
    match step
    case GenerateStep(_, _, jti) => FreshToken(s, jti)
    case CleanupStep(ids) => ListsExpired(s.tables, ids, s.clock)
    case _ => true
  }

  /** The token fails the expiry check from this instant on. */
  function DeadFrom(tok: Issued): int {
    (tok.claims.exp + 1) * SECOND
  }

  /** Revoking with this expiry keeps the entry until the token is dead by itself. */
  predicate Covers(expiresAt: int, tok: Issued) {
    expiresAt + DAY >= DeadFrom(tok)
  }

  /** Whoever names the token in `revoke_token` passes an expiry that covers it. */
  predicate Respects(step: Step, tok: Issued) {
    step.RevokeTokenStep? && step.jti == tok.claims.jti ==> Covers(step.expiresAt, tok)
  }

  function Run(s: State, steps: seq<Step>): State
    decreases |steps|
  {
    if steps == [] then s else Run(Next(s, steps[0]), steps[1..])
  }

  ghost predicate AllowedSteps(s: State, steps: seq<Step>)
    decreases |steps|
  {
    steps == [] || (Allowed(s, steps[0]) && AllowedSteps(Next(s, steps[0]), steps[1..]))
  }

  ghost predicate AllowedRun(s: State, steps: seq<Step>, tok: Issued)
    decreases |steps|
  {
    steps == [] || (Allowed(s, steps[0]) && Respects(steps[0], tok) && AllowedRun(Next(s, steps[0]), steps[1..], tok))
  }

  predicate Validates(s: State, tok: Issued) {
    Check(s.cfg, s.tables, tok.claims, s.clock).Success?
  }

  predicate SessionOf(session: Session, sid: SessionId, tok: Issued) {
    && session.tokenId == tok.claims.jti
    && session.expiresAt == tok.expiresAt
    && sid == tok.claims.sessionId
    && session.grant == tok.grant
  }

  /** A session holds the token it was created with, and every token's `exp` is its expiry in whole seconds. */
  ghost predicate Consistent(s: State) {
    && (forall k :: 0 <= k < |s.issued| ==>
          && s.issued[k].claims.exp == s.issued[k].expiresAt / SECOND
          && s.issued[k].claims.nbf * SECOND <= s.clock
          && s.issued[k].claims.iss == s.cfg.issuer && s.issued[k].claims.aud == s.cfg.audience
          && s.issued[k].claims.sub == s.issued[k].grant.hotkey
          && s.issued[k].claims.permissions == s.issued[k].grant.permissions)
    && (forall sid :: sid in s.tables.sessions ==>
          exists k :: 0 <= k < |s.issued| && SessionOf(s.tables.sessions[sid], sid, s.issued[k]))
    && (forall i, j :: 0 <= i < j < |s.issued| ==> s.issued[i].claims.jti != s.issued[j].claims.jti)
  }

  /** The token can never pass again: its revocation outlives it, or its time is up. */
  predicate Dead(s: State, tok: Issued) {
    || (tok.claims.jti in s.tables.revoked && Covers(s.tables.revoked[tok.claims.jti], tok))
    || s.clock >= DeadFrom(tok)
  }

  lemma OwnExpiryCovers(tok: Issued)
    requires tok.claims.exp == tok.expiresAt / SECOND
    ensures Covers(tok.expiresAt, tok)
  {
  }

  lemma SecondsMonotone(a: int, b: int)
    requires a <= b
    ensures a / SECOND <= b / SECOND
  {
  }

  lemma DeadDoesNotValidate(s: State, tok: Issued)
    requires Dead(s, tok)
    ensures !Validates(s, tok)
  {
    if s.clock >= DeadFrom(tok) {
      SecondsMonotone(DeadFrom(tok), s.clock);
    }
  }

  // ----- One step keeps the tables consistent -----

  lemma {:induction false} RetireConsistent(s: State, ids: seq<SessionId>)
    requires Consistent(s)
    ensures Consistent(s.(tables := Retire(s.tables, ids)))
    decreases |ids|
  {
    if ids == [] {
    } else {
      RetireConsistent(s.(tables := RevokeSession(s.tables, ids[0])), ids[1..]);
    }
  }

  lemma GenerateKeeps(s: State, step: Step)
    requires Consistent(s) && step.GenerateStep? && Allowed(s, step)
    ensures Consistent(Next(s, step))
  {
    var s' := Next(s, step);
    forall sid | sid in s'.tables.sessions
      ensures exists k :: 0 <= k < |s'.issued| && SessionOf(s'.tables.sessions[sid], sid, s'.issued[k])
    {
      if sid == step.sid {
        assert SessionOf(s'.tables.sessions[sid], sid, s'.issued[|s.issued|]);
      } else {
        var k :| 0 <= k < |s.issued| && SessionOf(s.tables.sessions[sid], sid, s.issued[k]);
        assert SessionOf(s'.tables.sessions[sid], sid, s'.issued[k]);
      }
    }
  }

  lemma TouchKeeps(s: State, sid: SessionId)
    requires Consistent(s)
    ensures Consistent(s.(tables := Touch(s.tables, sid, s.clock)))
  {
    var t := Touch(s.tables, sid, s.clock);
    forall x | x in t.sessions
      ensures exists k :: 0 <= k < |s.issued| && SessionOf(t.sessions[x], x, s.issued[k])
    {
      var k :| 0 <= k < |s.issued| && SessionOf(s.tables.sessions[x], x, s.issued[k]);
      assert SessionOf(t.sessions[x], x, s.issued[k]);
    }
  }

  lemma StepConsistent(s: State, step: Step)
    requires Consistent(s) && Allowed(s, step)
    ensures Consistent(Next(s, step))
  {
    match step
    case GenerateStep(_, _, _) => GenerateKeeps(s, step);
    case ValidateStep(c, _) => TouchKeeps(s, c.sessionId);
    case CleanupStep(ids) => RetireConsistent(s, ids);
    case _ =>
  }

  /** So every reachable state is consistent. */
  lemma {:induction false} RunConsistent(s: State, steps: seq<Step>)
    requires Consistent(s) && AllowedSteps(s, steps)
    ensures Consistent(Run(s, steps))
    decreases |steps|
  {
    if steps == [] {
    } else {
      StepConsistent(s, steps[0]);
      RunConsistent(Next(s, steps[0]), steps[1..]);
    }
  }

  lemma GrantsAreKept(s: State, tok: Issued, sid: SessionId)
    requires Consistent(s) && tok in s.issued
    ensures tok.claims.sub == tok.grant.hotkey && tok.claims.permissions == tok.grant.permissions
    ensures sid in s.tables.sessions && s.tables.sessions[sid].tokenId == tok.claims.jti ==>
              s.tables.sessions[sid].grant == tok.grant
  {
    var i :| 0 <= i < |s.issued| && s.issued[i] == tok;
    if sid in s.tables.sessions && s.tables.sessions[sid].tokenId == tok.claims.jti {
      var k :| 0 <= k < |s.issued| && SessionOf(s.tables.sessions[sid], sid, s.issued[k]);
      assert k == i;
    }
  }

  /**
   In every run a token that validates gives back the hotkey and permissions it
   was granted for, and every session stores the grant of the token it holds.
   */
  lemma TokensCarryTheirGrant(s: State, steps: seq<Step>, tok: Issued, sid: SessionId)
    requires Consistent(s) && AllowedSteps(s, steps) && tok in Run(s, steps).issued
    ensures var s' := Run(s, steps);
            var r := Check(s'.cfg, s'.tables, tok.claims, s'.clock);
            && (r.Success? ==> r.value.sub == tok.grant.hotkey && r.value.permissions == tok.grant.permissions)
            && (sid in s'.tables.sessions && s'.tables.sessions[sid].tokenId == tok.claims.jti ==>
                s'.tables.sessions[sid].grant == tok.grant)
  {
    hide Run;
    RunConsistent(s, steps);
    GrantsAreKept(Run(s, steps), tok, sid);
  }

  // ----- A dead token stays dead -----

  lemma RevokeSessionKeepsDead(s: State, sid: SessionId, tok: Issued)
    requires Consistent(s) && tok in s.issued && Dead(s, tok)
    ensures Dead(s.(tables := RevokeSession(s.tables, sid)), tok)
  {
    if sid in s.tables.sessions {
      var k :| 0 <= k < |s.issued| && SessionOf(s.tables.sessions[sid], sid, s.issued[k]);
      OwnExpiryCovers(s.issued[k]);
    }
  }

  lemma {:induction false} RetireKeepsDead(s: State, ids: seq<SessionId>, tok: Issued)
    requires Consistent(s) && tok in s.issued && Dead(s, tok)
    ensures Dead(s.(tables := Retire(s.tables, ids)), tok)
    decreases |ids|
  {
    if ids == [] {
    } else {
      RevokeSessionKeepsDead(s, ids[0], tok);
      RetireKeepsDead(s.(tables := RevokeSession(s.tables, ids[0])), ids[1..], tok);
    }
  }

  lemma StepKeepsDead(s: State, step: Step, tok: Issued)
    requires Consistent(s) && tok in s.issued && Allowed(s, step) && Dead(s, tok) && Respects(step, tok)
    ensures Dead(Next(s, step), tok)
  {
    match step
    case RevokeSessionStep(sid) => RevokeSessionKeepsDead(s, sid, tok);
    case CleanupStep(ids) => RetireKeepsDead(s, ids, tok);
    case _ =>
  }

  /** Revocation is permanent: in every later run a dead token never validates. */
  lemma {:induction false} DeadForever(s: State, steps: seq<Step>, tok: Issued)
    requires Consistent(s) && tok in s.issued && Dead(s, tok) && AllowedRun(s, steps, tok)
    ensures Dead(Run(s, steps), tok) && !Validates(Run(s, steps), tok)
    decreases |steps|
  {
    if steps == [] {
      DeadDoesNotValidate(s, tok);
    } else {
      StepConsistent(s, steps[0]);
      StepKeepsDead(s, steps[0], tok);
      DeadForever(Next(s, steps[0]), steps[1..], tok);
    }
  }

  /** Revoking the session whose token this is kills the token, reissues of the session id notwithstanding. */
  lemma RevokedSessionNeverReturns(s: State, sid: SessionId, tok: Issued, steps: seq<Step>)
    requires Consistent(s) && tok in s.issued
    requires sid in s.tables.sessions && s.tables.sessions[sid].tokenId == tok.claims.jti
    requires AllowedRun(Next(s, RevokeSessionStep(sid)), steps, tok)
    ensures !Validates(Run(Next(s, RevokeSessionStep(sid)), steps), tok)
  {
    StepConsistent(s, RevokeSessionStep(sid));
    var k :| 0 <= k < |s.issued| && SessionOf(s.tables.sessions[sid], sid, s.issued[k]);
    assert s.issued[k] == tok;
    OwnExpiryCovers(tok);
    DeadForever(Next(s, RevokeSessionStep(sid)), steps, tok);
  }

  // ----- Exactly when `revoke_token` is permanent -----

  ghost predicate NeverAgain(s: State, tok: Issued) {
    forall steps: seq<Step> :: AllowedRun(s, steps, tok) ==> !Validates(Run(s, steps), tok)
  }

  function MaxId(ids: seq<TokenId>): (m: TokenId)
    ensures forall k :: 0 <= k < |ids| ==> ids[k] <= m
  {
    if ids == [] then 0 else Max(ids[|ids| - 1], MaxId(ids[..|ids| - 1]))
  }

  ghost function MaxKey(ids: set<TokenId>): (m: TokenId)
    ensures forall j :: j in ids ==> j <= m
  {
    if ids == {} then 0
    else
      var j :| j in ids;
      assert forall i :: i in ids ==> i == j || i in ids - {j};
      Max(j, MaxKey(ids - {j}))
  }

  lemma SomeFreshToken(s: State) returns (jti: TokenId)
    ensures FreshToken(s, jti)
  {
    var ids := seq(|s.issued|, k requires 0 <= k < |s.issued| => s.issued[k].claims.jti);
    jti := Max(MaxId(ids), MaxKey(s.tables.revoked.Keys)) + 1;
    forall k | 0 <= k < |s.issued|
      ensures s.issued[k].claims.jti != jti
    {
      assert ids[k] <= MaxId(ids);
    }
  }

  ghost function SeqOfSet(ids: set<SessionId>): (r: seq<SessionId>)
    ensures forall x :: x in r <==> x in ids
  {
    if ids == {} then [] else var x :| x in ids; [x] + SeqOfSet(ids - {x})
  }

  ghost function ExpiredIds(t: Tables, now: int): (ids: seq<SessionId>)
    ensures ListsExpired(t, ids, now)
  {
    SeqOfSet(set sid | sid in t.sessions && t.sessions[sid].expiresAt < now)
  }

  lemma {:induction false} RetireSpares(t: Tables, ids: seq<SessionId>, jti: TokenId)
    requires forall x :: x in t.sessions ==> t.sessions[x].tokenId != jti
    ensures var t' := Retire(t, ids);
            && (jti in t'.revoked <==> jti in t.revoked)
            && (jti in t'.revoked ==> t'.revoked[jti] == t.revoked[jti])
    decreases |ids|
  {
    if ids == [] {
    } else {
      RetireSpares(RevokeSession(t, ids[0]), ids[1..], jti);
    }
  }

  /** A run may go on with one more step. */
  lemma {:induction false} RunLonger(s: State, steps: seq<Step>, step: Step, tok: Issued)
    requires AllowedRun(s, steps, tok) && Allowed(Run(s, steps), step) && Respects(step, tok)
    ensures AllowedRun(s, steps + [step], tok) && Run(s, steps + [step]) == Next(Run(s, steps), step)
    decreases |steps|
  {
    var all := steps + [step];
    if steps == [] {
      assert all[1..] == [] && all[0] == step;
      assert Run(Next(s, step), all[1..]) == Next(s, step);
    } else {
      assert all[1..] == steps[1..] + [step] && all[0] == steps[0];
      RunLonger(Next(s, steps[0]), steps[1..], step, tok);
    }
  }

  /**
   The run that brings a token back once its revocation entry can be dropped
   while it is still valid: its session id is reissued, so that the cleanup
   cannot revoke the token again, and reissued once more, in case the cleanup
   removed the first reissue.
   */
  lemma ShortRevocationLapses(s: State, tok: Issued, expiresAt: int)
    requires Consistent(s) && tok in s.issued
    requires !Covers(expiresAt, tok) && s.clock < DeadFrom(tok)
    ensures !NeverAgain(Next(s, RevokeTokenStep(tok.claims.jti, expiresAt)), tok)
  {
    hide Retire, SeqOfSet, ExpiredIds;
    var jti, sid := tok.claims.jti, tok.claims.sessionId;
    var s0 := Next(s, RevokeTokenStep(jti, expiresAt));
    var tick := Tick(Max(0, expiresAt + DAY - s.clock));
    RunLonger(s0, [], tick, tok);
    var s1 := Next(s0, tick);
    var newId := SomeFreshToken(s1);
    var gen := GenerateStep(Grant("", [], None), sid, newId);
    RunLonger(s0, [] + [tick], gen, tok);
    var s2 := Next(s1, gen);
    forall x | x in s2.tables.sessions
      ensures s2.tables.sessions[x].tokenId != jti
    {
      if x != sid {
        var k :| 0 <= k < |s1.issued| && SessionOf(s1.tables.sessions[x], x, s1.issued[k]);
      }
    }
    var clean := CleanupStep(ExpiredIds(s2.tables, s2.clock));
    RunLonger(s0, [] + [tick] + [gen], clean, tok);
    RetireSpares(s2.tables, clean.ids, jti);
    var s3 := Next(s2, clean);
    assert jti !in s3.tables.revoked;
    var lastId := SomeFreshToken(s3);
    var again := GenerateStep(Grant("", [], None), sid, lastId);
    RunLonger(s0, [] + [tick] + [gen] + [clean], again, tok);
    assert Validates(Next(s3, again), tok);
  }

  /** `revoke_token` is permanent just when the expiry it is given covers the token, or the token is dead anyway. */
  lemma RevokeTokenPermanentExactly(s: State, tok: Issued, expiresAt: int)
    requires Consistent(s) && tok in s.issued
    ensures NeverAgain(Next(s, RevokeTokenStep(tok.claims.jti, expiresAt)), tok)
            <==> Covers(expiresAt, tok) || s.clock >= DeadFrom(tok)
  {
    var s0 := Next(s, RevokeTokenStep(tok.claims.jti, expiresAt));
    if Covers(expiresAt, tok) || s.clock >= DeadFrom(tok) {
      forall steps: seq<Step> | AllowedRun(s0, steps, tok)
        ensures !Validates(Run(s0, steps), tok)
      {
        DeadForever(s0, steps, tok);
      }
    } else {
      ShortRevocationLapses(s, tok, expiresAt);
    }
  }

  // ----- No token is lost track of -----

  predicate Live(s: State, tok: Issued) {
    tok.claims.sessionId in s.tables.sessions && s.tables.sessions[tok.claims.sessionId].tokenId == tok.claims.jti
  }

  /** The token belongs to a live session, or is revoked for its own lifetime, or expired a day ago. */
  predicate Accounted(s: State, tok: Issued) {
    || Live(s, tok)
    || (tok.claims.jti in s.tables.revoked && s.tables.revoked[tok.claims.jti] == tok.expiresAt)
    || s.clock >= tok.expiresAt + DAY
  }

  ghost predicate AllAccounted(s: State) {
    forall k :: 0 <= k < |s.issued| ==> Accounted(s, s.issued[k])
  }

  /** The token this session holds needs the session no longer. */
  predicate Settled(s: State, session: Session) {
    || (session.tokenId in s.tables.revoked && s.tables.revoked[session.tokenId] == session.expiresAt)
    || s.clock >= session.expiresAt + DAY
  }

  /** Only a settled session is replaced, and whoever revokes a token without a session names its own expiry. */
  ghost predicate Careful(s: State, step: Step) {
    match step
    case GenerateStep(_, sid, _) => sid in s.tables.sessions ==> Settled(s, s.tables.sessions[sid])
    case RevokeTokenStep(jti, e) =>
      forall k :: 0 <= k < |s.issued| && s.issued[k].claims.jti == jti ==>
        e == s.issued[k].expiresAt || Live(s, s.issued[k]) || s.clock >= s.issued[k].expiresAt + DAY
    case _ => true
  }

  lemma RevokeSessionAccounts(s: State, sid: SessionId, tok: Issued)
    requires Consistent(s) && tok in s.issued && Accounted(s, tok)
    ensures Accounted(s.(tables := RevokeSession(s.tables, sid)), tok)
  {
    if sid in s.tables.sessions {
      var k :| 0 <= k < |s.issued| && SessionOf(s.tables.sessions[sid], sid, s.issued[k]);
    }
  }

  lemma {:induction false} RetireAccounts(s: State, ids: seq<SessionId>, tok: Issued)
    requires Consistent(s) && tok in s.issued && Accounted(s, tok)
    ensures Accounted(s.(tables := Retire(s.tables, ids)), tok)
    decreases |ids|
  {
    if ids == [] {
    } else {
      RevokeSessionAccounts(s, ids[0], tok);
      RetireAccounts(s.(tables := RevokeSession(s.tables, ids[0])), ids[1..], tok);
    }
  }

  /** A generated token replaces its session's. */
  lemma GenerateAccounts(s: State, step: Step, tok: Issued)
    requires Consistent(s) && tok in s.issued && Accounted(s, tok)
    requires step.GenerateStep? && Allowed(s, step) && Careful(s, step)
    ensures Accounted(Next(s, step), tok)
  {
    if step.sid == tok.claims.sessionId && Live(s, tok) {
      var k :| 0 <= k < |s.issued| && SessionOf(s.tables.sessions[step.sid], step.sid, s.issued[k]);
      assert s.issued[k] == tok;
    }
  }

  lemma StepAccounts(s: State, step: Step, tok: Issued)
    requires Consistent(s) && tok in s.issued && Accounted(s, tok) && Allowed(s, step) && Careful(s, step)
    ensures Accounted(Next(s, step), tok)
  {
    match step
    case GenerateStep(_, _, _) => GenerateAccounts(s, step, tok);
    case RevokeSessionStep(sid) => RevokeSessionAccounts(s, sid, tok);
    case CleanupStep(ids) => RetireAccounts(s, ids, tok);
    case _ =>
  }

  /** A step that is not careful loses track of a token. */
  lemma CarelessStepLoses(s: State, step: Step)
    requires Consistent(s) && AllAccounted(s) && Allowed(s, step) && !Careful(s, step)
    ensures !AllAccounted(Next(s, step))
  {
    var s' := Next(s, step);
    var k: nat;
    if step.GenerateStep? {
      k :| 0 <= k < |s.issued| && SessionOf(s.tables.sessions[step.sid], step.sid, s.issued[k]);
    } else {
      k :| 0 <= k < |s.issued| && s.issued[k].claims.jti == step.jti
           && step.expiresAt != s.issued[k].expiresAt && !Live(s, s.issued[k])
           && s.clock < s.issued[k].expiresAt + DAY;
    }
    assert s'.issued[k] == s.issued[k];
    assert !Accounted(s', s'.issued[k]);
  }

  lemma StepAccountsExactly(s: State, step: Step)
    requires Consistent(s) && AllAccounted(s) && Allowed(s, step)
    ensures AllAccounted(Next(s, step)) <==> Careful(s, step)
  {
    var s' := Next(s, step);
    if Careful(s, step) {
      forall k | 0 <= k < |s'.issued|
        ensures Accounted(s', s'.issued[k])
      {
        if k < |s.issued| {
          StepAccounts(s, step, s.issued[k]);
        }
      }
    } else {
      CarelessStepLoses(s, step);
    }
  }

  ghost predicate AlwaysAccounted(s: State, steps: seq<Step>)
    decreases |steps|
  {
    AllAccounted(s) && (steps == [] || AlwaysAccounted(Next(s, steps[0]), steps[1..]))
  }

  ghost predicate CarefulRun(s: State, steps: seq<Step>)
    decreases |steps|
  {
    steps == [] || (Careful(s, steps[0]) && CarefulRun(Next(s, steps[0]), steps[1..]))
  }

  /** Over every run, no token is ever lost track of if and only if every step is careful. */
  lemma {:induction false} AccountedExactlyWhenCareful(s: State, steps: seq<Step>)
    requires Consistent(s) && AllAccounted(s) && AllowedSteps(s, steps)
    ensures AlwaysAccounted(s, steps) <==> CarefulRun(s, steps)
    decreases |steps|
  {
    if steps == [] {
    } else {
      StepConsistent(s, steps[0]);
      StepAccountsExactly(s, steps[0]);
      if Careful(s, steps[0]) {
        AccountedExactlyWhenCareful(Next(s, steps[0]), steps[1..]);
      }
    }
  }

  /** Two tokens for one session id: the first is neither live nor revoked while it is still valid. */
  lemma ReissueLosesTrack(cfg: Settings, clock: int, g: Grant, sid: SessionId)
    requires cfg.lifetime + DAY > 0
    ensures var steps := [GenerateStep(g, sid, 0), GenerateStep(g, sid, 1)];
            AllowedSteps(Init(cfg, clock), steps) && !AlwaysAccounted(Init(cfg, clock), steps)
  {
    var s0 := Init(cfg, clock);
    var (a, b) := (GenerateStep(g, sid, 0), GenerateStep(g, sid, 1));
    var s1 := Next(s0, a);
    assert [a, b][1..] == [b] && [b][1..] == [];
    assert Accounted(s1, s1.issued[0]) && !Careful(s1, b);
    assert AllowedSteps(s1, [b]);
    CarelessStepLoses(s1, b);
    assert !AlwaysAccounted(s1, [b]);
  }

  /** Session ids are not reused. */
  ghost predicate FreshSession(s: State, step: Step) {
    step.GenerateStep? ==> forall k :: 0 <= k < |s.issued| ==> s.issued[k].claims.sessionId != step.sid
  }

  /** Revokers pass a token's own expiry. */
  ghost predicate Truthful(s: State, step: Step) {
    step.RevokeTokenStep? ==>
      forall k :: 0 <= k < |s.issued| && s.issued[k].claims.jti == step.jti ==> s.issued[k].expiresAt == step.expiresAt
  }

  ghost predicate FreshRun(s: State, steps: seq<Step>)
    decreases |steps|
  {
    steps == [] || (Allowed(s, steps[0]) && FreshSession(s, steps[0]) && FreshRun(Next(s, steps[0]), steps[1..]))
  }

  ghost predicate TruthfulRun(s: State, steps: seq<Step>)
    decreases |steps|
  {
    steps == [] || (Truthful(s, steps[0]) && TruthfulRun(Next(s, steps[0]), steps[1..]))
  }

  /** With fresh session ids and truthful revokers each issued token stays accounted for. */
  lemma {:induction false} EveryTokenAccounted(s: State, steps: seq<Step>)
    requires Consistent(s) && AllAccounted(s) && FreshRun(s, steps) && TruthfulRun(s, steps)
    ensures Consistent(Run(s, steps)) && AllAccounted(Run(s, steps))
    decreases |steps|
  {
    if steps == [] {
    } else {
      StepConsistent(s, steps[0]);
      StepAccountsExactly(s, steps[0]);
      EveryTokenAccounted(Next(s, steps[0]), steps[1..]);
    }
  }

  ghost predicate SessionsApart(s: State) {
    forall i, j :: 0 <= i < j < |s.issued| ==> s.issued[i].claims.sessionId != s.issued[j].claims.sessionId
  }

  lemma ValidatesWhenLive(s: State, tok: Issued)
    requires Consistent(s) && SessionsApart(s) && tok in s.issued
    ensures Validates(s, tok) <==> Live(s, tok) && tok.claims.jti !in s.tables.revoked && s.clock < DeadFrom(tok)
  {
    var i :| 0 <= i < |s.issued| && s.issued[i] == tok;
    assert tok.claims.nbf * SECOND <= s.clock;
    if tok.claims.sessionId in s.tables.sessions {
      var sid := tok.claims.sessionId;
      var k :| 0 <= k < |s.issued| && SessionOf(s.tables.sessions[sid], sid, s.issued[k]);
      assert k == i;
    }
  }

  /** With fresh session ids a token validates exactly while its session lives, it is not revoked and its time is not up. */
  lemma {:induction false} RunsValidateExactly(s: State, steps: seq<Step>, tok: Issued)
    requires Consistent(s) && SessionsApart(s) && FreshRun(s, steps) && tok in Run(s, steps).issued
    ensures var s' := Run(s, steps);
            Validates(s', tok) <==> Live(s', tok) && tok.claims.jti !in s'.tables.revoked && s'.clock < DeadFrom(tok)
    decreases |steps|
  {
    if steps == [] {
      ValidatesWhenLive(s, tok);
    } else {
      StepConsistent(s, steps[0]);
      RunsValidateExactly(Next(s, steps[0]), steps[1..], tok);
    }
  }
}
