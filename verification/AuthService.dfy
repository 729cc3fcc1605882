/**
 * Login, refresh and logout on top of the cached token repository. Identifiers are fresh, and a call is atomic.
 *
 * The token service is an oracle: a refresh token is known by its identifier, it is authentic exactly when it was
 * issued, and it is refused from its exp claim on (section 4.1.4 of RFC 7519). Stored expiry and claim coincide.
 */
module AuthServices {
  import opened Options
  import opened TokenRepositories

  /** What a signed refresh token says; `lineage` names the login from which it descends. */
  datatype Claims = Claims(user: UserId, exp: Time, lineage: nat)

  /**
   * `issued` are the refresh tokens ever signed, `used` all identifiers ever seen, `gone` the identifiers whose
   * deletion by a call of this service succeeded, `logins` the number of logins so far.
   */
  datatype Session = Session(
    repo: Repo,
    issued: map<Uuid, Claims>,
    used: set<Uuid>,
    goneAccess: set<Uuid>,
    goneRefresh: set<Uuid>,
    logins: nat)

  const NO_SESSION := Session(EMPTY_REPO, map[], {}, {}, {}, 0)

  /** The outcome of GenerateTokens and the answers of the collection while the new pair is stored. */
  datatype Grant = Grant(accessUuid: Uuid, refreshUuid: Uuid, accessExp: Time, refreshExp: Time,
                         storeAccess: Reply, storeRefresh: Reply, undo: Reply)

  datatype Error = BadCredentials | TokenExpired | TokenInvalid | DatabaseFailure | UnknownUser | SigningFailed

  datatype Answer = Granted(accessUuid: Uuid, refreshUuid: Uuid) | Refused(error: Error)

  predicate FreshGrant(s: Session, g: Grant) {
    g.accessUuid !in s.used && g.refreshUuid !in s.used && g.accessUuid != g.refreshUuid
  }

  /** Stores a new pair; `cleanUp` is what both callers do when only the second store fails. */
  function StorePair(r: Repo, user: UserId, g: Grant): (Repo, bool) {
    var r1 := StoreToken(r, Access, g.accessUuid, Item(user, g.accessExp), g.storeAccess);
    if !Inserts(r.rows, g.accessUuid, g.storeAccess) then (r1, false)
    else
      var r2 := StoreToken(r1, Refresh, g.refreshUuid, Item(user, g.refreshExp), g.storeRefresh);
      if !Inserts(r1.rows, g.refreshUuid, g.storeRefresh) then (DeleteToken(r2, Access, g.accessUuid, g.undo), false)
      else (r2, true)
  }

  function Issue(s: Session, user: UserId, lineage: nat, g: Grant): Session {
    s.(issued := s.issued[g.refreshUuid := Claims(user, g.refreshExp, lineage)],
       used := s.used + {g.accessUuid, g.refreshUuid})
  }

  function LoginTo(s: Session, credentialsOk: bool, signs: bool, user: UserId, g: Grant): (Session, Answer) {
    if !credentialsOk then (s, Refused(BadCredentials))
    else if !signs then (s, Refused(SigningFailed))
    else
      var (r, ok) := StorePair(s.repo, user, g);
      (Issue(s, user, s.logins, g).(logins := s.logins + 1, repo := r),
       if ok then Granted(g.accessUuid, g.refreshUuid) else Refused(DatabaseFailure))
  }

  function VerdictError(v: Verdict): Error {
    match v
    case Expired => TokenExpired
    case DatabaseError => DatabaseFailure
    case _ => TokenInvalid
  }

  /** Everything RefreshToken checks before it deletes the prior token. */
  function CheckPrior(s: Session, prior: Uuid, now: Time, found: bool, userKnown: bool): (Session, Option<Error>) {
    if prior !in s.issued then (s, Some(TokenInvalid))
    else if now >= s.issued[prior].exp then (s, Some(TokenExpired))
    else
      var (r, verdict) := ValidateToken(s.repo, Refresh, prior, now, found);
      (s.(repo := r),
       if !verdict.Accepted? then Some(VerdictError(verdict))
       else if verdict.user != s.issued[prior].user then Some(TokenInvalid)
       else if !userKnown then Some(UnknownUser)
       else None)
  }

  /** Deletes the prior token and, if the collection confirms that, stores a new pair of the same lineage. */
  function Rotate(s: Session, prior: Uuid, deletion: Reply, signs: bool, g: Grant): (Session, Answer)
    requires prior in s.issued
  {
    var claims := s.issued[prior];
    var s1 := s.(repo := DeleteToken(s.repo, Refresh, prior, deletion));
    if !deletion.Ok? then (s1, Refused(DatabaseFailure))
    else
      var s2 := s1.(goneRefresh := s1.goneRefresh + {prior});
      if !signs then (s2, Refused(SigningFailed))
      else
        var (r, ok) := StorePair(s2.repo, claims.user, g);
        (Issue(s2, claims.user, claims.lineage, g).(repo := r),
         if ok then Granted(g.accessUuid, g.refreshUuid) else Refused(DatabaseFailure))
  }

  function RefreshWith(s: Session, prior: Uuid, now: Time, found: bool, userKnown: bool, deletion: Reply, signs: bool,
                       g: Grant)
    : (Session, Answer)
  {
    var (s1, error) := CheckPrior(s, prior, now, found, userKnown);
    if error.Some? then (s1, Refused(error.value)) else Rotate(s1, prior, deletion, signs, g)
  }

  function LogoutFrom(s: Session, access: Uuid, deletion: Reply): Session {
    s.(repo := DeleteToken(s.repo, Access, access, deletion),
       used := s.used + {access},
       goneAccess := if deletion.Ok? then s.goneAccess + {access} else s.goneAccess)
  }

  // ----- What a repository holds -----

  /** An item stored for an identifier, in the cache or in the collection. */
  predicate Holds(r: Repo, kind: Kind, u: Uuid, item: Item) {
    || (u in CacheOf(r, kind) && CacheOf(r, kind)[u] == item)
    || (HasRow(r.rows, kind, u) && r.rows[u].item == item)
  }

  ghost predicate Shrinks(r: Repo, r': Repo) {
    forall k, u, item :: Holds(r', k, u, item) ==> Holds(r, k, u, item)
  }

  lemma StoreHolds(r: Repo, kind: Kind, u: Uuid, item: Item, reply: Reply)
    ensures forall k, v, i :: Holds(StoreToken(r, kind, u, item, reply), k, v, i) ==>
              Holds(r, k, v, i) || (k == kind && v == u && i == item)
  {
  }

  lemma DeleteHolds(r: Repo, kind: Kind, u: Uuid, reply: Reply)
    ensures Shrinks(r, DeleteToken(r, kind, u, reply))
    ensures reply.Ok? ==> forall i :: !Holds(DeleteToken(r, kind, u, reply), kind, u, i)
  {
  }

  lemma ValidateHolds(r: Repo, kind: Kind, u: Uuid, now: Time, found: bool)
    ensures Shrinks(r, ValidateToken(r, kind, u, now, found).0)
    ensures var verdict := ValidateToken(r, kind, u, now, found).1;
            verdict.Accepted? ==> exists i :: Holds(r, kind, u, i) && i.user == verdict.user && now <= i.expiresAt
  {
    var cache := CacheOf(r, kind);
    if u in cache && now <= cache[u].expiresAt {
      assert Holds(r, kind, u, cache[u]);
    } else if HasRow(r.rows, kind, u) {
      assert Holds(r, kind, u, r.rows[u].item);
    }
  }

  lemma BackgroundHolds(w: World, e: Event)
    requires !e.Store? && !e.Delete?
    ensures Shrinks(w.repo, Apply(w, e).repo)
  {
    if e.Validate? {
      ValidateHolds(w.repo, e.kind, e.uuid, w.now, e.found);
    }
  }

  lemma PairHolds(r: Repo, user: UserId, g: Grant)
    ensures forall k, v, i :: Holds(StorePair(r, user, g).0, k, v, i) ==>
              || Holds(r, k, v, i)
              || (k == Access && v == g.accessUuid)
              || (k == Refresh && v == g.refreshUuid && i == Item(user, g.refreshExp))
  {
    var r1 := StoreToken(r, Access, g.accessUuid, Item(user, g.accessExp), g.storeAccess);
    StoreHolds(r, Access, g.accessUuid, Item(user, g.accessExp), g.storeAccess);
    StoreHolds(r1, Refresh, g.refreshUuid, Item(user, g.refreshExp), g.storeRefresh);
    DeleteHolds(StoreToken(r1, Refresh, g.refreshUuid, Item(user, g.refreshExp), g.storeRefresh), Access, g.accessUuid,
                g.undo);
  }

  // ----- The invariant -----

  /** Whatever is stored carries a used identifier, and a stored refresh token says what its claims say. */
  ghost predicate StoredAreIssued(s: Session) {
    && s.issued.Keys <= s.used && s.goneAccess <= s.used && s.goneRefresh <= s.used
    && (forall u :: u in s.issued ==> s.issued[u].lineage < s.logins)
    && (forall k, u, i :: Holds(s.repo, k, u, i) ==> u in s.used)
    && (forall u, i :: Holds(s.repo, Refresh, u, i) ==> u in s.issued && i == Item(s.issued[u].user, s.issued[u].exp))
  }

  ghost predicate GoneAreGone(s: Session) {
    && (forall u, i :: u in s.goneAccess ==> !Holds(s.repo, Access, u, i))
    && (forall u, i :: u in s.goneRefresh ==> !Holds(s.repo, Refresh, u, i))
  }

  /** At most one refresh token of a lineage is stored. */
  ghost predicate OnePerLineage(s: Session) {
    forall u, v, i, j
      | Holds(s.repo, Refresh, u, i) && Holds(s.repo, Refresh, v, j) && u in s.issued && v in s.issued ::
      s.issued[u].lineage == s.issued[v].lineage ==> u == v
  }

  ghost predicate SessionInvariant(s: Session) {
    StoredAreIssued(s) && GoneAreGone(s) && OnePerLineage(s)
  }

  lemma ShrinkKeepsInvariant(s: Session, r: Repo)
    requires SessionInvariant(s) && Shrinks(s.repo, r)
    ensures SessionInvariant(s.(repo := r))
  {
  }

  /** Storing a fresh pair is safe when nothing of its lineage is stored. */
  lemma PairKeepsInvariant(s: Session, user: UserId, lineage: nat, logins: nat, g: Grant)
    requires SessionInvariant(s) && FreshGrant(s, g) && lineage < logins && s.logins <= logins
    requires forall u, i :: Holds(s.repo, Refresh, u, i) && u in s.issued ==> s.issued[u].lineage != lineage
    ensures SessionInvariant(Issue(s, user, lineage, g).(logins := logins, repo := StorePair(s.repo, user, g).0))
  {
    PairHolds(s.repo, user, g);
  }

  lemma LoginKeepsInvariant(s: Session, credentialsOk: bool, signs: bool, user: UserId, g: Grant)
    requires SessionInvariant(s) && FreshGrant(s, g)
    ensures SessionInvariant(LoginTo(s, credentialsOk, signs, user, g).0)
  {
    PairKeepsInvariant(s, user, s.logins, s.logins + 1, g);
  }

  lemma RotateKeepsInvariant(s: Session, prior: Uuid, item: Item, deletion: Reply, signs: bool, g: Grant)
    requires SessionInvariant(s) && FreshGrant(s, g) && prior in s.issued && Holds(s.repo, Refresh, prior, item)
    ensures SessionInvariant(Rotate(s, prior, deletion, signs, g).0)
  {
    DeleteHolds(s.repo, Refresh, prior, deletion);
    var r := DeleteToken(s.repo, Refresh, prior, deletion);
    ShrinkKeepsInvariant(s, r);
    if deletion.Ok? {
      var s2 := s.(repo := r, goneRefresh := s.goneRefresh + {prior});
      assert SessionInvariant(s2);
      PairKeepsInvariant(s2, s.issued[prior].user, s.issued[prior].lineage, s.logins, g);
    }
  }

  lemma RefreshKeepsInvariant(s: Session, prior: Uuid, now: Time, found: bool, userKnown: bool, deletion: Reply,
                              signs: bool, g: Grant)
    requires SessionInvariant(s) && FreshGrant(s, g)
    ensures SessionInvariant(RefreshWith(s, prior, now, found, userKnown, deletion, signs, g).0)
  {
    var (s1, error) := CheckPrior(s, prior, now, found, userKnown);
    ValidateHolds(s.repo, Refresh, prior, now, found);
    ShrinkKeepsInvariant(s, s1.repo);
    if error.None? {
      ValidateStays(s.repo, Refresh, prior, now, found);
      var item :| Holds(s1.repo, Refresh, prior, item);
      RotateKeepsInvariant(s1, prior, item, deletion, signs, g);
    }
  }

  lemma ValidateStays(r: Repo, kind: Kind, u: Uuid, now: Time, found: bool)
    requires ValidateToken(r, kind, u, now, found).1.Accepted?
    ensures exists i :: Holds(ValidateToken(r, kind, u, now, found).0, kind, u, i)
  {
    var r' := ValidateToken(r, kind, u, now, found).0;
    assert Holds(r', kind, u, CacheOf(r', kind)[u]);
  }

  lemma LogoutKeepsInvariant(s: Session, access: Uuid, deletion: Reply)
    requires SessionInvariant(s)
    ensures SessionInvariant(LogoutFrom(s, access, deletion))
  {
    DeleteHolds(s.repo, Access, access, deletion);
    ShrinkKeepsInvariant(s, DeleteToken(s.repo, Access, access, deletion));
  }

  // ----- Runs -----

  datatype Call =
    | Login(credentialsOk: bool, signs: bool, user: UserId, grant: Grant)
    | Renew(prior: Uuid, found: bool, userKnown: bool, deletion: Reply, signs: bool, grant: Grant)
    | Logout(access: Uuid, deletion: Reply)
    | Background(event: Event)

  datatype System = System(session: Session, now: Time)

  /**
   * New identifiers are fresh; besides this service, tokens are only validated, cleaned up or deleted by user, and the
   * process can be restarted at any time.
   */
  predicate Allowed(y: System, c: Call) {
    match c
    case Login(_, _, _, g) => FreshGrant(y.session, g)
    case Renew(_, _, _, _, _, g) => FreshGrant(y.session, g)
    case Logout(_, _) => true
    case Background(e) => !e.Store? && !e.Delete?
  }

  function Perform(y: System, c: Call): System {
    match c
    case Login(ok, signs, user, g) => y.(session := LoginTo(y.session, ok, signs, user, g).0)
    case Renew(prior, found, known, deletion, signs, g) =>
      y.(session := RefreshWith(y.session, prior, y.now, found, known, deletion, signs, g).0)
    case Logout(access, deletion) => y.(session := LogoutFrom(y.session, access, deletion))
    case Background(e) =>
      var w := Apply(World(y.session.repo, y.now), e);
      System(y.session.(repo := w.repo), w.now)
  }

  predicate AllowedRun(y: System, cs: seq<Call>)
    decreases |cs|
  {
    cs == [] || (Allowed(y, cs[0]) && AllowedRun(Perform(y, cs[0]), cs[1..]))
  }

  function Finally(y: System, cs: seq<Call>): System
    decreases |cs|
  {
    if cs == [] then y else Finally(Perform(y, cs[0]), cs[1..])
  }

  lemma PerformKeepsInvariant(y: System, c: Call)
    requires SessionInvariant(y.session) && Allowed(y, c)
    ensures SessionInvariant(Perform(y, c).session)
  {
    match c
    case Login(ok, signs, user, g) => LoginKeepsInvariant(y.session, ok, signs, user, g);
    case Renew(prior, found, known, deletion, signs, g) =>
      RefreshKeepsInvariant(y.session, prior, y.now, found, known, deletion, signs, g);
    case Logout(access, deletion) => LogoutKeepsInvariant(y.session, access, deletion);
    case Background(e) =>
      BackgroundHolds(World(y.session.repo, y.now), e);
      ShrinkKeepsInvariant(y.session, Perform(y, c).session.repo);
  }

  lemma {:induction false} RunKeepsInvariant(y: System, cs: seq<Call>)
    requires SessionInvariant(y.session) && AllowedRun(y, cs)
    ensures SessionInvariant(Finally(y, cs).session)
    decreases |cs|
  {
    if cs != [] {
      PerformKeepsInvariant(y, cs[0]);
      RunKeepsInvariant(Perform(y, cs[0]), cs[1..]);
    }
  }

  // ----- What holds in every run -----

  /** The service would accept refresh token `u` now, if the collection answers and the user exists. */
  predicate Acceptable(y: System, u: Uuid) {
    CheckPrior(y.session, u, y.now, true, true).1.None?
  }

  lemma ReachableInvariant(start: Time, cs: seq<Call>)
    requires AllowedRun(System(NO_SESSION, start), cs)
    ensures SessionInvariant(Finally(System(NO_SESSION, start), cs).session)
  {
    RunKeepsInvariant(System(NO_SESSION, start), cs);
  }

  /** A login and the refreshes that descend from it have at most one acceptable refresh token at any time. */
  lemma OneLiveTokenPerLineage(start: Time, cs: seq<Call>, u: Uuid, v: Uuid)
    requires AllowedRun(System(NO_SESSION, start), cs)
    requires var y := Finally(System(NO_SESSION, start), cs);
             && Acceptable(y, u) && Acceptable(y, v)
             && y.session.issued[u].lineage == y.session.issued[v].lineage
    ensures u == v
  {
    ReachableInvariant(start, cs);
    var y := Finally(System(NO_SESSION, start), cs);
    ValidateHolds(y.session.repo, Refresh, u, y.now, true);
    ValidateHolds(y.session.repo, Refresh, v, y.now, true);
  }

  /** No refresh token is accepted at or after its exp claim, and the stored user is always the claimed one. */
  lemma AcceptedWithinClaims(start: Time, cs: seq<Call>, u: Uuid, found: bool)
    requires AllowedRun(System(NO_SESSION, start), cs)
    ensures var y := Finally(System(NO_SESSION, start), cs);
            var verdict := ValidateToken(y.session.repo, Refresh, u, y.now, found).1;
            && (Acceptable(y, u) ==> y.now < y.session.issued[u].exp)
            && (verdict.Accepted? ==> u in y.session.issued && verdict.user == y.session.issued[u].user)
  {
    ReachableInvariant(start, cs);
    var y := Finally(System(NO_SESSION, start), cs);
    ValidateHolds(y.session.repo, Refresh, u, y.now, found);
  }

  lemma {:induction false} GoneStaysGone(y: System, cs: seq<Call>)
    requires AllowedRun(y, cs)
    ensures y.session.goneRefresh <= Finally(y, cs).session.goneRefresh
    ensures y.session.goneAccess <= Finally(y, cs).session.goneAccess
    decreases |cs|
  {
    if cs != [] {
      GoneStaysGone(Perform(y, cs[0]), cs[1..]);
    }
  }

  /**
   * A refresh token consumed once is refused for ever, whatever happens in between and whatever the collection answers.
   */
  lemma ConsumedIsRefused(start: Time, before: seq<Call>, between: seq<Call>, u: Uuid,
                          found: bool, userKnown: bool, deletion: Reply, signs: bool, g: Grant)
    requires AllowedRun(System(NO_SESSION, start), before)
    requires AllowedRun(Finally(System(NO_SESSION, start), before), between)
    requires u in Finally(System(NO_SESSION, start), before).session.goneRefresh
    ensures var y := Finally(Finally(System(NO_SESSION, start), before), between);
            RefreshWith(y.session, u, y.now, found, userKnown, deletion, signs, g).1.Refused?
  {
    ReachableInvariant(start, before);
    var y1 := Finally(System(NO_SESSION, start), before);
    RunKeepsInvariant(y1, between);
    GoneStaysGone(y1, between);
    var y := Finally(y1, between);
    ValidateHolds(y.session.repo, Refresh, u, y.now, found);
  }

  /** An access token whose logout succeeded is refused for ever. */
  lemma LoggedOutIsRefused(start: Time, before: seq<Call>, between: seq<Call>, u: Uuid, found: bool)
    requires AllowedRun(System(NO_SESSION, start), before)
    requires AllowedRun(Finally(System(NO_SESSION, start), before), between)
    requires u in Finally(System(NO_SESSION, start), before).session.goneAccess
    ensures var y := Finally(Finally(System(NO_SESSION, start), before), between);
            !ValidateToken(y.session.repo, Access, u, y.now, found).1.Accepted?
  {
    ReachableInvariant(start, before);
    var y1 := Finally(System(NO_SESSION, start), before);
    RunKeepsInvariant(y1, between);
    GoneStaysGone(y1, between);
    var y := Finally(y1, between);
    ValidateHolds(y.session.repo, Access, u, y.now, found);
  }

  /** A granted refresh has consumed the prior token and made the new one acceptable, in the same lineage. */
  lemma RefreshRotates(y: System, prior: Uuid, found: bool, userKnown: bool, deletion: Reply, signs: bool, g: Grant)
    requires SessionInvariant(y.session) && FreshGrant(y.session, g) && y.now < g.refreshExp
    requires RefreshWith(y.session, prior, y.now, found, userKnown, deletion, signs, g).1.Granted?
    ensures var s' := RefreshWith(y.session, prior, y.now, found, userKnown, deletion, signs, g).0;
            && prior in s'.goneRefresh && !Acceptable(System(s', y.now), prior)
            && Acceptable(System(s', y.now), g.refreshUuid)
            && s'.issued[g.refreshUuid].lineage == s'.issued[prior].lineage
            && s'.issued[g.refreshUuid].user == s'.issued[prior].user
  {
    RefreshKeepsInvariant(y.session, prior, y.now, found, userKnown, deletion, signs, g);
    var s' := RefreshWith(y.session, prior, y.now, found, userKnown, deletion, signs, g).0;
    ValidateHolds(s'.repo, Refresh, prior, y.now, true);
  }

  /** A granted login makes its refresh token acceptable and leaves every other token's acceptability alone. */
  lemma LoginStartsLineage(y: System, user: UserId, g: Grant, u: Uuid)
    requires SessionInvariant(y.session) && FreshGrant(y.session, g) && y.now < g.refreshExp
    requires LoginTo(y.session, true, true, user, g).1.Granted?
    ensures var y' := System(LoginTo(y.session, true, true, user, g).0, y.now);
            && Acceptable(y', g.refreshUuid)
            && (u != g.refreshUuid ==> (Acceptable(y', u) <==> Acceptable(y, u)))
            && y'.session.issued[g.refreshUuid] == Claims(user, g.refreshExp, y.session.logins)
  {
  }

  /** Logging out ends only the access token: every refresh token stays exactly as acceptable as it was. */
  lemma LogoutKeepsRefreshTokens(y: System, access: Uuid, deletion: Reply, u: Uuid)
    requires SessionInvariant(y.session)
    ensures Acceptable(Perform(y, Logout(access, deletion)), u) <==> Acceptable(y, u)
  {
  }

  // ----- When a login and a refresh are granted -----

  lemma FreshHasNoRow(s: Session, g: Grant)
    requires StoredAreIssued(s) && FreshGrant(s, g)
    ensures g.accessUuid !in s.repo.rows && g.refreshUuid !in s.repo.rows
    ensures g.accessUuid !in s.repo.access && g.refreshUuid !in s.repo.refresh
  {
    forall u | u in s.repo.rows
      ensures u in s.used
    {
      assert Holds(s.repo, s.repo.rows[u].kind, u, s.repo.rows[u].item);
    }
    if g.accessUuid in s.repo.access {
      assert Holds(s.repo, Access, g.accessUuid, s.repo.access[g.accessUuid]);
    }
    if g.refreshUuid in s.repo.refresh {
      assert Holds(s.repo, Refresh, g.refreshUuid, s.repo.refresh[g.refreshUuid]);
    }
  }

  /**
   * Wrong credentials or a failed signature change nothing; otherwise the login is granted exactly if both stores
   * succeed.
   */
  lemma LoginOutcome(s: Session, credentialsOk: bool, signs: bool, user: UserId, g: Grant)
    requires SessionInvariant(s) && FreshGrant(s, g)
    ensures var (s', answer) := LoginTo(s, credentialsOk, signs, user, g);
            && (!credentialsOk ==> s' == s && answer == Refused(BadCredentials))
            && (credentialsOk && !signs ==> s' == s && answer == Refused(SigningFailed))
            && (credentialsOk && signs ==>
                  answer == if g.storeAccess.Ok? && g.storeRefresh.Ok? then Granted(g.accessUuid, g.refreshUuid)
                            else Refused(DatabaseFailure))
  {
    FreshHasNoRow(s, g);
  }

  /**
   * A refresh is granted exactly if the token was issued and has not expired, the repository accepts it, its user
   * exists, its deletion is confirmed, and the new pair is signed and stored. The first of these to fail is answered.
   */
  lemma RefreshOutcome(s: Session, prior: Uuid, now: Time, found: bool, userKnown: bool, deletion: Reply, signs: bool,
                       g: Grant)
    requires SessionInvariant(s) && FreshGrant(s, g)
    ensures var answer := RefreshWith(s, prior, now, found, userKnown, deletion, signs, g).1;
            var verdict := ValidateToken(s.repo, Refresh, prior, now, found).1;
            answer == (if prior !in s.issued then Refused(TokenInvalid)
                       else if now >= s.issued[prior].exp then Refused(TokenExpired)
                       else if verdict == DatabaseError then Refused(DatabaseFailure)
                       else if verdict == Expired then Refused(TokenExpired)
                       else if verdict == Invalid then Refused(TokenInvalid)
                       else if !userKnown then Refused(UnknownUser)
                       else if !deletion.Ok? then Refused(DatabaseFailure)
                       else if !signs then Refused(SigningFailed)
                       else if !g.storeAccess.Ok? || !g.storeRefresh.Ok? then Refused(DatabaseFailure)
                       else Granted(g.accessUuid, g.refreshUuid))
  {
    FreshHasNoRow(s, g);
    ValidateHolds(s.repo, Refresh, prior, now, found);
  }

  /**
   * Before the deletion of the prior token a refused refresh costs nothing: every token stays as acceptable as it was.
   */
  lemma EarlyRefusalCostsNothing(y: System, prior: Uuid, found: bool, userKnown: bool, deletion: Reply, signs: bool,
                                 g: Grant, u: Uuid)
    requires SessionInvariant(y.session) && CheckPrior(y.session, prior, y.now, found, userKnown).1.Some?
    ensures var s' := RefreshWith(y.session, prior, y.now, found, userKnown, deletion, signs, g).0;
            Acceptable(System(s', y.now), u) <==> Acceptable(y, u)
  {
    var r := y.session.repo;
    if prior in r.refresh {
      assert Holds(r, Refresh, prior, r.refresh[prior]);
    }
    if HasRow(r.rows, Refresh, prior) {
      assert Holds(r, Refresh, prior, r.rows[prior].item);
    }
  }

  // ----- The access token of a pair -----

  /**
   * Whether the access token of a pair is stored in the end; a lost write may have arrived, a clean-up may have failed.
   */
  predicate AccessStays(g: Grant) {
    if g.storeAccess.Ok? then g.storeRefresh.Ok? || g.undo == Failed(false) else g.storeAccess.applied
  }

  /**
   * After a login the access token is valid for its user up to its expiry exactly if the login was granted, or it was
   * refused but the token is in the collection all the same. A confirmed clean-up leaves it invalid.
   */
  lemma AccessAfterLogin(s: Session, user: UserId, g: Grant, later: Time)
    requires SessionInvariant(s) && FreshGrant(s, g)
    ensures var (s', answer) := LoginTo(s, true, true, user, g);
            var verdict := ValidateToken(s'.repo, Access, g.accessUuid, later, true).1;
            && verdict == (if !AccessStays(g) then Invalid
                           else if later <= g.accessExp then Accepted(user) else Expired)
            && (answer.Granted? ==> AccessStays(g))
            && (answer.Refused? && g.storeAccess.Ok? && g.undo.Ok? ==> !AccessStays(g))
  {
    FreshHasNoRow(s, g);
  }

  /** A granted login or refresh makes the new access token valid even while the collection does not answer. */
  lemma GrantedAccessIsValid(r: Repo, user: UserId, g: Grant, later: Time, found: bool)
    requires StorePair(r, user, g).1
    ensures ValidateToken(StorePair(r, user, g).0, Access, g.accessUuid, later, found).1
         == if later <= g.accessExp then Accepted(user) else Expired
  {
  }

  /** A confirmed logout makes the access token invalid at once and records it as gone. */
  lemma LogoutRefuses(y: System, access: Uuid, found: bool)
    ensures var s' := Perform(y, Logout(access, Ok)).session;
            && access in s'.goneAccess
            && ValidateToken(s'.repo, Access, access, y.now, true).1 == Invalid
            && !ValidateToken(s'.repo, Access, access, y.now, found).1.Accepted?
  {
    DeletedIsInvalid(y.session.repo, Access, access, y.now, Access, access, found);
  }

  // ----- The object -----

  class AuthenticationService {
    const tokenRepo: MemoryCachedTokenRepository
    ghost var issued: map<Uuid, Claims>
    ghost var used: set<Uuid>
    ghost var goneAccess: set<Uuid>
    ghost var goneRefresh: set<Uuid>
    ghost var logins: nat

    ghost function View(): Session
      reads this, tokenRepo
    {
      Session(tokenRepo.View(), issued, used, goneAccess, goneRefresh, logins)
    }

    constructor ()
      ensures View() == NO_SESSION && fresh(tokenRepo)
    {
      tokenRepo := new MemoryCachedTokenRepository(map[]);
      issued, used, goneAccess, goneRefresh, logins := map[], {}, {}, {}, 0;
    }

    /** Stores a new pair; when only the second store fails, the access token is deleted again. */
    method StoreNewPair(user: UserId, now: Time, g: Grant) returns (ok: bool)
      modifies tokenRepo
      ensures (tokenRepo.View(), ok) == StorePair(old(tokenRepo.View()), user, g)
    {
      ok := tokenRepo.Store(Access, user, g.accessUuid, g.accessExp - now, now, g.storeAccess);
      if ok {
        ok := tokenRepo.Store(Refresh, user, g.refreshUuid, g.refreshExp - now, now, g.storeRefresh);
        if !ok {
          var _ := tokenRepo.Delete(Access, g.accessUuid, g.undo);
        }
      }
    }

    method Login(credentialsOk: bool, signs: bool, user: UserId, now: Time, g: Grant) returns (answer: Answer)
      modifies this, tokenRepo
      ensures (View(), answer) == LoginTo(old(View()), credentialsOk, signs, user, g)
      ensures !credentialsOk ==> answer == Refused(BadCredentials) && View() == old(View())
    {
      if !credentialsOk {
        return Refused(BadCredentials);
      }
      if !signs {
        return Refused(SigningFailed);
      }
      var ok := StoreNewPair(user, now, g);
      issued := issued[g.refreshUuid := Claims(user, g.refreshExp, logins)];
      used := used + {g.accessUuid, g.refreshUuid};
      logins := logins + 1;
      answer := if ok then Granted(g.accessUuid, g.refreshUuid) else Refused(DatabaseFailure);
    }

    /** `claims` is what the signature check yields for `prior`: nothing unless the token was issued. */
    method RefreshToken(prior: Uuid, claims: Option<Claims>, now: Time, found: bool, userKnown: bool,
                        deletion: Reply, signs: bool, g: Grant)
      returns (answer: Answer)
      requires claims == if prior in issued then Some(issued[prior]) else None
      modifies this, tokenRepo
      ensures (View(), answer) == RefreshWith(old(View()), prior, now, found, userKnown, deletion, signs, g)
    {
      if claims.None? {
        return Refused(TokenInvalid);
      }
      if now >= claims.value.exp {
        return Refused(TokenExpired);
      }
      var verdict := tokenRepo.Validate(Refresh, prior, now, found);
      if !verdict.Accepted? {
        return Refused(VerdictError(verdict));
      }
      if verdict.user != claims.value.user {
        return Refused(TokenInvalid);
      }
      if !userKnown {
        return Refused(UnknownUser);
      }
      var deleted := tokenRepo.Delete(Refresh, prior, deletion);
      if !deleted {
        return Refused(DatabaseFailure);
      }
      goneRefresh := goneRefresh + {prior};
      if !signs {
        return Refused(SigningFailed);
      }
      var ok := StoreNewPair(verdict.user, now, g);
      issued := issued[g.refreshUuid := Claims(verdict.user, g.refreshExp, issued[prior].lineage)];
      used := used + {g.accessUuid, g.refreshUuid};
      answer := if ok then Granted(g.accessUuid, g.refreshUuid) else Refused(DatabaseFailure);
    }

    method Logout(access: Uuid, deletion: Reply) returns (ok: bool)
      modifies this, tokenRepo
      ensures View() == LogoutFrom(old(View()), access, deletion) && ok == deletion.Ok?
    {
      ok := tokenRepo.Delete(Access, access, deletion);
      used := used + {access};
      if ok {
        goneAccess := goneAccess + {access};
      }
    }

    /** `claimed` is the user that an authentic access token names; every refusal of the repository reads as invalid. */
    method ValidateAccess(access: Uuid, claimed: Option<UserId>, now: Time, found: bool) returns (valid: bool)
      modifies tokenRepo
      ensures var verdict := ValidateToken(old(tokenRepo.View()), Access, access, now, found).1;
              valid <==> claimed.Some? && verdict == Accepted(claimed.value)
      ensures Shrinks(old(tokenRepo.View()), tokenRepo.View())
    {
      ValidateHolds(tokenRepo.View(), Access, access, now, found);
      if claimed.None? {
        return false;
      }
      var verdict := tokenRepo.Validate(Access, access, now, found);
      valid := verdict == Accepted(claimed.value);
    }
  }
}
