/**
 * The token repository: two in-memory caches written through to a collection that has a unique index on the
 * token identifier and deletes rows by itself once they have expired. Any call to the collection can fail, and a
 * failed write may still have taken effect. Times are the whole milliseconds that the collection stores.
 *
 * The access and the refresh variant of each operation differ only in the cache and the token type, which is
 * the parameter `kind` here.
 */
module TokenRepositories {

  type Uuid = string
  type UserId = string
  type Time = int

  datatype Kind = Access | Refresh

  datatype Item = Item(user: UserId, expiresAt: Time)

  datatype Row = Row(item: Item, kind: Kind)

  type Cache = map<Uuid, Item>
  type Rows = map<Uuid, Row>

  /** The answer of the collection to a write; a failed write may have been applied. */
  datatype Reply = Ok | Failed(applied: bool)

  datatype Verdict = Accepted(user: UserId) | Expired | Invalid | DatabaseError

  // ----- The collection -----

  predicate HasRow(rows: Rows, kind: Kind, u: Uuid) {
    u in rows && rows[u].kind == kind
  }

  /** InsertOne: the unique index refuses an identifier that is present, whatever its type. */
  function Insert(rows: Rows, u: Uuid, row: Row, reply: Reply): Rows {
    if u !in rows && (reply.Ok? || reply.applied) then rows[u := row] else rows
  }

  predicate Inserts(rows: Rows, u: Uuid, reply: Reply) {
    u !in rows && reply.Ok?
  }

  /** DeleteOne by identifier and type. */
  function DeleteRow(rows: Rows, kind: Kind, u: Uuid, reply: Reply): Rows {
    if HasRow(rows, kind, u) && (reply.Ok? || reply.applied) then rows - {u} else rows
  }

  function UserRows(rows: Rows, user: UserId): set<Uuid> {
    set u | u in rows && rows[u].item.user == user
  }

  /** DeleteMany by user; a failure may have removed some of the rows. */
  function DeleteUserRows(rows: Rows, user: UserId, deleted: bool, partly: set<Uuid>): Rows {
    rows - (if deleted then UserRows(rows, user) else UserRows(rows, user) * partly)
  }

  /** The collection's own deletion reaches some of the rows whose time has come. */
  function Collect(rows: Rows, now: Time, reached: set<Uuid>): Rows {
    rows - (set u | u in rows && u in reached && rows[u].item.expiresAt <= now)
  }

  /** What a repository without caches answers. */
  function Lookup(rows: Rows, kind: Kind, u: Uuid, now: Time): Verdict {
    if !HasRow(rows, kind, u) then Invalid
    else if now > rows[u].item.expiresAt then Expired
    else Accepted(rows[u].item.user)
  }

  // ----- The cached repository -----

  datatype Repo = Repo(access: Cache, refresh: Cache, rows: Rows)

  const EMPTY_REPO := Repo(map[], map[], map[])

  function CacheOf(r: Repo, kind: Kind): Cache {
    if kind == Access then r.access else r.refresh
  }

  function WithCache(r: Repo, kind: Kind, cache: Cache): Repo {
    if kind == Access then r.(access := cache) else r.(refresh := cache)
  }

  function StoreToken(r: Repo, kind: Kind, u: Uuid, item: Item, reply: Reply): Repo {
    var cache := CacheOf(r, kind);
    WithCache(r, kind, if Inserts(r.rows, u, reply) then cache[u := item] else cache - {u})
      .(rows := Insert(r.rows, u, Row(item, kind), reply))
  }

  function DeleteToken(r: Repo, kind: Kind, u: Uuid, reply: Reply): Repo {
    WithCache(r, kind, CacheOf(r, kind) - {u}).(rows := DeleteRow(r.rows, kind, u, reply))
  }

  function Evicted(cache: Cache, rows: Rows, kind: Kind, users: set<Uuid>): Cache {
    map u | u in cache && !(u in users && HasRow(rows, kind, u)) :: cache[u]
  }

  /** `listed` says whether reading the found rows succeeded: only then are they evicted from the caches. */
  function DeleteTokensOf(r: Repo, user: UserId, found: bool, listed: bool, deleted: bool, partly: set<Uuid>): Repo {
    if !found then r
    else
      var mine := UserRows(r.rows, user);
      Repo(if listed then Evicted(r.access, r.rows, Access, mine) else r.access,
           if listed then Evicted(r.refresh, r.rows, Refresh, mine) else r.refresh,
           DeleteUserRows(r.rows, user, deleted, partly))
  }

  function ValidateToken(r: Repo, kind: Kind, u: Uuid, now: Time, found: bool): (Repo, Verdict) {
    var cache := CacheOf(r, kind);
    if u in cache then
      if now > cache[u].expiresAt then (WithCache(r, kind, cache - {u}), Expired)
      else (r, Accepted(cache[u].user))
    else if !found then (r, DatabaseError)
    else
      var verdict := Lookup(r.rows, kind, u, now);
      (if verdict.Accepted? then WithCache(r, kind, cache[u := r.rows[u].item]) else r, verdict)
  }

  function Unexpired(cache: Cache, now: Time): Cache {
    map u | u in cache && now <= cache[u].expiresAt :: cache[u]
  }

  function Clean(r: Repo, now: Time): Repo {
    r.(access := Unexpired(r.access, now), refresh := Unexpired(r.refresh, now))
  }

  // ----- Coherence of a cache with the collection -----

  /** An unexpired entry has a row of its type, and where there is a row of its type it is identical. */
  predicate CacheCoherent(cache: Cache, rows: Rows, kind: Kind, now: Time) {
    forall u :: u in cache ==>
      && (now < cache[u].expiresAt ==> HasRow(rows, kind, u))
      && (HasRow(rows, kind, u) ==> rows[u].item == cache[u])
  }

  predicate Coherent(r: Repo, now: Time) {
    CacheCoherent(r.access, r.rows, Access, now) && CacheCoherent(r.refresh, r.rows, Refresh, now)
  }

  lemma StoreCoherent(r: Repo, kind: Kind, u: Uuid, item: Item, reply: Reply, now: Time)
    requires Coherent(r, now)
    ensures Coherent(StoreToken(r, kind, u, item, reply), now)
  {
    var r' := StoreToken(r, kind, u, item, reply);
    forall k, v | v in CacheOf(r', k)
      ensures now < CacheOf(r', k)[v].expiresAt ==> HasRow(r'.rows, k, v)
      ensures HasRow(r'.rows, k, v) ==> r'.rows[v].item == CacheOf(r', k)[v]
    {
      assert k == kind && v == u ==> Inserts(r.rows, u, reply);
      assert !(k == kind && v == u) ==> v in CacheOf(r, k) && CacheOf(r', k)[v] == CacheOf(r, k)[v];
    }
    assert forall v :: v in r'.access ==> v in CacheOf(r', Access);
    assert forall v :: v in r'.refresh ==> v in CacheOf(r', Refresh);
  }

  lemma DeleteCoherent(r: Repo, kind: Kind, u: Uuid, reply: Reply, now: Time)
    requires Coherent(r, now)
    ensures Coherent(DeleteToken(r, kind, u, reply), now)
  {
  }

  lemma DeleteUserCoherent(r: Repo, user: UserId, found: bool, deleted: bool, partly: set<Uuid>, now: Time)
    requires Coherent(r, now)
    ensures Coherent(DeleteTokensOf(r, user, found, true, deleted, partly), now)
  {
  }

  lemma ValidateCoherent(r: Repo, kind: Kind, u: Uuid, found: bool, now: Time)
    requires Coherent(r, now)
    ensures Coherent(ValidateToken(r, kind, u, now, found).0, now)
  {
  }

  // ----- What each call achieves -----

  /** A stored token is accepted for its user up to and including its expiry, without asking the collection. */
  lemma StoredIsAccepted(r: Repo, kind: Kind, u: Uuid, item: Item, reply: Reply, now: Time, found: bool)
    requires u !in r.rows && reply.Ok?
    ensures var (_, verdict) := ValidateToken(StoreToken(r, kind, u, item, reply), kind, u, now, found);
            verdict == if now <= item.expiresAt then Accepted(item.user) else Expired
  {
  }

  /**
   * A store that failed leaves a token only if the collection has it: a duplicate stays, a lost write can have arrived.
   */
  lemma UnstoredMeaning(r: Repo, kind: Kind, u: Uuid, item: Item, reply: Reply, now: Time)
    requires u in r.rows || !reply.Ok?
    ensures var (_, verdict) := ValidateToken(StoreToken(r, kind, u, item, reply), kind, u, now, true);
            verdict == (if u in r.rows then Lookup(r.rows, kind, u, now)
                        else if !reply.applied then Invalid
                        else if now <= item.expiresAt then Accepted(item.user) else Expired)
  {
  }

  /** A confirmed deletion makes the token invalid and touches no other token. */
  lemma DeletedIsInvalid(r: Repo, kind: Kind, u: Uuid, now: Time, kind': Kind, v: Uuid, found: bool)
    ensures var r' := DeleteToken(r, kind, u, Ok);
            && ValidateToken(r', kind, u, now, true).1 == Invalid
            && !ValidateToken(r', kind, u, now, found).1.Accepted?
            && ((kind', v) != (kind, u) ==>
                  ValidateToken(r', kind', v, now, found).1 == ValidateToken(r, kind', v, now, found).1)
  {
  }

  /** Deleting a user's tokens, with all its steps succeeding, leaves none of them valid and touches no other user's. */
  lemma DeletedUserHasNoTokens(r: Repo, user: UserId, partly: set<Uuid>, kind: Kind, u: Uuid, now: Time, found: bool)
    requires Coherent(r, now)
    ensures var r' := DeleteTokensOf(r, user, true, true, true, partly);
            && (HasRow(r.rows, kind, u) && r.rows[u].item.user == user ==>
                  ValidateToken(r', kind, u, now, true).1 == Invalid)
            && (HasRow(r.rows, kind, u) && r.rows[u].item.user != user ==>
                  ValidateToken(r', kind, u, now, found).1 == ValidateToken(r, kind, u, now, found).1)
  {
    var r' := DeleteTokensOf(r, user, true, true, true, partly);
    assert u in r'.rows <==> u in r.rows && r.rows[u].item.user != user;
  }

  /**
   * A validation that misses the cache asks the collection; what that accepts is accepted from the cache from then on.
   */
  lemma ValidationFillsCache(r: Repo, kind: Kind, u: Uuid, now: Time, later: Time, found: bool)
    requires u !in CacheOf(r, kind)
    ensures !found ==> ValidateToken(r, kind, u, now, found) == (r, DatabaseError)
    ensures var (r', verdict) := ValidateToken(r, kind, u, now, true);
            && (verdict == Invalid <==> !HasRow(r.rows, kind, u))
            && (verdict.Accepted? <==> HasRow(r.rows, kind, u) && now <= r.rows[u].item.expiresAt)
            && (verdict.Accepted? && later <= r.rows[u].item.expiresAt ==>
                  ValidateToken(r', kind, u, later, found) == (r', Accepted(r.rows[u].item.user)))
  {
  }

  /**
   * The clean-up drops exactly the entries whose time has passed, and an expired entry is dropped when it is asked for.
   */
  lemma CleaningMeaning(r: Repo, kind: Kind, u: Uuid, now: Time, found: bool)
    ensures var cache, cleaned := CacheOf(r, kind), CacheOf(Clean(r, now), kind);
            && (u in cleaned <==> u in cache && now <= cache[u].expiresAt)
            && (u in cleaned ==> cleaned[u] == cache[u])
    ensures Clean(r, now).rows == r.rows
    ensures u in CacheOf(r, kind) && now > CacheOf(r, kind)[u].expiresAt ==>
              var (r', verdict) := ValidateToken(r, kind, u, now, found);
              verdict == Expired && u !in CacheOf(r', kind) && r'.rows == r.rows
  {
  }

  // ----- Runs -----

  datatype Event =
    | Store(kind: Kind, uuid: Uuid, item: Item, reply: Reply)
    | Delete(kind: Kind, uuid: Uuid, reply: Reply)
    | DeleteUser(user: UserId, found: bool, listed: bool, deleted: bool, partly: set<Uuid>)
    | Validate(kind: Kind, uuid: Uuid, found: bool)
    | CleanCaches
    | Expire(reached: set<Uuid>)
    | Advance(elapsed: nat)
    | Restart                   // a new process starts with empty caches over the same collection

  datatype World = World(repo: Repo, now: Time)

  function Apply(w: World, e: Event): World {
    match e
    case Store(k, u, item, reply) => w.(repo := StoreToken(w.repo, k, u, item, reply))
    case Delete(k, u, reply) => w.(repo := DeleteToken(w.repo, k, u, reply))
    case DeleteUser(user, found, listed, deleted, partly) =>
      w.(repo := DeleteTokensOf(w.repo, user, found, listed, deleted, partly))
    case Validate(k, u, found) => w.(repo := ValidateToken(w.repo, k, u, w.now, found).0)
    case CleanCaches => w.(repo := Clean(w.repo, w.now))
    case Expire(reached) => w.(repo := w.repo.(rows := Collect(w.repo.rows, w.now, reached)))
    case Advance(elapsed) => w.(now := w.now + elapsed)
    case Restart => w.(repo := Repo(map[], map[], w.repo.rows))
  }

  function Run(w: World, es: seq<Event>): World {
    if es == [] then w else Apply(Run(w, es[..|es| - 1]), es[|es| - 1])
  }

  /** The same events on a repository that has only the collection. */
  datatype PlainWorld = PlainWorld(rows: Rows, now: Time)

  function PlainApply(p: PlainWorld, e: Event): PlainWorld {
    match e
    case Store(k, u, item, reply) => p.(rows := Insert(p.rows, u, Row(item, k), reply))
    case Delete(k, u, reply) => p.(rows := DeleteRow(p.rows, k, u, reply))
    case DeleteUser(user, found, _, deleted, partly) =>
      if found then p.(rows := DeleteUserRows(p.rows, user, deleted, partly)) else p
    case Expire(reached) => p.(rows := Collect(p.rows, p.now, reached))
    case Advance(elapsed) => p.(now := p.now + elapsed)
    case _ => p
  }

  function PlainRun(p: PlainWorld, es: seq<Event>): PlainWorld {
    if es == [] then p else PlainApply(PlainRun(p, es[..|es| - 1]), es[|es| - 1])
  }

  predicate ListingWorks(e: Event) {
    e.DeleteUser? && e.found ==> e.listed
  }

  lemma ApplyCoherent(w: World, e: Event)
    requires Coherent(w.repo, w.now) && ListingWorks(e)
    ensures Coherent(Apply(w, e).repo, Apply(w, e).now)
  {
    match e
    case Store(k, u, item, reply) => StoreCoherent(w.repo, k, u, item, reply, w.now);
    case Delete(k, u, reply) => DeleteCoherent(w.repo, k, u, reply, w.now);
    case DeleteUser(user, found, listed, deleted, partly) =>
      if found { DeleteUserCoherent(w.repo, user, found, deleted, partly, w.now); }
    case Validate(k, u, found) => ValidateCoherent(w.repo, k, u, found, w.now);
    case _ =>
  }

  lemma ApplyRefines(w: World, p: PlainWorld, e: Event)
    requires w.repo.rows == p.rows && w.now == p.now
    ensures Apply(w, e).repo.rows == PlainApply(p, e).rows && Apply(w, e).now == PlainApply(p, e).now
  {
  }

  lemma {:induction false} RunCoherent(es: seq<Event>, start: Time)
    requires forall e <- es :: ListingWorks(e)
    ensures var w, p := Run(World(EMPTY_REPO, start), es), PlainRun(PlainWorld(map[], start), es);
            Coherent(w.repo, w.now) && w.repo.rows == p.rows && w.now == p.now
  {
    if es != [] {
      var before, e := es[..|es| - 1], es[|es| - 1];
      RunCoherent(before, start);
      ApplyCoherent(Run(World(EMPTY_REPO, start), before), e);
      ApplyRefines(Run(World(EMPTY_REPO, start), before), PlainRun(PlainWorld(map[], start), before), e);
    }
  }

  /** The one moment at which the caches may answer differently: the row is gone, the entry expires right now. */
  predicate AtLastMoment(r: Repo, kind: Kind, u: Uuid, now: Time) {
    u in CacheOf(r, kind) && CacheOf(r, kind)[u].expiresAt == now && !HasRow(r.rows, kind, u)
  }

  /** On coherent caches, a validation that the collection answers accepts exactly what the collection alone accepts. */
  lemma ValidateAgrees(r: Repo, kind: Kind, u: Uuid, now: Time, found: bool)
    requires Coherent(r, now)
    ensures var cached, plain := ValidateToken(r, kind, u, now, found).1, Lookup(r.rows, kind, u, now);
            && (found && !AtLastMoment(r, kind, u, now) ==> forall x :: cached == Accepted(x) <==> plain == Accepted(x))
            && (AtLastMoment(r, kind, u, now) ==> cached.Accepted? && plain == Invalid)
            && (!found && cached != DatabaseError ==>
                  forall x :: cached == Accepted(x) && plain.Accepted? ==> plain == Accepted(x))
  {
  }

  /** Storing a token, waiting until it expires and letting the collection remove it leads to that moment. */
  lemma AtLastMomentReachable(start: Time, kind: Kind, u: Uuid, user: UserId, lifetime: nat)
    ensures var es := [Store(kind, u, Item(user, start + lifetime), Ok), Advance(lifetime), Expire({u})];
            && (forall e <- es :: ListingWorks(e))
            && AtLastMoment(Run(World(EMPTY_REPO, start), es).repo, kind, u, Run(World(EMPTY_REPO, start), es).now)
  {
    var stored, es := Store(kind, u, Item(user, start + lifetime), Ok), [Advance(lifetime), Expire({u})];
    var w := World(EMPTY_REPO, start);
    RunAppend(w, [], stored);
    RunAppend(w, [stored], Advance(lifetime));
    RunAppend(w, [stored] + [Advance(lifetime)], Expire({u}));
    assert [] + [stored] == [stored];
    assert [stored] + [Advance(lifetime)] + [Expire({u})] == [stored, Advance(lifetime), Expire({u})];
  }

  lemma RunAppend(w: World, es: seq<Event>, e: Event)
    ensures Run(w, es + [e]) == Apply(Run(w, es), e)
  {
    assert (es + [e])[..|es|] == es;
  }

  /**
   * After any run in which listing a user's rows works, the cached repository accepts what the cache-free one accepts.
   */
  lemma CachedRefinesPlain(es: seq<Event>, start: Time, kind: Kind, u: Uuid)
    requires forall e <- es :: ListingWorks(e)
    ensures var w, p := Run(World(EMPTY_REPO, start), es), PlainRun(PlainWorld(map[], start), es);
            !AtLastMoment(w.repo, kind, u, w.now) ==>
              forall x :: ValidateToken(w.repo, kind, u, w.now, true).1 == Accepted(x) <==>
                  Lookup(p.rows, kind, u, p.now) == Accepted(x)
  {
    RunCoherent(es, start);
    var w := Run(World(EMPTY_REPO, start), es);
    ValidateAgrees(w.repo, kind, u, w.now, true);
  }

  /** An entry that has not expired loses its row to the deletion of the user's rows. */
  predicate LosesRow(r: Repo, kind: Kind, u: Uuid, user: UserId, deleted: bool, partly: set<Uuid>, now: Time) {
    && u in CacheOf(r, kind) && now < CacheOf(r, kind)[u].expiresAt
    && HasRow(r.rows, kind, u) && r.rows[u].item.user == user && (deleted || u in partly)
  }

  ghost predicate LeavesStale(r: Repo, user: UserId, deleted: bool, partly: set<Uuid>, now: Time) {
    exists kind, u :: LosesRow(r, kind, u, user, deleted, partly, now)
  }

  /**
   * Deleting a user's tokens keeps a coherent repository coherent if and only if the found rows could be listed, or
   * none of the rows that go belongs to a cached token that has not expired.
   */
  lemma DeleteUserNeedsListing(r: Repo, user: UserId, listed: bool, deleted: bool, partly: set<Uuid>, now: Time)
    requires Coherent(r, now)
    ensures Coherent(DeleteTokensOf(r, user, true, listed, deleted, partly), now) <==>
            listed || !LeavesStale(r, user, deleted, partly, now)
  {
    var r' := DeleteTokensOf(r, user, true, listed, deleted, partly);
    if listed {
      DeleteUserCoherent(r, user, true, deleted, partly, now);
    } else if LeavesStale(r, user, deleted, partly, now) {
      var kind, u :| LosesRow(r, kind, u, user, deleted, partly, now);
      assert u in CacheOf(r', kind) && !HasRow(r'.rows, kind, u);
    } else {
      forall kind, u | u in CacheOf(r', kind)
        ensures now < CacheOf(r', kind)[u].expiresAt ==> HasRow(r'.rows, kind, u)
        ensures HasRow(r'.rows, kind, u) ==> r'.rows[u].item == CacheOf(r', kind)[u]
      {
        assert !LosesRow(r, kind, u, user, deleted, partly, now);
        assert u in CacheOf(r, kind);
      }
      assert forall u :: u in r'.access ==> u in CacheOf(r', Access);
      assert forall u :: u in r'.refresh ==> u in CacheOf(r', Refresh);
    }
  }

  /** After an unlisted deletion the cache goes on accepting a token that the collection no longer has. */
  lemma UnlistedTokenSurvives()
    ensures var item := Item("ana", 10);
            var r := Repo(map["t" := item], map[], map["t" := Row(item, Access)]);
            var r' := DeleteTokensOf(r, "ana", true, false, true, {});
            && Coherent(r, 0) && LosesRow(r, Access, "t", "ana", true, {}, 0) && !Coherent(r', 0)
            && ValidateToken(r', Access, "t", 0, true).1 == Accepted("ana")
            && Lookup(r'.rows, Access, "t", 0) == Invalid
  {
    var item := Item("ana", 10);
    var r := Repo(map["t" := item], map[], map["t" := Row(item, Access)]);
    assert LosesRow(r, Access, "t", "ana", true, {}, 0);
    DeleteUserNeedsListing(r, "ana", false, true, {}, 0);
    assert "t" in UserRows(r.rows, "ana");
  }

  /**
   * The operations have to be atomic: when a validation has read a live row, and the token is deleted before the
   * validation fills the cache, the deleted token is accepted afterwards.
   */
  lemma InterleavedFillResurrects(r: Repo, kind: Kind, u: Uuid, now: Time)
    requires u !in CacheOf(r, kind) && Lookup(r.rows, kind, u, now).Accepted?
    ensures var deleted := DeleteToken(r, kind, u, Ok);
            var filled := WithCache(deleted, kind, CacheOf(deleted, kind)[u := r.rows[u].item]);
            && Lookup(filled.rows, kind, u, now) == Invalid
            && ValidateToken(filled, kind, u, now, true).1 == Lookup(r.rows, kind, u, now)
            && (now < r.rows[u].item.expiresAt ==> !Coherent(filled, now))
  {
    var deleted := DeleteToken(r, kind, u, Ok);
    var filled := WithCache(deleted, kind, CacheOf(deleted, kind)[u := r.rows[u].item]);
    assert u in CacheOf(filled, kind) && u !in filled.rows;
  }

  // ----- The object -----

  class MemoryCachedTokenRepository {
    var accessCache: Cache
    var refreshCache: Cache
    var tokens: Rows

    ghost function View(): Repo
      reads this
    {
      Repo(accessCache, refreshCache, tokens)
    }

    /** Over an empty collection at first, and over what the collection then holds after every restart. */
    constructor (rows: Rows)
      ensures View() == Repo(map[], map[], rows)
    {
      accessCache, refreshCache, tokens := map[], map[], rows;
    }

    method SetEntry(kind: Kind, u: Uuid, item: Item)
      modifies this
      ensures View() == WithCache(old(View()), kind, CacheOf(old(View()), kind)[u := item])
    {
      if kind == Access {
        accessCache := accessCache[u := item];
      } else {
        refreshCache := refreshCache[u := item];
      }
    }

    method RemoveEntry(kind: Kind, u: Uuid)
      modifies this
      ensures View() == WithCache(old(View()), kind, CacheOf(old(View()), kind) - {u})
    {
      if kind == Access {
        accessCache := accessCache - {u};
      } else {
        refreshCache := refreshCache - {u};
      }
    }

    /** StoreAccessToken and StoreRefreshToken: cache first, then the collection, and undo the cache on an error. */
    method Store(kind: Kind, user: UserId, u: Uuid, expiry: int, now: Time, reply: Reply) returns (ok: bool)
      modifies this
      ensures View() == StoreToken(old(View()), kind, u, Item(user, now + expiry), reply)
      ensures ok == Inserts(old(tokens), u, reply)
    {
      var item := Item(user, now + expiry);
      SetEntry(kind, u, item);
      ok := u !in tokens && reply.Ok?;
      if u !in tokens && (reply.Ok? || reply.applied) {
        tokens := tokens[u := Row(item, kind)];
      }
      if !ok {
        RemoveEntry(kind, u);
        assert CacheOf(old(View()), kind)[u := item] - {u} == CacheOf(old(View()), kind) - {u};
      }
    }

    /** DeleteAccessToken and DeleteRefreshToken. */
    method Delete(kind: Kind, u: Uuid, reply: Reply) returns (ok: bool)
      modifies this
      ensures View() == DeleteToken(old(View()), kind, u, reply)
      ensures ok == reply.Ok?
    {
      RemoveEntry(kind, u);
      if u in tokens && tokens[u].kind == kind && (reply.Ok? || reply.applied) {
        tokens := tokens - {u};
      }
      ok := reply.Ok?;
    }

    method DeleteUserTokens(user: UserId, found: bool, listed: bool, deleted: bool, partly: set<Uuid>)
      returns (ok: bool)
      modifies this
      ensures View() == DeleteTokensOf(old(View()), user, found, listed, deleted, partly)
      ensures ok == (found && deleted)
    {
      if !found {
        return false;
      }
      var mine := set u | u in tokens && tokens[u].item.user == user;
      if listed {
        var left := mine;
        while left != {}
          invariant left <= mine && tokens == old(tokens)
          invariant accessCache == Evicted(old(accessCache), tokens, Access, mine - left)
          invariant refreshCache == Evicted(old(refreshCache), tokens, Refresh, mine - left)
        {
          var u :| u in left;
          if tokens[u].kind == Access {
            accessCache := accessCache - {u};
          } else {
            refreshCache := refreshCache - {u};
          }
          left := left - {u};
        }
        assert mine - left == mine;
      }
      tokens := tokens - (if deleted then mine else mine * partly);
      ok := deleted;
    }

    /** ValidateAccessToken and ValidateRefreshToken; `found` says whether the collection answers the query. */
    method Validate(kind: Kind, u: Uuid, now: Time, found: bool) returns (verdict: Verdict)
      modifies this
      ensures (View(), verdict) == ValidateToken(old(View()), kind, u, now, found)
    {
      var cache := if kind == Access then accessCache else refreshCache;
      if u in cache {
        if now > cache[u].expiresAt {
          RemoveEntry(kind, u);
          return Expired;
        }
        return Accepted(cache[u].user);
      }
      if !found {
        return DatabaseError;
      }
      if u !in tokens || tokens[u].kind != kind {
        return Invalid;
      }
      var item := tokens[u].item;
      if now > item.expiresAt {
        return Expired;
      }
      SetEntry(kind, u, item);
      verdict := Accepted(item.user);
    }

    method CleanExpiredTokens(now: Time)
      modifies this
      ensures View() == Clean(old(View()), now)
    {
      accessCache := WithoutExpired(accessCache, now);
      refreshCache := WithoutExpired(refreshCache, now);
    }

    /** The loop over one of the two caches. */
    static method WithoutExpired(cache: Cache, now: Time) returns (kept: Cache)
      ensures kept == Unexpired(cache, now)
    {
      kept := cache;
      var left := cache.Keys;
      while left != {}
        invariant left <= cache.Keys
        invariant kept == map u | u in cache && (u in left || now <= cache[u].expiresAt) :: cache[u]
      {
        var u :| u in left;
        if now > cache[u].expiresAt {
          kept := kept - {u};
        }
        left := left - {u};
      }
    }
  }
}
