/** `UserIDMixin.dispatch` (workflow/mixins.py): the request's identity
    headers are checked in a fixed order, and the user they name is found
    through a read-through cache in front of the store, or created. */
module Identity {
  import opened Results
  import opened Text
  import opened Uuid
  import opened Records

  /** The `User-Id` and `role` request headers; None when absent. */
  datatype Headers = Headers(userId: Option<string>, role: Option<string>)

  /** The three refusals, each answered with status 401. */
  datatype AuthFailure = MissingUserId | MalformedUserId | MissingRole {
    function Message(): string {
      match this
      case MissingUserId => "User ID must be provided."
      case MalformedUserId => "Invalid user ID format."
      case MissingRole => "Role must be provided."
    }
  }

  const Unauthorized: int := 401

  /** The identity cache: key to cached user. Entries whose one-hour lifetime
      has run out are simply absent. */
  type Cache = map<string, User>

  /** `f"user_{user_id}"` where `user_id` is the parsed UUID, printed in its
      canonical form. */
  function CacheKey(id: string): string {
    "user_" + id
  }

  /** Every cached user sits under its own key. */
  predicate CacheConsistent(c: Cache) {
    forall k :: k in c ==> k == CacheKey(c[k].userId)
  }

  datatype Resolution = Resolution(cache: Cache, store: Store, result: Result<User, AuthFailure>)

  /** `UserIDMixin.dispatch` up to the hand-over to the wrapped view. */
  function Resolve(h: Headers, cache: Cache, store: Store): (r: Resolution)
    ensures r.result.Err? ==> r.cache == cache && r.store == store
    ensures r.result.Ok? ==>
              && Given(h.userId) && Given(h.role) && ParseUuid(h.userId.value).Some?
              && var key := CacheKey(ParseUuid(h.userId.value).value);
                 key in r.cache && r.cache[key] == r.result.value
    ensures r.store.workflows == store.workflows && r.store.datasets == store.datasets
    ensures r.store.rows == store.rows && r.store.nextKey == store.nextKey
    ensures r.store.drawn == store.drawn
    ensures store.users.Keys <= r.store.users.Keys
    ensures |r.store.users| <= |store.users| + 1
    ensures Valid(store) ==> Valid(r.store)
  {
    if !Given(h.userId) then Resolution(cache, store, Err(MissingUserId))
    else match ParseUuid(h.userId.value)
      case None => Resolution(cache, store, Err(MalformedUserId))
      case Some(id) =>
        if !Given(h.role) then Resolution(cache, store, Err(MissingRole))
        else
          var key := CacheKey(id);
          if key in cache then Resolution(cache, store, Ok(cache[key]))
          else if id in store.users then
            var user := store.users[id];
            Resolution(cache[key := user], store, Ok(user))
          else
            var user := User(id, h.role.value, true);
            Resolution(cache[key := user], store.(users := store.users[id := user]), Ok(user))
  }

  /** The checks run in order (missing id, malformed id, missing role), each
      refusal touching neither cache nor store; the id may be of any UUID
      version and any spelling the constructor accepts. */
  lemma ResolveRefusals(h: Headers, cache: Cache, store: Store)
    ensures var r := Resolve(h, cache, store);
            && (r.result == Err(MissingUserId) <==> !Given(h.userId))
            && (r.result == Err(MalformedUserId) <==>
                  Given(h.userId) && ParseUuid(h.userId.value).None?)
            && (r.result == Err(MissingRole) <==>
                  Given(h.userId) && ParseUuid(h.userId.value).Some? && !Given(h.role))
            && (r.result.Ok? <==>
                  Given(h.userId) && ParseUuid(h.userId.value).Some? && Given(h.role))
  {
  }

  /** A cache hit answers with the cached user and does not consult the store. */
  lemma ResolveCacheHit(h: Headers, cache: Cache, store: Store, id: string)
    requires Given(h.userId) && Given(h.role) && ParseUuid(h.userId.value) == Some(id)
    requires CacheKey(id) in cache
    ensures Resolve(h, cache, store) == Resolution(cache, store, Ok(cache[CacheKey(id)]))
  {
  }

  /** A cache miss with a stored user caches that user and changes no store
      record. */
  lemma ResolveStoreHit(h: Headers, cache: Cache, store: Store, id: string)
    requires Given(h.userId) && Given(h.role) && ParseUuid(h.userId.value) == Some(id)
    requires CacheKey(id) !in cache && id in store.users
    ensures Resolve(h, cache, store)
            == Resolution(cache[CacheKey(id) := store.users[id]], store, Ok(store.users[id]))
  {
  }

  /** A miss in both creates exactly one active user with the supplied role. */
  lemma ResolveCreates(h: Headers, cache: Cache, store: Store, id: string)
    requires Given(h.userId) && Given(h.role) && ParseUuid(h.userId.value) == Some(id)
    requires CacheKey(id) !in cache && id !in store.users
    ensures var r := Resolve(h, cache, store);
            var u := User(id, h.role.value, true);
            && r.result == Ok(u)
            && r.store.users == store.users[id := u]
            && |r.store.users| == |store.users| + 1
            && r.cache == cache[CacheKey(id) := u]
  {
  }

  /** Resolution keeps the cache consistent, and in a consistent cache the
      resolved user carries the requested id. */
  lemma ResolvePreserves(h: Headers, cache: Cache, store: Store)
    requires CacheConsistent(cache) && Valid(store)
    ensures var r := Resolve(h, cache, store);
            && CacheConsistent(r.cache)
            && (r.result.Ok? ==> ParseUuid(h.userId.value) == Some(r.result.value.userId))
  {
    var r := Resolve(h, cache, store);
    if r.result.Ok? {
      var id := ParseUuid(h.userId.value).value;
      var key := CacheKey(id);
      if key in cache {
        assert key == CacheKey(cache[key].userId);
        assert cache[key].userId == key[5..] == id;
      }
    }
  }

  /** Resolving the same headers twice returns the same user, and the second
      resolution changes nothing. */
  lemma ResolveTwice(h: Headers, cache: Cache, store: Store)
    ensures var r1 := Resolve(h, cache, store);
            var r2 := Resolve(h, r1.cache, r1.store);
            r1.result.Ok? ==> r2 == Resolution(r1.cache, r1.store, r1.result)
  {
  }
}
