/**
 * `createServiceClient`: the service-role database client, kept in a
 * module-level cache together with the URL and key it was made from. Both
 * environment variables must be set and non-empty; the client is rebuilt
 * only when they differ from the cached pair. Building the client itself
 * (`createSupabaseClient`) is a parameter.
 */
module ServiceClient {
  import opened Wrappers
  import opened Store

  const MissingUrl := "Missing environment variable: NEXT_PUBLIC_SUPABASE_URL"
  const MissingKey := "Missing environment variable: SUPABASE_SERVICE_ROLE_KEY"

  /** `!value` on an environment variable: unset, or the empty string. */
  predicate Unset(v: Option<string>)
  {
    v.None? || v.value == ""
  }

  /** The cache fields `_cachedClient`, `_cachedUrl` and `_cachedKey`. */
  class ServiceClientCache<C> {
    var cachedClient: Option<C>
    var cachedUrl: Option<string>
    var cachedKey: Option<string>

    /** Nothing is cached when the module loads. */
    constructor ()
      ensures cachedClient.None? && cachedUrl.None? && cachedKey.None?
      ensures Valid()
    {
      cachedClient := None;
      cachedUrl := None;
      cachedKey := None;
    }

    /** A client is only ever cached together with the (set) URL and key it was built from. */
    predicate Valid()
      reads this
    {
      cachedClient.Some? ==> !Unset(cachedUrl) && !Unset(cachedKey)
    }

    /** The cached client was built from exactly this URL and key. */
    predicate Hit(url: Option<string>, key: Option<string>)
      reads this
    {
      cachedClient.Some? && cachedUrl == url && cachedKey == key
    }

    /**
     * `createServiceClient()` with the current values of the two variables;
     * `build` is `createSupabaseClient(url, key, ...)`. `built` tells whether
     * a new client was built.
     */
    method Create(url: Option<string>, key: Option<string>, build: (string, string) -> C)
      returns (r: ClientResult<C>, built: bool)
      requires Valid()
      modifies this
      ensures Valid()
      ensures Unset(url) ==> r == ClientFailure(MissingUrl) && !built && unchanged(this)
      ensures !Unset(url) && Unset(key) ==> r == ClientFailure(MissingKey) && !built && unchanged(this)
      ensures r.Client? <==> !Unset(url) && !Unset(key)
      ensures r.Client? ==> cachedClient == Some(r.client) && cachedUrl == url && cachedKey == key
      ensures r.Client? && old(Hit(url, key)) ==> !built && unchanged(this) && r.client == old(cachedClient).value
      ensures r.Client? && !old(Hit(url, key)) ==> built && r.client == build(url.value, key.value)
    {
      if Unset(url) {
        return ClientFailure(MissingUrl), false;
      }
      if Unset(key) {
        return ClientFailure(MissingKey), false;
      }
      if Hit(url, key) {
        return Client(cachedClient.value), false;
      }
      cachedClient := Some(build(url.value, key.value));
      cachedUrl := url;
      cachedKey := key;
      r, built := Client(cachedClient.value), true;
    }
  }

  /** Two calls with the same settings: the second builds nothing and returns the first call's client. */
  method ReusedAcrossCalls<C>(cache: ServiceClientCache<C>, url: string, key: string, build: (string, string) -> C)
    returns (first: ClientResult<C>, second: ClientResult<C>, builtAgain: bool)
    requires cache.Valid() && url != "" && key != ""
    modifies cache
    ensures first.Client? && second == first && !builtAgain
    ensures cache.cachedClient == Some(first.client)
  {
    var built;
    first, built := cache.Create(Some(url), Some(key), build);
    second, builtAgain := cache.Create(Some(url), Some(key), build);
  }

  /** Changing the key rebuilds the client from the new pair. */
  method RebuiltOnChange<C>(cache: ServiceClientCache<C>, url: string, k1: string, k2: string, build: (string, string) -> C)
    returns (second: ClientResult<C>, builtAgain: bool)
    requires cache.Valid() && url != "" && k1 != "" && k2 != "" && k1 != k2
    modifies cache
    ensures second == Client(build(url, k2)) && builtAgain
    ensures cache.cachedKey == Some(k2)
  {
    var first, built := cache.Create(Some(url), Some(k1), build);
    second, builtAgain := cache.Create(Some(url), Some(k2), build);
  }
}
