/**
 * `verifyApiKey`: hashes the presented key, looks the hash up among the
 * keys that have not been revoked, and answers with the owner's id. Every
 * failure along the way answers "not valid", except the creation of the
 * service-role client, which is not guarded and rejects the call.
 */
module ApiKeyVerify {
  import opened Wrappers
  import opened Store

  /** `{valid: true, userId}` or `{valid: false}`. */
  datatype VerifyResult = Valid(userId: string) | Invalid

  /** What the returned promise settles to: a result, or a rejection with the thrown message. */
  datatype VerifyOutcome = Settled(result: VerifyResult) | VerifyRejected(reason: string)

  /** `from('user_api_keys').select('user_id').eq('key_hash', hash).is('revoked_at', null).maybeSingle()`. */
  function LookupQuery(keyHash: string): Query
  {
    Query("user_api_keys", [Eq("key_hash", SStr(keyHash)), Is("revoked_at", SNull)], [], None, None, true)
  }

  /** The lookup admits exactly the rows that store this hash and carry no revocation time. */
  lemma LookupMatchesLiveKey(keyHash: string, row: Row)
    ensures Admits(LookupQuery(keyHash), row) <==>
      && "key_hash" in row && row["key_hash"] == SStr(keyHash)
      && "revoked_at" in row && row["revoked_at"] == SNull
  {
    var q := LookupQuery(keyHash);
    assert Admits(q, row) <==> Holds(q.filters[0], row) && Holds(q.filters[1], row);
  }

  /**
   * `verifyApiKey(plaintext)`. `hash` is `hashApiKey` (`None` when it
   * throws), `client` the outcome of `createServiceClient()`, and `lookup`
   * the store's answer (the `user_id` of the matching row) to a query.
   */
  function VerifyApiKey<C>(plaintext: string, hash: string -> Option<string>, client: ClientResult<C>,
                           lookup: (C, Query) -> DbResult<string>): (r: VerifyOutcome)
    ensures hash(plaintext).None? ==> r == Settled(Invalid)
    ensures hash(plaintext).Some? && client.ClientFailure? ==> r == VerifyRejected(client.message)
    ensures r.VerifyRejected? ==> client.ClientFailure?
    ensures r.Settled? && r.result.Valid? <==>
      && hash(plaintext).Some? && client.Client?
      && lookup(client.client, LookupQuery(hash(plaintext).value)).DbOk?
      && lookup(client.client, LookupQuery(hash(plaintext).value)).data.Some?
    ensures r.Settled? && r.result.Valid? ==>
      lookup(client.client, LookupQuery(hash(plaintext).value)) == DbOk(Some(r.result.userId))
    ensures hash(plaintext).Some? && client.Client? ==>
      match lookup(client.client, LookupQuery(hash(plaintext).value))
      case DbErr(_) => r == Settled(Invalid)
      case DbOk(None) => r == Settled(Invalid)
      case DbOk(Some(u)) => r == Settled(Valid(u))
  {
    match hash(plaintext)
    case None => Settled(Invalid)
    case Some(keyHash) =>
      match client
      case ClientFailure(m) => VerifyRejected(m)
      case Client(c) =>
        match lookup(c, LookupQuery(keyHash))
        case DbErr(_) => Settled(Invalid)
        case DbOk(None) => Settled(Invalid)
        case DbOk(Some(userId)) => Settled(Valid(userId))
  }

  /** A hashing failure is answered before the client or the store are involved. */
  lemma HashFailureSkipsStore<C>(plaintext: string, hash: string -> Option<string>,
                                 c1: ClientResult<C>, c2: ClientResult<C>,
                                 l1: (C, Query) -> DbResult<string>, l2: (C, Query) -> DbResult<string>)
    requires hash(plaintext).None?
    ensures VerifyApiKey(plaintext, hash, c1, l1) == VerifyApiKey(plaintext, hash, c2, l2) == Settled(Invalid)
  {
  }

  /** The store sees only the hash: two keys with the same hash get the same answer. */
  lemma KeyedByHash<C>(p1: string, p2: string, hash: string -> Option<string>, client: ClientResult<C>,
                       lookup: (C, Query) -> DbResult<string>)
    requires hash(p1) == hash(p2)
    ensures VerifyApiKey(p1, hash, client, lookup) == VerifyApiKey(p2, hash, client, lookup)
  {
  }
}
