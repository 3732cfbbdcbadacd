/** The TrueLayer client's cached access token and the transaction id a
    withdrawal request is given before it is sent. */
module TrueLayer {
  import opened Common

  /** The cache: the last token obtained and the instant (milliseconds) it
      expires at; `None` is the initial `null`. */
  datatype TokenCache = TokenCache(accessToken: Option<string>, tokenExpiration: Option<int>)

  /** The answer of the token endpoint. `Granted` carries `access_token` (possibly
      missing) and `expires_in` in seconds; `Refused` carries the error body, if any. */
  datatype TokenReply = Granted(access_token: Option<string>, expires_in: int) | Refused(body: Option<string>)

  /** JavaScript truthiness of an optional number: `null` and `0` are falsy. */
  predicate TruthyNumber(n: Option<int>) {
    n.Some? && n.value != 0
  }

  /** The test at the top of `getAccessToken`: a truthy token, a truthy expiry
      and a current time before it. */
  predicate CacheHit(c: TokenCache, now: nat) {
    Truthy(c.accessToken) && TruthyNumber(c.tokenExpiration) && now < c.tokenExpiration.value
  }

  /** `getAccessToken` called at `now`, with the endpoint answering `reply`
      when it is asked, and the clock reading `replyAt` once it has answered.
      Yields the token handed back and the new cache. */
  function GetAccessToken(c: TokenCache, now: nat, reply: TokenReply, replyAt: nat): (r: (Result<Option<string>>, TokenCache))
    ensures CacheHit(c, now) ==> r == (Ok(c.accessToken), c)
    ensures !CacheHit(c, now) && reply.Granted? ==>
              r.1 == TokenCache(reply.access_token, Some(replyAt + reply.expires_in * 1000)) && r.0 == Ok(reply.access_token)
    ensures !CacheHit(c, now) && reply.Refused? ==> r.1 == c && r.0.Err? && r.0.failure.Status() == 401
  {
    if CacheHit(c, now) then (Ok(c.accessToken), c)
    else match reply
      case Granted(token, expiresIn) =>
        var c' := TokenCache(token, Some(replyAt + expiresIn * 1000));
        (Ok(c'.accessToken), c')
      case Refused(body) =>
        (Err(Http(if Truthy(body) then body.value else "Failed to obtain access token", 401)), c)
  }

  /** A hit asks nothing of the endpoint: the answer is the same whatever it would have said. */
  lemma HitIgnoresEndpoint(c: TokenCache, now: nat, reply: TokenReply, other: TokenReply, replyAt: nat, otherAt: nat)
    requires CacheHit(c, now)
    ensures GetAccessToken(c, now, reply, replyAt) == GetAccessToken(c, now, other, otherAt)
    ensures GetAccessToken(c, now, reply, replyAt).0 == Ok(c.accessToken) && Truthy(c.accessToken)
  {
  }

  /** An empty or missing token, or a zero or missing expiry, always forces a
      refresh, however early the call. */
  lemma FalsyCacheForcesRefresh(c: TokenCache, now: nat)
    requires !Truthy(c.accessToken) || !TruthyNumber(c.tokenExpiration)
    ensures !CacheHit(c, now)
  {
  }

  /** After a successful refresh that grants a non-empty token for a positive
      number of seconds, a call at the instant the answer came is a hit. */
  lemma RefreshedTokenHitsAtOnce(c: TokenCache, now: nat, reply: TokenReply, replyAt: nat, later: TokenReply, laterAt: nat)
    requires !CacheHit(c, now)
    requires reply.Granted? && Truthy(reply.access_token) && reply.expires_in > 0
    ensures var c' := GetAccessToken(c, now, reply, replyAt).1;
      CacheHit(c', replyAt) && GetAccessToken(c', replyAt, later, laterAt) == (Ok(reply.access_token), c')
  {
  }

  /** A token granted for `expires_in` seconds stays a hit for exactly the
      instants before `replyAt + expires_in * 1000`. */
  lemma RefreshedTokenLifetime(c: TokenCache, now: nat, reply: TokenReply, replyAt: nat, t: nat)
    requires !CacheHit(c, now)
    requires reply.Granted? && Truthy(reply.access_token) && replyAt + reply.expires_in * 1000 != 0
    ensures CacheHit(GetAccessToken(c, now, reply, replyAt).1, t) <==> t < replyAt + reply.expires_in * 1000
  {
  }

  /** A refused request changes neither cached field. */
  lemma FailedFetchKeepsCache(c: TokenCache, now: nat, body: Option<string>, replyAt: nat)
    requires !CacheHit(c, now)
    ensures GetAccessToken(c, now, Refused(body), replyAt).1 == c
    ensures GetAccessToken(c, now, Refused(body), replyAt).0 ==
              Err(Http(if Truthy(body) then body.value else "Failed to obtain access token", 401))
  {
  }

  /** The client object: the two private cache fields. */
  class TrueLayerClient {
    var accessToken: Option<string>
    var tokenExpiration: Option<int>

    function Cache(): TokenCache reads this {
      TokenCache(accessToken, tokenExpiration)
    }

    constructor ()
      ensures accessToken.None? && tokenExpiration.None?
    {
      accessToken := None;
      tokenExpiration := None;
    }

    /** `getAccessToken`. */
    method GetToken(now: nat, reply: TokenReply, replyAt: nat) returns (r: Result<Option<string>>)
      modifies this
      ensures (r, Cache()) == GetAccessToken(old(Cache()), now, reply, replyAt)
    {
      if Truthy(accessToken) && TruthyNumber(tokenExpiration) && now < tokenExpiration.value {
        return Ok(accessToken);
      }
      match reply
      case Granted(token, expiresIn) =>
        accessToken := token;
        tokenExpiration := Some(replyAt + expiresIn * 1000);
        r := Ok(accessToken);
      case Refused(body) =>
        r := Err(Http(if Truthy(body) then body.value else "Failed to obtain access token", 401));
    }
  }

  /** The transaction id a withdrawal is sent with: the supplied one when it is
      truthy, otherwise the freshly generated one. */
  function TransactionIdFor(supplied: Option<string>, generated: string): (r: string)
    ensures Truthy(supplied) ==> r == supplied.value
    ensures !Truthy(supplied) ==> r == generated
  {
    if Truthy(supplied) then supplied.value else generated
  }

  /** Defaulting twice is defaulting once: the id chosen first is kept, whatever
      the second generated id is. */
  lemma TransactionIdStable(supplied: Option<string>, generated: string, again: string)
    requires generated != ""
    ensures TransactionIdFor(Some(TransactionIdFor(supplied, generated)), again) == TransactionIdFor(supplied, generated)
  {
  }

  /** A withdrawal request; only `transaction_id` is modelled. */
  class WithdrawalRequest {
    var transaction_id: Option<string>

    constructor (transactionId: Option<string>)
      ensures transaction_id == transactionId
    {
      transaction_id := transactionId;
    }

    /** The defaulting at the top of `initiateWithdrawal`, with `generated`
        standing for `randomUUID()`. */
    method EnsureTransactionId(generated: string)
      modifies this
      ensures transaction_id == Some(TransactionIdFor(old(transaction_id), generated))
      ensures Truthy(old(transaction_id)) ==> transaction_id == old(transaction_id)
    {
      if !Truthy(transaction_id) {
        transaction_id := Some(generated);
      }
    }
  }
}
