/** src/integrations/freee/secret-manager-store.ts: the single-flight refresh of an access token, one function for
    each stretch of code between two awaits.

    Token texts are compared for equality only, so numbers stand for them; instants are seconds. */
module Tokens {
  import opened Tables

  datatype Token = Token(accessToken: nat, refreshToken: nat, expiresAt: Option<int>)

  type PromiseId = nat

  // the two fields of the provider
  datatype Fields = Fields(cachedToken: Option<Token>, refreshInFlight: Option<PromiseId>)

  const MARGIN_SECONDS := 60

  predicate IsFresh(token: Option<Token>, now: int) {
    token.Some? && token.value.expiresAt.Some? && token.value.expiresAt.value - now > MARGIN_SECONDS
  }

  // more than 60 seconds are left of the token
  predicate FreshFor(token: Token, now: int) {
    token.expiresAt.Some? && token.expiresAt.value - now > 60
  }

  // what getAccessToken answers without reading the store
  function Answer(fields: Fields, now: int): Option<Token> {
    if IsFresh(fields.cachedToken, now) then fields.cachedToken else None
  }

  // resolveToken after its read of the store
  datatype Resolved = Return(token: Token) | StartRefresh | Join(promise: PromiseId)

  function Resolve(fields: Fields, stored: Token, now: int): Resolved {
    if IsFresh(Some(stored), now) then Return(stored)
    else if fields.refreshInFlight.None? then StartRefresh
    else Join(fields.refreshInFlight.value)
  }

  function Caching(fields: Fields, token: Token): Fields {
    fields.(cachedToken := Some(token))
  }

  // what a refused refresh makes of the token it finds in the store
  function RereadResult(reread: Token, now: int): Option<Token> {
    if IsFresh(Some(reread), now) then Some(reread) else None
  }

  function AfterRefusal(fields: Fields, reread: Token, now: int): Fields {
    if RereadResult(reread, now).Some? then Caching(fields, reread) else fields
  }

  // the callback of finally
  function Cleared(fields: Fields): Fields {
    fields.(refreshInFlight := None)
  }

  // `promise` is the id of the promise that a refresh started here gets
  function AfterResolve(fields: Fields, stored: Token, now: int, promise: PromiseId): Fields {
    match Resolve(fields, stored, now)
    case Return(token) => Caching(fields, token)
    case StartRefresh => fields.(refreshInFlight := Some(promise))
    case Join(_) => fields
  }

  function NextToken(accessToken: nat, refreshToken: nat, expiresIn: nat, now: int): Token {
    Token(accessToken, refreshToken, Some(now + expiresIn))
  }

  class TokenProvider {
    var cachedToken: Option<Token>
    var refreshInFlight: Option<PromiseId>

    constructor ()
      ensures State() == Fields(None, None)
    {
      cachedToken, refreshInFlight := None, None;
    }

    ghost function State(): Fields
      reads this
    {
      Fields(cachedToken, refreshInFlight)
    }

    // resolveToken up to its read of the store: a fresh cached token answers at once
    method Begin(now: int) returns (answer: Option<Token>)
      ensures answer == Answer(State(), now)
      ensures answer == if cachedToken.Some? && FreshFor(cachedToken.value, now) then cachedToken else None
    {
      if IsFresh(cachedToken, now) {
        return cachedToken;
      }
      answer := None;
    }

    // from the read of the store to the return or to the await of the refresh
    method AfterStoreRead(stored: Token, now: int, promise: PromiseId) returns (resolved: Resolved)
      modifies this
      ensures resolved == Resolve(old(State()), stored, now)
      ensures State() == AfterResolve(old(State()), stored, now, promise)
      ensures cachedToken == if FreshFor(stored, now) then Some(stored) else old(cachedToken)
      ensures FreshFor(stored, now) ==> resolved == Return(stored) && refreshInFlight == old(refreshInFlight)
      ensures !FreshFor(stored, now) ==>
                refreshInFlight == Some(if old(refreshInFlight).None? then promise else old(refreshInFlight).value)
                  && resolved == if old(refreshInFlight).None? then StartRefresh else Join(old(refreshInFlight).value)
    {
      if IsFresh(Some(stored), now) {
        cachedToken := Some(stored);
        return Return(stored);
      }
      if refreshInFlight.None? {
        refreshInFlight := Some(promise);
        return StartRefresh;
      }
      resolved := Join(refreshInFlight.value);
    }

    // refreshToken after the store was read again, the request having been refused
    method AfterReread(reread: Token, now: int) returns (result: Option<Token>)
      modifies this
      ensures result == RereadResult(reread, now)
      ensures State() == AfterRefusal(old(State()), reread, now)
      ensures result == if FreshFor(reread, now) then Some(reread) else None
      ensures cachedToken == (if FreshFor(reread, now) then Some(reread) else old(cachedToken))
              && refreshInFlight == old(refreshInFlight)
    {
      if IsFresh(Some(reread), now) {
        cachedToken := Some(reread);
        return Some(reread);
      }
      result := None;
    }

    // refreshToken after the new token was written to the store
    method AfterWrite(next: Token) returns (result: Option<Token>)
      modifies this
      ensures result == Some(next) && State() == Caching(old(State()), next)
    {
      cachedToken := Some(next);
      result := Some(next);
    }

    // the callback of finally
    method Finally()
      modifies this
      ensures State() == Cleared(old(State()))
    {
      refreshInFlight := None;
    }
  }
}
