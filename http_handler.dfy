/** The handler that builds an authorised HTTP client: a chain of guards with
    early returns around a discovery request and a client-credentials token
    request. The client factory, the configuration and the four wrapper calls
    are not modelled; each is a fixed answer given to the handler, and
    `GetClient` returns the calls it makes alongside its result. */
module HttpManager {
  import opened Common

  /** The part of an `HttpClient` that `GetClient` changes: the bearer token
      of its Authorization header, null while no header is set. */
  class HttpClient {
    var bearer: Option<string>

    constructor ()
      ensures bearer.None?
    {
      bearer := None;
    }
  }

  /** A client-credentials token request, shared with whoever constructed
      the handler. */
  class TokenRequest {
    var address: string
    var scope: string
    var clientId: string
    var clientSecret: string

    constructor (address: string, scope: string, clientId: string, clientSecret: string)
      ensures this.address == address && this.scope == scope
      ensures this.clientId == clientId && this.clientSecret == clientSecret
    {
      this.address := address;
      this.scope := scope;
      this.clientId := clientId;
      this.clientSecret := clientSecret;
    }
  }

  /** The result of an awaited wrapper call: an exception, or a value that
      may be null. Documents and token responses are named by ids. */
  datatype Reply = Threw | Returned(value: Option<int>)

  /** The fixed answers of the four wrapper calls. */
  datatype Wrapper = Wrapper(
    discovery: Reply,             // GetDiscoveryDocumentAsync
    tokenEndPoint: Option<string>, // GetTokenEndPoint
    tokenResponse: Reply,         // RequestClientCredentialsTokenAsync
    accessToken: Option<string>)  // GetAccessToken

  /** `GetDisco` and `GetTokenResponse`: an exception becomes null. */
  function Caught(r: Reply): (v: Option<int>)
    ensures r.Threw? ==> v.None?
    ensures r.Returned? ==> v == r.value
  {
    match r
    case Threw => None
    case Returned(x) => x
  }

  /** A call the handler makes on a collaborator, with its arguments. */
  datatype Call =
    | CreateClient(clientKey: string)
    | GetDiscoveryDocument(client: HttpClient, url: string)
    | GetTokenEndPoint(disco: int)
    | RequestToken(client: HttpClient, address: string, scope: string)
    | GetAccessToken(tokenResponse: int)

  /** Where `GetClient` stops; every stop but the last returns null. */
  datatype Stop =
    | BadSetup          // a missing dependency or key
    | BadConfig         // the url or scope setting is null or empty
    | NoClient          // the factory returned null
    | NoDiscovery       // discovery threw or returned null
    | NoEndPoint        // the token endpoint is null or empty
    | NoTokenResponse   // the token request threw or returned null
    | NoAccessToken     // the access token is null or empty
    | Success

  class HttpHandler {
    /** The client factory (None when null) and the client it creates (may be null). */
    const factory: Option<HttpClient?>
    /** The configuration (None when null): a missing key reads as null. */
    const config: Option<map<string, Option<string>>>
    const tokenRequest: TokenRequest?
    const wrapper: Option<Wrapper>

    constructor (factory: Option<HttpClient?>, config: Option<map<string, Option<string>>>,
                 tokenRequest: TokenRequest?, wrapper: Option<Wrapper>)
      ensures this.factory == factory && this.config == config
      ensures this.tokenRequest == tokenRequest && this.wrapper == wrapper
    {
      this.factory := factory;
      this.config := config;
      this.tokenRequest := tokenRequest;
      this.wrapper := wrapper;
    }

    /** Every dependency is present and no key is null or empty. */
    predicate InitialVariablesOk(urlKey: Option<string>, scopeKey: Option<string>, clientKey: Option<string>)
      ensures InitialVariablesOk(urlKey, scopeKey, clientKey) ==>
        urlKey.Some? && scopeKey.Some? && clientKey.Some? && config.Some?
    {
      && factory.Some?
      && config.Some?
      && tokenRequest != null
      && wrapper.Some?
      && !IsNullOrEmpty(urlKey)
      && !IsNullOrEmpty(scopeKey)
      && !IsNullOrEmpty(clientKey)
    }

    /** `config.GetSection(key).Value`. */
    function Setting(key: string): (v: Option<string>)
      requires config.Some?
      ensures key !in config.value ==> v.None?
      ensures key in config.value ==> v == config.value[key]
    {
      if key in config.value then config.value[key] else None
    }

    /** The guard at which `GetClient` stops, given its arguments. */
    function StopsAt(urlKey: Option<string>, clientKey: Option<string>, scopeKey: Option<string>): (stop: Stop)
      ensures stop != BadSetup ==> InitialVariablesOk(urlKey, scopeKey, clientKey)
      ensures stop == Success ==> factory.value != null && !IsNullOrEmpty(wrapper.value.accessToken)
    {
      if !InitialVariablesOk(urlKey, scopeKey, clientKey) then BadSetup
      else if IsNullOrEmpty(Setting(scopeKey.value)) || IsNullOrEmpty(Setting(urlKey.value)) then BadConfig
      else if factory.value == null then NoClient
      else if Caught(wrapper.value.discovery).None? then NoDiscovery
      else if IsNullOrEmpty(wrapper.value.tokenEndPoint) then NoEndPoint
      else if Caught(wrapper.value.tokenResponse).None? then NoTokenResponse
      else if IsNullOrEmpty(wrapper.value.accessToken) then NoAccessToken
      else Success
    }

    /** The calls `GetClient` makes before it stops, in order. */
    function Trace(urlKey: Option<string>, clientKey: Option<string>, scopeKey: Option<string>): (t: seq<Call>)
      ensures |t| <= 5
      ensures t != [] ==> clientKey.Some? && t[0] == CreateClient(clientKey.value)
    {
      var stop := StopsAt(urlKey, clientKey, scopeKey);
      if stop == BadSetup || stop == BadConfig then []
      else
        var create := [CreateClient(clientKey.value)];
        if stop == NoClient then create
        else
          var client := factory.value;
          var disco := create + [GetDiscoveryDocument(client, Setting(urlKey.value).value)];
          if stop == NoDiscovery then disco
          else
            var endPoint := disco + [GetTokenEndPoint(Caught(wrapper.value.discovery).value)];
            if stop == NoEndPoint then endPoint
            else
              var token := endPoint + [RequestToken(client, wrapper.value.tokenEndPoint.value,
                                                    Setting(scopeKey.value).value)];
              if stop == NoTokenResponse then token
              else token + [GetAccessToken(Caught(wrapper.value.tokenResponse).value)]
    }

    /** The token request's address and scope are written once the endpoint is valid. */
    predicate WritesTokenRequest(stop: Stop)
    {
      stop == NoTokenResponse || stop == NoAccessToken || stop == Success
    }

    /** The objects `GetClient` may change: the token request and the created client. */
    function Footprint(): set<object>
    {
      (if tokenRequest != null then {tokenRequest as object} else {})
      + (if factory.Some? && factory.value != null then {factory.value as object} else {})
    }

    /** Returns the factory's client with its bearer token set, or null at the
        first guard that fails; once the endpoint is known, the shared token
        request carries it and the configured scope, whatever happens next. */
    method GetClient(urlKey: Option<string>, clientKey: Option<string>, scopeKey: Option<string>)
      returns (client: HttpClient?, calls: seq<Call>)
      modifies Footprint()
      ensures var stop := StopsAt(urlKey, clientKey, scopeKey);
        && calls == Trace(urlKey, clientKey, scopeKey)
        && (client != null <==> stop == Success)
        && (client != null ==> client == factory.value && client.bearer == wrapper.value.accessToken)
        && (factory.Some? && factory.value != null && stop != Success ==>
              factory.value.bearer == old(factory.value.bearer))
        && (tokenRequest != null && WritesTokenRequest(stop) ==>
              tokenRequest.address == wrapper.value.tokenEndPoint.value
              && tokenRequest.scope == Setting(scopeKey.value).value)
        && (tokenRequest != null && !WritesTokenRequest(stop) ==>
              tokenRequest.address == old(tokenRequest.address) && tokenRequest.scope == old(tokenRequest.scope))
      ensures tokenRequest != null ==>
        tokenRequest.clientId == old(tokenRequest.clientId)
        && tokenRequest.clientSecret == old(tokenRequest.clientSecret)
    {
      calls := [];
      if !InitialVariablesOk(urlKey, scopeKey, clientKey) {
        return null, calls;
      }
      var authServerUrl := Setting(urlKey.value);
      var scope := Setting(scopeKey.value);
      if IsNullOrEmpty(scope) || IsNullOrEmpty(authServerUrl) {
        return null, calls;
      }
      calls := calls + [CreateClient(clientKey.value)];
      var created := factory.value;
      if created == null {
        return null, calls;
      }
      calls := calls + [GetDiscoveryDocument(created, authServerUrl.value)];
      var disco := Caught(wrapper.value.discovery);
      if disco.None? {
        return null, calls;
      }
      calls := calls + [GetTokenEndPoint(disco.value)];
      var tokenEndPoint := wrapper.value.tokenEndPoint;
      if IsNullOrEmpty(tokenEndPoint) {
        return null, calls;
      }
      tokenRequest.address := tokenEndPoint.value;
      tokenRequest.scope := scope.value;
      calls := calls + [RequestToken(created, tokenRequest.address, tokenRequest.scope)];
      var tokenResponse := Caught(wrapper.value.tokenResponse);
      if tokenResponse.None? {
        return null, calls;
      }
      calls := calls + [GetAccessToken(tokenResponse.value)];
      var accessToken := wrapper.value.accessToken;
      if IsNullOrEmpty(accessToken) {
        return null, calls;
      }
      created.bearer := accessToken;
      return created, calls;
    }

    /** A missing dependency or key, or a null or empty url or scope setting,
        returns null before any call; only these cases make no call. */
    lemma NoCallsBeforeSetup(urlKey: Option<string>, clientKey: Option<string>, scopeKey: Option<string>)
      ensures Trace(urlKey, clientKey, scopeKey) == [] <==>
        StopsAt(urlKey, clientKey, scopeKey) in {BadSetup, BadConfig}
      ensures !InitialVariablesOk(urlKey, scopeKey, clientKey) ==> Trace(urlKey, clientKey, scopeKey) == []
    {
    }

    /** The token request is made exactly when the endpoint is valid, and
        then with the endpoint and the configured scope; an access token is
        asked for exactly when a token response came back. */
    lemma TokenRequestOnlyWithEndPoint(urlKey: Option<string>, clientKey: Option<string>, scopeKey: Option<string>)
      ensures var t := Trace(urlKey, clientKey, scopeKey);
        var stop := StopsAt(urlKey, clientKey, scopeKey);
        && ((exists i :: 0 <= i < |t| && t[i].RequestToken?) <==> WritesTokenRequest(stop))
        && (forall i :: 0 <= i < |t| && t[i].RequestToken? ==>
              t[i].address == wrapper.value.tokenEndPoint.value
              && t[i].scope == Setting(scopeKey.value).value)
        && ((exists i :: 0 <= i < |t| && t[i].GetAccessToken?) <==> stop == NoAccessToken || stop == Success)
    {
      var t := Trace(urlKey, clientKey, scopeKey);
      if WritesTokenRequest(StopsAt(urlKey, clientKey, scopeKey)) {
        assert t[3].RequestToken?;
      }
      if StopsAt(urlKey, clientKey, scopeKey) in {NoAccessToken, Success} {
        assert t[4].GetAccessToken?;
      }
    }

    /** Each guard passes on to the next call only: the calls made number
        one more than the guards passed after the configuration check. */
    lemma TraceLength(urlKey: Option<string>, clientKey: Option<string>, scopeKey: Option<string>)
      ensures |Trace(urlKey, clientKey, scopeKey)| == match StopsAt(urlKey, clientKey, scopeKey)
        case BadSetup => 0
        case BadConfig => 0
        case NoClient => 1
        case NoDiscovery => 2
        case NoEndPoint => 3
        case NoTokenResponse => 4
        case NoAccessToken => 5
        case Success => 5
    {
    }

    /** `GetClient` succeeds exactly when every dependency, key, setting and
        wrapper answer is usable. This restates the guard chain of `StopsAt`
        as one conjunction, for readers; it carries no proof of its own. */
    lemma SucceedsIff(urlKey: Option<string>, clientKey: Option<string>, scopeKey: Option<string>)
      ensures StopsAt(urlKey, clientKey, scopeKey) == Success <==>
        && InitialVariablesOk(urlKey, scopeKey, clientKey)
        && !IsNullOrEmpty(Setting(urlKey.value)) && !IsNullOrEmpty(Setting(scopeKey.value))
        && factory.value != null
        && Caught(wrapper.value.discovery).Some?
        && !IsNullOrEmpty(wrapper.value.tokenEndPoint)
        && Caught(wrapper.value.tokenResponse).Some?
        && !IsNullOrEmpty(wrapper.value.accessToken)
    {
    }
  }
}
