/**
  The HubSpot side of the OAuth 2.0 authorization-code grant (section 4.1 of
  RFC 6749), with the `state` parameter guarding against cross-site request
  forgery as in section 10.12:

  - `Authorize` stores a pending state under `hubspot_state:{org_id}:{user_id}`
    and returns the authorization URL that carries it;
  - `Callback` checks the state the provider sends back against the stored one,
    deletes the pending state and stores the token-endpoint response under
    `hubspot_credentials:{org_id}:{user_id}`;
  - `GetCredentials` hands the stored credentials out once and deletes them.

  Each operation is a method on the shared store, proved against a function
  that gives its outcome (`AuthorizeEffect`, `CallbackEffect`,
  `CredentialsEffect`); the lemmas after them are about those functions. The
  random token, the token-endpoint response and the query parameters are inputs.
*/
module HubSpot {
  import opened Wrappers
  import opened Json
  import Redis

  /** The client registration read from the environment at start-up. */
  datatype Config = Config(clientId: string, clientSecret: string, redirectUri: string)

  const Scopes := "oauth crm.objects.contacts.read"

  function AuthorizationUrl(cfg: Config): string
  {
    "https://app.hubspot.com/oauth/authorize?client_id=" + cfg.clientId
    + "&redirect_uri=" + cfg.redirectUri + "&scope=" + Scopes
  }

  /** `HTTPException(status, detail)`, and the Python errors the connector lets propagate. */
  datatype Error =
    | HttpException(status: int, detail: string)
    | TypeError        // json.loads(None): the callback carries no `state` parameter
    | JsonDecodeError  // a text that is not a JSON document
    | AttributeError   // `.get` on a decoded document that is not a dict

  const StateMismatch := "State does not match."
  const NoCredentials := "No credentials found."

  function StateKey(orgId: string, userId: string): string
  {
    "hubspot_state:" + orgId + ":" + userId
  }

  function CredentialsKey(orgId: string, userId: string): string
  {
    "hubspot_credentials:" + orgId + ":" + userId
  }

  /** The pending authorization: the random token and whom it was issued for. */
  datatype PendingState = PendingState(state: string, userId: string, orgId: string)

  function StateDocument(p: PendingState): Value
  {
    Object([Member("state", Str(p.state)), Member("user_id", Str(p.userId)), Member("org_id", Str(p.orgId))])
  }

  /** The store after an operation, and what the operation returned or raised. */
  datatype Step<T> = Step(store: map<string, string>, result: Result<T, Error>)

  // ---------------------------------------------------------------------------
  // authorize_hubspot

  function AuthorizeEffect(store: map<string, string>, cfg: Config, userId: string, orgId: string,
                           token: string): Step<string>
  {
    var encoded := Encode(StateDocument(PendingState(token, userId, orgId)));
    Step(store[StateKey(orgId, userId) := encoded], Success(AuthorizationUrl(cfg) + "&state=" + encoded))
  }

  method Authorize(store: Redis.Store, cfg: Config, userId: string, orgId: string, token: string)
    returns (url: string)
    modifies store
    ensures AuthorizeEffect(old(store.entries), cfg, userId, orgId, token) == Step(store.entries, Success(url))
  {
    var encoded := Encode(StateDocument(PendingState(token, userId, orgId)));
    store.Set(StateKey(orgId, userId), encoded);
    url := AuthorizationUrl(cfg) + "&state=" + encoded;
  }

  // ---------------------------------------------------------------------------
  // oauth2callback_hubspot

  /** The pending-state key named by a decoded `state` parameter, with its ids formatted as Python does. */
  function PendingKey(stateData: seq<Member>): string
  {
    StateKey(Display(Lookup(stateData, "org_id")), Display(Lookup(stateData, "user_id")))
  }

  function CredentialsKeyOf(stateData: seq<Member>): string
  {
    CredentialsKey(Display(Lookup(stateData, "org_id")), Display(Lookup(stateData, "user_id")))
  }

  /** The token stored under `key`, or the failure of reading it. */
  function SavedToken(store: map<string, string>, key: string): Result<Scalar, Error>
  {
    if key !in store || store[key] == "" then Failure(HttpException(400, StateMismatch))
    else
      match Decode(store[key])
      case None => Failure(JsonDecodeError)
      case Some(saved) =>
        match Get(saved, "state")
        case None => Failure(AttributeError)
        case Some(token) => Success(token)
  }

  /**
    The callback: `params` are the query parameters of the redirect and
    `tokenBody` the body of the token endpoint's response to the code exchange.
  */
  function CallbackEffect(store: map<string, string>, params: map<string, string>, tokenBody: string): Step<()>
  {
    if "error" in params && params["error"] != "" then Step(store, Failure(HttpException(400, params["error"])))
    else if "state" !in params then Step(store, Failure(TypeError))
    else
      match Decode(params["state"])
      case None => Step(store, Failure(JsonDecodeError))
      case Some(Atom(_)) => Step(store, Failure(AttributeError))
      case Some(Object(stateData)) =>
        var key := PendingKey(stateData);
        match SavedToken(store, key)
        case Failure(e) => Step(store, Failure(e))
        case Success(saved) =>
          if !SameValue(Lookup(stateData, "state"), saved) then
            Step(store, Failure(HttpException(400, StateMismatch)))
          else
            var cleared := store - {key};
            match Decode(tokenBody)
            case None => Step(cleared, Failure(JsonDecodeError))
            case Some(response) => Step(cleared[CredentialsKeyOf(stateData) := Encode(response)], Success(()))
  }

  method Callback(store: Redis.Store, params: map<string, string>, tokenBody: string)
    returns (result: Result<(), Error>)
    modifies store
    ensures CallbackEffect(old(store.entries), params, tokenBody) == Step(store.entries, result)
  {
    if "error" in params && params["error"] != "" {
      return Failure(HttpException(400, params["error"]));
    }
    if "state" !in params {
      return Failure(TypeError);
    }
    var decoded := Decode(params["state"]);
    if decoded.None? {
      return Failure(JsonDecodeError);
    }
    if decoded.value.Atom? {
      return Failure(AttributeError);
    }
    var stateData := decoded.value.members;
    var original := Lookup(stateData, "state");
    var userId := Display(Lookup(stateData, "user_id"));
    var orgId := Display(Lookup(stateData, "org_id"));
    var key := StateKey(orgId, userId);
    var saved := store.Get(key);
    if saved.None? || saved.value == "" {
      return Failure(HttpException(400, StateMismatch));
    }
    var savedData := Decode(saved.value);
    if savedData.None? {
      return Failure(JsonDecodeError);
    }
    var savedToken := Get(savedData.value, "state");
    if savedToken.None? {
      return Failure(AttributeError);
    }
    if !SameValue(original, savedToken.value) {
      return Failure(HttpException(400, StateMismatch));
    }
    // The code exchange has produced `tokenBody`; the pending state is deleted.
    store.Delete(key);
    var response := Decode(tokenBody);
    if response.None? {
      return Failure(JsonDecodeError);
    }
    store.Set(CredentialsKey(orgId, userId), Encode(response.value));
    result := Success(());
  }

  // ---------------------------------------------------------------------------
  // get_hubspot_credentials

  function CredentialsEffect(store: map<string, string>, userId: string, orgId: string): Step<Value>
  {
    var key := CredentialsKey(orgId, userId);
    if key !in store || store[key] == "" then Step(store, Failure(HttpException(400, NoCredentials)))
    else
      match Decode(store[key])
      case None => Step(store, Failure(JsonDecodeError))
      case Some(credentials) =>
        if !Truthy(credentials) then Step(store, Failure(HttpException(400, NoCredentials)))
        else Step(store - {key}, Success(credentials))
  }

  method GetCredentials(store: Redis.Store, userId: string, orgId: string) returns (result: Result<Value, Error>)
    modifies store
    ensures CredentialsEffect(old(store.entries), userId, orgId) == Step(store.entries, result)
  {
    var key := CredentialsKey(orgId, userId);
    var stored := store.Get(key);
    if stored.None? || stored.value == "" {
      return Failure(HttpException(400, NoCredentials));
    }
    var credentials := Decode(stored.value);
    if credentials.None? {
      return Failure(JsonDecodeError);
    }
    if !Truthy(credentials.value) {
      return Failure(HttpException(400, NoCredentials));
    }
    store.Delete(key);
    result := Success(credentials.value);
  }

  // ---------------------------------------------------------------------------
  // Keys

  /** A pending state and stored credentials never share a key. */
  lemma {:induction false} KeysDistinct(orgId: string, userId: string, orgId': string, userId': string)
    ensures StateKey(orgId, userId) != CredentialsKey(orgId', userId')
  {
    assert StateKey(orgId, userId)[8] == 's';
    assert CredentialsKey(orgId', userId')[8] == 'c';
  }

  lemma {:induction false} SplitAtColon(a: string, b: string, c: string, d: string)
    requires ':' !in a && ':' !in c
    requires a + ":" + b == c + ":" + d
    ensures a == c && b == d
  {
    var s, t := a + ":" + b, c + ":" + d;
    assert s[|a|] == ':' && t[|c|] == ':';
    assert forall i :: 0 <= i < |a| ==> s[i] == a[i] && a[i] != ':';
    assert forall i :: 0 <= i < |c| ==> t[i] == c[i] && c[i] != ':';
    assert |a| == |c|;
    assert a == s[..|a|] == c;
    assert b == s[|a| + 1..] == d;
  }

  /**
    Keys tell users apart as long as organization ids hold no colon; the ids are
    joined with ':' unescaped, so ("a:b", "c") and ("a", "b:c") share a key.
  */
  lemma {:induction false} KeysIdentifyUser(orgId: string, userId: string, orgId': string, userId': string)
    requires ':' !in orgId && ':' !in orgId'
    ensures StateKey(orgId, userId) == StateKey(orgId', userId') <==> orgId == orgId' && userId == userId'
    ensures CredentialsKey(orgId, userId) == CredentialsKey(orgId', userId') <==> orgId == orgId' && userId == userId'
  {
    var p := "hubspot_state:";
    if StateKey(orgId, userId) == StateKey(orgId', userId') {
      assert StateKey(orgId, userId) == p + (orgId + ":" + userId);
      assert StateKey(orgId', userId') == p + (orgId' + ":" + userId');
      assert (orgId + ":" + userId) == StateKey(orgId, userId)[|p|..];
      assert (orgId' + ":" + userId') == StateKey(orgId', userId')[|p|..];
      SplitAtColon(orgId, userId, orgId', userId');
    }
    var q := "hubspot_credentials:";
    if CredentialsKey(orgId, userId) == CredentialsKey(orgId', userId') {
      assert CredentialsKey(orgId, userId) == q + (orgId + ":" + userId);
      assert CredentialsKey(orgId', userId') == q + (orgId' + ":" + userId');
      assert (orgId + ":" + userId) == CredentialsKey(orgId, userId)[|q|..];
      assert (orgId' + ":" + userId') == CredentialsKey(orgId', userId')[|q|..];
      SplitAtColon(orgId, userId, orgId', userId');
    }
  }

  lemma {:induction false} KeysCollide()
    ensures StateKey("a:b", "c") == StateKey("a", "b:c")
    ensures CredentialsKey("a:b", "c") == CredentialsKey("a", "b:c")
  {
  }

  // ---------------------------------------------------------------------------
  // Authorization

  /** The state parameter a redirect to `url` carries back, where `url` is an authorization URL for `cfg`. */
  function ReturnedState(cfg: Config, url: string): string
  {
    var prefix := AuthorizationUrl(cfg) + "&state=";
    if |prefix| <= |url| then url[|prefix|..] else ""
  }

  /** The pending state is the only entry written, it decodes back to the state issued, and the URL carries it. */
  lemma {:induction false} AuthorizeStoresPendingState(store: map<string, string>, cfg: Config, userId: string,
                                                      orgId: string, token: string)
    ensures var step := AuthorizeEffect(store, cfg, userId, orgId, token);
            var key := StateKey(orgId, userId);
            && step.store.Keys == store.Keys + {key}
            && (forall k :: k in store && k != key ==> step.store[k] == store[k])
            && Decode(step.store[key]) == Some(StateDocument(PendingState(token, userId, orgId)))
            && step.result.Success?
            && step.result.value == AuthorizationUrl(cfg) + "&state=" + step.store[key]
            && ReturnedState(cfg, step.result.value) == step.store[key]
  {
    var step := AuthorizeEffect(store, cfg, userId, orgId, token);
    var prefix := AuthorizationUrl(cfg) + "&state=";
    RoundTrip(StateDocument(PendingState(token, userId, orgId)));
    assert step.result.value == prefix + step.store[StateKey(orgId, userId)];
  }

  /** The ids and token a decoded state document reads back as. */
  lemma {:induction false} StateDocumentFields(p: PendingState)
    ensures Lookup(StateDocument(p).members, "state") == Str(p.state)
    ensures PendingKey(StateDocument(p).members) == StateKey(p.orgId, p.userId)
    ensures CredentialsKeyOf(StateDocument(p).members) == CredentialsKey(p.orgId, p.userId)
  {
    var ms := StateDocument(p).members;
    assert LastNamed(ms, "state", 0);
    assert LastNamed(ms, "user_id", 1);
    assert LastNamed(ms, "org_id", 2);
  }

  // ---------------------------------------------------------------------------
  // Callback

  /** The decoded `state` parameter, when it is a JSON object. */
  function ReturnedStateData(params: map<string, string>): Option<seq<Member>>
  {
    if "state" !in params then None
    else
      match Decode(params["state"])
      case Some(Object(stateData)) => Some(stateData)
      case _ => None
  }

  /**
    The callback's checks pass: the provider reports no error, and the pending
    state stored for the users the returned state names holds the same token.
  */
  predicate StateAccepted(store: map<string, string>, params: map<string, string>)
  {
    && !("error" in params && params["error"] != "")
    && ReturnedStateData(params).Some?
    && var stateData := ReturnedStateData(params).value;
       var key := PendingKey(stateData);
       && key in store && store[key] != ""
       && match Decode(store[key])
          case Some(Object(saved)) => SameValue(Lookup(stateData, "state"), Lookup(saved, "state"))
          case _ => false
  }

  /** An error reported by the provider is raised as a 400 with that detail, and nothing is stored. */
  lemma {:induction false} CallbackReportsProviderError(store: map<string, string>, params: map<string, string>,
                                                       tokenBody: string)
    requires "error" in params && params["error"] != ""
    ensures CallbackEffect(store, params, tokenBody) == Step(store, Failure(HttpException(400, params["error"])))
  {
  }

  /** A callback succeeds exactly when its state is accepted and the token endpoint answers with JSON. */
  lemma {:induction false} CallbackSucceedsOnlyWhenAccepted(store: map<string, string>, params: map<string, string>,
                                                           tokenBody: string)
    ensures CallbackEffect(store, params, tokenBody).result.Success?
            <==> StateAccepted(store, params) && Decode(tokenBody).Some?
  {
  }

  /**
    A failed callback leaves the store as it was, except when the state was
    accepted and the token response is not JSON: the pending state is then
    already deleted.
  */
  lemma {:induction false} CallbackFailureLeavesStore(store: map<string, string>, params: map<string, string>,
                                                     tokenBody: string)
    requires CallbackEffect(store, params, tokenBody).result.Failure?
    ensures var after := CallbackEffect(store, params, tokenBody).store;
            || after == store
            || (&& StateAccepted(store, params)
                && Decode(tokenBody).None?
                && after == store - {PendingKey(ReturnedStateData(params).value)})
  {
  }

  /**
    A successful callback deletes the pending state, stores credentials that
    decode to the token endpoint's response, and touches no other key.
  */
  lemma {:induction false} CallbackStoresCredentials(store: map<string, string>, params: map<string, string>,
                                                    tokenBody: string)
    requires CallbackEffect(store, params, tokenBody).result.Success?
    ensures StateAccepted(store, params)
    ensures var after := CallbackEffect(store, params, tokenBody).store;
            var stateData := ReturnedStateData(params).value;
            var pending := PendingKey(stateData);
            var credentials := CredentialsKeyOf(stateData);
            && pending !in after
            && credentials in after
            && Decode(after[credentials]) == Decode(tokenBody)
            && (forall k :: k != pending && k != credentials ==>
                  (k in after <==> k in store) && (k in after ==> after[k] == store[k]))
  {
    var stateData := ReturnedStateData(params).value;
    var response := Decode(tokenBody).value;
    KeysDistinct(Display(Lookup(stateData, "org_id")), Display(Lookup(stateData, "user_id")),
                 Display(Lookup(stateData, "org_id")), Display(Lookup(stateData, "user_id")));
    RoundTrip(response);
  }

  /** Replaying a successful callback is rejected: its pending state is gone. */
  lemma {:induction false} CallbackIsNotReplayable(store: map<string, string>, params: map<string, string>,
                                                  tokenBody: string, tokenBody': string)
    requires CallbackEffect(store, params, tokenBody).result.Success?
    ensures var after := CallbackEffect(store, params, tokenBody).store;
            CallbackEffect(after, params, tokenBody') == Step(after, Failure(HttpException(400, StateMismatch)))
  {
    CallbackStoresCredentials(store, params, tokenBody);
  }

  /**
    Against a state issued by authorization, a callback naming the same users
    succeeds only when it returns the issued token.
  */
  lemma {:induction false} CallbackRequiresIssuedToken(store: map<string, string>, params: map<string, string>,
                                                      tokenBody: string, p: PendingState)
    requires StateKey(p.orgId, p.userId) in store
    requires store[StateKey(p.orgId, p.userId)] == Encode(StateDocument(p))
    requires ReturnedStateData(params).Some?
    requires PendingKey(ReturnedStateData(params).value) == StateKey(p.orgId, p.userId)
    ensures CallbackEffect(store, params, tokenBody).result.Success?
            <==> && !("error" in params && params["error"] != "")
                 && Lookup(ReturnedStateData(params).value, "state") == Str(p.state)
                 && Decode(tokenBody).Some?
  {
    RoundTrip(StateDocument(p));
    StateDocumentFields(p);
    EncodeNotEmpty(StateDocument(p));
    CallbackSucceedsOnlyWhenAccepted(store, params, tokenBody);
  }

  /** Without a pending state for the users the returned state names, the callback is a state mismatch. */
  lemma {:induction false} CallbackRejectsWithoutPendingState(store: map<string, string>,
                                                             params: map<string, string>, tokenBody: string)
    requires !("error" in params && params["error"] != "")
    requires ReturnedStateData(params).Some?
    requires var key := PendingKey(ReturnedStateData(params).value); key !in store || store[key] == ""
    ensures CallbackEffect(store, params, tokenBody) == Step(store, Failure(HttpException(400, StateMismatch)))
  {
  }

  /** A callback returning, unaltered, the state text stored for the users it names is accepted. */
  lemma {:induction false} CallbackEchoingStoredState(store: map<string, string>, params: map<string, string>,
                                                     tokenBody: string, stateData: seq<Member>)
    requires !("error" in params && params["error"] != "")
    requires "state" in params && Decode(params["state"]) == Some(Object(stateData))
    requires PendingKey(stateData) in store && store[PendingKey(stateData)] == params["state"]
    ensures StateAccepted(store, params)
  {
    assert Decode("") == None;
    var token := Lookup(stateData, "state");
    assert SameValue(token, token);
  }

  /**
    A callback whose token differs from the one stored for the users it names
    is rejected as a state mismatch, and the store is left as it was.
  */
  lemma {:induction false} CallbackRejectsOtherToken(store: map<string, string>, params: map<string, string>,
                                                    tokenBody: string, p: PendingState)
    requires StateKey(p.orgId, p.userId) in store
    requires store[StateKey(p.orgId, p.userId)] == Encode(StateDocument(p))
    requires !("error" in params && params["error"] != "")
    requires ReturnedStateData(params).Some?
    requires PendingKey(ReturnedStateData(params).value) == StateKey(p.orgId, p.userId)
    requires Lookup(ReturnedStateData(params).value, "state") != Str(p.state)
    ensures CallbackEffect(store, params, tokenBody) == Step(store, Failure(HttpException(400, StateMismatch)))
  {
    RoundTrip(StateDocument(p));
    StateDocumentFields(p);
    EncodeNotEmpty(StateDocument(p));
    assert SavedToken(store, StateKey(p.orgId, p.userId)) == Success(Str(p.state));
  }

  // ---------------------------------------------------------------------------
  // Credentials

  /**
    Reading credentials fails with "No credentials found." and changes nothing
    exactly when none are stored, the stored text is empty, or it decodes to a
    value Python counts as false.
  */
  lemma {:induction false} CredentialsRefused(store: map<string, string>, userId: string, orgId: string)
    ensures var key := CredentialsKey(orgId, userId);
            (|| key !in store
             || store[key] == ""
             || (Decode(store[key]).Some? && !Truthy(Decode(store[key]).value)))
            <==> CredentialsEffect(store, userId, orgId) == Step(store, Failure(HttpException(400, NoCredentials)))
  {
  }

  /** Credentials handed out are the stored ones, decoded. */
  lemma {:induction false} CredentialsAreStored(store: map<string, string>, userId: string, orgId: string)
    requires CredentialsEffect(store, userId, orgId).result.Success?
    ensures var key := CredentialsKey(orgId, userId);
            key in store && Decode(store[key]) == Some(CredentialsEffect(store, userId, orgId).result.value)
  {
  }

  /** Credentials are handed out once: the read deletes them, and a second read finds none. */
  lemma {:induction false} CredentialsAreSingleUse(store: map<string, string>, userId: string, orgId: string)
    requires CredentialsEffect(store, userId, orgId).result.Success?
    ensures var first := CredentialsEffect(store, userId, orgId);
            && first.store == store - {CredentialsKey(orgId, userId)}
            && Truthy(first.result.value)
            && CredentialsEffect(first.store, userId, orgId)
               == Step(first.store, Failure(HttpException(400, NoCredentials)))
  {
  }

  /** Stored text that decodes to a value is handed out as that value when Python counts it as true. */
  lemma {:induction false} CredentialsOfDecodedText(store: map<string, string>, userId: string, orgId: string,
                                                   credentials: Value)
    requires CredentialsKey(orgId, userId) in store
    requires Decode(store[CredentialsKey(orgId, userId)]) == Some(credentials)
    ensures var fetched := CredentialsEffect(store, userId, orgId);
            && fetched.result == (if Truthy(credentials) then Success(credentials)
                                  else Failure(HttpException(400, NoCredentials)))
            && (Truthy(credentials) ==> CredentialsKey(orgId, userId) !in fetched.store)
  {
    assert Decode("") == None;
  }

  // ---------------------------------------------------------------------------
  // The whole flow

  /**
    Returning to the callback with the text of a pending state, stored for the
    users it names, succeeds; it removes the pending state and stores
    credentials that decode to the token response.
  */
  lemma {:induction false} CallbackOnPendingState(store: map<string, string>, p: PendingState, code: string,
                                                 tokenBody: string)
    requires StateKey(p.orgId, p.userId) in store
    requires Decode(store[StateKey(p.orgId, p.userId)]) == Some(StateDocument(p))
    requires Decode(tokenBody).Some?
    ensures var params := map["code" := code, "state" := store[StateKey(p.orgId, p.userId)]];
            var called := CallbackEffect(store, params, tokenBody);
            && called.result == Success(())
            && StateKey(p.orgId, p.userId) !in called.store
            && CredentialsKey(p.orgId, p.userId) in called.store
            && Decode(called.store[CredentialsKey(p.orgId, p.userId)]) == Decode(tokenBody)
  {
    var params := map["code" := code, "state" := store[StateKey(p.orgId, p.userId)]];
    StateDocumentFields(p);
    CallbackEchoingStoredState(store, params, tokenBody, StateDocument(p).members);
    CallbackStoresCredentials(store, params, tokenBody);
  }

  /**
    Authorizing, returning to the callback with the state the URL carried, and
    reading the credentials yields the token endpoint's response (when Python
    counts it as true), after which neither the pending state nor the
    credentials remain.
  */
  lemma {:induction false} AuthorizationFlow(store: map<string, string>, cfg: Config, userId: string, orgId: string,
                                            token: string, code: string, tokenBody: string, response: Value)
    requires Decode(tokenBody) == Some(response)
    ensures var authorized := AuthorizeEffect(store, cfg, userId, orgId, token);
            var params := map["code" := code, "state" := ReturnedState(cfg, authorized.result.value)];
            var called := CallbackEffect(authorized.store, params, tokenBody);
            var fetched := CredentialsEffect(called.store, userId, orgId);
            && called.result == Success(())
            && StateKey(orgId, userId) !in called.store
            && fetched.result == (if Truthy(response) then Success(response)
                                  else Failure(HttpException(400, NoCredentials)))
            && (Truthy(response) ==> CredentialsKey(orgId, userId) !in fetched.store)
  {
    var authorized := AuthorizeEffect(store, cfg, userId, orgId, token);
    var params := map["code" := code, "state" := ReturnedState(cfg, authorized.result.value)];
    var called := CallbackEffect(authorized.store, params, tokenBody);
    AuthorizeStoresPendingState(store, cfg, userId, orgId, token);
    CallbackOnPendingState(authorized.store, PendingState(token, userId, orgId), code, tokenBody);
    CredentialsOfDecodedText(called.store, userId, orgId, response);
  }

  /** Authorizing again replaces the pending state: a callback with the earlier state is rejected. */
  lemma {:induction false} ReauthorizationRevokesEarlierState(store: map<string, string>, cfg: Config, userId: string,
                                                             orgId: string, first: string, second: string,
                                                             tokenBody: string)
    requires first != second
    ensures var earlier := AuthorizeEffect(store, cfg, userId, orgId, first);
            var later := AuthorizeEffect(earlier.store, cfg, userId, orgId, second);
            var params := map["state" := ReturnedState(cfg, earlier.result.value)];
            CallbackEffect(later.store, params, tokenBody) == Step(later.store, Failure(HttpException(400, StateMismatch)))
  {
    var earlier := AuthorizeEffect(store, cfg, userId, orgId, first);
    var later := AuthorizeEffect(earlier.store, cfg, userId, orgId, second);
    var params := map["state" := ReturnedState(cfg, earlier.result.value)];
    var stale := PendingState(first, userId, orgId);
    AuthorizeStoresPendingState(store, cfg, userId, orgId, first);
    AuthorizeStoresPendingState(earlier.store, cfg, userId, orgId, second);
    assert ReturnedStateData(params) == Some(StateDocument(stale).members);
    StateDocumentFields(stale);
    CallbackRejectsOtherToken(later.store, params, tokenBody, PendingState(second, userId, orgId));
  }
}
