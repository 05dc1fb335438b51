/** The single-slot token cache that the four hook scripts share through the
    host's global store, and the hooks themselves as operations on it:

    - the post-response hook of the hosted-login request, which saves the
      request descriptor and the token cut out of the redirect;
    - the post-response hook of the InitiateAuth request, which saves the
      `AuthenticationResult.IdToken` of the response body;
    - the check-and-refresh pre-request hook, which issues a refresh request
      when the token is missing or expired, and the two callbacks that store
      the refreshed token when the response arrives;
    - the check-only pre-request hook, which only classifies.

    A request the hooks send is an `Action` they return; the host later runs
    the matching callback with the response, modelled as `RefreshCallback`. */
module TokenCache {
  import opened Wrappers
  import opened Extraction
  import opened Expiry

  /** Truthiness of a header read from a response: absent and "" are falsy. */
  predicate HeaderPresent(header: Option<string>)
  {
    header.Some? && header.value != ""
  }

  /** `JSON.parse(stored || '{}')`: the stored descriptor, or the empty
      request `{}` when none is stored. The descriptor is opaque text. */
  function RequestOptions(stored: Option<string>): (options: string)
  {
    if stored.Some? && stored.value != "" then stored.value else "{}"
  }

  /** Which of the two refresh callbacks of the check-and-refresh hook a
      request was issued with. */
  datatype Callback = ColdStartCallback | ExpiredCallback

  /** What a pre-request hook asks the host to do. */
  datatype Action = NoRequest | SendRequest(options: string, callback: Callback)

  /** The branches of the hosted-login post-response hook. */
  datatype SaveOutcome = MissingLocation | EmptyToken | Saved

  /** The branches of a refresh callback: the request failed, the cold-start
      guard found no `Location` header, the expired-path callback read a
      missing header and threw, or the token was stored. */
  datatype RefreshOutcome = RefreshFailed | RefreshMissingLocation | RefreshCrashed | Refreshed

  /** `response.AuthenticationResult` of an InitiateAuth response body. */
  datatype AuthenticationResult = AuthenticationResult(idToken: Option<string>)

  class TokenStore {
    /** `id_token`; "" stands for a value that is absent or otherwise falsy. */
    var token: string
    /** `id_token_created_at`, in milliseconds; None when absent or not a valid date. */
    var createdAt: Option<int>
    /** `get_token_request`: the serialized descriptor of the hosted-login request. */
    var request: Option<string>

    /** Every hook writes the token and its timestamp together, so a stored
        token is never without a timestamp. */
    ghost predicate Paired()
      reads this
    {
      token != "" ==> createdAt.Some?
    }

    /** The cold start: nothing stored yet. */
    constructor ()
      ensures token == "" && createdAt == None && request == None
      ensures Paired()
    {
      token := "";
      createdAt := None;
      request := None;
    }

    /** The post-response hook of the hosted-login request. The descriptor
        of the request is saved before anything is checked; the token and
        its timestamp are written only when the `Location` header is present
        and the positional extraction yields a non-empty token. */
    method SaveRedirectResponse(requestJson: string, location: Option<string>, now: int)
      returns (outcome: SaveOutcome)
      modifies this
      ensures request == Some(requestJson)
      ensures outcome == MissingLocation <==> !HeaderPresent(location)
      ensures outcome == EmptyToken <==> HeaderPresent(location) && Extract(location.value) == ""
      ensures outcome == Saved ==>
        HeaderPresent(location) && token == Extract(location.value) && token != "" && createdAt == Some(now)
      ensures outcome != Saved ==> token == old(token) && createdAt == old(createdAt)
      ensures old(Paired()) ==> Paired()
    {
      request := Some(requestJson);
      if !HeaderPresent(location) {
        return MissingLocation;
      }
      var idToken := Extract(location.value);
      if !StringTruthy(idToken) {
        return EmptyToken;
      }
      token := idToken;
      createdAt := Some(now);
      outcome := Saved;
    }

    /** The post-response hook of the InitiateAuth request: the token and its
        timestamp are written together when the body has an
        `AuthenticationResult` with a non-empty `IdToken`, whatever was
        stored before; the request descriptor is neither read nor written. */
    method SaveInitiateAuthResponse(result: Option<AuthenticationResult>, now: int)
      returns (saved: bool)
      modifies this`token, this`createdAt
      ensures saved <==> result.Some? && result.value.idToken.Some? && result.value.idToken.value != ""
      ensures saved ==> token == result.value.idToken.value && createdAt == Some(now)
      ensures !saved ==> token == old(token) && createdAt == old(createdAt)
      ensures request == old(request)
      ensures old(Paired()) ==> Paired()
    {
      saved := result.Some? && result.value.idToken.Some? && StringTruthy(result.value.idToken.value);
      if saved {
        token := result.value.idToken.value;
        createdAt := Some(now);
      }
    }

    /** The check-and-refresh pre-request hook. It changes nothing in the
        store: when the token is missing it issues one request with the cold-start
        callback, when it is expired one with the expired-path callback, and
        otherwise none; the request is the stored descriptor, or `{}`. */
    method PreRequestRefresh(now: int) returns (action: Action)
      ensures token == "" ==> action.SendRequest? && action.callback == ColdStartCallback
      ensures token != "" && createdAt.Some? && now - createdAt.value > OneHourMs ==>
        action.SendRequest? && action.callback == ExpiredCallback
      ensures token != "" && (createdAt.None? || now - createdAt.value <= OneHourMs) ==>
        action == NoRequest
      ensures action.SendRequest? && request.Some? && request.value != "" ==>
        action.options == request.value
      ensures action.SendRequest? && (request.None? || request.value == "") ==>
        action.options == "{}"
      ensures Paired() && action == NoRequest ==>
        createdAt.Some? && now - createdAt.value <= OneHourMs
    {
      var options := RequestOptions(request);
      var status := Classify(token, createdAt, now);
      if status == NoToken {
        action := SendRequest(options, ColdStartCallback);
        return;
      }
      if status == TokenExpired {
        action := SendRequest(options, ExpiredCallback);
      } else {
        action := NoRequest;
      }
    }

    /** The callback of a refresh request, run by the host when the response
        arrives. An error leaves the store as it was. The cold-start callback
        returns when the `Location` header is absent or empty; the expired-path
        callback has no such guard and throws on an absent header before any
        write, but goes on with an empty one. Otherwise the extracted token,
        even an empty one, is stored with the current time. */
    method RefreshCallback(callback: Callback, err: bool, location: Option<string>, now: int)
      returns (outcome: RefreshOutcome)
      modifies this`token, this`createdAt
      ensures outcome == RefreshFailed <==> err
      ensures outcome == RefreshMissingLocation <==>
        !err && callback == ColdStartCallback && !HeaderPresent(location)
      ensures outcome == RefreshCrashed <==> !err && callback == ExpiredCallback && location.None?
      ensures outcome == Refreshed ==>
        location.Some? && token == Extract(location.value) && createdAt == Some(now)
      ensures outcome != Refreshed ==> token == old(token) && createdAt == old(createdAt)
      ensures request == old(request)
      ensures old(Paired()) ==> Paired()
    {
      if err {
        return RefreshFailed;
      }
      if callback == ColdStartCallback && !HeaderPresent(location) {
        return RefreshMissingLocation;
      }
      if location.None? {
        return RefreshCrashed;
      }
      token := Extract(location.value);
      createdAt := Some(now);
      outcome := Refreshed;
    }

    /** The check-only pre-request hook: it reports whether the token is
        missing, expired or valid, and writes nothing and sends nothing. */
    method CheckOnly(now: int) returns (status: Status)
      ensures status == NoToken <==> token == ""
      ensures status == TokenExpired <==>
        token != "" && createdAt.Some? && createdAt.value + OneHourMs < now
      ensures status == TokenValid <==>
        token != "" && (createdAt.None? || now <= createdAt.value + OneHourMs)
      ensures Paired() && status == TokenValid ==> createdAt.Some? && now <= createdAt.value + OneHourMs
    {
      status := Classify(token, createdAt, now);
    }
  }

  /** A refresh whose extraction came out empty stores "", and "" is falsy,
      so the next check-and-refresh run takes the cold-start path again; a
      non-empty one keeps later runs quiet for an hour. */
  method RefreshThenCheck(store: TokenStore, callback: Callback, location: string, now: int, later: int)
    returns (action: Action)
    modifies store
    ensures (callback == ExpiredCallback || location != "") && Extract(location) == "" ==>
      action.SendRequest? && action.callback == ColdStartCallback
    ensures (callback == ExpiredCallback || location != "") && Extract(location) != "" &&
            now <= later <= now + OneHourMs ==>
      action == NoRequest
  {
    var outcome := store.RefreshCallback(callback, false, Some(location), now);
    action := store.PreRequestRefresh(later);
  }

  /** The descriptor saved by the hosted-login hook is what a later refresh
      sends, byte for byte. */
  method ReplayStoredRequest(store: TokenStore, requestJson: string, location: Option<string>, now: int, later: int)
    returns (action: Action)
    modifies store
    ensures requestJson != "" && action.SendRequest? ==> action.options == requestJson
  {
    var outcome := store.SaveRedirectResponse(requestJson, location, now);
    action := store.PreRequestRefresh(later);
  }

  /** The life of the cache from a cold start: the first check asks for a
      token, the cold-start callback stores the one in the redirect, a check
      59 minutes later does nothing and one 61 minutes later refreshes. */
  method Lifecycle(start: int) returns (first: Action, second: Action, third: Action, token: string)
    ensures first == SendRequest("{}", ColdStartCallback)
    ensures token == "ABC123"
    ensures second == NoRequest
    ensures third == SendRequest("{}", ExpiredCallback)
  {
    var store := new TokenStore();
    first := store.PreRequestRefresh(start);
    ExtractExample();
    var outcome := store.RefreshCallback(ColdStartCallback, false, Some(".../cb#id_token=ABC123&access_token=XYZ"), start);
    token := store.token;
    second := store.PreRequestRefresh(start + 59 * 60 * 1000);
    third := store.PreRequestRefresh(start + 61 * 60 * 1000);
  }
}
