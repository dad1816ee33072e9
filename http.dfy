/** The shared HTTP client of `src/utils/axios.ts`: the shape of the errors
    it rejects with, and its request and response interceptors. The transport
    itself is abstract: a call's outcome is an `HttpResult` given as input. */
module Http {

  import opened Wrappers
  import opened Browser

  /** The body of an error response: a plain string, or an object that may
      carry a `message` property. */
  datatype ResponseData = TextBody(text: string) | ObjectBody(message: Option<string>)

  datatype ErrorResponse = ErrorResponse(status: int, data: ResponseData)

  /** An axios error: the response when the server answered, whether a request
      went out, and the error's own `message`. */
  datatype ApiError = ApiError(response: Option<ErrorResponse>, requestSent: bool, message: string)

  /** How a call settles: resolved with a response, or rejected with an error. */
  datatype HttpResult<R> = Ok(response: R) | Err(error: ApiError)

  const SignInPath: string := "/signin"
  const AuthorizationHeader: string := "Authorization"

  /** The call was rejected because the server answered 401. */
  predicate IsUnauthorized<R>(result: HttpResult<R>) {
    result.Err? && result.error.response.Some? && result.error.response.value.status == 401
  }

  /** An outgoing request's configuration; `headers` is None when the config
      carries no headers object. */
  class RequestConfig {
    var headers: Option<map<string, string>>

    constructor (h: Option<map<string, string>>)
      ensures headers == h
    {
      headers := h;
    }
  }

  /** The request interceptor: when a token is stored and the config has
      headers, `Authorization` is set to the raw token, with no scheme prefix;
      otherwise the config is left as it was. The same config is returned. */
  method AttachToken(config: RequestConfig, store: TokenStore) returns (out: RequestConfig)
    modifies config
    ensures out == config
    ensures TokenPresent(store.token) && old(config.headers).Some? ==>
      config.headers == Some(old(config.headers).value[AuthorizationHeader := store.token.value])
    ensures !(TokenPresent(store.token) && old(config.headers).Some?) ==>
      config.headers == old(config.headers)
  {
    var token := store.GetItem();
    if TokenPresent(token) && config.headers.Some? {
      config.headers := Some(config.headers.value[AuthorizationHeader := token.value]);
    }
    out := config;
  }

  /** The response interceptor. A response passes through unchanged and every
      error is passed on as a rejection; on the way, a 401 removes the stored
      token and sends the browser to the sign-in page unless it is already
      there. No other outcome touches the token or the location. */
  method InterceptResponse<R>(result: HttpResult<R>, store: TokenStore, location: Location)
    returns (propagated: HttpResult<R>)
    modifies store, location
    ensures propagated == result
    ensures store.token == if IsUnauthorized(result) then None else old(store.token)
    ensures location.navigations ==
      old(location.navigations) + if IsUnauthorized(result) && old(location.pathname) != SignInPath then [SignInPath] else []
    ensures location.pathname == old(location.pathname)
  {
    if result.Err? {
      var response := result.error.response;
      if response.Some? {
        if response.value.status == 401 {
          store.RemoveItem();
          if location.pathname != SignInPath {
            location.AssignHref(SignInPath);
          }
        }
      }
    }
    propagated := result;
  }
}
