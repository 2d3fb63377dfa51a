/** The HTTP client wrapper: the configuration its constructor hands to axios
    and axios-retry, the retry predicate, and the response-error interceptor
    that turns every axios error into an `ApiException`. The network exchange
    itself (including the retries axios-retry performs) is a parameter. */
module ApiClientModel {
  import opened Types

  /** `API_CONFIG` and `DEFAULT_HEADERS` of the constants module the client imports. */
  const BASE_URL: string := "https://product-catalog-api-1t6o.onrender.com"
  const TIMEOUT_MS: nat := 10000
  const RETRY_ATTEMPTS: nat := 3
  const DEFAULT_HEADERS: map<string, string> :=
    map["Content-Type" := "application/json", "Accept" := "application/json"]

  /** What the interceptor reads of an error body: `responseData?.message` and
      `responseData?.error`, None when absent (or when the body has no such field). */
  datatype ErrorBody = ErrorBody(message: Option<string>, error: Option<string>)

  datatype ErrorResponse = ErrorResponse(status: int, statusText: string, data: ErrorBody)

  /** An `AxiosError`: its message, the response when the server answered, and
      whether a request was sent (`error.request` set). */
  datatype AxiosError = AxiosError(message: string, response: Option<ErrorResponse>, requestSent: bool)

  /** A JS value that is a string or absent is truthy when it is a non-empty string. */
  predicate Truthy(s: Option<string>)
  {
    s.Some? && s.value != ""
  }

  /** `c[0] || c[1] || ... || fallback`. */
  function FirstTruthy(candidates: seq<Option<string>>, fallback: string): (r: string)
    ensures (forall i :: 0 <= i < |candidates| ==> !Truthy(candidates[i])) ==> r == fallback
    ensures forall k :: 0 <= k < |candidates| && Truthy(candidates[k])
                        && (forall i :: 0 <= i < k ==> !Truthy(candidates[i]))
                        ==> r == candidates[k].value
    ensures r == fallback || exists k :: 0 <= k < |candidates| && Truthy(candidates[k]) && r == candidates[k].value
  {
    if candidates == [] then fallback
    else if Truthy(candidates[0]) then candidates[0].value
    else FirstTruthy(candidates[1..], fallback)
  }

  const NETWORK_ERROR: ApiException :=
    ApiException("Network error - no response from server", 0, "Network Error")

  /** The response-error interceptor. */
  function ToApiException(e: AxiosError): (x: ApiException)
    ensures x.message != ""
    ensures e.response.Some? ==>
              && x.status == e.response.value.status
              && x.statusText == e.response.value.statusText
              && x.message == FirstTruthy([e.response.value.data.message, e.response.value.data.error,
                                           Some(e.message)], "Server error")
    ensures e.response.None? && e.requestSent ==> x == NETWORK_ERROR
    ensures e.response.None? && !e.requestSent ==>
              && x.status == 0 && x.statusText == "Request Error"
              && x.message == (if e.message != "" then e.message else "Request failed")
  {
    match e.response
    case Some(resp) =>
      ApiException(FirstTruthy([resp.data.message, resp.data.error, Some(e.message)], "Server error"),
                   resp.status, resp.statusText)
    case None =>
      if e.requestSent then NETWORK_ERROR
      else ApiException(FirstTruthy([Some(e.message)], "Request failed"), 0, "Request Error")
  }

  /** The `retryCondition` given to axios-retry; `libraryVerdict` is
      `isNetworkOrIdempotentRequestError(error)`. A response status of 0 is
      falsy and counts as no status. */
  function RetryCondition(libraryVerdict: bool, e: AxiosError): (retry: bool)
    ensures retry <==> libraryVerdict || (e.response.Some? && e.response.value.status >= 500)
  {
    libraryVerdict
    || (if e.response.Some? && e.response.value.status != 0 then e.response.value.status >= 500 else false)
  }

  /** How the response-error interceptor sees an `ApiException` thrown into
      it: an error with no `response` and no `request`. */
  function AsAxiosError(x: ApiException): (e: AxiosError)
    ensures e.response.None? && !e.requestSent && e.message == x.message
  {
    AxiosError(x.message, None, false)
  }

  /** What a request that ended with `e` after `retries` retries rejects
      with. axios-retry's interceptor is registered first and re-issues the
      request through the same instance, so the retried request's own
      interceptors turn its failure into an `ApiException`, and the custom
      interceptor then runs again, once per retry, on that exception. */
  function Intercepted(e: AxiosError, retries: nat): (x: ApiException)
    ensures x.message == ToApiException(e).message
    ensures retries == 0 ==> x == ToApiException(e)
    ensures retries > 0 ==> x.status == 0 && x.statusText == "Request Error"
  {
    if retries == 0 then ToApiException(e)
    else ToApiException(AsAxiosError(Intercepted(e, retries - 1)))
  }

  /** A retried failure loses its HTTP status: a 5xx answer that was retried
      reaches the caller as status 0 'Request Error' with the last attempt's
      message, and every further retry leaves that exception as it is. */
  lemma RetriedFailureLosesStatus(e: AxiosError, retries: nat)
    requires retries > 0
    ensures Intercepted(e, retries) == ApiException(ToApiException(e).message, 0, "Request Error")
    ensures Intercepted(e, retries + 1) == Intercepted(e, retries)
  {
  }

  /** The outcome of one request after axios-retry is done: a response that
      passed the success interceptor, or the error the last attempt ended
      with and the number of retries issued before it. */
  datatype Transport<T> = Delivered(status: int, statusText: string, data: T)
                        | Failed(error: AxiosError, retries: nat)

  /** `ApiClient`: the configured axios instance, recorded as the settings the
      constructor registers on it. */
  class ApiClient {
    var baseURL: string
    var timeoutMs: nat
    var headers: map<string, string>
    var retries: nat

    constructor ()
      ensures baseURL == BASE_URL && timeoutMs == TIMEOUT_MS
      ensures headers == DEFAULT_HEADERS && retries == RETRY_ATTEMPTS
    {
      baseURL := BASE_URL;
      timeoutMs := TIMEOUT_MS;
      headers := DEFAULT_HEADERS;
      retries := RETRY_ATTEMPTS;
    }

    /** `get<T>(endpoint)`: `response.data` of a delivered response, untouched;
        otherwise the exception the interceptor chain leaves. */
    method Get<T>(outcome: Transport<T>) returns (r: Result<T, ApiException>)
      ensures r.Success? <==> outcome.Delivered?
      ensures outcome.Delivered? ==> r.value == outcome.data
      ensures outcome.Failed? ==> r.error == Intercepted(outcome.error, outcome.retries)
      ensures outcome.Failed? && outcome.retries == 0 ==> r.error == ToApiException(outcome.error)
      ensures r.Failure? ==> r.error.message != ""
    {
      match outcome
      case Delivered(_, _, data) =>
        r := Success(data);
      case Failed(e, retries) =>
        r := Failure(Intercepted(e, retries));
    }
  }
}
