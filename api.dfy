/**
 * The request-building half of the API client and the referral-link
 * template. The fetch itself, the JSON bodies and the environment variables
 * are outside the model: base URLs and the stored token are parameters.
 */
module Api {
  import opened Wrappers

  const ContentType: string := "Content-Type"
  const Authorization: string := "Authorization"
  const JsonMediaType: string := "application/json"

  /** The part of a referral link between the base URL and the code. */
  function LinkInfix(urlPath: Option<string>): string {
    if urlPath.Some? && urlPath.value != "" then urlPath.value + "?ref=" else "/r/"
  }

  /**
   * `generateReferralLink`: with a non-empty path, base + path + "?ref=" +
   * code; with an absent, null or empty path, base + "/r/" + code. Nothing
   * is escaped.
   */
  function GenerateReferralLink(baseUrl: string, code: string, urlPath: Option<string>): (link: string)
    ensures urlPath.Some? && urlPath.value != "" ==> link == baseUrl + urlPath.value + "?ref=" + code
    ensures urlPath.None? || urlPath.value == "" ==> link == baseUrl + "/r/" + code
  {
    if urlPath.Some? && urlPath.value != "" then
      baseUrl + urlPath.value + "?ref=" + code
    else
      baseUrl + "/r/" + code
  }

  /** Reads the referral code back out of a link built for this base URL and path. */
  function CodeOfLink(baseUrl: string, urlPath: Option<string>, link: string): (code: Option<string>)
    ensures code.Some? ==> |link| >= |baseUrl + LinkInfix(urlPath)|
  {
    var prefix := baseUrl + LinkInfix(urlPath);
    if |prefix| <= |link| && link[..|prefix|] == prefix then Some(link[|prefix|..]) else None
  }

  /** The code is inserted verbatim: reading it back yields exactly the code passed in. */
  lemma LinkCodeRoundTrip(baseUrl: string, code: string, urlPath: Option<string>)
    ensures CodeOfLink(baseUrl, urlPath, GenerateReferralLink(baseUrl, code, urlPath)) == Some(code)
  {
    var link := GenerateReferralLink(baseUrl, code, urlPath);
    var prefix := baseUrl + LinkInfix(urlPath);
    assert link == prefix + code;
    assert link[..|prefix|] == prefix;
    assert link[|prefix|..] == code;
  }

  /** Conversely, every link the reader accepts is the one the template builds from the code it reads. */
  lemma LinkCodeComplete(baseUrl: string, urlPath: Option<string>, link: string)
    requires CodeOfLink(baseUrl, urlPath, link).Some?
    ensures GenerateReferralLink(baseUrl, CodeOfLink(baseUrl, urlPath, link).value, urlPath) == link
  {
    var prefix := baseUrl + LinkInfix(urlPath);
    assert link == link[..|prefix|] + link[|prefix|..];
  }

  /** For a fixed base and path, different codes give different links. */
  lemma LinkInjectiveInCode(baseUrl: string, c1: string, c2: string, urlPath: Option<string>)
    requires c1 != c2
    ensures GenerateReferralLink(baseUrl, c1, urlPath) != GenerateReferralLink(baseUrl, c2, urlPath)
  {
    LinkCodeRoundTrip(baseUrl, c1, urlPath);
    LinkCodeRoundTrip(baseUrl, c2, urlPath);
  }

  /**
   * The header dictionary of `apiRequest`: Content-Type first, overridden by
   * the caller's headers, then Authorization set in place when a non-empty
   * token is stored.
   */
  method BuildHeaders(callerHeaders: map<string, string>, token: Option<string>) returns (headers: map<string, string>)
    ensures ContentType in headers
    ensures headers[ContentType] == if ContentType in callerHeaders then callerHeaders[ContentType] else JsonMediaType
    ensures token.Some? && token.value != "" ==> Authorization in headers && headers[Authorization] == "Bearer " + token.value
    ensures !(token.Some? && token.value != "") ==>
              (Authorization in headers <==> Authorization in callerHeaders)
              && (Authorization in callerHeaders ==> headers[Authorization] == callerHeaders[Authorization])
    ensures forall k :: k in callerHeaders && k != ContentType && k != Authorization ==>
              k in headers && headers[k] == callerHeaders[k]
    ensures forall k :: k in headers ==> k in callerHeaders || k == ContentType || k == Authorization
  {
    headers := map[ContentType := JsonMediaType] + callerHeaders;
    if token.Some? && token.value != "" {
      headers := headers[Authorization := "Bearer " + token.value];
    }
  }

  /** The URL `apiRequest` fetches: the base URL followed by the endpoint. */
  function RequestUrl(baseUrl: string, endpoint: string): (url: string)
    ensures |url| == |baseUrl| + |endpoint|
    ensures url[..|baseUrl|] == baseUrl && url[|baseUrl|..] == endpoint
  {
    baseUrl + endpoint
  }

  /**
   * The message thrown on a non-ok response: the body's `error` field when it
   * is present and non-empty, else "API request failed: " + statusText. An
   * unparseable body counts as `{}` (no `error` field).
   */
  function FailureMessage(errorField: Option<string>, statusText: string): (message: string)
    ensures |message| > 0
    ensures errorField.Some? && errorField.value != "" ==> message == errorField.value
    ensures !(errorField.Some? && errorField.value != "") ==> message == "API request failed: " + statusText
  {
    if errorField.Some? && errorField.value != "" then errorField.value
    else "API request failed: " + statusText
  }

  /** What the page sees from one response. */
  datatype Outcome<T> = Parsed(body: T) | Thrown(message: string)

  /** `apiRequest` after the fetch: an ok response yields its body, any other throws a non-empty message. */
  function ResponseOutcome<T>(ok: bool, body: T, errorField: Option<string>, statusText: string): (r: Outcome<T>)
    ensures r.Parsed? <==> ok
    ensures r.Parsed? ==> r.body == body
    ensures r.Thrown? ==> |r.message| > 0
  {
    if ok then Parsed(body) else Thrown(FailureMessage(errorField, statusText))
  }
}
