/**
 * The client's URL helpers. The build-time environment value `NEXT_PUBLIC_API_URL` is a
 * parameter: `None` when it is not set.
 */
module Api {
  import opened Wrappers

  const DevelopmentUrl: string := "http://localhost:8000"

  /** `getApiUrl`: the configured URL when it is set and non-empty, the development server otherwise. */
  function ApiBaseUrl(env: Option<string>): (r: string)
    ensures env.Some? && env.value != "" ==> r == env.value
    ensures env.None? || env.value == "" ==> r == DevelopmentUrl
    ensures r != ""
  {
    match env
    case Some(url) => if url != "" then url else DevelopmentUrl
    case None => DevelopmentUrl
  }

  /** The endpoint with one leading slash removed, if it has one. */
  function CleanEndpoint(endpoint: string): (r: string)
    ensures |endpoint| > 0 && endpoint[0] == '/' ==> "/" + r == endpoint
    ensures (|endpoint| == 0 || endpoint[0] != '/') ==> r == endpoint
  {
    if |endpoint| > 0 && endpoint[0] == '/' then endpoint[1..] else endpoint
  }

  /** `apiUrl`: the base URL, one slash, and the cleaned endpoint. */
  function ApiUrl(env: Option<string>, endpoint: string): (r: string)
    ensures var base := ApiBaseUrl(env);
      |r| > |base| && r[..|base|] == base && r[|base|] == '/' && r[|base| + 1..] == CleanEndpoint(endpoint)
  {
    var base := ApiBaseUrl(env);
    var r := base + "/" + CleanEndpoint(endpoint);
    assert r[..|base|] == base && r[|base| + 1..] == CleanEndpoint(endpoint);
    r
  }

  /** Only one slash is stripped: a second one stays in the endpoint. */
  lemma StripsOneSlash(rest: string)
    ensures CleanEndpoint("//" + rest) == "/" + rest
  {
    assert ("//" + rest)[0] == '/';
    assert ("//" + rest)[1..] == "/" + rest;
  }

  /** With or without its leading slash, an endpoint names the same URL. */
  lemma LeadingSlashOptional(env: Option<string>, endpoint: string)
    requires |endpoint| == 0 || endpoint[0] != '/'
    ensures ApiUrl(env, "/" + endpoint) == ApiUrl(env, endpoint)
  {
    assert ("/" + endpoint)[1..] == endpoint;
  }

  /** An endpoint that does not start with a slash appears verbatim after the base URL and one slash. */
  lemma EndpointVerbatim(env: Option<string>, endpoint: string)
    requires |endpoint| == 0 || endpoint[0] != '/'
    ensures ApiUrl(env, endpoint) == ApiBaseUrl(env) + "/" + endpoint
  {
    var r := ApiUrl(env, endpoint);
    var base := ApiBaseUrl(env);
    assert r == r[..|base|] + [r[|base|]] + r[|base| + 1..];
  }
}
