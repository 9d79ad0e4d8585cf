/** The WordPress REST API as the tools see it: request URLs, post statuses, JSON request bodies,
    and the message of a failed request. The HTTP traffic itself is not modelled. */
module WpApi {
  import opened Wrappers
  import opened JsStrings

  const ApiPath := "/wp-json/wp/v2/"

  /** The URL `makeWPRequest` calls: the site, the REST prefix, then the endpoint. */
  function RequestUrl(siteUrl: string, endpoint: string): (url: string)
    ensures |url| == |siteUrl| + |ApiPath| + |endpoint|
    ensures url[..|siteUrl|] == siteUrl
    ensures url[|siteUrl|..|siteUrl| + |ApiPath|] == ApiPath
    ensures url[|siteUrl| + |ApiPath|..] == endpoint
  {
    siteUrl + ApiPath + endpoint
  }

  /** For one site, distinct endpoints are distinct URLs. */
  lemma RequestUrlInjective(siteUrl: string, e1: string, e2: string)
    requires RequestUrl(siteUrl, e1) == RequestUrl(siteUrl, e2)
    ensures e1 == e2
  {
    var u := RequestUrl(siteUrl, e1);
    assert e1 == u[|siteUrl| + |ApiPath|..] == e2;
  }

  datatype Status = Publish | Future | Draft | Pending | Private {
    function Name(): string {
      match this
      case Publish => "publish"
      case Future => "future"
      case Draft => "draft"
      case Pending => "pending"
      case Private => "private"
    }
  }

  datatype Json = JString(text: string) | JNumber(number: int) | JNumbers(numbers: seq<int>)

  /** The verb of the final request; both handlers send theirs as a POST. */
  datatype HttpMethod = Post

  datatype Request = Request(verb: HttpMethod, url: string, body: map<string, Json>)

  /** What a failed axios call throws: an error carrying an HTTP response, whose body may hold a
      message ("" when it holds none), or any other error with its own message. */
  datatype RequestFailure =
    | HttpError(remoteMessage: string, transportMessage: string)
    | OtherError(message: string)

  /** `error.response.data?.message || error.message` */
  function RemoteOrTransport(remoteMessage: string, transportMessage: string): string {
    if remoteMessage != "" then remoteMessage else transportMessage
  }

  /** The message of the error `makeWPRequest` throws: HTTP errors are rewrapped, others rethrown. */
  function ApiErrorMessage(f: RequestFailure): string {
    match f
    case HttpError(remote, transport) => "WordPress API error: " + RemoteOrTransport(remote, transport)
    case OtherError(m) => m
  }

  predicate HasCredentials(siteUrl: string, username: string, password: string) {
    siteUrl != "" && username != "" && password != ""
  }

  const CredentialsMissingMessage := "Error: WordPress credentials not found. Please set WORDPRESS_SITE_URL, WORDPRESS_USERNAME, and WORDPRESS_PASSWORD environment variables or provide them as parameters."

  const NoUpdateDataMessage := "No update data provided. Please specify at least one field to update."

  // ---------------------------------------------------------------- request bodies

  /** An optional string sent under `key` exactly when it is truthy. */
  ghost predicate StringField(data: map<string, Json>, key: string, v: Option<string>) {
    (key in data <==> TruthyString(v)) && (key in data ==> data[key] == JString(v.value))
  }

  /** An optional array sent under `key` exactly when it is given: an array, even [], is truthy. */
  ghost predicate ListField(data: map<string, Json>, key: string, v: Option<seq<int>>) {
    (key in data <==> v.Some?) && (key in data ==> data[key] == JNumbers(v.value))
  }

  /** An optional number sent under `key` exactly when it is truthy (given and not 0). */
  ghost predicate NumberField(data: map<string, Json>, key: string, v: Option<int>) {
    (key in data <==> TruthyNumber(v)) && (key in data ==> data[key] == JNumber(v.value))
  }

  /** An optional status sent under `key` exactly when it is given (every status name is truthy). */
  ghost predicate StatusField(data: map<string, Json>, key: string, v: Option<Status>) {
    (key in data <==> v.Some?) && (key in data ==> data[key] == JString(v.value.Name()))
  }

  const PostKeys: set<string> := {"title", "content", "status", "excerpt", "categories", "tags", "featured_media"}
}
