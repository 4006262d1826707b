/**
 * What the core receives from the platform it runs on: XML documents as
 * SimpleXML sees them, HTTP responses, and every foreign call (URL
 * validation, the HTTP client, the XML parser, `strtotime`, `parse_url`,
 * `preg_match`, `wp_trim_words`, `rest_url`) as a function value.
 */
module Platform {
  import opened Base

  /** One XML element as SimpleXML exposes it: namespace prefix, local name, attributes, own text and children in document order. */
  datatype Xml = Element(prefix: string, name: string, attrs: map<string, string>, text: string, children: seq<Xml>)

  /** The outcome of `wp_remote_get` / `wp_remote_post`: a `WP_Error`, or a status code, body and headers. */
  datatype HttpResponse =
    | TransportError(message: string)
    | Reply(code: nat, body: string, headers: map<string, string>)

  /** `wp_remote_retrieve_header`: the header's value, or "" when the response has none. */
  function Header(r: HttpResponse, name: string): string {
    if r.Reply? && name in r.headers then r.headers[name] else ""
  }

  /** A feed GET: URL, the conditional headers of sections 3.2 and 3.3 of RFC 7232, and the timeout in seconds. */
  datatype FeedRequest = FeedRequest(url: string, ifNoneMatch: Option<string>, ifModifiedSince: Option<string>, timeout: nat)

  /** The item metadata that travels with a dispatched item. */
  datatype ItemMetadata = ItemMetadata(author: string, categories: seq<string>, pubDate: string)

  /** The JSON body POSTed to a webhook (kept as a record rather than as encoded text). */
  datatype DispatchPayload = DispatchPayload(
    executionId: string,
    webhookId: nat,
    callbackUrl: string,
    authToken: string,
    content: string,
    title: string,
    sourceUrl: string,
    metadata: ItemMetadata,
    processingType: string,
    timestamp: Time)

  /** A webhook POST: target URL, the `X-Auth-Token` header, the body and the timeout in seconds. */
  datatype DispatchRequest = DispatchRequest(url: string, authToken: string, payload: DispatchPayload, timeout: nat)

  /** What `parse_url($url, PHP_URL_HOST)` gives: a host, `null` when the URL has none, `false` when it is malformed. */
  datatype UrlHost = Host(name: string) | NoHost | Malformed

  /** The foreign calls, each a function of its arguments. */
  datatype Env = Env(
    isValidUrl: string -> bool,                // filter_var($url, FILTER_VALIDATE_URL)
    httpGet: FeedRequest -> HttpResponse,      // wp_remote_get
    httpPost: DispatchRequest -> HttpResponse, // wp_remote_post
    parseXml: string -> Option<Xml>,           // simplexml_load_string; None for `false`
    strToTime: string -> Option<Time>,         // strtotime; None for `false`
    urlHost: string -> UrlHost,                // parse_url($url, PHP_URL_HOST)
    pregMatch: (string, string) -> bool,       // preg_match($pattern, $subject) is truthy
    trimWords: (string, nat) -> string,        // wp_trim_words($text, $n)
    restUrl: string -> string,                 // rest_url($path)
    escUrl: string -> string,                  // esc_url($url)
    sanitizeText: string -> string,            // sanitize_text_field($text)
    currentUserId: nat)                        // get_current_user_id()

  /** The REST route webhook callbacks are posted to. */
  const CallbackRoute := "rcp/v1/webhook/callback"
}
