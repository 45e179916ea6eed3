/**
 The webhook publisher of release_push.py (`post_webhook`): truncation of the changelog,
 the Discord payload record, the `no-webhook` short-circuit and the containment of errors.

 The clock read is the `now` parameter (an ISO-8601 text without the trailing `Z`); the
 HTTP exchange is the `http` parameter, which answers the one request it is handed with a
 response body or with the text of the exception `urlopen` raised. JSON encoding is not
 modelled: the payload is the record that `json.dumps` would serialise.
 */
module Publisher {
  import opened Text
  import UrlRequest

  const BotName := "Release Bot"
  const MaxDescription := 3900
  const Ellipsis := "\n..."
  const NoWebhook := "no-webhook"
  const JsonContentType := "application/json"

  datatype Embed = Embed(title: string, description: string, timestamp: string)
  datatype Payload = Payload(username: string, embeds: seq<Embed>)
  datatype Request = Request(url: string, contentType: string, payload: Payload)

  /** What `urlopen(req, timeout=15)` did: answered with a status and a body, or raised. */
  datatype HttpOutcome = Response(status: int, body: string) | Failure(message: string)

  /** The pair `post_webhook` returns, together with the request it handed to `urlopen`. */
  datatype Posted = Posted(ok: bool, response: string, sent: Option<Request>)

  /** `post_webhook` as written either returns or lets an exception escape. */
  datatype PostOutcome = Returned(posted: Posted) | Raised(message: string)

  /** The embed description: the stripped changelog, cut to 3900 characters with a
      `"\n..."` marker when it is longer. */
  function Description(changelog: string): (d: string)
    ensures |Strip(changelog)| <= MaxDescription ==> d == Strip(changelog)
    ensures |Strip(changelog)| > MaxDescription ==>
              |d| == MaxDescription + |Ellipsis| &&
              d[..MaxDescription] == Strip(changelog)[..MaxDescription] &&
              d[MaxDescription..] == Ellipsis
    ensures |d| <= 3904
  {
    var s := Strip(changelog);
    if |s| > MaxDescription then s[..MaxDescription] + Ellipsis else s
  }

  /** The payload: the bot name and one embed with the title, the description and the
      timestamp stamped with `Z`. */
  function BuildPayload(title: string, changelog: string, now: string): Payload
  {
    Payload(BotName, [Embed(title, Description(changelog), now + "Z")])
  }

  /** The `try` block: a response gives `(True, body)`, any exception `(False, str(e))`. */
  function Deliver(req: Request, http: Request -> HttpOutcome): Posted
  {
    match http(req)
    case Response(_, body) => Posted(true, body, Some(req))
    case Failure(message) => Posted(false, message, Some(req))
  }

  /** `post_webhook` as written: the `Request` is constructed before the `try`, so a webhook
      that urllib does not accept raises out of the function. */
  function PostWebhookAsWritten(webhook: Option<string>, changelog: string, title: string, now: string,
                                http: Request -> HttpOutcome): PostOutcome
  {
    if !Truthy(webhook) then Returned(Posted(false, NoWebhook, None))
    else if !UrlRequest.Accepts(webhook.value) then Raised(UrlRequest.UnknownUrlType(webhook.value))
    else Returned(Deliver(Request(webhook.value, JsonContentType, BuildPayload(title, changelog, now)), http))
  }

  /** `post_webhook` with the request construction inside the error containment, as its
      callers expect: it always returns `(ok, text)`. */
  function PostWebhook(webhook: Option<string>, changelog: string, title: string, now: string,
                       http: Request -> HttpOutcome): (r: Posted)
    ensures !Truthy(webhook) ==> r == Posted(false, NoWebhook, None)
    ensures r.sent.Some? <==> Truthy(webhook) && UrlRequest.Accepts(webhook.value)
    ensures r.sent.Some? ==> r.sent.value.url == webhook.value && r.sent.value.contentType == JsonContentType
    ensures r.sent.Some? ==> r.sent.value.payload.username == BotName && |r.sent.value.payload.embeds| == 1
    ensures r.sent.Some? ==> r.sent.value.payload.embeds[0] == Embed(title, Description(changelog), now + "Z")
    ensures r.ok <==> r.sent.Some? && http(r.sent.value).Response?
    ensures r.ok ==> r.response == http(r.sent.value).body
    ensures r.sent.Some? && !r.ok ==> r.response == http(r.sent.value).message
    ensures Truthy(webhook) && r.sent.None? ==> !r.ok && r.response == UrlRequest.UnknownUrlType(webhook.value)
  {
    if !Truthy(webhook) then Posted(false, NoWebhook, None)
    else if !UrlRequest.Accepts(webhook.value) then Posted(false, UrlRequest.UnknownUrlType(webhook.value), None)
    else Deliver(Request(webhook.value, JsonContentType, BuildPayload(title, changelog, now)), http)
  }

  /** As written, `post_webhook` raises exactly for a truthy webhook that urllib rejects; in
      every other case it returns what the corrected `PostWebhook` returns, and where it
      raises the corrected one returns `(False, <the exception's text>)` instead. */
  lemma PostWebhookAsWrittenDiffers(webhook: Option<string>, changelog: string, title: string, now: string,
                                    http: Request -> HttpOutcome)
    ensures PostWebhookAsWritten(webhook, changelog, title, now, http).Raised? <==>
              Truthy(webhook) && !UrlRequest.Accepts(webhook.value)
    ensures PostWebhookAsWritten(webhook, changelog, title, now, http).Returned? ==>
              PostWebhookAsWritten(webhook, changelog, title, now, http).posted ==
              PostWebhook(webhook, changelog, title, now, http)
    ensures PostWebhookAsWritten(webhook, changelog, title, now, http).Raised? ==>
              PostWebhook(webhook, changelog, title, now, http) ==
              Posted(false, PostWebhookAsWritten(webhook, changelog, title, now, http).message, None)
  {
  }

  /** The counterexample: any non-empty webhook without a colon (for instance `abc`, or a
      host name pasted without `https://`) makes `post_webhook` as written raise. */
  lemma SchemelessWebhookRaises(url: string, changelog: string, title: string, now: string,
                                http: Request -> HttpOutcome)
    requires url != "" && ':' !in url
    ensures PostWebhookAsWritten(Some(url), changelog, title, now, http).Raised?
    ensures !PostWebhook(Some(url), changelog, title, now, http).ok
  {
    UrlRequest.NoColonRejected(url);
  }
}
