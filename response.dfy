/**
 * The `data` object of a successful `/api/metadata` response: every field of
 * the enriched record with `|| null` applied, and `url` defaulting to the
 * requested URL.
 */
module Response {
  import opened Wrappers
  import opened Metadata
  import opened Enrichment

  /** A response body's data; `None` is JSON `null`. `url` is never null. */
  datatype ResponseData = ResponseData(
    lang: Option<string>,
    author: Option<string>,
    title: Option<string>,
    description: Option<string>,
    publisher: Option<string>,
    image: Option<string>,
    logo: Option<string>,
    url: string,
    date: Option<string>)
  {
    /** The JSON value of field `f` (`url` always has one). */
    function Get(f: Field): Option<string> {
      match f
      case Lang => lang
      case Author => author
      case Title => title
      case Description => description
      case Publisher => publisher
      case Image => image
      case Logo => logo
      case Url => Some(url)
      case Date => date
    }
  }

  /** `v || null` for a string-or-nothing value. */
  function OrNull(v: Option<string>): Option<string> {
    if Truthy(v) then v else None
  }

  /** The object expression of `|| null` defaults built from the enriched record. */
  function Normalize(requestedUrl: string, m: Record): (d: ResponseData)
    ensures forall f :: f != Url ==> (d.Get(f).None? <==> !Truthy(m.Get(f)))
    ensures forall f :: f != Url && Truthy(m.Get(f)) ==> d.Get(f) == m.Get(f)
    ensures Truthy(m.url) ==> d.url == m.url.value
    ensures !Truthy(m.url) ==> d.url == requestedUrl
  {
    ResponseData(
      OrNull(m.lang), OrNull(m.author), OrNull(m.title), OrNull(m.description),
      OrNull(m.publisher), OrNull(m.image), OrNull(m.logo),
      if Truthy(m.url) then m.url.value else requestedUrl,
      OrNull(m.date))
  }

  /** The success path of the route once the page has been fetched and scraped. */
  function Respond(key: Option<string>, requestedUrl: string, scraped: Record, reply: Option<GptReply>): (r: ResponseData)
    ensures !GateOpen(key, scraped) || reply.None? ==> r == Normalize(requestedUrl, scraped)
    ensures forall f :: !Enrichable(f) ==> r.Get(f) == Normalize(requestedUrl, scraped).Get(f)
    ensures forall f :: f != Url ==> r.Get(f) != Some("")
  {
    Normalize(requestedUrl, Enhanced(key, scraped, reply))
  }

  /** Without a usable key, a page with no description gets a null description. */
  lemma NoDescriptionWithoutKey(key: Option<string>, requestedUrl: string, scraped: Record, reply: Option<GptReply>)
    requires !KeyConfigured(key) && !Truthy(scraped.description)
    ensures Respond(key, requestedUrl, scraped, reply).description.None?
  {
  }

  /** A field that would be non-null without enrichment keeps exactly that value with it. */
  lemma EnrichmentFillsOnlyNulls(key: Option<string>, requestedUrl: string, scraped: Record, reply: Option<GptReply>, f: Field)
    requires Normalize(requestedUrl, scraped).Get(f).Some?
    ensures Respond(key, requestedUrl, scraped, reply).Get(f) == Normalize(requestedUrl, scraped).Get(f)
  {
  }

  /** A failed or unparsable reply gives the response of the unenriched record. */
  lemma FailedReplyIsTransparent(key: Option<string>, requestedUrl: string, scraped: Record)
    ensures Respond(key, requestedUrl, scraped, None) == Normalize(requestedUrl, scraped)
  {
  }

  /**
   * A page without a description, a configured key and the reply
   * `{"description":"A generated summary.","author":null,"publisher":null,"lang":"en"}`.
   */
  lemma GeneratedSummaryScenario(key: Option<string>, requestedUrl: string, scraped: Record)
    requires KeyConfigured(key) && scraped.description.None? && scraped.author.None? && scraped.lang.None?
    ensures var d := Respond(key, requestedUrl, scraped,
                             Some(GptReply(Some("A generated summary."), None, None, Some("en"))));
            d.description == Some("A generated summary.") && d.lang == Some("en") && d.author.None?
  {
  }
}
