/**
 * The browser's API client (`ApiClient`): the URLs it builds from its base URL,
 * how one request's outcome becomes a value or an error, the all-or-nothing
 * join of the four start-up documents, and the choice between backend and
 * local data when the page starts. `fetch` is a parameter: its outcome.
 */
module ApiClientModel {
  import opened JsStrings
  import AssetsRoutes

  const DefaultBaseUrl := "http://localhost:3000"

  /** A response body that carries its payload in `data`. */
  datatype Envelope<D> = Envelope(data: D)

  /**
   * What `fetch` produced: it rejected (network failure), or a response with its
   * `ok` flag, its status and its body, `None` when the body is not valid JSON.
   */
  datatype HttpOutcome<D> = Unreachable | Answered(ok: bool, status: nat, body: Option<Envelope<D>>)

  /** The parsed documents `loadSiteData` hands to the page. */
  datatype SiteData<D> = SiteData(texts: D, schoolInfo: D, courses: D, config: D)

  class ApiClient {
    const baseUrl: string
    /** Always `baseUrl` followed by `/api`. */
    const apiUrl: string := baseUrl + "/api"

    /** `new ApiClient(baseUrl = 'http://localhost:3000')` */
    constructor (base: Option<string>)
      ensures baseUrl == (if base.Some? then base.value else DefaultBaseUrl)
      ensures apiUrl == baseUrl + "/api"
    {
      baseUrl := if base.Some? then base.value else DefaultBaseUrl;
    }

    /** The URL `request(endpoint)` fetches. */
    function RequestUrl(endpoint: string): (url: string)
      ensures url == baseUrl + "/api" + endpoint
    {
      apiUrl + endpoint
    }

    /** `getLogoUrl()` */
    function LogoUrl(): (url: string)
      ensures url == RequestUrl("/assets/logo")
    {
      baseUrl + "/api/assets/logo"
    }

    /** `getImageUrl(filename)` */
    function ImageUrl(filename: string): (url: string)
      ensures url == RequestUrl("/assets/images/" + filename)
    {
      baseUrl + "/api/assets/images/" + filename
    }

    /** `getVideoUrl(filename)` */
    function VideoUrl(filename: string): (url: string)
      ensures url == RequestUrl("/assets/videos/" + filename)
    {
      baseUrl + "/api/assets/videos/" + filename
    }

    /** The URL `isBackendAvailable` probes: the config document of the content API. */
    function ProbeUrl(): (url: string)
      ensures url == RequestUrl("/content/config")
    {
      baseUrl + "/api/content/config"
    }
  }

  /**
   * `request(endpoint)`: the parsed body of an `ok` response; a rejected fetch, a
   * non-`ok` status or a body that is not JSON all end in a thrown error (`None`).
   */
  function Request<D>(outcome: HttpOutcome<D>): (r: Option<Envelope<D>>)
    ensures r.Some? <==> outcome.Answered? && outcome.ok && outcome.body.Some?
    ensures r.Some? ==> r == outcome.body
  {
    if outcome.Answered? && outcome.ok then outcome.body else None
  }

  /** `isBackendAvailable()`: `response.ok`, and `false` when `fetch` rejects. */
  function IsBackendAvailable<D>(probe: HttpOutcome<D>): (available: bool)
    ensures available <==> probe.Answered? && probe.ok
  {
    match probe
    case Unreachable => false
    case Answered(ok, _, _) => ok
  }

  /**
   * `loadSiteData()`: `null` as soon as any of the four requests fails, otherwise
   * exactly the `data` of each answer.
   */
  function LoadSiteData<D>(texts: Option<Envelope<D>>, schoolInfo: Option<Envelope<D>>,
                           courses: Option<Envelope<D>>, config: Option<Envelope<D>>): (r: Option<SiteData<D>>)
    ensures r.Some? <==> texts.Some? && schoolInfo.Some? && courses.Some? && config.Some?
    ensures r.Some? ==> r.value == SiteData(texts.value.data, schoolInfo.value.data, courses.value.data, config.value.data)
  {
    if texts.Some? && schoolInfo.Some? && courses.Some? && config.Some? then
      Some(SiteData(texts.value.data, schoolInfo.value.data, courses.value.data, config.value.data))
    else
      None
  }

  /** Which data the page ends up initialised with. */
  datatype Source = Backend | Local

  /**
   * `initializeSiteWithBackend()`: the backend's documents are used only when the
   * probe succeeds, the bundle is not `null` and updating the page does not throw;
   * in every other case the local data are installed.
   */
  function InitializeSite<D>(available: bool, siteData: Option<SiteData<D>>, renderThrows: bool): (s: Source)
    ensures s == Local <==> !available || siteData.None? || renderThrows
  {
    if available && siteData.Some? && !renderThrows then Backend else Local
  }

  /** A single failed request anywhere makes the page start from local data. */
  lemma OneFailureMeansLocal<D>(probe: HttpOutcome<D>, texts: HttpOutcome<D>, schoolInfo: HttpOutcome<D>,
                                courses: HttpOutcome<D>, config: HttpOutcome<D>, renderThrows: bool)
    requires Request(texts).None? || Request(schoolInfo).None? || Request(courses).None? || Request(config).None?
    ensures InitializeSite(IsBackendAvailable(probe),
                           LoadSiteData(Request(texts), Request(schoolInfo), Request(courses), Request(config)),
                           renderThrows) == Local
  {
  }

  /**
   * The client's image and video URLs are the server's listing URLs under the
   * client's base URL, so every listed entry is reachable from the browser.
   */
  lemma ClientUrlsMatchListing(client: ApiClient, listing: seq<string>, dir: string, a: AssetsRoutes.Asset)
    requires a in AssetsRoutes.ListImages(Some(listing), dir).data.value
    ensures client.ImageUrl(a.filename) == client.baseUrl + a.url
  {
  }

  /** The same for videos. */
  lemma ClientVideoUrlsMatchListing(client: ApiClient, listing: seq<string>, dir: string, a: AssetsRoutes.Asset)
    requires a in AssetsRoutes.ListVideos(Some(listing), dir).data.value
    ensures client.VideoUrl(a.filename) == client.baseUrl + a.url
  {
  }
}
