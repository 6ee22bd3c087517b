/** The response record produced by the browser fetch strategy, and the "empty page"
    sentinel it falls back to when a page cannot be rendered. */
module BrowserResponses {

  /** One cookie as the browser reports it: name and value. */
  datatype Cookie = Cookie(name: string, value: string)

  /** `BrowserResponse(url, text, cookies)`: the three values are stored as given. */
  datatype BrowserResponse = BrowserResponse(url: string, text: string, cookies: seq<Cookie>)

  /** Markup of a page with an empty head and an empty body. */
  const EMPTY_PAGE: string := "<html><head></head><body></body></html>"

  /** The sentinel returned for a page that could not be loaded: the URL is kept,
      the body is the empty page and there are no cookies. */
  function EmptyBrowserResponse(url: string): (r: BrowserResponse)
    ensures r.url == url
    ensures r.text == EMPTY_PAGE && r.cookies == []
  {
    BrowserResponse(url, EMPTY_PAGE, [])
  }
}
