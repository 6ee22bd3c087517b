/** One fetch attempt through the direct HTTP session, normalised so that a transport
    failure becomes `None`. The session itself is external: it is given as the two
    functions `get` and `post`, which stand for whatever the network answers. */
module Fetch {
  import opened Wrappers

  /** A successful HTTP answer, as far as the crawler reads it. */
  datatype Response = Response(url: string, text: string, status: int)

  /** The typed failure value the session returns instead of raising. */
  datatype ErrorRequest = ErrorRequest(url: string, code: int, errorInfo: string)

  /** What one call to `session.get` or `session.post` yields. */
  datatype Reply = Answered(response: Response) | Failed(error: ErrorRequest)

  /** The session's two request capabilities, each mapping a URL to its reply. */
  datatype Session = Session(get: string -> Reply, post: string -> Reply)

  datatype Verb = Get | Post

  /** `kwargs.get('method') or 'GET'`, then `== 'GET'`: an absent or empty method means
      GET, and so does exactly "GET"; every other string, "get" included, means POST. */
  function SelectVerb(requested: Option<string>): (v: Verb)
    ensures v == Get <==> requested == None || requested == Some("") || requested == Some("GET")
  {
    match requested
    case None => Get
    case Some(m) => if m == "" || m == "GET" then Get else Post
  }

  /** `fetch_content(url, session, method=...)`: one request with the chosen verb; an
      `ErrorRequest` reply becomes `None`, any other reply is handed back unchanged. */
  function FetchContent(url: string, session: Session, requested: Option<string>): (r: Option<Response>)
    ensures SelectVerb(requested) == Get ==> (r.None? <==> session.get(url).Failed?)
    ensures SelectVerb(requested) == Post ==> (r.None? <==> session.post(url).Failed?)
    ensures r.Some? ==> r.value == (if SelectVerb(requested) == Get then session.get(url) else session.post(url)).response
  {
    var reply := if SelectVerb(requested) == Get then session.get(url) else session.post(url);
    match reply
    case Failed(_) => None
    case Answered(response) => Some(response)
  }

  /** The spider passes no `method`, so every attempt it makes is a GET, and the
      outcome depends on `session.get` alone. */
  lemma SpiderFetchIsGet(url: string, session: Session, post': string -> Reply)
    ensures FetchContent(url, session, None) == FetchContent(url, Session(session.get, post'), None)
    ensures FetchContent(url, session, None).None? <==> session.get(url).Failed?
  {
  }
}
