/**
 * The hello pages (hello_handler.go): after the GET-only gate, ask the
 * client not to cache and send a short greeting, as text or as the
 * embedded hello.html. The embedded file's content is a parameter.
 */
module HelloPage {
  import Text
  import opened Http
  import Utils

  const HeaderCacheControl := "Cache-Control"
  const NoCache := "no-cache, no-store, must-revalidate"

  /** The reply of a hello handler whose page is `page`. */
  function HelloReply(w: Response, r: Request, page: string): Response {
    if r.verb != MethodGet then Utils.GateReply(w, r.verb, [MethodGet])
    else WithBody(WithHeader(w, HeaderCacheControl, NoCache), page)
  }

  /** HelloHandler: fmt.Fprintln(w, "hello"). */
  method HelloHandler(w: ResponseWriter, r: Request)
    modifies w
    ensures w.Snapshot() == HelloReply(old(w.Snapshot()), r, "hello\n")
  {
    var ok := Utils.ValidMethod(w, r, [MethodGet]);
    if !ok {
      return;
    }
    w.SetHeader(HeaderCacheControl, NoCache);
    w.Write("hello\n");
  }

  /** HelloHTMLHandler: fmt.Fprint(w, helloHTML). */
  method HelloHTMLHandler(helloHTML: string, w: ResponseWriter, r: Request)
    modifies w
    ensures w.Snapshot() == HelloReply(old(w.Snapshot()), r, helloHTML)
  {
    var ok := Utils.ValidMethod(w, r, [MethodGet]);
    if !ok {
      return;
    }
    w.SetHeader(HeaderCacheControl, NoCache);
    w.Write(helloHTML);
  }

  /** A GET gets 200, the page verbatim, and the no-cache header. */
  lemma HelloGet(w: Response, r: Request, page: string)
    requires !w.wroteHeader && r.verb == MethodGet
    ensures HelloReply(w, r, page).code == StatusOK
    ensures HelloReply(w, r, page).body == w.body + page
    ensures Get(HelloReply(w, r, page).header, HeaderCacheControl) == NoCache
  {
  }

  /**
   * Any other method gets the gate's reply, and Cache-Control is left as
   * it was: the header is only set once the gate has passed.
   */
  lemma HelloRefused(w: Response, r: Request, page: string)
    requires r.verb != MethodGet
    ensures HelloReply(w, r, page) == Utils.GateReply(w, r.verb, [MethodGet])
    ensures Get(HelloReply(w, r, page).header, HeaderCacheControl) == Get(w.header, HeaderCacheControl)
  {
    CacheControlSurvivesGate(w, r.verb);
  }

  /** The gate sets Allow and http.Error touches three other headers, none of them Cache-Control. */
  lemma CacheControlSurvivesGate(w: Response, verb: string)
    ensures Get(Utils.GateReply(w, verb, [MethodGet]).header, HeaderCacheControl) == Get(w.header, HeaderCacheControl)
  {
    CacheControlIsItsOwnHeader();
  }

  /** Proof step for CacheControlSurvivesGate: Cache-Control is none of the headers the gate touches. */
  lemma CacheControlIsItsOwnHeader()
    ensures CanonicalKey(HeaderCacheControl) != CanonicalKey(Utils.HeaderAllow)
    ensures CanonicalKey(HeaderCacheControl) != CanonicalKey("Content-Length")
    ensures CanonicalKey(HeaderCacheControl) != CanonicalKey("Content-Type")
    ensures CanonicalKey(HeaderCacheControl) != CanonicalKey("X-Content-Type-Options")
  {
    DistinctNames(HeaderCacheControl, Utils.HeaderAllow);
    DistinctNames(HeaderCacheControl, "Content-Length");
    DistinctNames(HeaderCacheControl, "Content-Type");
    DistinctNames(HeaderCacheControl, "X-Content-Type-Options");
  }

  /** A POST before anything was written: 405 with the method named, and no Cache-Control added. */
  lemma HelloPost(w: Response, r: Request, page: string)
    requires !w.wroteHeader && r.verb == MethodPost
    ensures HelloReply(w, r, page).code == StatusMethodNotAllowed
    ensures HelloReply(w, r, page).body == w.body + "POST Method Not Allowed\n"
    ensures Get(HelloReply(w, r, page).header, HeaderCacheControl) == Get(w.header, HeaderCacheControl)
  {
    HelloRefused(w, r, page);
    PostRefusalText();
    Text.ConcatAssoc(w.body, MethodPost, " Method Not Allowed\n");
  }

  /** Proof step for HelloPost: the refusal text spelled out. */
  lemma PostRefusalText()
    ensures MethodPost + " Method Not Allowed\n" == "POST Method Not Allowed\n"
  {
  }
}
