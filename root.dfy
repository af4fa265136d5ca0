/**
 * The front page (root_handler.go): method gate first, then the path
 * check, then the root.html template with the application name as title.
 */
module RootPage {
  import opened Http
  import Utils
  import opened Pages

  const RootPath := "/"

  /** The reply RootHandler leaves in w for request r. */
  function RootReply(h: Handler, w: Response, r: Request): Response {
    if r.verb != MethodGet then Utils.GateReply(w, r.verb, [MethodGet])
    else if r.path != RootPath then NotFoundReply(w)
    else RenderReply(h.tmpl, w, RootPageName, RootPageData(h.appName)).reply
  }

  /** RootHandler(w, r) */
  method RootHandler(h: Handler, w: ResponseWriter, r: Request)
    modifies w
    ensures w.Snapshot() == RootReply(h, old(w.Snapshot()), r)
  {
    var ok := Utils.ValidMethod(w, r, [MethodGet]);
    if !ok {
      return;
    }
    if r.path != RootPath {
      NotFound(w);
      return;
    }
    var data := RootPageData(h.appName);
    var err := RenderTemplate(h.tmpl, w, RootPageName, data);
  }

  /** The method is checked before the path: a request that is not a GET never gets 404. */
  lemma MethodBeforePath(h: Handler, w: Response, r: Request)
    requires !w.wroteHeader && r.verb != MethodGet
    ensures RootReply(h, w, r).code != StatusNotFound
    ensures r.verb != MethodOptions ==> RootReply(h, w, r).code == StatusMethodNotAllowed
    ensures r.verb == MethodOptions ==> RootReply(h, w, r).code == StatusNoContent
    ensures Get(RootReply(h, w, r).header, Utils.HeaderAllow) == "GET, OPTIONS"
  {
    assert Utils.AllowList([MethodGet]) == "GET, OPTIONS";
  }

  /** A GET for any other path is the 404 page. */
  lemma OtherPathNotFound(h: Handler, w: Response, r: Request)
    requires !w.wroteHeader && r.verb == MethodGet && r.path != RootPath
    ensures RootReply(h, w, r).code == StatusNotFound
    ensures RootReply(h, w, r).body == w.body + "404 page not found\n"
  {
  }

  /** PUT / is refused with the method named in the reply. */
  lemma PutRefused(h: Handler, w: Response, r: Request)
    requires !w.wroteHeader && r.verb == MethodPut
    ensures RootReply(h, w, r).code == StatusMethodNotAllowed
    ensures RootReply(h, w, r).body == w.body + "PUT Method Not Allowed\n"
    ensures Get(RootReply(h, w, r).header, Utils.HeaderAllow) == "GET, OPTIONS"
  {
    Utils.RefusedPut(w);
  }

  /** GET / shows root.html executed with the application name as title. */
  lemma RootRendered(h: Handler, w: Response, r: Request)
    requires !w.wroteHeader && r.verb == MethodGet && r.path == RootPath && h.tmpl.Some?
    requires h.tmpl.value(RootPageName, RootPageData(h.appName)).Output?
    requires h.tmpl.value(RootPageName, RootPageData(h.appName)).html != ""
    ensures RootReply(h, w, r).code == StatusOK
    ensures RootReply(h, w, r).body == w.body + h.tmpl.value(RootPageName, RootPageData(h.appName)).html
  {
  }
}
