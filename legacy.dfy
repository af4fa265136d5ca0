/**
 * The older handler set (handlers.go): a root page, a "hello" page, a dump
 * of the request headers in name order and the client-address report.
 * Unlike the newer handlers none of these checks the request method, and
 * none uses a template.
 */
module Legacy {
  import opened Text
  import opened Http
  import Sorting
  import RemotePage

  const HeaderContentType := "Content-Type"
  const HTMLContentType := "text/html; charset=UTF-8"
  const HeaderCacheControl := "Cache-Control"
  const NoCache := "no-cache, no-store, must-revalidate"
  const HelloText := "hello\n"

  // Root

  /** What Handler.Root does to w: 404 off "/", otherwise the embedded page as HTML. */
  function RootReply(rootHTML: string, w: Response, path: string): Response {
    if path != "/" then NotFoundReply(w)
    else WithBody(WithHeader(w, HeaderContentType, HTMLContentType), rootHTML)
  }

  /** Handler.Root; the embedded html/root.html is the parameter rootHTML. */
  method Root(rootHTML: string, w: ResponseWriter, r: Request)
    modifies w
    ensures w.Snapshot() == RootReply(rootHTML, old(w.Snapshot()), r.path)
  {
    if r.path != "/" {
      NotFound(w);
      return;
    }
    w.SetHeader(HeaderContentType, HTMLContentType);
    w.Write(rootHTML);
  }

  /** Any path but "/" gets a 404 "404 page not found", whatever the method. */
  lemma RootOtherPath(rootHTML: string, w: Response, path: string)
    requires path != "/" && !w.wroteHeader
    ensures RootReply(rootHTML, w, path).code == StatusNotFound
    ensures RootReply(rootHTML, w, path).body == w.body + "404 page not found\n"
  {
  }

  /** At "/" every method gets status 200, the HTML content type and the page. */
  lemma RootServesPage(rootHTML: string, w: Response)
    requires !w.wroteHeader
    ensures RootReply(rootHTML, w, "/").code == StatusOK
    ensures Get(RootReply(rootHTML, w, "/").header, HeaderContentType) == HTMLContentType
    ensures RootReply(rootHTML, w, "/").body == w.body + rootHTML
  {
  }

  // Hello

  /** What Handler.Hello does to w: a no-cache header, then "hello" and a newline. */
  function HelloReply(w: Response): Response {
    WithBody(WithHeader(w, HeaderCacheControl, NoCache), HelloText)
  }

  /** Handler.Hello */
  method Hello(w: ResponseWriter, r: Request)
    modifies w
    ensures w.Snapshot() == HelloReply(old(w.Snapshot()))
  {
    w.SetHeader(HeaderCacheControl, NoCache);
    w.Write(HelloText);
  }

  /** Every request, of any method or path, gets "hello" with caching forbidden. */
  lemma HelloAnswersAll(w: Response)
    requires !w.wroteHeader
    ensures HelloReply(w).code == StatusOK
    ensures Get(HelloReply(w).header, HeaderCacheControl) == NoCache
    ensures HelloReply(w).body == w.body + "hello\n"
  {
  }

  // Headers

  /** The line for one header name: the name, ": " and its values joined by ", ". */
  function KeyLine(h: Header, key: string): string {
    key + ": " + Join(if key in h then h[key] else [], ", ") + "\n"
  }

  /** The lines for keys, in their order. */
  function KeyLines(h: Header, keys: seq<string>): string {
    if keys == [] then "" else KeyLines(h, keys[..|keys| - 1]) + KeyLine(h, keys[|keys| - 1])
  }

  /** The whole dump: one line per header, in ascending name order. */
  ghost function HeadersText(h: Header): string {
    KeyLines(h, Sorting.SortedKeys(h.Keys))
  }

  /** What Handler.Headers does to w: nothing at all without headers, else the dump. */
  ghost function HeadersReply(w: Response, h: Header): Response {
    if |h| == 0 then w else WithBody(w, HeadersText(h))
  }

  /**
   * Handler.Headers: the header names collected from the map (in whatever
   * order the map yields them), sorted with sort.Strings, then written one
   * line per name.
   */
  method Headers(w: ResponseWriter, r: Request)
    modifies w
    ensures w.Snapshot() == HeadersReply(old(w.Snapshot()), r.header)
  {
    var keys := CollectKeys(r.header);
    var a := new string[|keys|](i requires 0 <= i < |keys| => keys[i]);
    assert a[..] == keys;
    Sorting.StringOrder();
    Sorting.SortSlice(a, Text.Less);
    Sorting.SortedStringsOfSet(a[..], r.header.Keys);
    WriteKeyLines(w, r.header, a[..]);
    assert |a[..]| == |r.header|;
  }

  /** The header's keys, collected in the order the map yields them: each key exactly once. */
  method CollectKeys(h: Header) returns (keys: seq<string>)
    ensures multiset(keys) == multiset(h.Keys)
  {
    keys := [];
    var remaining := h.Keys;
    while remaining != {}
      invariant remaining <= h.Keys
      invariant multiset(keys) + multiset(remaining) == multiset(h.Keys)
      decreases remaining
    {
      var key :| key in remaining;
      keys := keys + [key];
      remaining := remaining - {key};
    }
  }

  /** The printing loop: one Fprintf per key; the first write sets the status. */
  method WriteKeyLines(w: ResponseWriter, h: Header, keys: seq<string>)
    modifies w
    ensures keys == [] ==> w.Snapshot() == old(w.Snapshot())
    ensures keys != [] ==> w.Snapshot() == WithBody(old(w.Snapshot()), KeyLines(h, keys))
  {
    ghost var start := w.Snapshot();
    for i := 0 to |keys|
      invariant w.header == start.header
      invariant w.body == start.body + KeyLines(h, keys[..i])
      invariant i == 0 ==> w.wroteHeader == start.wroteHeader && w.code == start.code
      invariant i > 0 ==> w.wroteHeader && w.code == (if start.wroteHeader then start.code else StatusOK)
    {
      ghost var done := KeyLines(h, keys[..i]);
      var line := KeyLine(h, keys[i]);
      KeyLinesStep(h, keys, i);
      w.Write(line);
      Text.ConcatAssoc(start.body, done, line);
    }
    assert keys[..|keys|] == keys;
  }

  lemma KeyLinesStep(h: Header, keys: seq<string>, i: nat)
    requires i < |keys|
    ensures KeyLines(h, keys[..i + 1]) == KeyLines(h, keys[..i]) + KeyLine(h, keys[i])
  {
    assert keys[..i + 1][..i] == keys[..i];
  }

  /** A request with a single header gets exactly that header's line. */
  lemma OneHeader(h: Header, key: string)
    requires h.Keys == {key}
    ensures HeadersText(h) == key + ": " + Join(h[key], ", ") + "\n"
  {
    Sorting.SortedKeysOf([key], h.Keys);
    assert [key][..0] == [];
    assert KeyLines(h, [key]) == KeyLines(h, []) + KeyLine(h, key);
  }

  /** With two headers, the one whose name sorts first is printed first. */
  lemma TwoHeaders(h: Header, a: string, b: string)
    requires h.Keys == {a, b} && Less(a, b)
    ensures HeadersText(h) == KeyLine(h, a) + KeyLine(h, b)
  {
    LessIrreflexive(a);
    assert forall x :: x in [a, b] <==> x in h.Keys;
    Sorting.SortedKeysOf([a, b], h.Keys);
    KeyLinesPair(h, a, b);
  }

  lemma KeyLinesPair(h: Header, a: string, b: string)
    ensures KeyLines(h, [a, b]) == KeyLine(h, a) + KeyLine(h, b)
  {
    assert [a, b][..1] == [a];
    assert [a][..0] == [];
    assert KeyLines(h, [a]) == KeyLines(h, []) + KeyLine(h, a);
  }

  // RemoteAddr

  /**
   * Handler.RemoteAddr: the same report as the newer client-address page,
   * written the same way (the code is identical).
   */
  method RemoteAddr(w: ResponseWriter, r: Request)
    modifies w
    ensures w.Snapshot() == WithBody(old(w.Snapshot()), RemotePage.RemoteReport(r))
  {
    ghost var s0 := w.Snapshot();
    var first := "RemoteAddr: " + r.remoteAddr + "\n";
    w.Write(first);
    var headers := RemotePage.ForwardingHeaders;
    RemotePage.WriteReportLines(w, r.header, headers);
    RemotePage.AppendAfterWrite(s0, first, RemotePage.ReportLines(r.header, headers));
  }
}
