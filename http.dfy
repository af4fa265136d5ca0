/**
 * The parts of Go's net/http that the handlers touch, reduced to values:
 * header maps with canonical keys, the request, and a response writer that
 * behaves like net/http/httptest's ResponseRecorder (the first status
 * written wins; a body write without a status writes 200 first).
 * http.Error and http.NotFound are modelled as Go documents them.
 */
module Http {
  import Text
  import GoContext

  const MethodGet := "GET"
  const MethodPost := "POST"
  const MethodPut := "PUT"
  const MethodOptions := "OPTIONS"

  const StatusOK := 200
  const StatusNoContent := 204
  const StatusNotFound := 404
  const StatusMethodNotAllowed := 405
  const StatusInternalServerError := 500

  /** http.StatusText for the codes the server uses; "" for any other, as Go answers an unknown code. */
  function StatusText(code: int): (t: string)
    ensures t != "" <==> code in {StatusOK, StatusNoContent, StatusNotFound, StatusMethodNotAllowed, StatusInternalServerError}
    ensures code == StatusOK ==> t == "OK"
    ensures code == StatusNoContent ==> t == "No Content"
    ensures code == StatusNotFound ==> t == "Not Found"
    ensures code == StatusMethodNotAllowed ==> t == "Method Not Allowed"
    ensures code == StatusInternalServerError ==> t == "Internal Server Error"
  {
    if code == StatusOK then "OK"
    else if code == StatusNoContent then "No Content"
    else if code == StatusNotFound then "Not Found"
    else if code == StatusMethodNotAllowed then "Method Not Allowed"
    else if code == StatusInternalServerError then "Internal Server Error"
    else ""
  }

  /** The characters textproto accepts in a header field name (RFC 7230 token characters). */
  predicate IsTokenChar(c: char) {
    || ('a' <= c <= 'z') || ('A' <= c <= 'Z') || ('0' <= c <= '9')
    || c in "!#$%&'*+-.^_`|~"
  }

  /** Every character of s is a token character. */
  predicate IsToken(s: string) {
    s == [] || (IsTokenChar(s[0]) && IsToken(s[1..]))
  }

  function UpperChar(c: char): char {
    if 'a' <= c <= 'z' then (c as int - 32) as char else c
  }

  /** Upper-case the first letter and every letter after a '-', lower-case the rest. */
  function CanonicalFrom(s: string, upper: bool): (r: string)
    ensures |r| == |s|
  {
    if s == [] then []
    else [if upper then UpperChar(s[0]) else Text.LowerChar(s[0])] + CanonicalFrom(s[1..], s[0] == '-')
  }

  /** CanonicalFrom changes only the case of letters, and keeps every '-' in place. */
  lemma {:induction false} CanonicalFromFolds(s: string, upper: bool)
    ensures forall i :: 0 <= i < |s| ==> Text.LowerChar(CanonicalFrom(s, upper)[i]) == Text.LowerChar(s[i])
    ensures forall i :: 0 <= i < |s| ==> (CanonicalFrom(s, upper)[i] == '-' <==> s[i] == '-')
    decreases |s|
  {
    if s != [] {
      CanonicalFromFolds(s[1..], s[0] == '-');
      var r := CanonicalFrom(s, upper);
      assert r[1..] == CanonicalFrom(s[1..], s[0] == '-');
      forall i | 1 <= i < |s| ensures Text.LowerChar(r[i]) == Text.LowerChar(s[i]) && (r[i] == '-' <==> s[i] == '-') {
        assert r[i] == r[1..][i - 1] && s[i] == s[1..][i - 1];
      }
    }
  }

  /**
   * textproto.CanonicalMIMEHeaderKey: "x-real-ip" becomes "X-Real-Ip"; a
   * name holding a character that is not a token character is returned
   * unchanged. Either way only the case of letters changes.
   */
  function CanonicalKey(s: string): (k: string)
    ensures |k| == |s|
  {
    if IsToken(s) then CanonicalFrom(s, true) else s
  }

  /** Canonicalisation changes only the case of letters. */
  lemma CanonicalKeyFolds(s: string)
    ensures forall i :: 0 <= i < |s| ==> Text.LowerChar(CanonicalKey(s)[i]) == Text.LowerChar(s[i])
  {
    CanonicalFromFolds(s, true);
  }

  lemma {:induction false} CanonicalFromIdempotent(s: string, upper: bool)
    ensures CanonicalFrom(CanonicalFrom(s, upper), upper) == CanonicalFrom(s, upper)
    decreases |s|
  {
    if s != [] {
      var r := CanonicalFrom(s, upper);
      assert r[1..] == CanonicalFrom(s[1..], s[0] == '-');
      CanonicalFromIdempotent(s[1..], s[0] == '-');
    }
  }

  /** Changing the case of letters keeps a name a token. */
  lemma {:induction false} CanonicalFromTokens(s: string, upper: bool)
    requires IsToken(s)
    ensures IsToken(CanonicalFrom(s, upper))
    decreases |s|
  {
    if s != [] {
      var r := CanonicalFrom(s, upper);
      assert r[1..] == CanonicalFrom(s[1..], s[0] == '-');
      CanonicalFromTokens(s[1..], s[0] == '-');
    }
  }

  /** Canonicalising a canonical name changes nothing. */
  lemma CanonicalKeyIdempotent(s: string)
    ensures CanonicalKey(CanonicalKey(s)) == CanonicalKey(s)
  {
    if IsToken(s) {
      CanonicalFromTokens(s, true);
      CanonicalFromIdempotent(s, true);
    }
  }

  lemma {:induction false} CanonicalFromCase(a: string, b: string, upper: bool)
    requires |a| == |b|
    requires forall i :: 0 <= i < |a| ==> Text.LowerChar(a[i]) == Text.LowerChar(b[i])
    ensures CanonicalFrom(a, upper) == CanonicalFrom(b, upper)
    decreases |a|
  {
    if a != [] {
      assert Text.LowerChar(a[0]) == Text.LowerChar(b[0]);
      CanonicalFromCase(a[1..], b[1..], a[0] == '-');
    }
  }

  /**
   * Header names are case-insensitive: two spellings of a valid name that
   * differ only in letter case have the same canonical form.
   */
  lemma SameNameAnyCase(a: string, b: string)
    requires Text.ToLower(a) == Text.ToLower(b)
    requires IsToken(a)
    ensures CanonicalKey(a) == CanonicalKey(b)
  {
    TokenAnyCase(a, b);
    forall i | 0 <= i < |a| ensures Text.LowerChar(a[i]) == Text.LowerChar(b[i]) {
      assert Text.ToLower(a)[i] == Text.ToLower(b)[i];
    }
    CanonicalFromCase(a, b, true);
  }

  /** A name spelled in another case is still a token. */
  lemma {:induction false} TokenAnyCase(a: string, b: string)
    requires Text.ToLower(a) == Text.ToLower(b)
    requires IsToken(a)
    ensures IsToken(b)
    decreases |a|
  {
    if a != [] {
      assert Text.LowerChar(a[0]) == Text.ToLower(a)[0] == Text.ToLower(b)[0] == Text.LowerChar(b[0]);
      assert Text.ToLower(a[1..]) == Text.ToLower(a)[1..];
      assert Text.ToLower(b[1..]) == Text.ToLower(b)[1..];
      TokenAnyCase(a[1..], b[1..]);
    }
  }

  /** http.Header: canonical name to the list of values received for it. */
  type Header = map<string, seq<string>>

  /** Header.Get: the first value under the canonical form of key, or "". */
  function Get(h: Header, key: string): (v: string)
    ensures CanonicalKey(key) !in h ==> v == ""
    ensures CanonicalKey(key) in h && h[CanonicalKey(key)] != [] ==> v == h[CanonicalKey(key)][0]
    ensures CanonicalKey(key) in h && h[CanonicalKey(key)] == [] ==> v == ""
  {
    var k := CanonicalKey(key);
    if k in h && |h[k]| > 0 then h[k][0] else ""
  }

  /** Header.Set: the canonical form of key now holds exactly [value]. */
  function Set(h: Header, key: string, value: string): (h': Header)
    ensures h'.Keys == h.Keys + {CanonicalKey(key)}
    ensures h'[CanonicalKey(key)] == [value]
    ensures forall k :: k in h && k != CanonicalKey(key) ==> h'[k] == h[k]
  {
    h[CanonicalKey(key) := [value]]
  }

  /** Get reads back what Set stored, under any spelling Set was given. */
  lemma GetSet(h: Header, key: string, value: string)
    ensures Get(Set(h, key, value), key) == value
  {
  }

  /** Header.Del. */
  function Del(h: Header, key: string): (h': Header)
    ensures h'.Keys == h.Keys - {CanonicalKey(key)}
    ensures forall k :: k in h' ==> h'[k] == h[k]
  {
    h - {CanonicalKey(key)}
  }

  /** Header names that differ other than in letter case are different map entries. */
  lemma DistinctNames(a: string, b: string)
    requires |a| != |b| || exists i :: 0 <= i < |a| && i < |b| && Text.LowerChar(a[i]) != Text.LowerChar(b[i])
    ensures CanonicalKey(a) != CanonicalKey(b)
  {
    if |a| == |b| {
      var i :| 0 <= i < |a| && i < |b| && Text.LowerChar(a[i]) != Text.LowerChar(b[i]);
      CanonicalKeyFolds(a);
      CanonicalKeyFolds(b);
      assert Text.LowerChar(CanonicalKey(a)[i]) != Text.LowerChar(CanonicalKey(b)[i]);
    }
  }

  /**
   * *http.Request, reduced to what the handlers read: the method (`verb`,
   * Go's r.Method), the URL path and its printed form (URL.String()),
   * RemoteAddr, the header map and the (possibly nil) context.
   */
  datatype Request = Request(
    verb: string,
    path: string,
    url: string,
    remoteAddr: string,
    header: Header,
    ctx: GoContext.Context)
  {
    /** Request.Context(): never nil; a request without one answers context.Background(). */
    function Context(): (c: GoContext.Context)
      ensures c.Ctx?
    {
      if ctx.Nil? then GoContext.Background else ctx
    }

    /** Request.WithContext: a shallow copy carrying c (Go panics on a nil c). */
    function WithContext(c: GoContext.Context): (r: Request)
      requires c.Ctx?
      ensures r.ctx == c && r.Context() == c
      ensures r.verb == verb && r.path == path && r.url == url
      ensures r.remoteAddr == remoteAddr && r.header == header
    {
      this.(ctx := c)
    }
  }

  /**
   * What a client can observe of a response: the status code (200 until
   * one is written), whether it has been written, the header map and the
   * body written so far.
   */
  datatype Response = Response(code: int, wroteHeader: bool, header: Header, body: string)

  /** A response nothing has been done to yet (httptest.NewRecorder()). */
  const Unwritten := Response(StatusOK, false, map[], "")

  /** The effect of w.Header().Set(key, value). */
  function WithHeader(w: Response, key: string, value: string): (r: Response)
    ensures r.code == w.code && r.wroteHeader == w.wroteHeader && r.body == w.body
    ensures r.header.Keys == w.header.Keys + {CanonicalKey(key)}
  {
    w.(header := Set(w.header, key, value))
  }

  /** The effect of w.Header().Del(key). */
  function WithoutHeader(w: Response, key: string): (r: Response)
    ensures r.code == w.code && r.wroteHeader == w.wroteHeader && r.body == w.body
    ensures Get(r.header, key) == ""
  {
    w.(header := Del(w.header, key))
  }

  /** The effect of w.WriteHeader(code): only the first status counts. */
  function WithStatus(w: Response, code: int): (r: Response)
    ensures r.wroteHeader && r.header == w.header && r.body == w.body
    ensures r.code == if w.wroteHeader then w.code else code
  {
    if w.wroteHeader then w else w.(code := code, wroteHeader := true)
  }

  /** The effect of w.Write(s): a status of 200 if none was written, then s appended to the body. */
  function WithBody(w: Response, s: string): (r: Response)
    ensures r.wroteHeader && r.header == w.header && r.body == w.body + s
    ensures r.code == if w.wroteHeader then w.code else StatusOK
  {
    WithStatus(w, StatusOK).(body := w.body + s)
  }

  /** Two writes in a row are one write of both: only the first can set the status. */
  lemma WithBodyTwice(w: Response, a: string, b: string)
    ensures WithBody(WithBody(w, a), b) == WithBody(w, a + b)
  {
    assert w.body + a + b == w.body + (a + b);
  }

  /**
   * The effect of http.Error(w, msg, code): drop Content-Length, mark the
   * body as plain text that must not be sniffed, write code, then msg and
   * a newline.
   */
  function ErrorReply(w: Response, msg: string, code: int): (r: Response)
    ensures r.body == w.body + msg + "\n"
    ensures r.wroteHeader && r.code == if w.wroteHeader then w.code else code
    ensures Get(r.header, "Content-Type") == "text/plain; charset=utf-8"
    ensures Get(r.header, "X-Content-Type-Options") == "nosniff"
    ensures CanonicalKey("Content-Length") !in r.header
    ensures forall key :: CanonicalKey(key) !in {CanonicalKey("Content-Length"), CanonicalKey("Content-Type"),
                                                  CanonicalKey("X-Content-Type-Options")}
                         ==> Get(r.header, key) == Get(w.header, key)
  {
    var w3 := w.(header := ErrorHeaders(w.header));
    WithBody(WithStatus(w3, code), msg + "\n")
  }

  /** The header changes http.Error makes before writing. */
  function ErrorHeaders(h: Header): (h': Header)
    ensures Get(h', "Content-Type") == "text/plain; charset=utf-8"
    ensures Get(h', "X-Content-Type-Options") == "nosniff"
    ensures CanonicalKey("Content-Length") !in h'
    ensures forall key :: CanonicalKey(key) !in {CanonicalKey("Content-Length"), CanonicalKey("Content-Type"),
                                                  CanonicalKey("X-Content-Type-Options")}
                         ==> Get(h', key) == Get(h, key)
  {
    var h1 := Del(h, "Content-Length");
    var h2 := Set(h1, "Content-Type", "text/plain; charset=utf-8");
    assert CanonicalKey("X-Content-Type-Options") != CanonicalKey("Content-Type");
    assert CanonicalKey("Content-Length") != CanonicalKey("Content-Type");
    assert CanonicalKey("Content-Length") != CanonicalKey("X-Content-Type-Options");
    Set(h2, "X-Content-Type-Options", "nosniff")
  }

  /** The effect of http.NotFound(w, r). */
  function NotFoundReply(w: Response): (r: Response)
    ensures r.body == w.body + "404 page not found\n"
    ensures r.code == if w.wroteHeader then w.code else StatusNotFound
    ensures Get(r.header, "Content-Type") == "text/plain; charset=utf-8"
  {
    NotFoundLine();
    Text.ConcatAssoc(w.body, "404 page not found", "\n");
    ErrorReply(w, "404 page not found", StatusNotFound)
  }

  /** Proof step for NotFoundReply: the message and its newline as one literal. */
  lemma NotFoundLine()
    ensures "404 page not found" + "\n" == "404 page not found\n"
  {
  }

  /** An http.ResponseWriter that records what is done to it. */
  class ResponseWriter {
    var code: int
    var wroteHeader: bool
    var header: Header
    var body: string

    function Snapshot(): Response
      reads this
    {
      Response(code, wroteHeader, header, body)
    }

    constructor ()
      ensures Snapshot() == Unwritten
    {
      code, wroteHeader, header, body := StatusOK, false, map[], "";
    }

    /** w.Header().Set(key, value) */
    method SetHeader(key: string, value: string)
      modifies this
      ensures Snapshot() == WithHeader(old(Snapshot()), key, value)
    {
      header := Set(header, key, value);
    }

    /** w.Header().Del(key) */
    method DelHeader(key: string)
      modifies this
      ensures Snapshot() == WithoutHeader(old(Snapshot()), key)
    {
      header := Del(header, key);
    }

    /** w.WriteHeader(code); Go panics on a code outside 100..999. */
    method WriteHeader(statusCode: int)
      requires 100 <= statusCode <= 999
      modifies this
      ensures Snapshot() == WithStatus(old(Snapshot()), statusCode)
    {
      if !wroteHeader {
        code, wroteHeader := statusCode, true;
      }
    }

    /** w.Write(s), as done by fmt.Fprint, fmt.Fprintf and fmt.Fprintln. */
    method Write(s: string)
      modifies this
      ensures Snapshot() == WithBody(old(Snapshot()), s)
    {
      WriteHeader(StatusOK);
      body := body + s;
    }
  }

  /** http.Error(w, msg, code) */
  method Error(w: ResponseWriter, msg: string, code: int)
    requires 100 <= code <= 999
    modifies w
    ensures w.Snapshot() == ErrorReply(old(w.Snapshot()), msg, code)
  {
    w.DelHeader("Content-Length");
    w.SetHeader("Content-Type", "text/plain; charset=utf-8");
    w.SetHeader("X-Content-Type-Options", "nosniff");
    w.WriteHeader(code);
    w.Write(msg + "\n");
  }

  /** http.NotFound(w, r) */
  method NotFound(w: ResponseWriter)
    modifies w
    ensures w.Snapshot() == NotFoundReply(old(w.Snapshot()))
  {
    Error(w, "404 page not found", StatusNotFound);
  }
}
