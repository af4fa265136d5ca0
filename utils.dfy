/**
 * Helpers shared by the handlers (utils.go): the method gate every handler
 * runs first, and the client address as the server reports it.
 */
module Utils {
  import opened Text
  import opened Http

  const HeaderAllow := "Allow"
  const HeaderRealIP := "X-Real-IP"

  /** The Allow header ValidMethod sends: the allowed methods and OPTIONS. */
  function AllowList(allowed: seq<string>): string {
    Join(allowed + [MethodOptions], ", ")
  }

  /**
   * OPTIONS always closes the list, even when the handler allows it already
   * (a request with an allowed method never gets an Allow header).
   */
  lemma AllowListShape(allowed: seq<string>)
    ensures allowed == [] ==> AllowList(allowed) == MethodOptions
    ensures allowed != [] ==> AllowList(allowed) == Join(allowed, ", ") + ", " + MethodOptions
  {
    if allowed == [] {
      assert allowed + [MethodOptions] == [MethodOptions];
    } else {
      JoinSnoc(allowed, MethodOptions, ", ");
    }
  }

  /** The three ways ValidMethod can end. */
  datatype Outcome = Pass | Preflight | Refused

  /** Which of the three a request method meets. */
  function Decide(verb: string, allowed: seq<string>): (o: Outcome)
    ensures o == Pass <==> verb in allowed
    ensures o == Preflight <==> verb !in allowed && verb == MethodOptions
    ensures o == Refused <==> verb !in allowed && verb != MethodOptions
  {
    if verb in allowed then Pass else if verb == MethodOptions then Preflight else Refused
  }

  /** The status each outcome leaves on a response not yet written: untouched, 204 or 405. */
  lemma OutcomeStatus(w: Response, verb: string, allowed: seq<string>)
    requires !w.wroteHeader
    ensures Decide(verb, allowed) == Preflight ==> GateReply(w, verb, allowed).code == StatusNoContent
    ensures Decide(verb, allowed) == Preflight ==> GateReply(w, verb, allowed).body == w.body
    ensures Decide(verb, allowed) == Refused ==> GateReply(w, verb, allowed).code == StatusMethodNotAllowed
  {
  }

  /** The body of the 405 reply ValidMethod sends for a method the handler refuses. */
  function RefusalText(verb: string): (t: string)
    ensures t == verb + " Method Not Allowed"
  {
    verb + " " + StatusText(StatusMethodNotAllowed)
  }

  /** The Allow header set by ValidMethod survives http.Error, which only touches three other headers. */
  lemma AllowSurvivesError(w: Response, msg: string, code: int)
    ensures Get(ErrorReply(w, msg, code).header, HeaderAllow) == Get(w.header, HeaderAllow)
  {
    DistinctNames(HeaderAllow, "Content-Length");
    DistinctNames(HeaderAllow, "Content-Type");
    DistinctNames(HeaderAllow, "X-Content-Type-Options");
  }

  /** 405 with "<method> Method Not Allowed" as plain text. */
  function RefuseReply(w: Response, verb: string): (r: Response)
    ensures r.body == w.body + verb + " Method Not Allowed\n"
    ensures r.code == (if w.wroteHeader then w.code else StatusMethodNotAllowed)
    ensures Get(r.header, "Content-Type") == "text/plain; charset=utf-8"
    ensures Get(r.header, "X-Content-Type-Options") == "nosniff"
    ensures Get(r.header, HeaderAllow) == Get(w.header, HeaderAllow)
  {
    var text := RefusalText(verb);
    AllowSurvivesError(w, text, StatusMethodNotAllowed);
    ConcatRegroup(w.body, verb, " Method Not Allowed", "\n");
    RefusalLine();
    ErrorReply(w, text, StatusMethodNotAllowed)
  }

  /** Proof step for RefuseReply: the refusal words and their newline as one literal. */
  lemma RefusalLine()
    ensures " Method Not Allowed" + "\n" == " Method Not Allowed\n"
  {
  }

  /**
   * What ValidMethod does to the response for a method not in `allowed`:
   * advertise the allowed methods, then answer an OPTIONS request with 204
   * and no body, and anything else with http.Error and 405.
   */
  function GateReply(w: Response, verb: string, allowed: seq<string>): (r: Response)
    ensures Get(r.header, HeaderAllow) == AllowList(allowed)
    ensures verb == MethodOptions ==>
              r.body == w.body && r.code == (if w.wroteHeader then w.code else StatusNoContent)
    ensures verb != MethodOptions ==>
              && r.body == w.body + verb + " Method Not Allowed\n"
              && r.code == (if w.wroteHeader then w.code else StatusMethodNotAllowed)
              && Get(r.header, "Content-Type") == "text/plain; charset=utf-8"
  {
    var w1 := WithHeader(w, HeaderAllow, AllowList(allowed));
    if verb == MethodOptions then WithStatus(w1, StatusNoContent) else RefuseReply(w1, verb)
  }

  /**
   * ValidMethod(w, r, allowed...): true exactly when the request's method
   * is allowed, and then the response is untouched; otherwise the response
   * is GateReply's and the handler must stop.
   */
  method ValidMethod(w: ResponseWriter, r: Request, allowed: seq<string>) returns (ok: bool)
    modifies w
    ensures ok <==> r.verb in allowed
    ensures ok <==> Decide(r.verb, allowed) == Pass
    ensures ok ==> w.Snapshot() == old(w.Snapshot())
    ensures !ok ==> w.Snapshot() == GateReply(old(w.Snapshot()), r.verb, allowed)
  {
    if r.verb in allowed {
      return true;
    }
    var methods := allowed + [MethodOptions];
    w.SetHeader(HeaderAllow, Join(methods, ", "));
    if r.verb == MethodOptions {
      w.WriteHeader(StatusNoContent);
      return false;
    }
    var txt := r.verb + " " + StatusText(StatusMethodNotAllowed);
    Error(w, txt, StatusMethodNotAllowed);
    return false;
  }

  /** A PUT to a GET-only handler before anything was written: 405, its text, and GET and OPTIONS advertised. */
  lemma RefusedPut(w: Response)
    requires !w.wroteHeader
    ensures var r := GateReply(w, MethodPut, [MethodGet]);
            && r.code == StatusMethodNotAllowed
            && r.body == w.body + "PUT Method Not Allowed\n"
            && Get(r.header, HeaderAllow) == "GET, OPTIONS"
  {
    assert AllowList([MethodGet]) == "GET, OPTIONS";
    var tail := " Method Not Allowed\n";
    assert MethodPut + tail == "PUT Method Not Allowed\n";
    assert w.body + MethodPut + tail == w.body + (MethodPut + tail);
  }

  /** Preflight: OPTIONS is always answered with 204 and an empty body unless the handler allows it itself. */
  lemma OptionsPreflight(allowed: seq<string>)
    requires MethodOptions !in allowed
    ensures var r := GateReply(Unwritten, MethodOptions, allowed);
            && r.code == StatusNoContent && r.body == ""
            && Get(r.header, HeaderAllow) == AllowList(allowed)
  {
  }

  /** RealIP(r): the first X-Real-IP value when it is non-empty, else RemoteAddr. */
  function RealIP(r: Request): (ip: string)
    ensures Get(r.header, HeaderRealIP) != "" ==> ip == Get(r.header, HeaderRealIP)
    ensures Get(r.header, HeaderRealIP) == "" ==> ip == r.remoteAddr
  {
    var realIP := Get(r.header, HeaderRealIP);
    if realIP == "" then r.remoteAddr else realIP
  }

  /** A proxy's X-Real-IP wins over the connection address however the proxy spells the name. */
  lemma RealIPFromProxy(r: Request, name: string, ip: string)
    requires ToLower(name) == "x-real-ip"
    requires ip != ""
    ensures RealIP(r.(header := Set(r.header, name, ip))) == ip
  {
    RealIPNameIsToken();
    SameNameAnyCase(HeaderRealIP, name);
  }

  /** Proof step for RealIPFromProxy: X-Real-IP is a valid header name. */
  lemma RealIPNameIsToken()
    ensures ToLower(HeaderRealIP) == "x-real-ip"
    ensures IsToken(HeaderRealIP)
  {
    RealIPNameLowered();
    assert IsToken(HeaderRealIP[5..]);
  }

  /** Proof step for RealIPNameIsToken. */
  lemma RealIPNameLowered()
    ensures ToLower(HeaderRealIP) == "x-real-ip"
  {
  }

  /** Without the header, or with an empty one, the connection address is reported. */
  lemma RealIPFallback(r: Request)
    requires CanonicalKey(HeaderRealIP) !in r.header || r.header[CanonicalKey(HeaderRealIP)] == [] ||
             r.header[CanonicalKey(HeaderRealIP)][0] == ""
    ensures RealIP(r) == r.remoteAddr
  {
  }
}
