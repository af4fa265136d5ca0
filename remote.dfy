/**
 * The client-address report (remote_handler.go): the connection address,
 * then the headers proxies commonly use to pass on the client's address,
 * each shown only when present.
 */
module RemotePage {
  import Text
  import opened Http

  /** The headers the report looks at, in the order it shows them. */
  const ForwardingHeaders := ["Cf-Connecting-Ip", "X-Client-Ip", "X-Forwarded-For", "X-Real-Ip"]

  /** The first line of the report: the connection address, labelled. */
  function AddrLine(remoteAddr: string): string {
    "RemoteAddr: " + remoteAddr + "\n"
  }

  /** The line for one header: its first value, or nothing when Get finds none. */
  function HeaderLine(h: Header, name: string): string {
    var val := Get(h, name);
    if val != "" then name + ": " + val + "\n" else ""
  }

  /** The lines for names, in their order. */
  function ReportLines(h: Header, names: seq<string>): string {
    if names == [] then "" else ReportLines(h, names[..|names| - 1]) + HeaderLine(h, names[|names| - 1])
  }

  /** The whole report for r. */
  function RemoteReport(r: Request): string {
    AddrLine(r.remoteAddr) + ReportLines(r.header, ForwardingHeaders)
  }

  /**
   * RemoteHandler: no method check; every request gets the report, written
   * line by line.
   */
  method RemoteHandler(w: ResponseWriter, r: Request)
    modifies w
    ensures w.Snapshot() == WithBody(old(w.Snapshot()), RemoteReport(r))
  {
    ghost var s0 := w.Snapshot();
    var first := "RemoteAddr: " + r.remoteAddr + "\n";
    w.Write(first);
    ghost var s1 := w.Snapshot();
    var names := ForwardingHeaders;
    WriteReportLines(w, r.header, names);
    ghost var lines := ReportLines(r.header, names);
    assert w.Snapshot() == s1.(body := s1.body + lines);
    AppendAfterWrite(s0, first, lines);
  }

  /** Proof step: appending to the body after a write is one longer write. */
  lemma AppendAfterWrite(w: Response, a: string, b: string)
    ensures WithBody(w, a).(body := WithBody(w, a).body + b) == WithBody(w, a + b)
  {
    assert w.body + a + b == w.body + (a + b);
  }

  /** The loop over the header names: one write per header that is present. */
  method WriteReportLines(w: ResponseWriter, h: Header, names: seq<string>)
    requires w.wroteHeader
    modifies w
    ensures w.Snapshot() == old(w.Snapshot()).(body := old(w.body) + ReportLines(h, names))
  {
    ghost var start := w.Snapshot();
    for i := 0 to |names|
      invariant w.wroteHeader && w.code == start.code && w.header == start.header
      invariant w.body == start.body + ReportLines(h, names[..i])
    {
      ghost var before := w.body;
      ghost var line := HeaderLine(h, names[i]);
      WriteHeaderLine(w, h, names[i]);
      assert w.body == before + line;
      ReportLinesStep(h, names, i);
      Text.ConcatAssoc(start.body, ReportLines(h, names[..i]), line);
    }
    assert names[..|names|] == names;
  }

  /** One turn of the loop: write "name: value" when Get finds a value. */
  method WriteHeaderLine(w: ResponseWriter, h: Header, header: string)
    requires w.wroteHeader
    modifies w
    ensures w.wroteHeader && w.code == old(w.code) && w.header == old(w.header)
    ensures w.body == old(w.body) + HeaderLine(h, header)
  {
    var val := Get(h, header);
    if val != "" {
      w.Write(header + ": " + val + "\n");
    } else {
      assert w.body + "" == w.body;
    }
  }

  lemma ReportLinesStep(h: Header, names: seq<string>, i: nat)
    requires i < |names|
    ensures ReportLines(h, names[..i + 1]) == ReportLines(h, names[..i]) + HeaderLine(h, names[i])
  {
    assert names[..i + 1][..i] == names[..i];
  }

  /** Headers that are absent or empty add no lines. */
  lemma {:induction false} ReportLinesSkipEmpty(h: Header, a: seq<string>, b: seq<string>)
    requires forall i :: 0 <= i < |b| ==> Get(h, b[i]) == ""
    ensures ReportLines(h, a + b) == ReportLines(h, a)
    decreases |b|
  {
    if b == [] {
      assert a + b == a;
    } else {
      var c := b[..|b| - 1];
      var ab := a + b;
      assert ab[..|ab| - 1] == a + c;
      assert ab[|ab| - 1] == b[|b| - 1];
      assert HeaderLine(h, b[|b| - 1]) == "";
      assert ReportLines(h, ab) == ReportLines(h, ab[..|ab| - 1]) + HeaderLine(h, ab[|ab| - 1]);
      ReportLinesSkipEmpty(h, a, c);
      assert ReportLines(h, a + c) + "" == ReportLines(h, a + c);
    }
  }

  /** Of names, only the k-th is present: its line is the only one. */
  lemma OnlyLine(h: Header, names: seq<string>, k: nat)
    requires k < |names|
    requires Get(h, names[k]) != ""
    requires forall i :: 0 <= i < |names| && i != k ==> Get(h, names[i]) == ""
    ensures ReportLines(h, names) == names[k] + ": " + Get(h, names[k]) + "\n"
  {
    var before, upto, after := names[..k], names[..k + 1], names[k + 1..];
    assert names == upto + after;
    forall i | 0 <= i < |after| ensures Get(h, after[i]) == "" {
      assert after[i] == names[k + 1 + i];
    }
    ReportLinesSkipEmpty(h, upto, after);
    assert ReportLines(h, names) == ReportLines(h, upto);
    assert upto[..k] == before && upto[k] == names[k];
    assert ReportLines(h, upto) == ReportLines(h, before) + HeaderLine(h, names[k]);
    forall i | 0 <= i < |before| ensures Get(h, before[i]) == "" {
      assert before[i] == names[i];
    }
    ReportLinesSkipEmpty(h, [], before);
    assert [] + before == before;
    assert ReportLines(h, before) == "";
  }

  /** The report always starts with the connection address. */
  lemma ReportStartsWithAddr(r: Request)
    ensures |AddrLine(r.remoteAddr)| <= |RemoteReport(r)|
    ensures RemoteReport(r)[..|AddrLine(r.remoteAddr)|] == AddrLine(r.remoteAddr)
  {
  }

  /** With none of the forwarding headers the report is only the address line. */
  lemma NoForwardingHeaders(r: Request)
    requires forall i :: 0 <= i < |ForwardingHeaders| ==> Get(r.header, ForwardingHeaders[i]) == ""
    ensures RemoteReport(r) == "RemoteAddr: " + r.remoteAddr + "\n"
  {
    ReportLinesSkipEmpty(r.header, [], ForwardingHeaders);
    assert [] + ForwardingHeaders == ForwardingHeaders;
  }

  /** With exactly one of names present, the report is the address line and that header's line. */
  lemma OnlyLineAfterAddr(r: Request, names: seq<string>, k: nat)
    requires k < |names|
    requires Get(r.header, names[k]) != ""
    requires forall i :: 0 <= i < |names| && i != k ==> Get(r.header, names[i]) == ""
    ensures AddrLine(r.remoteAddr) + ReportLines(r.header, names) ==
            AddrLine(r.remoteAddr) + names[k] + ": " + Get(r.header, names[k]) + "\n"
  {
    OnlyLine(r.header, names, k);
    ConcatAfter(AddrLine(r.remoteAddr), names[k], ": ", Get(r.header, names[k]), "\n");
  }

  /** Proof step for OnlyLineAfterAddr: regrouping a concatenation. */
  lemma ConcatAfter(a: string, b: string, c: string, d: string, e: string)
    ensures a + (b + c + d + e) == a + b + c + d + e
  {
  }

  /** With exactly one of them present, the report is the address line and that header's line. */
  lemma OneForwardingHeader(r: Request, k: nat)
    requires k < |ForwardingHeaders|
    requires Get(r.header, ForwardingHeaders[k]) != ""
    requires forall i :: 0 <= i < |ForwardingHeaders| && i != k ==> Get(r.header, ForwardingHeaders[i]) == ""
    ensures RemoteReport(r) ==
            AddrLine(r.remoteAddr) + ForwardingHeaders[k] + ": " + Get(r.header, ForwardingHeaders[k]) + "\n"
  {
    OnlyLineAfterAddr(r, ForwardingHeaders, k);
  }
}
