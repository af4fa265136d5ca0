/**
 * The handler value (handler.go) and page rendering (template.go). The
 * html/template engine is not part of this model: a parsed template set
 * is a function from (template name, page data) to its output or an
 * execution error.
 */
module Pages {
  import opened Optional
  import opened Http

  const RootPageName := "root.html"
  const HeadersPageName := "headers.html"

  const MsgTemplateError := "Sorry, the server was unable to display this page. Please contact the administrator."
  const ErrNilTemplate := "RenderTemplate: nil template"

  /** HeaderInfo: one request header and all its values. */
  datatype HeaderInfo = HeaderInfo(key: string, value: seq<string>)

  /** The data the pages are executed with: RootPageData and HeadersPageData. */
  datatype PageData =
    | RootPageData(title: string)
    | HeadersPageData(title: string, headers: seq<HeaderInfo>)

  /** The result of executing a template into the buffer. */
  datatype Rendered = Output(html: string) | ExecError(msg: string)

  /** A parsed *template.Template. */
  type Executor = (string, PageData) -> Rendered

  /** Handler: the application name and the templates; a nil template is None. */
  datatype Handler = Handler(appName: string, tmpl: Option<Executor>)

  /** What RenderTemplate returns and leaves in the response. */
  datatype RenderOutcome = RenderOutcome(reply: Response, err: Option<string>)

  /**
   * RenderTemplate(t, w, name, data): a nil template writes nothing and
   * reports it; an execution error sends the 500 page and nothing of the
   * partial output; otherwise the output is copied to w, and an empty
   * output is no write at all.
   */
  function RenderReply(t: Option<Executor>, w: Response, name: string, data: PageData): (o: RenderOutcome)
    ensures t.None? ==> o == RenderOutcome(w, Some(ErrNilTemplate))
    ensures t.Some? && t.value(name, data).ExecError? ==>
              && o.err == Some(t.value(name, data).msg)
              && o.reply.body == w.body + MsgTemplateError + "\n"
              && o.reply.code == (if w.wroteHeader then w.code else StatusInternalServerError)
    ensures t.Some? && t.value(name, data).Output? ==>
              && o.err == None
              && o.reply.body == w.body + t.value(name, data).html
              && o.reply.header == w.header
              && o.reply.code == (if w.wroteHeader || t.value(name, data).html == "" then w.code else StatusOK)
  {
    match t
    case None => RenderOutcome(w, Some(ErrNilTemplate))
    case Some(exec) =>
      match exec(name, data)
      case ExecError(e) => RenderOutcome(ErrorReply(w, MsgTemplateError, StatusInternalServerError), Some(e))
      case Output(html) =>
        if html == "" then RenderOutcome(w, None) else RenderOutcome(WithBody(w, html), None)
  }

  /** RenderTemplate, writing through the response writer. */
  method RenderTemplate(t: Option<Executor>, w: ResponseWriter, name: string, data: PageData) returns (err: Option<string>)
    modifies w
    ensures w.Snapshot() == RenderReply(t, old(w.Snapshot()), name, data).reply
    ensures err == RenderReply(t, old(w.Snapshot()), name, data).err
  {
    if t.None? {
      return Some(ErrNilTemplate);
    }
    var rendered := t.value(name, data);
    if rendered.ExecError? {
      Error(w, MsgTemplateError, StatusInternalServerError);
      return Some(rendered.msg);
    }
    if rendered.html != "" {
      w.Write(rendered.html);
    }
    return None;
  }
}
