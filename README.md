# go-webserver in Dafny

A model of the request-handling logic of a small diagnostic HTTP server
written in Go. Each request passes through two middlewares before it
reaches a handler:

- AddRequestID stamps the request with an ID made of a random 6-character
  prefix and a per-middleware counter. It sets the ID as the
  `X-Request-ID` response header and stores it in the request context.
- LogRequest binds a request logger (method, URL, client IP, request ID)
  into the context.

The handlers are the root page, "hello" in text and HTML, the sorted
request headers, and the client-address report. Every newer handler except
RemoteHandler first runs the method gate `ValidMethod`; RemoteHandler
answers every method. The older handler set in handlers.go runs no gate
at all. The model also covers the log-level parsing and
listing used by the command line.

Modules follow the Go files:

| module | Go file | flavour in the model |
|---|---|---|
| `RequestId` | request_id.go | `RandomString` is a loop; the middleware is a class with a counter field |
| `Utils` | utils.go | `ValidMethod` changes a response writer; `RealIP` is a function |
| `Log` | log.go | `LogLevels` collects map keys in a loop and sorts them in place; `LogLevel` is a function |
| `RequestLog` | log_request.go | functions over immutable contexts |
| `Pages` | template.go | `RenderTemplate` over an abstract template executor |
| `HeadersPage` | headers_handler.go | `NewHeaderInfo` loops over the map and sorts in place |
| `RootPage`, `HelloPage`, `RemotePage` | root_handler.go, hello_handler.go, remote_handler.go | methods on a response writer |
| `Legacy` | handlers.go | methods on a response writer, with loops |

Supporting modules model the parts of Go's standard library the code
relies on:

- `Http`
  - `http.Header` is a map from canonical key to a list of values.
  - `Header.Get` returns the first value or "".
  - `Request` is a record.
  - `ResponseWriter` is modelled on `httptest.ResponseRecorder`. It is a
    class whose `Snapshot()` gives status, header map and body. Only the
    first `WriteHeader` counts, and `Write` implies 200.
  - Also `http.Error` and `http.NotFound`.
- `GoContext`: `context.Context` is an immutable map keyed by (key type, value).
- `Text`: `strings.Join`, ASCII `strings.ToLower`, and Go's string order.
- `Sorting`: an insertion sort standing in for `sort.Slice`/`sort.Strings`, plus the
  facts that make the sorted result unique.
- `Optional`: an Option type.

Every handler method is proved against a function on response values
(`ensures w.Snapshot() == F(old(w.Snapshot()), ...)`). Lemmas state about
that function what the handler promises.

## Model

| member | source | states |
|---|---|---|
| RequestId.CharsSpelledOut | request_id.go:22-27 | the three alphabets are exactly A–Z, a–z and 0–9, 62 characters in all |
| RequestId.CharAt | request_id.go:22-27 | indices 0..25 give upper-case letters, 26..51 lower-case letters and 52..61 digits, so every index gives an alphanumeric |
| RequestId.Spelled | request_id.go:34-45 | the string drawn from n successful draws has length n, each character is the alphabet at the drawn index, and each is alphanumeric |
| RequestId.FirstFailure | request_id.go:38-41 | the position of the first failing draw: every earlier draw succeeded and this one failed |
| RequestId.RandomString | request_id.go:21-46 | length <= 0 gives "" and "invalid length"; all draws succeeding gives exactly `length` alphanumeric characters and no error; a failing draw gives "" and the error of the first failure, never a partial string |
| RequestId.FirstFailureIsFirst | request_id.go:36-41 | a failing draw at i, with earlier draws succeeding, is the first failure |
| RequestId.InitPrefix | request_id.go:49-51 | the prefix is 6 drawn characters when every draw succeeds, and "" when one fails (the error is discarded) |
| RequestId.DigitValue | request_id.go:55 | a decimal digit's value is below 10 and maps back to the same digit |
| RequestId.Decimal | request_id.go:55 | the decimal form of n is non-empty and all digits |
| RequestId.DecimalRoundTrip | request_id.go:55 | parsing the decimal form of n gives n |
| RequestId.DecimalLength | request_id.go:55 | n < 10^k has at most k decimal digits |
| RequestId.ParseLeadingZeros | request_id.go:55 | leading zeros do not change the parsed value |
| RequestId.ZeroPad | request_id.go:55 | a padded numeral is exactly the width long, and a longer numeral keeps its own length |
| RequestId.GenerateRequestID | request_id.go:54-56 | the ID is always the prefix length plus 10 characters |
| RequestId.DecimalFits | request_id.go:55 | every uint32 has at most 10 decimal digits |
| RequestId.GenerateRequestIDParses | request_id.go:54-56 | the ID starts with the prefix, and its last 10 characters are digits that parse back to the counter |
| RequestId.GenerateRequestIDInjective | request_id.go:54-56 | two counters with the same ID under one prefix are equal |
| RequestId.IdFormat | request_id.go:49-56 | with a successful prefix, every ID is 6 alphanumerics followed by 10 digits |
| RequestId.RequestIdFor | request_id.go:61-64 | the ID of the n-th request through one middleware: the prefix followed by 10 digits, built from the counter n mod 2^32 |
| RequestId.IssuedDistinct | request_id.go:61-64 | the m-th and n-th requests of one instance get different IDs when 1 <= m < n < 2^32 |
| RequestId.CounterWraps | request_id.go:64 | request 2^32 + 1 repeats the ID of request 1, because the uint32 counter wraps |
| RequestId.CounterStep | request_id.go:64 | one wrapping increment of the counter keeps it equal to the request count mod 2^32 |
| RequestId.RequestIDFromContext | request_id.go:73-82 | "" for a nil context, for a missing key and for a value that is not a string |
| RequestId.WithRequestId | request_id.go:65-68 | the request passed on carries a non-nil context in which requestIDKey holds the ID; RequestIdRoundTrip reads it back |
| RequestId.RequestIdRoundTrip | request_id.go:65-82 | an ID stored by the middleware is what RequestIDFromContext returns |
| RequestId.RequestIdMiddleware.constructor | request_id.go:60-61 | a new middleware has its own counter, at 0 |
| RequestId.RequestIdMiddleware.ServeHTTP | request_id.go:63-69 | the n-th request gets counter n mod 2^32, and the header is set to the ID for it; the next request's context holds the same ID, which reads back as the header's value |
| Utils.AllowList | utils.go:23-26 | the Allow value: the allowed methods with OPTIONS appended, joined by ", "; AllowListShape spells out its shape |
| Utils.AllowListShape | utils.go:23-26 | the Allow list is the allowed methods joined by ", " with ", OPTIONS" appended, even when OPTIONS is already allowed |
| Utils.Decide | utils.go:16-38 | exactly one of pass (method allowed), preflight (OPTIONS not allowed) and refusal (any other method) applies |
| Utils.OutcomeStatus | utils.go:29-37 | preflight leaves 204 and no body; refusal leaves 405 |
| Utils.RefusalText | utils.go:35 | the refusal text is the method followed by " Method Not Allowed" |
| Utils.AllowSurvivesError | utils.go:36 | http.Error leaves the Allow header alone |
| Utils.RefuseReply | utils.go:35-36 | 405 with body method + " Method Not Allowed\n" as plain text marked nosniff, keeping Allow |
| Utils.GateReply | utils.go:22-37 | Allow is always set; OPTIONS gets 204 and no body; anything else gets 405 and its refusal text |
| Utils.ValidMethod | utils.go:16-38 | true exactly when the method is allowed, and then the response is untouched; otherwise the response is GateReply's |
| Utils.RefusedPut | utils.go:16-38 | PUT to a GET-only handler gives 405, "PUT Method Not Allowed\n" and Allow "GET, OPTIONS" |
| Utils.OptionsPreflight | utils.go:29-32 | OPTIONS not allowed by the handler gives 204, an empty body and the Allow list |
| Utils.RealIP | utils.go:60-67 | the X-Real-IP value when it is non-empty, else RemoteAddr unchanged |
| Utils.RealIPFromProxy | utils.go:60-67 | a non-empty X-Real-IP wins, whatever case the proxy spells the name in |
| Utils.RealIPFallback | utils.go:62-64 | without the header, or with an empty first value, the answer is RemoteAddr |
| Log.LogLevel | log.go:60-70 | the level for the lower-cased name, or Info with "invalid loglevel: " + the lower-cased name |
| Log.LogLevelCaseInsensitive | log.go:62 | LogLevel(s) == LogLevel(lower(s)) for every s |
| Log.LogLevelNames | log.go:34-39 | every s whose lower-cased form is debug, info, warn or error gives -4, 0, 4 or 8 without error |
| Log.LogLevelSpellings | log.go:60-69 | the four names as written, "Info" and "ERROR" give their levels without error |
| Log.LogLevelUnknown | log.go:65-67 | any other name gives Info and an error naming the lower-cased input |
| Log.LogLevelErrorIffUnknown | log.go:60-70 | there is no error exactly when the lower-cased name is one of the four |
| Log.LevelOf | log.go:52 | the level LogLevelMap (log.go:34-39) gives a key: -4, 0, 4 and 8 for debug, info, warn and error |
| Log.LevelLess | log.go:51-53 | sort.Slice's less function: one key before another when its level is lower; LevelLessIsOrder shows it is a strict weak order |
| Log.LevelLessIsOrder | log.go:51-53 | comparing keys by level is a strict weak order |
| Log.LevelsDistinct | log.go:34-39 | no two names share a level |
| Log.ListedInLevelOrder | log.go:42-56 | every listing of the four keys sorted by level is debug, info, warn, error |
| Log.LogLevels | log.go:42-56 | the keys collected in any map order and sorted by level, joined: "debug, info, warn, error" |
| Log.HandlerFor | log.go:95-102 | the JSON handler exactly for "json"; text for "text" and for everything else |
| Log.LogTypesHandled | log.go:72 | the valid types are "json, text", and each gets the handler it names |
| RequestLog.Logger | log_request.go:49-65 | the default logger for a nil context, a missing key and a value that is not a logger |
| RequestLog.LoggerRoundTrip | log_request.go:41-64 | a logger stored under loggerKey is what Logger returns |
| RequestLog.KeysDoNotShadow | log_request.go:23-25 | loggerKey and requestIDKey are both 0, but storing either leaves the other's lookup unchanged |
| RequestLog.RequestAttrs | log_request.go:32-37 | exactly four fields: method, url, ip = RealIP(r) and requestID from the context |
| RequestLog.LogRequest | log_request.go:30-46 | the next context holds the new logger, every other key looks up as before, the request ID is still there, and the rest of the request is unchanged |
| RequestLog.ServeLogged | main.go:163 | with AddRequestID around LogRequest, the bound requestID is the X-Request-ID header's value |
| RequestLog.BoundIdIsHeaderId | main.go:163 | the same for any ID stored and set by the middleware |
| Pages.RenderReply | template.go:38-64 | a nil template writes nothing; an execution error gives 500 with the fixed message; output is written as is, and empty output writes nothing |
| Pages.RenderTemplate | template.go:38-64 | the response and the returned error are RenderReply's |
| HeadersPage.KeyLess | headers_handler.go:44 | sort.Slice's less function: entries compared by key with Go's string `<`; KeyLessIsOrder shows it is a strict weak order |
| HeadersPage.KeyLessIsOrder | headers_handler.go:44 | comparing entries by name is a strict weak order that tells distinct names apart |
| HeadersPage.SortedHeaderInfo | headers_handler.go:37-47 | one entry per header, strictly ascending by name, each holding the header's value list unchanged |
| HeadersPage.NoHeadersNoEntries | headers_handler.go:38 | an empty header map yields an empty list |
| HeadersPage.NewHeaderInfo | headers_handler.go:37-47 | the list built in map order and sorted is SortedHeaderInfo of the headers |
| HeadersPage.SortedEntries | headers_handler.go:44 | any sorted reordering of a list holding each entry once is SortedHeaderInfo |
| HeadersPage.HeadersHandler | headers_handler.go:50-73 | non-GET gets the gate's reply and no rendering; GET renders headers.html with title "Request Headers" and the sorted headers |
| RootPage.RootReply | root_handler.go:29-55 | the reply for a request: the gate's for a non-GET, 404 for any other path, else the rendered root.html; MethodBeforePath, OtherPathNotFound, PutRefused and RootRendered state its cases |
| RootPage.RootHandler | root_handler.go:29-55 | the gate first, then 404 off "/", then root.html with the application name as title |
| RootPage.MethodBeforePath | root_handler.go:34-44 | a request that is not a GET never gets 404: OPTIONS gets 204, the rest 405, with Allow "GET, OPTIONS" |
| RootPage.OtherPathNotFound | root_handler.go:40-44 | GET on any other path gives 404 "404 page not found" |
| RootPage.PutRefused | root_handler.go:34-37 | PUT / gives 405 "PUT Method Not Allowed" with Allow "GET, OPTIONS" |
| RootPage.RootRendered | root_handler.go:46-50 | GET / gives 200 and the template's output for the application name |
| HelloPage.HelloReply | hello_handler.go:23-56 | the reply of a hello handler: the gate's for a non-GET, else Cache-Control and the page; HelloGet, HelloRefused and HelloPost state its cases |
| HelloPage.HelloHandler | hello_handler.go:23-36 | the gate first; after it passes, Cache-Control is set and "hello\n" written |
| HelloPage.HelloHTMLHandler | hello_handler.go:42-56 | the same gate and header, then the embedded page verbatim |
| HelloPage.HelloGet | hello_handler.go:32-35 | GET gives 200, Cache-Control "no-cache, no-store, must-revalidate" and the page |
| HelloPage.HelloRefused | hello_handler.go:27-30 | a non-GET request gets the gate's reply, and Cache-Control is not added |
| HelloPage.CacheControlSurvivesGate | hello_handler.go:27-33 | the gate leaves Cache-Control as it was |
| HelloPage.HelloPost | hello_handler.go:27-30 | POST gives 405, "POST Method Not Allowed\n" and no Cache-Control |
| RemotePage.AddrLine | remote_handler.go:28 | the first line: "RemoteAddr: ", the connection address and a newline |
| RemotePage.HeaderLine | remote_handler.go:38-41 | the line for one header name: the name, ": ", Get's value and a newline, or nothing when Get gives "" |
| RemotePage.ReportLines | remote_handler.go:37-42 | the header lines for the names in their order; ReportLinesSkipEmpty and OnlyLine state which appear |
| RemotePage.RemoteReport | remote_handler.go:28-42 | the whole report: the address line and then the forwarding-header lines; ReportStartsWithAddr, NoForwardingHeaders and OneForwardingHeader state its forms |
| RemotePage.RemoteHandler | remote_handler.go:23-43 | every method gets the report: the address line, then the forwarding-header lines |
| RemotePage.WriteReportLines | remote_handler.go:37-42 | the loop appends the lines for the present headers, in the listed order |
| RemotePage.WriteHeaderLine | remote_handler.go:38-41 | a line is written exactly when Get is non-empty, and it shows only the first value |
| RemotePage.ReportLinesSkipEmpty | remote_handler.go:39 | absent or empty headers add no lines |
| RemotePage.OnlyLine | remote_handler.go:37-42 | when one listed header is present, its line is the only one |
| RemotePage.ReportStartsWithAddr | remote_handler.go:28 | the report always starts with "RemoteAddr: " + RemoteAddr + "\n" |
| RemotePage.NoForwardingHeaders | remote_handler.go:28-42 | with none of the four headers the report is only the address line |
| RemotePage.OnlyLineAfterAddr | remote_handler.go:28-42 | for any list of names with exactly one present, the report text is the address line and that header's line |
| RemotePage.OneForwardingHeader | remote_handler.go:30-42 | with exactly one of them, the report is the address line and that header's line |
| Legacy.RootReply | handlers.go:31-43 | the reply of Root: the 404 page off "/", else the HTML content type and the page; RootOtherPath and RootServesPage state its cases |
| Legacy.Root | handlers.go:31-43 | 404 off "/", otherwise Content-Type "text/html; charset=UTF-8" and the page, for any method |
| Legacy.RootOtherPath | handlers.go:35-39 | any path but "/" gives 404 "404 page not found", whatever the method |
| Legacy.RootServesPage | handlers.go:41-42 | at "/" every method gets 200, the HTML content type and the page |
| Legacy.HelloReply | handlers.go:46-54 | the reply of Hello: Cache-Control and then "hello\n"; HelloAnswersAll states what every request gets |
| Legacy.Hello | handlers.go:46-54 | Cache-Control, then "hello\n", with no method check |
| Legacy.HelloAnswersAll | handlers.go:51-53 | every request gets 200, Cache-Control "no-cache, no-store, must-revalidate" and "hello\n" |
| Legacy.KeyLine | handlers.go:72-73 | the line for one key: the key, ": ", its values joined by ", " and a newline |
| Legacy.KeyLines | handlers.go:71-74 | the lines for the keys in their order; OneHeader and TwoHeaders state what they spell |
| Legacy.HeadersText | handlers.go:61-74 | the lines for the map's keys in ascending order, each once (Sorting.SortedKeys) |
| Legacy.HeadersReply | handlers.go:57-75 | the reply of Headers: nothing at all for an empty map, else one write of HeadersText |
| Legacy.Headers | handlers.go:57-75 | an empty header map leaves the response untouched; otherwise the body gets one line per header, in ascending name order |
| Legacy.CollectKeys | handlers.go:62-65 | the keys collected in map order are each key of the map exactly once |
| Legacy.WriteKeyLines | handlers.go:71-74 | the loop writes key + ": " + the values joined by ", " + "\n" for each key in turn, and no keys means no write |
| Legacy.OneHeader | handlers.go:71-74 | a single header gives exactly its line |
| Legacy.TwoHeaders | handlers.go:68-74 | of two headers, the one whose name sorts first is printed first |
| Legacy.RemoteAddr | handlers.go:79-99 | the same report as RemoteHandler: the address line, then the forwarding-header lines in order |
| Http.StatusText | utils.go:35 | Go's reason phrase for each of the five codes the server uses ("OK", "No Content", "Not Found", "Method Not Allowed", "Internal Server Error"), "" for any other |
| Http.Request.Context | request_id.go:65 | never nil: a request without a context answers context.Background() |
| Http.Request.WithContext | request_id.go:68 | a copy of the request carrying the new context, every other field unchanged |
| Http.CanonicalKey | headers_handler.go:39 | canonicalisation keeps the length of the name |
| Http.CanonicalKeyFolds | remote_handler.go:38 | canonicalisation changes only the case of letters |
| Http.CanonicalKeyIdempotent | headers_handler.go:39 | canonical names stay as they are |
| Http.SameNameAnyCase | utils.go:61 | header names that differ only in case name the same header |
| Http.TokenAnyCase | utils.go:61 | a valid header name stays valid in any letter case |
| Http.CanonicalFromTokens | headers_handler.go:39 | canonicalisation keeps a valid header name valid |
| Http.Get | remote_handler.go:38 | the first value under the canonical key, or "" |
| Http.GetSet | request_id.go:67 | Get reads back the value Set stored, under the same spelling |
| Http.Set | request_id.go:67 | the canonical key then holds just the new value, and every other key keeps its values |
| Http.Del | utils.go:36 | the canonical key is removed and every other key keeps its values |
| Http.DistinctNames | utils.go:26 | names of different length, or differing other than in case at some position, are different headers |
| Http.WithHeader | utils.go:26 | w.Header().Set: status and body untouched, the canonical key added to the header map (Set says what it holds) |
| Http.WithoutHeader | utils.go:36 | w.Header().Del: status and body untouched, and Get then finds nothing under the name |
| Http.WithStatus | utils.go:30 | w.WriteHeader: header and body untouched, the response counts as written, and the code is the new one only if none was written before |
| Http.ErrorReply | utils.go:36 | http.Error appends msg and a newline, marks the response written with the given status unless one was written, removes Content-Length, sets plain text and X-Content-Type-Options "nosniff", and leaves other headers alone |
| Http.ErrorHeaders | utils.go:36 | http.Error's header changes: Content-Length removed, the plain-text content type, X-Content-Type-Options "nosniff", and no other header touched |
| Http.NotFoundReply | root_handler.go:42 | http.NotFound appends "404 page not found\n", sets 404 unless a status was written, and sets plain text |
| Http.WithBody | remote_handler.go:28 | a write appends to the body, sets 200 unless a status was written, and leaves the header map alone (it sniffs no Content-Type; see Left out) |
| Http.WithBodyTwice | remote_handler.go:28-41 | two writes in a row are one write of both |
| Http.ResponseWriter.constructor | request_id.go:63 | a fresh recorder: status 200, not yet written, no headers, empty body |
| Http.ResponseWriter.Snapshot | request_id.go:63 | what a client observes of the writer: status, whether it was written, header map and body |
| Http.ResponseWriter.SetHeader | utils.go:26 | the writer's state becomes WithHeader's |
| Http.ResponseWriter.DelHeader | utils.go:36 | the writer's state becomes WithoutHeader's |
| Http.ResponseWriter.WriteHeader | utils.go:30 | the writer's state becomes WithStatus's; only the first status counts |
| Http.ResponseWriter.Write | remote_handler.go:28 | the recorder's state becomes WithBody's (no Content-Type sniff; see Left out) |
| Http.Error | utils.go:36 | the recorder's state becomes ErrorReply's |
| Http.NotFound | root_handler.go:42 | the recorder's state becomes the 404 reply |
| GoContext.Lookup | request_id.go:77 | ctx.Value: the value stored under the key, or None for Go's nil |
| GoContext.WithValue | request_id.go:65 | the child looks up the key as the new value and every other key as in the parent |
| Text.Join | utils.go:26 | strings.Join: no parts give "", one part gives that part; JoinSnoc states how one more part extends it |
| Text.ToLower | log.go:62 | strings.ToLower: same length, each character lower-cased on its own (ASCII) |
| Text.Less | headers_handler.go:44 | Go's `<` on strings: lexicographic, a proper prefix first; Sorting.StringOrder shows it is a strict total order |
| Text.JoinSnoc | utils.go:23-26 | joining one more part appends the separator and that part |
| Text.ToLowerIdempotent | log.go:62 | lower-casing twice is lower-casing once |
| Sorting.StringOrder | handlers.go:68 | Go's string order is a strict total order |
| Sorting.SortSlice | log.go:51-53 | the array ends sorted by the less function and a permutation of what it held |
| Sorting.SortedUnique | headers_handler.go:44 | two strictly sorted sequences with the same elements are equal |
| Sorting.SortedKeys | handlers.go:62-68 | the keys of a map in strictly ascending order, each once |
| Sorting.SortedStringsOfSet | handlers.go:62-68 | sorting the keys of a map, collected in any order, gives SortedKeys of the key set |

## Left out

- Server lifecycle (main.go:58-95): listening, the serving goroutine, signal handling and the shutdown timeout are concurrency and sockets.
- Flag parsing and the exit codes of main.go; the four exit codes all equal 1 there, so nothing distinguishes them.
- RequestId.RequestIdMiddleware.ServeHTTP: `atomic.AddUint32` becomes a plain sequential step. Freedom from lost updates under concurrent requests is not modelled.
- RequestId.RandomString: `crypto/rand` is an oracle `RandomSource` from draw position to a drawn index or an error. Its randomness is not modelled.
- The prefix is a field of each middleware, set when it is built. The Go program sets it once in `init` from `randomString(6)`; `InitPrefix` models that step.
- Calling `next` is left to the caller: `ServeHTTP` and `LogRequest` return the request passed on instead of invoking a handler.
- All logger calls (`logger.Debug`, `Info`, `Warn`, `Error`) are left out, as is the slog output format. A logger is a value that records its group and attributes.
- The log file and stream setup in `InitLog` (file I/O, `slog.SetDefault`) is left out. Only the handler-type choice is modelled, as `Log.HandlerFor`.
- Pages.RenderTemplate: `html/template` is an abstract executor from (name, data) to output or error. Template parsing (`InitTemplates`) and a failure while writing the buffer to the writer are not modelled.
- request_handler.go, build_handler.go, `Request` in handlers.go and `ExecutableDateTime` in utils.go rely on `httputil.DumpRequest`, `os.Executable` and `os.Stat`. They are not part of this model.
- The embedded pages (`rootHTML`, `helloHTML`) are parameters.
- Utils.RealIPFromProxy, Log.LogLevel: `strings.ToLower` and header canonicalisation use ASCII case mapping only. Unicode case folding is not modelled.
- Http.WithBody: unlike Go's response writers, the first write does not set Content-Type from `http.DetectContentType` when the header has no Content-Type and no Transfer-Encoding. So the replies of HelloHandler, HelloHTMLHandler, RemoteHandler, a rendered template (Pages.RenderReply) and Legacy.Hello, Headers and RemoteAddr carry no sniffed `text/plain; charset=utf-8` or `text/html; charset=utf-8` header in the model. http.Error and Legacy.Root set Content-Type before writing, so their replies are complete.
- Http.ResponseWriter.Write: the same missing Content-Type sniff as Http.WithBody; and a write never fails.
- Http.StatusText: only the five codes the server uses have a text. Go's table names every registered code; the others give "" in both.
- Sorting.SortSlice: the insertion sort stands in for Go's pattern-defeating quicksort. Only the sorted-permutation result is stated, which is all the callers use.
- A context holding a typed nil `*slog.Logger` under loggerKey is not modelled. Go's `Logger` would return that nil pointer.
- Map iteration order is an arbitrary choice (`:|`), so every proof holds for every order Go may produce.
- RequestId.InitPrefix: a failed prefix draw is not fatal. `init` discards the error (request_id.go:50), so the prefix stays "".
- RequestId.RequestIdMiddleware.constructor: the counter is the `var counter uint32` captured by each `AddRequestID` call (request_id.go:61). It is per instance, not per process.
