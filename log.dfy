/**
 * Log configuration (log.go): parsing a level name, listing the level
 * names, and the choice of log handler. Opening the log file and
 * installing the logger are left out.
 */
module Log {
  import opened Optional
  import opened Text
  import Sorting

  /** slog's levels. */
  const LevelDebug := -4
  const LevelInfo := 0
  const LevelWarn := 4
  const LevelError := 8

  /** LogLevelMap: lower-case level names to levels. */
  const LogLevelMap: map<string, int> :=
    map["debug" := LevelDebug, "info" := LevelInfo, "warn" := LevelWarn, "error" := LevelError]

  /** LogLevel's two results: the level, and the error when the name is unknown. */
  datatype LevelResult = LevelResult(level: int, err: Option<string>)

  /** The error message fmt.Errorf("invalid loglevel: %s", name) builds. */
  function InvalidLevel(name: string): string {
    "invalid loglevel: " + name
  }

  /** LogLevel(s): the level for the lower-cased name, or Info and an error naming the lower-cased input. */
  function LogLevel(logLevelStr: string): (r: LevelResult)
    ensures ToLower(logLevelStr) in LogLevelMap ==> r == LevelResult(LogLevelMap[ToLower(logLevelStr)], None)
    ensures ToLower(logLevelStr) !in LogLevelMap ==>
              r == LevelResult(LevelInfo, Some(InvalidLevel(ToLower(logLevelStr))))
  {
    var name := ToLower(logLevelStr);
    if name in LogLevelMap then LevelResult(LogLevelMap[name], None)
    else LevelResult(LevelInfo, Some(InvalidLevel(name)))
  }

  /** The lookup ignores letter case. */
  lemma LogLevelCaseInsensitive(s: string)
    ensures LogLevel(s) == LogLevel(ToLower(s))
  {
    ToLowerIdempotent(s);
  }

  /** The four names, in any spelling whose lower-case form is the name, give their levels without error. */
  lemma LogLevelNames()
    ensures forall s :: ToLower(s) == "debug" ==> LogLevel(s) == LevelResult(LevelDebug, None)
    ensures forall s :: ToLower(s) == "info" ==> LogLevel(s) == LevelResult(LevelInfo, None)
    ensures forall s :: ToLower(s) == "warn" ==> LogLevel(s) == LevelResult(LevelWarn, None)
    ensures forall s :: ToLower(s) == "error" ==> LogLevel(s) == LevelResult(LevelError, None)
  {
    assert "debug" in LogLevelMap && "info" in LogLevelMap && "warn" in LogLevelMap && "error" in LogLevelMap;
  }

  /** The names as written, and two mixed-case spellings of them. */
  lemma LogLevelSpellings()
    ensures LogLevel("debug") == LevelResult(LevelDebug, None)
    ensures LogLevel("info") == LevelResult(LevelInfo, None)
    ensures LogLevel("warn") == LevelResult(LevelWarn, None)
    ensures LogLevel("error") == LevelResult(LevelError, None)
    ensures LogLevel("Info") == LevelResult(LevelInfo, None)
    ensures LogLevel("ERROR") == LevelResult(LevelError, None)
  {
    LogLevelNames();
    KeysAreLowerCase();
    MixedCaseNames();
  }

  /** Proof step for LogLevelSpellings: the map's keys are already lower case. */
  lemma KeysAreLowerCase()
    ensures ToLower("debug") == "debug" && ToLower("info") == "info"
    ensures ToLower("warn") == "warn" && ToLower("error") == "error"
  {
    assert ToLower("debug") == "debug";
    assert ToLower("info") == "info";
    assert ToLower("warn") == "warn";
    assert ToLower("error") == "error";
  }

  /** Proof step for LogLevelSpellings. */
  lemma MixedCaseNames()
    ensures ToLower("Info") == "info" && ToLower("ERROR") == "error"
  {
    assert ToLower("Info") == "info";
    assert ToLower("ERROR") == "error";
  }

  /** Any other name falls back to Info and reports the lower-cased name. */
  lemma LogLevelUnknown(s: string)
    requires ToLower(s) !in {"debug", "info", "warn", "error"}
    ensures LogLevel(s).level == LevelInfo
    ensures LogLevel(s).err == Some("invalid loglevel: " + ToLower(s))
  {
  }

  /** A success never carries an error message, and a failure always does. */
  lemma LogLevelErrorIffUnknown(s: string)
    ensures LogLevel(s).err.None? <==> ToLower(s) in {"debug", "info", "warn", "error"}
  {
  }

  /** LogLevelMap[key], with Go's zero level for a missing key. */
  function LevelOf(key: string): int {
    if key in LogLevelMap then LogLevelMap[key] else 0
  }

  /** The less function LogLevels hands to sort.Slice: compare by level. */
  predicate LevelLess(a: string, b: string) {
    LevelOf(a) < LevelOf(b)
  }

  lemma LevelLessIsOrder()
    ensures Sorting.StrictWeakOrder(LevelLess)
  {
  }

  /** The level names in ascending level order. */
  const LevelNames := ["debug", "info", "warn", "error"]

  /**
   * LogLevels(): comma-separated names of the levels. The map is walked
   * in whatever order Go's iteration picks; sorting by level makes the
   * result the same every time.
   */
  method LogLevels() returns (s: string)
    ensures s == Join(LevelNames, ", ")
    ensures s == "debug, info, warn, error"
  {
    var keys: seq<string> := [];
    var remaining := LogLevelMap.Keys;
    while remaining != {}
      invariant remaining <= LogLevelMap.Keys
      invariant multiset(keys) + multiset(remaining) == multiset(LogLevelMap.Keys)
      decreases remaining
    {
      var key :| key in remaining;
      keys := keys + [key];
      remaining := remaining - {key};
    }
    var a := new string[|keys|](i requires 0 <= i < |keys| => keys[i]);
    assert a[..] == keys;
    LevelLessIsOrder();
    Sorting.SortSlice(a, LevelLess);
    ListedInLevelOrder(a[..]);
    s := Join(a[..], ", ");
    LevelNamesJoined();
  }

  /** Proof step for LogLevels: the joined names spelled out. */
  lemma LevelNamesJoined()
    ensures Join(LevelNames, ", ") == "debug, info, warn, error"
  {
  }

  /** Every listing of the map's keys sorted by level is LevelNames. */
  lemma ListedInLevelOrder(keys: seq<string>)
    requires Sorting.SortedBy(keys, LevelLess)
    requires multiset(keys) == multiset(LogLevelMap.Keys)
    ensures keys == LevelNames
  {
    Sorting.NoRepeats(keys, LogLevelMap.Keys);
    LevelsDistinct();
    Sorting.SortedDistinctIsStrict(keys, LevelLess);
    LevelNamesListKeys();
    LevelLessIsOrder();
    Sorting.SortedUnique(keys, LevelNames, LevelLess);
  }

  /** No two names share a level. */
  lemma LevelsDistinct()
    ensures forall x, y :: x in LogLevelMap && y in LogLevelMap && x != y ==> LevelLess(x, y) || LevelLess(y, x)
  {
    assert LogLevelMap.Keys == {"debug", "info", "warn", "error"};
  }

  /** LevelNames holds exactly the map's keys, in strictly ascending level order. */
  lemma LevelNamesListKeys()
    ensures Sorting.StrictlySortedBy(LevelNames, LevelLess)
    ensures forall x :: x in LevelNames <==> x in LogLevelMap
  {
    assert LogLevelMap.Keys == {"debug", "info", "warn", "error"};
  }

  /** validLogTypes: the values -logtype accepts. */
  const ValidLogTypes := ["json", "text"]

  datatype HandlerKind = JSONHandler | TextHandler

  /** The handler InitLog installs: JSON for "json", text for "text" and for anything else. */
  function HandlerFor(handlerType: string): (k: HandlerKind)
    ensures k == JSONHandler <==> handlerType == "json"
  {
    match handlerType
    case "json" => JSONHandler
    case "text" => TextHandler
    case _ => TextHandler
  }

  /** Each accepted type gets the handler it names. */
  lemma LogTypesHandled()
    ensures Join(ValidLogTypes, ", ") == "json, text"
    ensures forall t :: t in ValidLogTypes ==> (HandlerFor(t) == JSONHandler <==> t == "json")
    ensures HandlerFor("text") == TextHandler
  {
  }
}
