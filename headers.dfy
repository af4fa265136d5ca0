/**
 * The request-headers page (headers_handler.go): the header map as a list
 * of entries sorted by name, shown through the headers.html template.
 */
module HeadersPage {
  import opened Text
  import opened Http
  import Sorting
  import Utils
  import opened Pages

  const HeadersTitle := "Request Headers"

  /** The less function NewHeaderInfo hands to sort.Slice: by header name. */
  predicate KeyLess(a: HeaderInfo, b: HeaderInfo) {
    Less(a.key, b.key)
  }

  lemma KeyLessIsOrder()
    ensures Sorting.Irreflexive(KeyLess) && Sorting.Transitive(KeyLess)
    ensures Sorting.StrictWeakOrder(KeyLess)
    ensures forall x: HeaderInfo, y: HeaderInfo :: x.key != y.key ==> KeyLess(x, y) || KeyLess(y, x)
  {
    Sorting.StringOrder();
  }

  /** x is the entry of h for its own key. */
  predicate IsEntry(h: Header, x: HeaderInfo) {
    x.key in h && x.value == h[x.key]
  }

  /** The entries of h, one per name, in ascending name order. */
  ghost function SortedHeaderInfo(h: Header): (r: seq<HeaderInfo>)
    ensures |r| == |h|
    ensures Sorting.StrictlySortedBy(r, KeyLess)
    ensures forall x :: x in r <==> IsEntry(h, x)
  {
    var keys := Sorting.SortedKeys(h.Keys);
    var r := seq(|keys|, i requires 0 <= i < |keys| => HeaderInfo(keys[i], h[keys[i]]));
    EntriesOfKeys(h, keys, r);
    r
  }

  lemma EntriesOfKeys(h: Header, keys: seq<string>, r: seq<HeaderInfo>)
    requires forall k :: k in keys <==> k in h
    requires |r| == |keys| && forall i :: 0 <= i < |keys| ==> r[i] == HeaderInfo(keys[i], h[keys[i]])
    ensures forall x :: x in r <==> IsEntry(h, x)
  {
    forall x | IsEntry(h, x) ensures x in r {
      var i :| 0 <= i < |keys| && keys[i] == x.key;
      assert r[i] == x;
    }
  }

  /** An empty header map has no entries. */
  lemma NoHeadersNoEntries()
    ensures SortedHeaderInfo(map[]) == []
  {
  }

  /**
   * NewHeaderInfo(httpHeader): one entry per header, holding the name and
   * its value list unchanged, sorted by name.
   */
  method NewHeaderInfo(httpHeader: Header) returns (headerList: seq<HeaderInfo>)
    ensures headerList == SortedHeaderInfo(httpHeader)
  {
    var list: seq<HeaderInfo> := [];
    var remaining := httpHeader.Keys;
    while remaining != {}
      invariant remaining <= httpHeader.Keys
      invariant forall i :: 0 <= i < |list| ==> IsEntry(httpHeader, list[i]) && list[i].key !in remaining
      invariant forall i, j :: 0 <= i < j < |list| ==> list[i].key != list[j].key
      invariant forall k :: k in httpHeader && k !in remaining ==> exists i :: 0 <= i < |list| && list[i].key == k
      decreases remaining
    {
      var key :| key in remaining;
      ghost var before := list;
      list := list + [HeaderInfo(key, httpHeader[key])];
      remaining := remaining - {key};
      forall k | k in httpHeader && k !in remaining ensures exists i :: 0 <= i < |list| && list[i].key == k {
        if k == key {
          assert list[|list| - 1].key == k;
        } else {
          var i :| 0 <= i < |before| && before[i].key == k;
          assert list[i].key == k;
        }
      }
    }
    var a := new HeaderInfo[|list|](i requires 0 <= i < |list| => list[i]);
    assert a[..] == list;
    KeyLessIsOrder();
    Sorting.SortSlice(a, KeyLess);
    headerList := a[..];
    SortedEntries(httpHeader, list, headerList);
  }

  /** Sorting by name a list holding each entry of h once gives SortedHeaderInfo(h). */
  lemma SortedEntries(h: Header, list: seq<HeaderInfo>, s: seq<HeaderInfo>)
    requires forall i :: 0 <= i < |list| ==> IsEntry(h, list[i])
    requires forall i, j :: 0 <= i < j < |list| ==> list[i].key != list[j].key
    requires forall k :: k in h ==> exists i :: 0 <= i < |list| && list[i].key == k
    requires Sorting.SortedBy(s, KeyLess) && multiset(s) == multiset(list)
    ensures s == SortedHeaderInfo(h)
  {
    Sorting.PermutationNoRepeats(s, list);
    forall x ensures x in s <==> x in list {
      assert x in s <==> x in multiset(s);
      assert x in list <==> x in multiset(list);
    }
    KeyLessIsOrder();
    forall x, y | x in s && y in s && x != y ensures KeyLess(x, y) || KeyLess(y, x) {
      assert x.key != y.key;
    }
    Sorting.SortedDistinctIsStrict(s, KeyLess);
    var r := SortedHeaderInfo(h);
    forall x ensures x in s <==> x in r {
      if IsEntry(h, x) {
        var i :| 0 <= i < |list| && list[i].key == x.key;
        assert list[i] == x;
      }
    }
    Sorting.SortedUnique(s, r, KeyLess);
  }

  /**
   * HeadersHandler: after the GET-only gate, the headers page with title
   * "Request Headers" and the sorted headers; any other method gets the
   * gate's reply and nothing is rendered.
   */
  method HeadersHandler(h: Handler, w: ResponseWriter, r: Request)
    modifies w
    ensures r.verb != MethodGet ==> w.Snapshot() == Utils.GateReply(old(w.Snapshot()), r.verb, [MethodGet])
    ensures r.verb == MethodGet ==>
              w.Snapshot() == RenderReply(h.tmpl, old(w.Snapshot()), HeadersPageName,
                                          HeadersPageData(HeadersTitle, SortedHeaderInfo(r.header))).reply
  {
    var ok := Utils.ValidMethod(w, r, [MethodGet]);
    if !ok {
      return;
    }
    var sortedHeaders := NewHeaderInfo(r.header);
    var data := HeadersPageData(HeadersTitle, sortedHeaders);
    var err := RenderTemplate(h.tmpl, w, HeadersPageName, data);
  }
}
