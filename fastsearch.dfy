/**
 * The fastsearch widget (js/fastsearch.js): one callback closure per query,
 * cached in `results` under the trimmed query. A closure keeps the last payload
 * it received (`arguments.callee.data`) and the script element of its request
 * until the first call detaches it (`el`).
 */
module FastSearch {
  import opened Wrappers
  import opened Text
  import opened Template
  import opened Boss
  import opened KeyNav
  import opened JsLiteral

  /**
   * The state of one query's callback closure: the stored payload and the
   * request script it still holds (None once `el = null`).
   */
  datatype Entry = Entry(data: Option<Payload>, el: Option<nat>)

  /**
   * The `src` of the request script for `query`: the BOSS template with its
   * placeholders filled (Template.BossRequestUrl), the callback expression
   * escaped as written, quotes only.
   */
  function RequestUrl(appId: string, encode: string -> string, query: string): string
  {
    URL_HEAD + encode(query) + URL_APPID + encode(appId) + URL_CALLBACK + encode(CallbackExprAsWritten(query))
  }

  /**
   * The response to the request for `query` calls the closure of `query`
   * itself: its callback expression reads that very key. This holds for every
   * query without a backslash or a line break (JsLiteral.AsWrittenRoundTrip),
   * not for `\q` (JsLiteral.AsWrittenMisroutes).
   */
  predicate RoutesToItself(query: string)
  {
    CallbackKey(CallbackExprAsWritten(query)) == Some(query)
  }

  /**
   * Every cached query is non-empty; identities below `next` are the only ones
   * used; every attached script is held by the closure of its owner, and every
   * closure that still holds its script holds an attached one that it owns and
   * that requests its own query.
   */
  ghost predicate Consistent(results: map<string, Entry>, scripts: map<nat, string>, owners: map<nat, string>,
                             next: nat, appId: string, encode: string -> string)
  {
    && (forall q :: q in results ==> q != [])
    && (forall id :: id in scripts ==>
          id < next && id in owners && owners[id] in results && results[owners[id]].el == Some(id))
    && (forall q :: q in results && results[q].el.Some? ==>
          && results[q].el.value in scripts && results[q].el.value in owners
          && owners[results[q].el.value] == q
          && scripts[results[q].el.value] == RequestUrl(appId, encode, q))
  }

  /** A closure's first call detaches its own script, and the state stays consistent. */
  lemma DetachKeepsConsistent(results: map<string, Entry>, scripts: map<nat, string>, owners: map<nat, string>,
                              next: nat, appId: string, encode: string -> string,
                              query: string, stored: Option<Payload>)
    requires Consistent(results, scripts, owners, next, appId, encode) && query in results
    ensures var el := results[query].el;
      Consistent(results[query := Entry(stored, None)], if el.Some? then scripts - {el.value} else scripts,
                 owners, next, appId, encode)
  {
  }

  /** A new query's closure with a fresh attached script keeps the state consistent. */
  lemma AttachKeepsConsistent(results: map<string, Entry>, scripts: map<nat, string>, owners: map<nat, string>,
                              next: nat, appId: string, encode: string -> string, q: string)
    requires Consistent(results, scripts, owners, next, appId, encode) && q !in results && q != []
    ensures next !in scripts
    ensures Consistent(results[q := Entry(None, Some(next))], scripts[next := RequestUrl(appId, encode, q)],
                       owners[next := q], next + 1, appId, encode)
  {
  }

  class Widget {
    /** The app id handed to `init`. */
    const appId: string
    /** `encodeURIComponent`, which the model does not interpret. */
    const encode: string -> string

    /** `self.results`: the callback closure of every query searched so far. */
    var results: map<string, Entry>
    /** The request scripts attached to the document, each with its `src`. */
    var scripts: map<nat, string>
    /** The identity the next `document.createElement('script')` returns. */
    var nextScript: nat
    /** `resultEl.innerHTML`. */
    var html: string
    /** The index of the focused result item; -1 for the input field. */
    var selIndex: int
    /** The query whose closure created each script. */
    ghost var owners: map<nat, string>

    /** See Consistent. */
    ghost predicate Valid()
      reads this`results, this`scripts, this`owners, this`nextScript
    {
      && '{' !in encode(appId)
      && Consistent(results, scripts, owners, nextScript, appId, encode)
    }

    /** `init`: the widget with an empty cache and the input field focused. */
    constructor (appId: string, encode: string -> string, html: string)
      requires '{' !in encode(appId)
      ensures Valid()
      ensures this.appId == appId && this.encode == encode && this.html == html
      ensures results == map[] && scripts == map[] && nextScript == 0 && selIndex == -1
    {
      this.appId := appId;
      this.encode := encode;
      this.html := html;
      results := map[];
      scripts := map[];
      owners := map[];
      nextScript := 0;
      selIndex := -1;
    }

    /** `refresh(query, data)`. */
    method Refresh(query: string, data: Option<Payload>)
      modifies this`html
      ensures html == if query == [] then old(html) else Displayed(old(html), data)
    {
      if query == [] || data.None? || data.value.ysearchresponse.None? {
        return;
      }
      var rs := data.value.ysearchresponse.value.resultSetWeb;
      if rs.Some? && |rs.value| > 0 {
        html := BuildHtml(rs.value);
      } else {
        html := NO_RESULTS;
      }
    }

    /**
     * The effect of calling the closure of `query` with `data`: a payload is
     * stored, an absent or falsy one keeps the stored payload, the stored payload
     * is rendered, and the closure's script, if it still holds one, is detached.
     */
    twostate predicate Called(query: string, data: Option<Payload>)
      reads this
    {
      && query in old(results)
      && var e := old(results[query]);
         var stored := if data.Some? then data else e.data;
         && results == old(results)[query := Entry(stored, None)]
         && scripts == (if e.el.Some? then old(scripts) - {e.el.value} else old(scripts))
         && html == Displayed(old(html), stored)
         && nextScript == old(nextScript)
         && selIndex == old(selIndex)
    }

    /**
     * `self.results[query](data)`: a replay, or the response of a request whose
     * callback expression reads the key `query` (JsLiteral.CallbackKey), which
     * is `query`'s own request when RoutesToItself(query).
     */
    method Callback(query: string, data: Option<Payload>)
      requires Valid() && query in results
      modifies this
      ensures Valid()
      ensures Called(query, data)
    {
      var e := results[query];
      var stored := e.data;
      if data.Some? {
        stored := data;
      }
      DetachKeepsConsistent(results, scripts, owners, nextScript, appId, encode, query, stored);
      Refresh(query, stored);
      if e.el.Some? {
        scripts := scripts - {e.el.value};
      }
      // `arguments.callee.data = data` and `el = null`, in one update: `refresh`
      // does not read the cache.
      results := results[query := Entry(stored, None)];
    }

    /**
     * The effect of a request for the new query `q`: a closure awaiting its
     * payload, and one newly created script, attached, that requests `q`.
     */
    twostate predicate Requested(q: string)
      reads this
    {
      && old(nextScript) !in old(scripts)
      && results == old(results)[q := Entry(None, Some(old(nextScript)))]
      && scripts == old(scripts)[old(nextScript) := RequestUrl(appId, encode, q)]
      && nextScript == old(nextScript) + 1
      && html == old(html) && selIndex == old(selIndex)
    }

    /** The branch of `search` for a query that is not cached yet. */
    method Request(q: string)
      requires Valid() && q != [] && q !in results
      modifies this
      ensures Valid() && Requested(q)
    {
      var el := nextScript;
      AttachKeepsConsistent(results, scripts, owners, nextScript, appId, encode, q);
      nextScript := nextScript + 1;
      var src := FillBossUrl(encode(appId), encode(CallbackExprAsWritten(q)), encode(q));
      results := results[q := Entry(None, Some(el))];
      scripts := scripts[el := src];
      owners := owners[el := q];
    }

    /**
     * `search(query)`: an all-whitespace query does nothing; a cached one
     * replays its closure with no payload; a new one is requested.
     */
    method Search(query: string)
      requires Valid()
      modifies this
      ensures Valid()
      ensures var q := Trim(query);
        if q == [] then unchanged(this)
        else if q in old(results) then Called(q, None)
        else Requested(q)
    {
      var q := Trim(query);
      if q == [] {
        return;
      }
      if q in results {
        Callback(q, None);
      } else {
        Request(q);
      }
    }

    /** `handleKeyNav`: Up and Down only; this variant ignores Escape. */
    method HandleKeyNav(keyCode: int, childCount: nat, focusOk: bool) returns (focus: Focus, prevented: bool)
      modifies this`selIndex
      ensures NavStep(selIndex, focus, prevented) == Navigate(false, keyCode, old(selIndex), childCount, focusOk)
    {
      focus, prevented := NoFocus, false;
      if keyCode == UP {
        prevented := true;
        if selIndex - 1 <= -1 {
          selIndex := -1;
          focus := InputField;
        } else {
          selIndex := selIndex - 1;
          if 0 <= selIndex < childCount && focusOk {
            focus := ResultItem(selIndex);
          } else {
            selIndex := selIndex + 1;
          }
        }
      } else if keyCode == DOWN {
        prevented := true;
        if selIndex + 1 < childCount {
          selIndex := selIndex + 1;
          if 0 <= selIndex < childCount && focusOk {
            focus := ResultItem(selIndex);
          } else {
            selIndex := selIndex - 1;
          }
        }
      }
    }

    /** The focus handler of the input field. */
    method OnInputFocus()
      modifies this`selIndex
      ensures selIndex == -1
    {
      selIndex := -1;
    }
  }

  /**
   * Two requests in flight at once, for queries whose responses reach their own
   * closures: whichever response arrives first (`bFirst` picks the order), each
   * payload is stored under the query that asked for it.
   */
  method OverlappingRequests(appId: string, encode: string -> string, a: string, b: string, pa: Payload, pb: Payload,
                             bFirst: bool)
    returns (storedA: Option<Payload>, storedB: Option<Payload>)
    requires '{' !in encode(appId)
    requires Trim(a) != [] && Trim(b) != [] && Trim(a) != Trim(b)
    requires RoutesToItself(Trim(a)) && RoutesToItself(Trim(b))
    ensures storedA == Some(pa) && storedB == Some(pb)
  {
    var qa, qb := Trim(a), Trim(b);
    var w := new Widget(appId, encode, "");
    w.Search(a);
    assert w.results[qa] == Entry(None, Some(0)) && qb !in w.results;
    w.Search(b);
    assert w.results[qa] == Entry(None, Some(0)) && w.results[qb] == Entry(None, Some(1));
    if bFirst {
      w.Callback(qb, Some(pb));
      assert w.results[qa] == Entry(None, Some(0));
      w.Callback(qa, Some(pa));
    } else {
      w.Callback(qa, Some(pa));
      assert w.results[qb] == Entry(None, Some(1));
      w.Callback(qb, Some(pb));
    }
    storedA, storedB := w.results[qa].data, w.results[qb].data;
  }

  /**
   * Searching a query again while its request is pending detaches the request
   * script at once (the first call of the closure); the payload that still
   * arrives, at the query's own closure, is stored and rendered, detaches
   * nothing more, and a later cache hit renders it again.
   */
  method ReplayWhilePending(appId: string, encode: string -> string, query: string, p: Payload, before: string)
    returns (attachedAfterReplay: map<nat, string>, shownAfterReplay: string,
             attachedAfterLate: map<nat, string>, shownAfterLate: string,
             stored: Option<Payload>, shownAfterHit: string)
    requires '{' !in encode(appId) && Trim(query) != [] && RoutesToItself(Trim(query))
    ensures attachedAfterReplay == map[] && shownAfterReplay == before
    ensures attachedAfterLate == map[] && shownAfterLate == Displayed(before, Some(p))
    ensures stored == Some(p) && shownAfterHit == Displayed(before, Some(p))
  {
    var q := Trim(query);
    var w := new Widget(appId, encode, before);
    w.Search(query);
    assert w.results[q] == Entry(None, Some(0));
    w.Search(query);
    assert w.results[q] == Entry(None, None) && 0 !in w.scripts && w.nextScript == 1;
    attachedAfterReplay, shownAfterReplay := w.scripts, w.html;
    w.Callback(q, Some(p));
    assert w.html == Displayed(before, Some(p));
    attachedAfterLate, shownAfterLate := w.scripts, w.html;
    w.Search(query);
    stored, shownAfterHit := w.results[q].data, w.html;
    DisplayedIdempotent(before, Some(p));
  }

  /**
   * A request whose callback expression reads another query's key, as that of
   * `\q` reads `q` (JsLiteral.AsWrittenMisroutes): its response is stored under
   * the other query, its own query never receives it, and its script stays
   * attached.
   */
  method MisroutedResponse(appId: string, encode: string -> string, a: string, b: string, p: Payload)
    returns (own: Option<Payload>, other: Option<Payload>, ownStillAttached: bool)
    requires '{' !in encode(appId)
    requires Trim(a) != [] && Trim(b) != [] && Trim(a) != Trim(b)
    requires CallbackKey(CallbackExprAsWritten(Trim(a))) == Some(Trim(b))
    ensures own == None && other == Some(p) && ownStillAttached
  {
    var qa, qb := Trim(a), Trim(b);
    var w := new Widget(appId, encode, "");
    w.Search(a);
    assert w.results[qa] == Entry(None, Some(0)) && qb !in w.results;
    w.Search(b);
    assert w.results[qa] == Entry(None, Some(0)) && w.results[qb] == Entry(None, Some(1));
    // The closure that the response to the request for `a` calls.
    var key := CallbackKey(CallbackExprAsWritten(qa)).value;
    w.Callback(key, Some(p));
    own, other, ownStillAttached := w.results[qa].data, w.results[qb].data, 0 in w.scripts;
  }
}
