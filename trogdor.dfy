/**
 * The trogdor widget (js/trogdor.js): one shared callback, `Trogdor.response`,
 * rebound by every request to store the payload under that request's query,
 * and at most one request script in flight, which a new request cancels.
 */
module Trogdor {
  import opened Wrappers
  import opened Text
  import opened Template
  import opened Boss
  import opened KeyNav

  /** The callback name every request carries, unencoded. */
  const CALLBACK: string := "Trogdor.response"

  /** The `src` of the request script for `query` (Template.BossRequestUrl). */
  function RequestUrl(appId: string, encode: string -> string, query: string): string
  {
    URL_HEAD + encode(query) + URL_APPID + encode(appId) + URL_CALLBACK + CALLBACK
  }

  // ---- `location.search.match(/(?:\?|&)q=([^&]+)/)` ----

  /** The pattern matches at `i`: `?` or `&`, then `q=`, then at least one character other than `&`. */
  predicate ParamAt(s: string, i: int)
  {
    0 <= i && i + 3 < |s| && (s[i] == '?' || s[i] == '&') && s[i + 1] == 'q' && s[i + 2] == '='
    && s[i + 3] != '&'
  }

  /** What the greedy `[^&]+` takes from the start of `s`: the longest prefix without `&`. */
  function ValueRun(s: string): (r: string)
    ensures r <= s && '&' !in r
    ensures |r| < |s| ==> s[|r|] == '&'
  {
    if s == [] || s[0] == '&' then [] else [s[0]] + ValueRun(s[1..])
  }

  /** The capture group of the leftmost match at index `i` or later. */
  function QueryParamFrom(s: string, i: nat): (r: Option<string>)
    requires i <= |s|
    ensures r.Some? ==> r.value != [] && '&' !in r.value
    decreases |s| - i
  {
    if i == |s| then None
    else if ParamAt(s, i) then Some(ValueRun(s[i + 3..]))
    else QueryParamFrom(s, i + 1)
  }

  /** `match[1]`, or None where `match` returns null. */
  function QueryParam(s: string): (r: Option<string>)
    ensures r.Some? ==> r.value != [] && '&' !in r.value
  {
    QueryParamFrom(s, 0)
  }

  lemma {:induction false} QueryParamFromFirst(s: string, k: nat, i: nat)
    requires k <= i && ParamAt(s, i)
    requires forall j :: k <= j < i ==> !ParamAt(s, j)
    ensures QueryParamFrom(s, k) == Some(ValueRun(s[i + 3..]))
    decreases i - k
  {
    if k < i {
      QueryParamFromFirst(s, k + 1, i);
    }
  }

  /** The leftmost match is the one read, and its value is its whole `[^&]+` run. */
  lemma QueryParamFirst(s: string, i: nat)
    requires ParamAt(s, i)
    requires forall j :: 0 <= j < i ==> !ParamAt(s, j)
    ensures QueryParam(s) == Some(ValueRun(s[i + 3..]))
  {
    QueryParamFromFirst(s, 0, i);
  }

  lemma {:induction false} QueryParamFromNone(s: string, k: nat)
    requires k <= |s|
    ensures QueryParamFrom(s, k).None? <==> forall j :: k <= j < |s| ==> !ParamAt(s, j)
    decreases |s| - k
  {
    if k < |s| {
      QueryParamFromNone(s, k + 1);
    }
  }

  /** There is no value exactly when the pattern matches nowhere. */
  lemma QueryParamNoneIff(s: string)
    ensures QueryParam(s).None? <==> forall j :: 0 <= j < |s| ==> !ParamAt(s, j)
  {
    QueryParamFromNone(s, 0);
  }

  /** `.replace(/\+/g, ' ')`. */
  function PlusToSpace(s: string): (r: string)
    ensures |r| == |s|
    ensures forall k :: 0 <= k < |s| ==> r[k] == if s[k] == '+' then ' ' else s[k]
  {
    if s == [] then [] else [if s[0] == '+' then ' ' else s[0]] + PlusToSpace(s[1..])
  }

  /**
   * The input field's value after the first part of `init`: a value already in
   * the field is kept; an empty field takes the decoded `q` parameter of the
   * page's query string, if there is one. None is the URIError that
   * `decodeURIComponent` throws, which ends `init` there.
   */
  function InitialInput(value: string, locationSearch: string, decode: string -> Option<string>): Option<string>
  {
    if value != [] then Some(value)
    else match QueryParam(locationSearch)
      case None => Some(value)
      case Some(raw) => decode(PlusToSpace(raw))
  }

  /** A value already in the field (a page restored from the cache) is never replaced. */
  lemma InitialInputKeepsValue(value: string, locationSearch: string, decode: string -> Option<string>)
    requires value != []
    ensures InitialInput(value, locationSearch, decode) == Some(value)
  {
  }

  /** An empty field takes the first `q` parameter, with `+` read as a space, decoded. */
  lemma InitialInputFromQuery(locationSearch: string, decode: string -> Option<string>, i: nat)
    requires ParamAt(locationSearch, i)
    requires forall j :: 0 <= j < i ==> !ParamAt(locationSearch, j)
    ensures InitialInput([], locationSearch, decode) == decode(PlusToSpace(ValueRun(locationSearch[i + 3..])))
  {
    QueryParamFirst(locationSearch, i);
  }

  /** Without a `q` parameter an empty field stays empty. */
  lemma InitialInputWithoutQuery(locationSearch: string, decode: string -> Option<string>)
    requires forall j :: 0 <= j < |locationSearch| ==> !ParamAt(locationSearch, j)
    ensures InitialInput([], locationSearch, decode) == Some([])
  {
    QueryParamNoneIff(locationSearch);
  }

  class Widget {
    /** The app id handed to `init`. */
    const appId: string
    /** `encodeURIComponent`, which the model does not interpret. */
    const encode: string -> string
    /** `decodeURIComponent`; None where it throws a URIError. */
    const decode: string -> Option<string>

    /** `inputEl.value`. */
    var inputValue: string
    /** `self.results`: the payload received for each query, falsy ones included. */
    var results: map<string, Option<Payload>>
    /** The private `script` variable: the request in flight, if any. */
    var script: Option<nat>
    /** The query the current `self.response` closure stores under; None before the first request. */
    var response: Option<string>
    /** The request scripts attached to the document, each with its `src`. */
    var scripts: map<nat, string>
    /** The identity the next `document.createElement('script')` returns. */
    var nextScript: nat
    /** `resultEl.innerHTML`. */
    var html: string
    /** The index of the focused result item; -1 for the input field. */
    var selIndex: int

    /**
     * The only attached script is the one in `script`, and it requests the
     * query the current callback stores under.
     */
    ghost predicate Valid()
      reads this`scripts, this`script, this`response, this`nextScript
    {
      && '{' !in encode(appId)
      && (forall id :: id in scripts ==> id < nextScript)
      && (script.None? ==> scripts == map[])
      && (script.Some? ==> response.Some? && scripts == map[script.value := RequestUrl(appId, encode, response.value)])
    }

    /** At most one request is ever in flight. */
    lemma AtMostOneRequest()
      requires Valid()
      ensures |scripts| <= 1
    {
    }

    /** The widget after the element lookups of `init`, before anything else. */
    constructor (appId: string, encode: string -> string, decode: string -> Option<string>,
                 inputValue: string, html: string)
      requires '{' !in encode(appId)
      ensures Valid()
      ensures this.appId == appId && this.encode == encode && this.decode == decode
      ensures this.inputValue == inputValue && this.html == html
      ensures results == map[] && script == None && response == None && scripts == map[]
      ensures nextScript == 0 && selIndex == -1
    {
      this.appId := appId;
      this.encode := encode;
      this.decode := decode;
      this.inputValue := inputValue;
      this.html := html;
      results := map[];
      script := None;
      response := None;
      scripts := map[];
      nextScript := 0;
      selIndex := -1;
    }

    /** `refresh(data)`. */
    method Refresh(data: Option<Payload>)
      modifies this`html
      ensures html == Displayed(old(html), data)
    {
      if data.None? || data.value.ysearchresponse.None? {
        return;
      }
      var rs := data.value.ysearchresponse.value.resultSetWeb;
      if rs.Some? && |rs.value| > 0 {
        html := BuildHtml(rs.value);
      } else {
        html := NO_RESULTS;
      }
    }

    /**
     * The effect of a request for the new query `q`: the previous request, if
     * any, is detached, and the only attached script is a new one requesting
     * `q`, whose response the callback now stores under `q`.
     */
    twostate predicate Requested(q: string)
      reads this`results, this`script, this`response, this`scripts, this`nextScript, this`html
    {
      && script == Some(old(nextScript)) && response == Some(q)
      && scripts == map[old(nextScript) := RequestUrl(appId, encode, q)]
      && nextScript == old(nextScript) + 1
      && results == old(results) && html == old(html)
    }

    /** The branch of `search` for a query that is not cached yet. */
    method Request(q: string)
      requires Valid() && q != []
      modifies this
      ensures Valid() && Requested(q)
      ensures inputValue == old(inputValue) && selIndex == old(selIndex)
    {
      if script.Some? {
        scripts := scripts - {script.value};
        assert scripts == map[];
      }
      var el := nextScript;
      nextScript := nextScript + 1;
      script := Some(el);
      var src := FillBossUrl(encode(appId), CALLBACK, encode(q));
      response := Some(q);
      scripts := scripts[el := src];
    }

    /** Nothing but the result list and the input field changed. */
    twostate predicate RequestsKept()
      reads this`results, this`script, this`response, this`scripts, this`nextScript, this`html
    {
      && results == old(results) && script == old(script) && response == old(response)
      && scripts == old(scripts) && nextScript == old(nextScript)
    }

    /**
     * The effect of `search(query)`: an all-whitespace query does nothing; a
     * cached query re-renders its cached payload and leaves any request in
     * flight alone; a new query is requested.
     */
    twostate predicate Searched(query: string)
      reads this`results, this`script, this`response, this`scripts, this`nextScript, this`html
    {
      var q := Trim(query);
      if q == [] then RequestsKept() && html == old(html)
      else if q in old(results) then RequestsKept() && html == Displayed(old(html), old(results)[q])
      else Requested(q)
    }

    /** `search(query)`. */
    method Search(query: string)
      requires Valid()
      modifies this
      ensures Valid() && Searched(query)
      ensures inputValue == old(inputValue) && selIndex == old(selIndex)
    {
      var q := Trim(query);
      if q == [] {
        return;
      }
      if q in results {
        Replay(q);
      } else {
        Request(q);
      }
    }

    /** The branch of `search` for a cached query. */
    method Replay(q: string)
      requires Valid() && q in results
      modifies this
      ensures Valid() && RequestsKept() && html == Displayed(old(html), old(results)[q])
      ensures inputValue == old(inputValue) && selIndex == old(selIndex)
    {
      Refresh(results[q]);
    }

    /**
     * `self.response(data)`: a payload arriving through the shared callback.
     * It is stored under the query of the latest request, whichever request it
     * answers, rendered, and the request in flight is detached.
     */
    method Respond(data: Option<Payload>)
      requires Valid() && response.Some?
      modifies this
      ensures Valid()
      ensures results == old(results)[old(response.value) := data]
      ensures html == Displayed(old(html), data)
      ensures script == None && scripts == map[]
      ensures response == old(response) && nextScript == old(nextScript)
      ensures inputValue == old(inputValue) && selIndex == old(selIndex)
    {
      results := results[response.value := data];
      Refresh(data);
      if script.Some? {
        scripts := scripts - {script.value};
        script := None;
      }
    }

    /**
     * The rest of `init`: fill an empty input field from the query string,
     * search for what the field then holds, and focus the field (whose focus
     * handler, attached just before, resets the index). `ok` is false when
     * decoding threw, and then nothing has changed; the source then never
     * attaches its event handlers, so the widget stays inert, which the model
     * does not enforce on later calls.
     */
    method Init(locationSearch: string) returns (ok: bool)
      requires Valid()
      modifies this
      ensures Valid()
      ensures var v := InitialInput(old(inputValue), locationSearch, decode);
        && ok == v.Some?
        && (!ok ==> unchanged(this))
        && (ok ==> inputValue == v.value && Searched(v.value) && selIndex == -1)
    {
      var value;
      ok, value := ReadInput(locationSearch);
      if ok {
        Start(value);
      }
    }

    /**
     * The rest of `init` once the field holds `value`: a non-empty value is
     * searched, and the input field has the focus.
     */
    method Start(value: string)
      requires Valid()
      modifies this
      ensures Valid() && Searched(value) && inputValue == value && selIndex == -1
    {
      // `search` does not read the input field, so the search may come before
      // the field is assigned.
      if value != [] {
        Search(value);
      }
      inputValue := value;
      selIndex := -1;
    }

    /**
     * The first part of `init`: the field's value, or, for an empty field, the
     * decoded `q` parameter of the query string; false where decoding throws.
     */
    method ReadInput(locationSearch: string) returns (ok: bool, value: string)
      ensures var v := InitialInput(inputValue, locationSearch, decode);
        ok == v.Some? && (ok ==> value == v.value)
    {
      ok, value := true, inputValue;
      if value == [] {
        var m := QueryParam(locationSearch);
        if m.Some? {
          var decoded := decode(PlusToSpace(m.value));
          if decoded.None? {
            return false, value;
          }
          value := decoded.value;
        }
      }
    }

    /** The keyup handler: search for the field's value. */
    method OnKeyUp()
      requires Valid()
      modifies this
      ensures Valid() && Searched(old(inputValue))
      ensures inputValue == old(inputValue) && selIndex == old(selIndex)
    {
      Search(inputValue);
    }

    /** `handleKeyNav`: Escape, Up and Down. */
    method HandleKeyNav(keyCode: int, childCount: nat, focusOk: bool) returns (focus: Focus, prevented: bool)
      modifies this`selIndex
      ensures NavStep(selIndex, focus, prevented) == Navigate(true, keyCode, old(selIndex), childCount, focusOk)
    {
      focus, prevented := NoFocus, false;
      if keyCode == ESCAPE {
        prevented := true;
        selIndex := -1;
        focus := InputField;
      } else if keyCode == UP {
        prevented := true;
        if selIndex - 1 <= -1 {
          selIndex := -1;
          focus := InputField;
        } else {
          selIndex := selIndex - 1;
          if 0 <= selIndex < childCount && focusOk {
            focus := ResultItem(selIndex);
          } else {
            selIndex := selIndex + 1;
          }
        }
      } else if keyCode == DOWN {
        prevented := true;
        if selIndex + 1 < childCount {
          selIndex := selIndex + 1;
          if 0 <= selIndex < childCount && focusOk {
            focus := ResultItem(selIndex);
          } else {
            selIndex := selIndex - 1;
          }
        }
      }
    }

    /** The focus handler of the input field. */
    method OnInputFocus()
      modifies this`selIndex
      ensures selIndex == -1
    {
      selIndex := -1;
    }
  }

  /**
   * A response that arrives after a newer request has replaced its own is
   * stored under the newer query, and cancels the newer request.
   */
  method StaleResponseIsMisattributed(appId: string, encode: string -> string, decode: string -> Option<string>,
                                      a: string, b: string, pa: Payload)
    returns (cache: map<string, Option<Payload>>, attached: map<nat, string>)
    requires '{' !in encode(appId)
    requires Trim(a) != [] && Trim(b) != [] && Trim(a) != Trim(b)
    ensures cache == map[Trim(b) := Some(pa)] && Trim(a) !in cache
    ensures attached == map[]
  {
    var w := new Widget(appId, encode, decode, "", "");
    w.Search(a);
    w.Search(b);
    assert w.response == Some(Trim(b)) && w.results == map[];
    w.Respond(Some(pa));
    cache, attached := w.results, w.scripts;
  }

  /**
   * A cache hit re-renders the cached payload but does not cancel the request
   * in flight: when that response arrives it is cached under its own query and
   * replaces what the hit rendered.
   */
  method HitKeepsRequestInFlight(appId: string, encode: string -> string, decode: string -> Option<string>,
                                 a: string, b: string, pa: Payload, pb: Payload)
    returns (inFlight: Option<string>, cache: map<string, Option<Payload>>, shown: string)
    requires '{' !in encode(appId)
    requires Trim(a) != [] && Trim(b) != [] && Trim(a) != Trim(b)
    ensures inFlight == Some(Trim(b))
    ensures cache == map[Trim(a) := Some(pa), Trim(b) := Some(pb)]
    ensures shown == Displayed(Displayed("", Some(pa)), Some(pb))
  {
    var qa, qb := Trim(a), Trim(b);
    var w := new Widget(appId, encode, decode, "", "");
    w.Search(a);
    w.Respond(Some(pa));
    assert w.results == map[qa := Some(pa)];
    w.Search(b);
    assert w.response == Some(qb);
    w.Search(a);
    inFlight := if w.script.Some? then w.response else None;
    w.Respond(Some(pb));
    cache, shown := w.results, w.html;
  }

  /**
   * A payload without `ysearchresponse` is cached like any other: searching its
   * query again sends no request and leaves the result list as it was.
   */
  method MalformedPayloadIsCached(appId: string, encode: string -> string, decode: string -> Option<string>,
                                  query: string, before: string)
    returns (cached: bool, attached: map<nat, string>, shown: string)
    requires '{' !in encode(appId) && Trim(query) != []
    ensures cached && attached == map[] && shown == before
  {
    var w := new Widget(appId, encode, decode, "", before);
    w.Search(query);
    w.Respond(Some(Payload(None)));
    w.Search(query);
    cached, attached, shown := Trim(query) in w.results, w.scripts, w.html;
  }
}
