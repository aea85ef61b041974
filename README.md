# trogdor / fastsearch: a Dafny model

This project models the two search-as-you-type widgets of the repository:
`js/fastsearch.js` (module `FastSearch`) and `js/trogdor.js` (module `Trogdor`).
Both widgets do the following:

- they trim the query typed into an input field;
- they send a JSONP request to the Yahoo! Search BOSS web search API by attaching a `<script>` element whose URL comes from a template;
- they cache each response under its query;
- they render the results into a list element;
- they let the Up and Down keys (and, in trogdor, Escape) move the focus between the input field and the result links.

The two widgets differ in how a response finds its query:

- **fastsearch** creates one callback closure per query and names it in the URL, as `FastSearch.results['<query>']`. Several requests may be in flight at once. Each closure keeps the last payload it received and the script of its own request. The first call of a closure detaches that script.
- **trogdor** uses one shared callback, `Trogdor.response`. Every cache miss rebinds it to store under the new query, and first detaches the previous request's script. So at most one request script is attached at a time, and a response is stored under the query of the most recent miss.

Structure:

- `wrappers.dfy`: `Option`.
- `text.dfy`: the trimming done by `query.replace(/^\s+|\s+$/g, '')`, with the JavaScript `\s` class written out.
- `template.dfy`: `String.prototype.replace` with a string pattern (first occurrence only), the `substitute` loop, and the `BOSS_URL` template filled as both widgets fill it.
- `boss.dfy`: the response datatypes and `refresh`. Rendering is a function from a payload to "no change" or new markup. The concatenation loop is a method proved against that function.
- `keynav.dfy`: `handleKeyNav` as a step function over `selIndex`, plus runs of key presses and focus events.
- `jsliteral.dfy`: the callback expression of fastsearch, and how a JavaScript engine reads it back as the key of a single-quoted property access.
- `fastsearch.dfy` and `trogdor.dfy`: each widget is a class. The cache, the attached scripts, the result markup and `selIndex` are its fields. Search, response arrival, key press and input focus are its methods. Each class carries an invariant:
  - fastsearch: every attached script belongs to the closure that still holds it, and requests that closure's query;
  - trogdor: the only attached script is the one in `script`, and it requests the query the callback stores under.

The document is modelled as a map from script identities to their `src`. `document.createElement('script')` hands out fresh identities.

Three behaviours of the code worth knowing:
- A trogdor response is stored under the query of the most recent request, not under the query that issued it (`Trogdor.StaleResponseIsMisattributed`).
- fastsearch escapes only `'` in the callback expression. The response to a query holding a backslash can therefore reach another query's closure (`FastSearch.MisroutedResponse`; see Findings).
- trogdor caches every payload it receives, including a malformed or falsy one. A later search for that query then neither renders nor sends a request (`Trogdor.MalformedPayloadIsCached`).

## Model

| member | source | states |
|---|---|---|
| Text.IsSpace | js/fastsearch.js:286 | Defines the characters of the JavaScript `\s` class: the ECMAScript white space and line terminators. |
| Text.DropWhile | js/fastsearch.js:286 | What `^\s+` removes: the result is a suffix of the input, everything dropped is in the class, and the result starts outside it. |
| Text.DropLastWhile | js/trogdor.js:263 | What `\s+$` removes: the result is a prefix of the input, everything dropped is in the class, and the result ends outside it. |
| Text.Strip | js/fastsearch.js:286 | Defines trimming as both margins removed. Its meaning is pinned down by `Text.StripDecomposition`. |
| Text.StripDecomposition | js/trogdor.js:263 | Margins in the class around a middle that neither starts nor ends in the class strip to exactly that middle. |
| Text.Trim | js/fastsearch.js:286 | The trimmed query is no longer than the query, and neither starts nor ends with a whitespace character. |
| Text.TrimDecomposition | js/fastsearch.js:286 | For any string made of whitespace margins around a middle that neither starts nor ends with whitespace, trimming returns exactly that middle. |
| Text.TrimEmptyIff | js/fastsearch.js:286-290 | A query is empty after trimming, and so ignored, exactly when every character is whitespace. |
| Text.TrimIdempotent | js/trogdor.js:263 | Trimming an already trimmed query changes nothing. |
| Template.ReplaceFirst | js/fastsearch.js:166 | Defines `String.prototype.replace` with a string pattern. Its meaning is `Template.ReplaceFirstAt` and `Template.ReplaceFirstAbsent`. |
| Template.Placeholder | js/fastsearch.js:166 | Defines the pattern `'{' + value + '}'`. |
| Template.SubstituteAll | js/fastsearch.js:161-171 | Defines the value of `substitute`: the keys, in listing order, each replacing the first occurrence of its placeholder. |
| Template.ReplaceFirstAt | js/fastsearch.js:166 | `replace` with a string pattern replaces the leftmost occurrence of the placeholder and keeps everything else. |
| Template.ReplaceFirstAbsent | js/fastsearch.js:166 | A string without the placeholder comes back unchanged. |
| Template.Substitute | js/fastsearch.js:161-171 | The loop over the keys yields the string obtained by replacing each key's first `{key}`, key by key in order. |
| Template.SubstituteWithoutPlaceholders | js/trogdor.js:118-128 | A template that mentions none of the keys' placeholders is returned unchanged. |
| Template.BossRequestUrl | js/fastsearch.js:231 | Filling `BOSS_URL` with `appid`, `callback`, `query` in that order puts each value in place of its own placeholder, provided the app id value has no `{`. |
| Template.FillBossUrl | js/fastsearch.js:302-306 | The request URL equals the template's fixed pieces with the three encoded values in their places. |
| Boss.ItemHtml | js/fastsearch.js:140-142 | Defines one result's markup, concatenated without escaping. |
| Boss.ItemsHtml | js/fastsearch.js:137-143 | Defines the items of a result list, in order. Its meaning is `Boss.ItemsHtmlAt`. |
| Boss.Render | js/fastsearch.js:128-146 | Defines what `refresh` writes: nothing, the placeholder, or the items. Its meaning is `Boss.RenderUnchangedIff`, `Boss.RenderPlaceholderIff` and `Boss.RenderResults`. |
| Boss.Displayed | js/trogdor.js:84-105 | Defines the list's markup after `refresh`, given the markup before it. |
| Boss.BuildHtml | js/fastsearch.js:132-143 | The loop builds the items of the results in order (`ItemsHtml`). |
| Boss.ItemsHtmlAt | js/trogdor.js:93-99 | Result `i`'s markup stands verbatim between the markup of the results before and after it: one item per result, in input order. |
| Boss.ItemsHtmlIsNotPlaceholder | js/fastsearch.js:136-146 | With at least one result, the markup is never the "No results" placeholder. |
| Boss.RenderUnchangedIff | js/fastsearch.js:128-130 | `refresh` leaves the list unchanged exactly when the payload or its `ysearchresponse` is missing. |
| Boss.RenderPlaceholderIff | js/fastsearch.js:136-146 | The list becomes exactly `<li>No results</li>` exactly when the response is there and its result list is missing or empty. |
| Boss.RenderResults | js/trogdor.js:84-105 | With results present, the list is one item per result, in order, and nothing else. |
| Boss.DisplayedIdempotent | js/fastsearch.js:127-149 | Rendering the same payload a second time shows what rendering it once showed. |
| KeyNav.TryFocus | js/fastsearch.js:195-199 | Defines the focus attempt on a result item: it fails outside the list or when `focus()` fails, and then restores the previous index. |
| KeyNav.Navigate | js/fastsearch.js:182-217 | Defines one key press of `handleKeyNav`, with or without the Escape case. Its meaning is the KeyNav lemmas below. |
| KeyNav.Run | js/trogdor.js:139-181 | Defines the index after a sequence of key presses and input-focus events. |
| KeyNav.UpToInput | js/fastsearch.js:186-191 | Up from the first item or from the input field goes to the input field, index -1. |
| KeyNav.DownMovesIff | js/fastsearch.js:203-214 | Down moves one item on exactly when a next item exists and focusing it succeeds; otherwise the index stays. |
| KeyNav.FailedFocusRollsBack | js/trogdor.js:157-163 | A failed focus leaves the index where it was. |
| KeyNav.EscapeHandling | js/trogdor.js:143-148 | Escape goes to the input field in trogdor and is ignored by fastsearch. |
| KeyNav.NavigateInRange | js/trogdor.js:139-181 | A key press keeps the index in [-1, childCount - 1], and the element focused agrees with the new index. |
| KeyNav.NavigateNeverInventsItems | js/fastsearch.js:182-217 | From any index of at least -1, the index never drops below -1 and never moves to an item that does not exist. |
| KeyNav.RunInRange | js/fastsearch.js:270-274 | Any sequence of key presses and input-focus events over one result list keeps the index in [-1, childCount - 1]. |
| KeyNav.IndexStrandedByRerender | js/fastsearch.js:186-214 | An index more than one past the last item of a re-rendered list stays there on both Up and Down. |
| KeyNav.OnePastEndRecovers | js/fastsearch.js:186-214 | An index exactly one past the last item is refused by Down, and Up moves it to the last item when the focus succeeds (and leaves it when the focus fails). |
| JsLiteral.EscapeValue | js/fastsearch.js:304 | Defines the character an escape sequence `\c` stands for in a JavaScript string literal, where the model interprets it. |
| JsLiteral.ParseQuoted | js/fastsearch.js:304 | Defines how the engine reads the body of a single-quoted literal: its value and the text after the closing quote. |
| JsLiteral.CallbackKey | js/fastsearch.js:310 | Defines the key of `FastSearch.results` that a callback expression reads. |
| JsLiteral.EscapeQuotes | js/fastsearch.js:304 | Defines `query.replace(/'/g, "\\'")`. |
| JsLiteral.CallbackExprAsWritten | js/fastsearch.js:304 | Defines the callback expression as the source builds it. |
| JsLiteral.EscapeChar | js/fastsearch.js:304 | Defines the corrected escape of one character. |
| JsLiteral.EscapeLiteral | js/fastsearch.js:304 | Defines the corrected escaping of a query. |
| JsLiteral.CallbackExpr | js/fastsearch.js:304 | Defines the corrected callback expression. Its meaning is `JsLiteral.CallbackRoundTrip`. |
| JsLiteral.AsWrittenMisroutes | js/fastsearch.js:304 | As written, the query `\q` gets a callback expression that reads the cache entry of the different query `q`. |
| JsLiteral.AsWrittenRoundTrip | js/fastsearch.js:304 | For a query without a backslash or a line break, the quote-only callback expression reads the cache entry of that very query. |
| JsLiteral.CallbackRoundTrip | js/fastsearch.js:304 | With backslashes and line breaks escaped as well, every query's callback expression reads the cache entry of that very query. |
| JsLiteral.CallbackExprInjective | js/fastsearch.js:310 | Distinct queries get distinct corrected callback expressions. |
| FastSearch.RequestUrl | js/fastsearch.js:302-306 | Defines the request script's `src`: the filled template with the quote-only callback expression. `Template.FillBossUrl` connects it to `substitute`. |
| FastSearch.RoutesToItself | js/fastsearch.js:304-310 | Defines when the response to a query's request calls that query's own closure. |
| FastSearch.DetachKeepsConsistent | js/fastsearch.js:317-320 | Detaching a closure's own script and clearing its `el` keeps every attached script owned by a closure that holds it. |
| FastSearch.AttachKeepsConsistent | js/fastsearch.js:300-323 | A new closure holding a fresh attached script keeps the ownership invariant, and the fresh identity was not attached before. |
| FastSearch.Widget.constructor | js/fastsearch.js:242-276 | The widget starts with an empty cache, no scripts, and the input field focused (index -1). |
| FastSearch.Widget.Refresh | js/fastsearch.js:127-149 | The result list becomes `Displayed(old list, data)`; an empty query leaves it unchanged. |
| FastSearch.Widget.Callback | js/fastsearch.js:310-321 | A payload is stored and an absent one keeps the stored payload. The stored payload is rendered. The closure's script, if it still holds one, is detached. Nothing else changes, and the invariant holds. |
| FastSearch.Widget.Request | js/fastsearch.js:300-323 | A cache miss adds exactly one entry, under the trimmed query, and attaches exactly one new script requesting it, with the quote-only callback expression. The list is unchanged. |
| FastSearch.Widget.Search | js/fastsearch.js:285-324 | An all-whitespace query changes nothing. A cached query replays its closure with no payload. A new query is requested. |
| FastSearch.Widget.HandleKeyNav | js/fastsearch.js:182-217 | The new index, the element focused and `preventDefault` match `Navigate` without Escape. |
| FastSearch.Widget.OnInputFocus | js/fastsearch.js:270-272 | Focusing the input field resets the index to -1. |
| FastSearch.OverlappingRequests | js/fastsearch.js:300-321 | With two requests in flight for queries whose callback expressions read their own keys, in either order of the two answers, each payload is stored under the query that asked for it. |
| FastSearch.ReplayWhilePending | js/fastsearch.js:294-297 | A cache hit while the request is pending detaches the script at once and shows nothing new. For a query whose callback expression reads its own key, the late payload is stored and rendered when it arrives, with no script left attached, and a later hit renders it again. |
| FastSearch.MisroutedResponse | js/fastsearch.js:304-321 | When one query's callback expression reads another query's key, the response to the first query's request is stored under the other query. The first query never receives it, and its script stays attached. |
| Trogdor.RequestUrl | js/trogdor.js:284-288 | Defines the request script's `src`: the filled template with the fixed callback `Trogdor.response`. |
| Trogdor.ParamAt | js/trogdor.js:230 | Defines where the pattern matches: `?` or `&`, then `q=`, then a character other than `&`. |
| Trogdor.QueryParamFrom | js/trogdor.js:230 | A value captured from position `i` on is non-empty and holds no `&`. |
| Trogdor.InitialInput | js/trogdor.js:229-233 | Defines the field's value after the URL step of `init`. Its meaning is the three InitialInput lemmas. |
| Trogdor.ValueRun | js/trogdor.js:230 | The captured value is the longest prefix of the text after `q=` that contains no `&`. |
| Trogdor.QueryParam | js/trogdor.js:230 | A captured value is non-empty and holds no `&`. |
| Trogdor.QueryParamFirst | js/trogdor.js:230 | The leftmost `?q=` or `&q=` with a non-empty value is the one read. |
| Trogdor.QueryParamNoneIff | js/trogdor.js:230 | There is no match exactly when no position starts `?q=` or `&q=` followed by a character other than `&`. |
| Trogdor.PlusToSpace | js/trogdor.js:231 | Every `+` becomes a space and every other character is kept. |
| Trogdor.InitialInputKeepsValue | js/trogdor.js:229 | A value already in the input field is never replaced from the URL. |
| Trogdor.InitialInputFromQuery | js/trogdor.js:229-232 | An empty field takes the leftmost `q` value, with `+` read as a space, decoded. |
| Trogdor.InitialInputWithoutQuery | js/trogdor.js:229-233 | Without a `q` parameter an empty field stays empty. |
| Trogdor.Widget.AtMostOneRequest | js/trogdor.js:276-282 | Under the invariant, at most one request script is attached. |
| Trogdor.Widget.constructor | js/trogdor.js:206-225 | The widget starts with an empty cache, no request, and no scripts. |
| Trogdor.Widget.Refresh | js/trogdor.js:84-106 | The result list becomes `Displayed(old list, data)`. |
| Trogdor.Widget.Request | js/trogdor.js:276-303 | A miss detaches the previous script, if any, then attaches one new script requesting the query. The callback now stores under that query. The cache and the list are unchanged. |
| Trogdor.Widget.Replay | js/trogdor.js:271-274 | A cache hit renders the cached payload and leaves the request in flight, the callback and the scripts alone. |
| Trogdor.Widget.Search | js/trogdor.js:262-304 | An all-whitespace query changes nothing. A hit renders without cancelling. A miss is requested. The invariant holds throughout. |
| Trogdor.Widget.Respond | js/trogdor.js:292-301 | The payload, whatever it is, is stored under the query of the latest request and rendered. The request script is detached and `script` cleared. |
| Trogdor.Widget.ReadInput | js/trogdor.js:229-233 | The field's value after the URL step is `InitialInput`. The step fails exactly when decoding throws. |
| Trogdor.Widget.Start | js/trogdor.js:239-253 | A non-empty field is searched, and the index is -1 once the field has the focus. |
| Trogdor.Widget.Init | js/trogdor.js:220-254 | When decoding throws, nothing changes. Otherwise the field holds `InitialInput`, that value has been searched, and the index is -1. |
| Trogdor.Widget.OnKeyUp | js/trogdor.js:243-245 | A key release searches for the field's value. |
| Trogdor.Widget.HandleKeyNav | js/trogdor.js:139-181 | The new index, the element focused and `preventDefault` match `Navigate` with Escape. |
| Trogdor.Widget.OnInputFocus | js/trogdor.js:247-249 | Focusing the input field resets the index to -1. |
| Trogdor.StaleResponseIsMisattributed | js/trogdor.js:292-293 | A response to a superseded request is stored under the newer query, not its own, and it detaches the newer request. |
| Trogdor.HitKeepsRequestInFlight | js/trogdor.js:271-274 | A hit during a pending request does not cancel it. The late answer is cached under its own query and replaces what the hit rendered. |
| Trogdor.MalformedPayloadIsCached | js/trogdor.js:85-87 | A payload without `ysearchresponse` is cached. Searching that query again sends no request and leaves the list as it was. |

## Left out

- The DOM helpers `get`, `on` and `preventDefault`, and `setAttribute('autocomplete', 'off')`, are browser plumbing. Each event handler is a method that the model calls directly.
- `getUserAgent` is not modelled. It only chooses between `keypress` and `keydown`, and it uses floating-point parsing of the user agent.
- Script loading, network fetches and callback timing are not modelled. A response is an explicit call of the callback with its payload, at any time the model chooses. A script that never loads is a callback never called.
- `encodeURIComponent` and `decodeURIComponent` are uninterpreted parameters of each widget. `decode` returns None where it would throw a URIError.
- FastSearch.Widget.constructor and Trogdor.Widget.constructor require that the encoded app id holds no `{`. `encodeURIComponent` always percent-encodes `{`.
- The `$` patterns of `String.prototype.replace` are not modelled. Every value substituted is percent-encoded or the fixed name `Trogdor.response`, so none holds a `$`.
- HTML parsing of `innerHTML` is not modelled. The number of child nodes of the result list is a parameter of `HandleKeyNav`, and so is whether a `focus()` call succeeds.
- The final `inputEl.focus()` of `init` is modelled only through its effect, the focus handler's index of -1.
- JavaScript strings are UTF-16 code units, and the model's `char` is a Unicode scalar value. So a query holding an unpaired surrogate cannot be written, and `encode` is total. In the source, `encodeURIComponent` throws a URIError on such a query:
  - fastsearch throws before the closure is stored, so nothing is cached or attached;
  - trogdor throws after detaching the previous script and pointing `script` at a new element that is never attached, with `self.response` still bound to the old query. Every later miss, and the late response's detach, then throws on the missing `parentNode`.
  The model has no such error path.
- Result fields that are absent become the text `undefined` in the markup. The model gives every result its four fields as strings.
- Object property names inherited from `Object.prototype` are not modelled. A query such as `hasOwnProperty` or `__proto__` is treated like any other cache key.
- fastsearch's input field value is not modelled. Its keyup handler is `FastSearch.Widget.Search` applied to that value.
- FastSearch.Widget.Callback performs the payload store (`arguments.callee.data = data`) and `el = null` as one update of the cache entry. `refresh` does not read the cache, so the outcome is the same.
- Trogdor.Widget.Respond requires that a request has been made. Before the first miss `self.response` is undefined, but a response exists only for a request.
- Trogdor.Widget.Init: when decoding throws, `init` stops before it attaches the keyup, focus and keydown handlers and before it focuses the field. The widget is then inert, but the model does not forbid later calls of `OnKeyUp`, `HandleKeyNav` or `OnInputFocus`.
- Trogdor.Widget.Init places the search before the assignment to the input field. `search` does not read the field, so the outcome is the same. Sanitisation of line breaks by the field's `value` setter is not modelled.
- The corrected callback escaping `JsLiteral.CallbackExpr` (see Findings) is proved about on its own. The widget, `FastSearch.RequestUrl`, uses the source's quote-only escaping.
- KeyNav.RunInRange: the index stays in range only between renders, for a fixed child count. Neither widget relates `selIndex` to the list it renders, and a response or cache hit can re-render the list while a result link has the focus. An index more than one past the new last item then stays out of range (`KeyNav.IndexStrandedByRerender`) until the input field receives the focus, or Escape is pressed in trogdor. At exactly one past, Down is refused and a successful Up brings it back (`KeyNav.OnePastEndRecovers`).

## Findings

| source | as written | input that shows it | evidently intended | confidence | as-written member | corrected member |
|---|---|---|---|---|---|---|
| js/fastsearch.js:304 | Only `'` is escaped in the callback expression `FastSearch.results['...']`. | The query `\q` (a backslash, then `q`) produces `FastSearch.results['\q']`, which reads the entry of the query `q` (`FastSearch.MisroutedResponse` follows such a response through the widget). A query holding a line break produces an unterminated literal. | The callback expression names the cache entry of the query that made the request, for every query. | not executed; assumes the service echoes the callback name as sent | JsLiteral.AsWrittenMisroutes | JsLiteral.CallbackRoundTrip |
