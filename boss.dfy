/**
 * The Yahoo! Search BOSS response as the widgets read it, and `refresh`, which
 * turns a response into the markup of the result list.
 */
module Boss {
  import opened Wrappers

  /** One web search hit: the four fields `refresh` reads. */
  datatype Result = Result(clickUrl: string, title: string, abstractText: string, dispUrl: string)

  /**
   * `data.ysearchresponse`. `resultSetWeb` is None when `resultset_web` is
   * absent or falsy (or has no `length`).
   */
  datatype SearchResponse = SearchResponse(resultSetWeb: Option<seq<Result>>)

  /**
   * A truthy value handed to a callback. `ysearchresponse` is None when the
   * value has no truthy `ysearchresponse` property (a malformed payload). The
   * absent or falsy argument itself is the None of `Option<Payload>`.
   */
  datatype Payload = Payload(ysearchresponse: Option<SearchResponse>)

  /** The placeholder item shown for an empty or missing result list. */
  const NO_RESULTS: string := "<li>No results</li>"

  /** The markup of one result, concatenated without any escaping. */
  function ItemHtml(r: Result): string
  {
    "<li class=\"res\"><h3><a href=\"" + r.clickUrl + "\">" + r.title + "</a></h3>"
    + "<div class=\"abstract\">" + r.abstractText + "</div>"
    + "<cite>" + r.dispUrl + "</cite></li>"
  }

  /** The strings `f(r)` for the results `r` of `rs`, joined in order. */
  function ConcatMap(f: Result -> string, rs: seq<Result>): string
  {
    if rs == [] then "" else ConcatMap(f, rs[..|rs| - 1]) + f(rs[|rs| - 1])
  }

  /** What the loop of `refresh` accumulates: the items of `rs` in order. */
  function ItemsHtml(rs: seq<Result>): string
  {
    ConcatMap(ItemHtml, rs)
  }

  /**
   * What `refresh` writes into the result list: None when it returns early
   * (no payload, or no `ysearchresponse`), otherwise the new markup.
   */
  function Render(data: Option<Payload>): Option<string>
  {
    if data.None? || data.value.ysearchresponse.None? then None
    else
      var rs := data.value.ysearchresponse.value.resultSetWeb;
      if rs.Some? && |rs.value| > 0 then Some(ItemsHtml(rs.value)) else Some(NO_RESULTS)
  }

  /** The result list's markup after `refresh(data)`, given the markup before it. */
  function Displayed(current: string, data: Option<Payload>): string
  {
    Render(data).GetOr(current)
  }

  /** The rendering loop of `refresh`: `html += ...` once per result. */
  method BuildHtml(rs: seq<Result>) returns (html: string)
    ensures html == ItemsHtml(rs)
  {
    html := "";
    var i := 0;
    while i < |rs|
      invariant 0 <= i <= |rs|
      invariant html == ItemsHtml(rs[..i])
    {
      assert rs[..i + 1][..i] == rs[..i];
      html := html + ItemHtml(rs[i]);
      i := i + 1;
    }
    assert rs[..|rs|] == rs;
  }

  /** Joining distributes over concatenation of result lists. */
  lemma {:induction false} ConcatMapAppend(f: Result -> string, a: seq<Result>, b: seq<Result>)
    ensures ConcatMap(f, a + b) == ConcatMap(f, a) + ConcatMap(f, b)
    decreases |b|
  {
    if b == [] {
      assert a + b == a;
    } else {
      var b' := b[..|b| - 1];
      assert (a + b)[..|a + b| - 1] == a + b';
      assert (a + b)[|a + b| - 1] == b[|b| - 1];
      ConcatMapAppend(f, a, b');
    }
  }

  /**
   * One item per result, in input order: the markup of result `i` stands,
   * verbatim, between the markup of the results before it and after it.
   */
  lemma {:induction false} ItemsHtmlAt(rs: seq<Result>, i: nat)
    requires i < |rs|
    ensures ItemsHtml(rs) == ItemsHtml(rs[..i]) + ItemHtml(rs[i]) + ItemsHtml(rs[i + 1..])
  {
    ConcatMapAt(ItemHtml, rs, i);
  }

  lemma {:induction false} ConcatMapAt(f: Result -> string, rs: seq<Result>, i: nat)
    requires i < |rs|
    ensures ConcatMap(f, rs) == ConcatMap(f, rs[..i]) + f(rs[i]) + ConcatMap(f, rs[i + 1..])
  {
    var pre, one, post := rs[..i], [rs[i]], rs[i + 1..];
    assert rs == pre + (one + post);
    ConcatMapAppend(f, pre, one + post);
    ConcatMapAppend(f, one, post);
    assert one[..0] == [];
    assert ConcatMap(f, one) == ConcatMap(f, []) + f(rs[i]);
  }

  /** One item's fixed markup alone is longer than the placeholder. */
  lemma ItemHtmlIsLong(r: Result)
    ensures |ItemHtml(r)| > |NO_RESULTS|
  {
  }

  /** The markup of a non-empty result list never reads as the placeholder. */
  lemma ItemsHtmlIsNotPlaceholder(rs: seq<Result>)
    requires rs != []
    ensures ItemsHtml(rs) != NO_RESULTS
  {
    var last := rs[|rs| - 1];
    ItemHtmlIsLong(last);
    assert ItemsHtml(rs) == ItemsHtml(rs[..|rs| - 1]) + ItemHtml(last);
  }

  /** `refresh` leaves the list alone exactly when the payload or its `ysearchresponse` is missing. */
  lemma RenderUnchangedIff(data: Option<Payload>)
    ensures Render(data).None? <==> data.None? || data.value.ysearchresponse.None?
    ensures Render(data).None? ==> forall current :: Displayed(current, data) == current
  {
  }

  /** Rendering the same payload twice shows what rendering it once shows. */
  lemma DisplayedIdempotent(current: string, data: Option<Payload>)
    ensures Displayed(Displayed(current, data), data) == Displayed(current, data)
  {
  }

  /**
   * The list shows exactly the placeholder when, and only when, the response
   * is there but its result list is missing or empty.
   */
  lemma RenderPlaceholderIff(data: Option<Payload>)
    ensures Render(data) == Some(NO_RESULTS) <==>
      data.Some? && data.value.ysearchresponse.Some? &&
      (data.value.ysearchresponse.value.resultSetWeb.None? ||
       data.value.ysearchresponse.value.resultSetWeb.value == [])
  {
    if data.Some? && data.value.ysearchresponse.Some? {
      var rs := data.value.ysearchresponse.value.resultSetWeb;
      if rs.Some? && rs.value != [] {
        ItemsHtmlIsNotPlaceholder(rs.value);
      }
    }
  }

  /**
   * With results present, the list holds one item per result, in order, and
   * nothing else.
   */
  lemma RenderResults(data: Option<Payload>, i: nat)
    requires data.Some? && data.value.ysearchresponse.Some?
    requires data.value.ysearchresponse.value.resultSetWeb.Some?
    requires i < |data.value.ysearchresponse.value.resultSetWeb.value|
    ensures var rs := data.value.ysearchresponse.value.resultSetWeb.value;
      Render(data) == Some(ItemsHtml(rs[..i]) + ItemHtml(rs[i]) + ItemsHtml(rs[i + 1..]))
  {
    ItemsHtmlAt(data.value.ysearchresponse.value.resultSetWeb.value, i);
  }
}
