/**
 * URL templating: `substitute(string, values)` replaces, for each key of
 * `values` in turn, the first occurrence of `{key}` with the key's value, using
 * `String.prototype.replace` with a string pattern.
 */
module Template {

  // The pieces of the request URL template around its three placeholders.
  const URL_HEAD: string := "http://boss.yahooapis.com/ysearch/web/v1/"
  const URL_APPID: string := "?appid="
  const URL_CALLBACK: string := "&format=jsonp&callback="

  /**
   * The request URL template of the Yahoo! Search BOSS web search API,
   * `http://boss.yahooapis.com/ysearch/web/v1/{query}?appid={appid}&format=jsonp&callback={callback}`,
   * written as the concatenation of its pieces.
   */
  const BOSS_URL: string :=
    URL_HEAD + "{query}" + URL_APPID + "{appid}" + URL_CALLBACK + "{callback}"

  /** `pat` occurs in `s` starting at index `i`. */
  predicate OccursAt(s: string, pat: string, i: int)
  {
    0 <= i && i + |pat| <= |s| && s[i..i + |pat|] == pat
  }

  /** `pat` occurs somewhere in `s`. */
  ghost predicate Mentions(s: string, pat: string)
  {
    exists i :: OccursAt(s, pat, i)
  }

  /**
   * `s.replace(pat, rep)` for a string `pat`: the leftmost occurrence of `pat`
   * is replaced by `rep`; with no occurrence, `s` is returned as it is.
   */
  function ReplaceFirst(s: string, pat: string, rep: string): string
    decreases |s|
  {
    if pat <= s then rep + s[|pat|..]
    else if s == [] then []
    else [s[0]] + ReplaceFirst(s[1..], pat, rep)
  }

  lemma OccursAtShift(s: string, pat: string, i: int)
    requires s != [] && 0 <= i
    ensures OccursAt(s, pat, i + 1) <==> OccursAt(s[1..], pat, i)
  {
    if i + |pat| <= |s[1..]| {
      assert s[1..][i..i + |pat|] == s[i + 1..i + 1 + |pat|];
    }
  }

  lemma PrefixIsOccurrence(s: string, pat: string)
    ensures pat <= s <==> OccursAt(s, pat, 0)
  {
    if |pat| <= |s| {
      assert s[0..|pat|] == s[..|pat|];
    }
  }

  /** Where the string does not start with the pattern, its first character is kept. */
  lemma ReplaceFirstUnfold(s: string, pat: string, rep: string)
    requires s != [] && !OccursAt(s, pat, 0)
    ensures ReplaceFirst(s, pat, rep) == [s[0]] + ReplaceFirst(s[1..], pat, rep)
  {
    PrefixIsOccurrence(s, pat);
  }

  /** The leftmost occurrence, at `i`, is the one that is replaced. */
  lemma {:induction false} ReplaceFirstAt(s: string, pat: string, rep: string, i: nat)
    requires OccursAt(s, pat, i)
    requires forall j :: 0 <= j < i ==> !OccursAt(s, pat, j)
    ensures ReplaceFirst(s, pat, rep) == s[..i] + rep + s[i + |pat|..]
    decreases i
  {
    if i == 0 {
      PrefixIsOccurrence(s, pat);
      assert s[..0] == [];
    } else {
      var t := s[1..];
      ReplaceFirstUnfold(s, pat, rep);
      OccursAtShift(s, pat, i - 1);
      forall j | 0 <= j < i - 1 ensures !OccursAt(t, pat, j) {
        OccursAtShift(s, pat, j);
      }
      ReplaceFirstAt(t, pat, rep, i - 1);
      assert s[..i] == [s[0]] + t[..i - 1];
      assert s[i + |pat|..] == t[i - 1 + |pat|..];
    }
  }

  /** A string without the pattern comes back unchanged. */
  lemma {:induction false} ReplaceFirstAbsent(s: string, pat: string, rep: string)
    requires !Mentions(s, pat)
    ensures ReplaceFirst(s, pat, rep) == s
    decreases |s|
  {
    assert !OccursAt(s, pat, 0);
    PrefixIsOccurrence(s, pat);
    if s != [] {
      forall j | 0 <= j ensures !OccursAt(s[1..], pat, j) {
        OccursAtShift(s, pat, j);
      }
      ReplaceFirstAbsent(s[1..], pat, rep);
    }
  }

  /** A first character other than the pattern's first is kept. */
  lemma ReplaceFirstKeep(c: char, s: string, pat: string, rep: string)
    requires pat != [] && pat[0] != c
    ensures ReplaceFirst([c] + s, pat, rep) == [c] + ReplaceFirst(s, pat, rep)
  {
    assert ([c] + s)[0] == c;
    assert ([c] + s)[1..] == s;
  }

  /** A prefix that does not contain the pattern's first character is kept as it is. */
  lemma {:induction false} ReplaceFirstSkip(x: string, s: string, pat: string, rep: string)
    requires pat != [] && pat[0] !in x
    ensures ReplaceFirst(x + s, pat, rep) == x + ReplaceFirst(s, pat, rep)
    decreases |x|
  {
    if x == [] {
      assert x + s == s;
    } else {
      var c, x' := x[0], x[1..];
      assert x == [c] + x';
      assert x + s == [c] + (x' + s);
      ReplaceFirstKeep(c, x' + s, pat, rep);
      assert pat[0] !in x';
      ReplaceFirstSkip(x', s, pat, rep);
      assert [c] + (x' + ReplaceFirst(s, pat, rep)) == x + ReplaceFirst(s, pat, rep);
    }
  }

  /** The placeholder `{key}` that `substitute` looks for. */
  function Placeholder(key: string): string
  {
    "{" + key + "}"
  }

  /**
   * The value `substitute` computes: the key/value pairs are applied in the
   * order in which they are listed, each replacing the first occurrence of its
   * placeholder in the string produced so far.
   */
  function SubstituteAll(template: string, values: seq<(string, string)>): string
    decreases |values|
  {
    if values == [] then template
    else SubstituteAll(ReplaceFirst(template, Placeholder(values[0].0), values[0].1), values[1..])
  }

  /** `substitute(string, values)`: the `for ... in` loop over the keys of `values`. */
  method Substitute(template: string, values: seq<(string, string)>) returns (r: string)
    ensures r == SubstituteAll(template, values)
  {
    r := template;
    var i := 0;
    while i < |values|
      invariant 0 <= i <= |values|
      invariant SubstituteAll(r, values[i..]) == SubstituteAll(template, values)
    {
      assert values[i..][1..] == values[i + 1..];
      r := ReplaceFirst(r, Placeholder(values[i].0), values[i].1);
      i := i + 1;
    }
  }

  /** A template that contains none of the placeholders comes back unchanged. */
  lemma {:induction false} SubstituteWithoutPlaceholders(template: string, values: seq<(string, string)>)
    requires forall i :: 0 <= i < |values| ==> !Mentions(template, Placeholder(values[i].0))
    ensures SubstituteAll(template, values) == template
    decreases |values|
  {
    if values != [] {
      ReplaceFirstAbsent(template, Placeholder(values[0].0), values[0].1);
      assert forall i :: 0 <= i < |values| - 1 ==> values[1..][i] == values[i + 1];
      SubstituteWithoutPlaceholders(template, values[1..]);
    }
  }

  /** A string that starts with the pattern has that prefix replaced. */
  lemma ReplaceFirstHere(pat: string, rest: string, rep: string)
    ensures ReplaceFirst(pat + rest, pat, rep) == rep + rest
  {
    assert pat <= pat + rest;
    assert (pat + rest)[|pat|..] == rest;
  }

  /** A first character that starts no occurrence of the pattern is kept. */
  lemma ReplaceFirstStep(c: char, s: string, pat: string, rep: string)
    requires s != [] && |pat| >= 2 && pat[1] != s[0]
    ensures ReplaceFirst([c] + s, pat, rep) == [c] + ReplaceFirst(s, pat, rep)
  {
    assert ([c] + s)[1] == s[0];
    assert !(pat <= [c] + s);
    assert ([c] + s)[1..] == s;
  }

  /** The first `pat[0]` of the string opens the pattern: that occurrence is replaced. */
  lemma {:induction false} ReplaceAtFirstBrace(x: string, pat: string, rest: string, rep: string)
    requires pat != [] && pat[0] !in x
    ensures ReplaceFirst(x + pat + rest, pat, rep) == x + rep + rest
  {
    assert x + pat + rest == x + (pat + rest);
    ReplaceFirstSkip(x, pat + rest, pat, rep);
    ReplaceFirstHere(pat, rest, rep);
  }

  /**
   * The first `pat[0]` opens another placeholder, which differs from `pat` in its
   * second character; the next `pat[0]` opens `pat`: that occurrence is replaced.
   */
  lemma {:induction false} ReplaceAfterOther(x: string, other: string, y: string, pat: string, rest: string, rep: string)
    requires |pat| >= 2 && |other| >= 2 && other[0] == pat[0] && other[1] != pat[1]
    requires pat[0] !in x && pat[0] !in other[1..] && pat[0] !in y
    ensures ReplaceFirst(x + other + y + pat + rest, pat, rep) == x + other + y + rep + rest
  {
    var tail := other[1..] + y;
    assert x + other + y + pat + rest == x + ([other[0]] + (tail + pat + rest));
    ReplaceFirstSkip(x, [other[0]] + (tail + pat + rest), pat, rep);
    assert (tail + pat + rest)[0] == other[1];
    ReplaceFirstStep(other[0], tail + pat + rest, pat, rep);
    assert pat[0] !in tail;
    ReplaceAtFirstBrace(tail, pat, rest, rep);
    assert x + ([other[0]] + (tail + rep + rest)) == x + other + y + rep + rest;
  }

  lemma SubstituteAllCons(template: string, key: string, value: string, values: seq<(string, string)>)
    ensures SubstituteAll(template, [(key, value)] + values)
         == SubstituteAll(ReplaceFirst(template, Placeholder(key), value), values)
  {
    assert ([(key, value)] + values)[1..] == values;
  }

  lemma PiecesHaveNoBrace()
    ensures '{' !in URL_HEAD && '{' !in URL_APPID && '{' !in URL_CALLBACK
  {
  }

  lemma NoBraceConcat(a: string, b: string, c: string)
    requires '{' !in a && '{' !in b && '{' !in c
    ensures '{' !in a + b + c
  {
  }

  lemma FillAppId(appid: string)
    ensures ReplaceFirst(BOSS_URL, Placeholder("appid"), appid)
         == URL_HEAD + "{query}" + URL_APPID + appid + (URL_CALLBACK + "{callback}")
  {
    var q := "{query}";
    assert Placeholder("appid") == "{appid}";
    PiecesHaveNoBrace();
    assert '{' !in q[1..];
    assert BOSS_URL == URL_HEAD + q + URL_APPID + "{appid}" + (URL_CALLBACK + "{callback}");
    ReplaceAfterOther(URL_HEAD, q, URL_APPID, "{appid}", URL_CALLBACK + "{callback}", appid);
  }

  lemma {:induction false} FillSecond(head: string, other: string, a: string, b: string, c: string,
                                      pat: string, rep: string)
    requires |pat| >= 2 && |other| >= 2 && other[0] == pat[0] && other[1] != pat[1]
    requires pat[0] !in head && pat[0] !in other[1..] && pat[0] !in a + b + c
    ensures ReplaceFirst(head + other + a + b + (c + pat), pat, rep) == head + other + (a + b + c + rep)
  {
    var y := a + b + c;
    ReplaceAfterOther(head, other, y, pat, [], rep);
    assert head + other + a + b + (c + pat) == head + other + y + pat + [];
    assert head + other + y + rep + [] == head + other + (y + rep);
  }

  lemma FillCallback(appid: string, callback: string)
    requires '{' !in appid
    ensures ReplaceFirst(URL_HEAD + "{query}" + URL_APPID + appid + (URL_CALLBACK + "{callback}"), Placeholder("callback"), callback)
         == URL_HEAD + "{query}" + (URL_APPID + appid + URL_CALLBACK + callback)
  {
    var q, cb := "{query}", "{callback}";
    assert Placeholder("callback") == cb;
    PiecesHaveNoBrace();
    assert '{' !in q[1..];
    NoBraceConcat(URL_APPID, appid, URL_CALLBACK);
    FillSecond(URL_HEAD, q, URL_APPID, appid, URL_CALLBACK, cb, callback);
  }

  lemma FillQuery(rest: string, query: string)
    ensures ReplaceFirst(URL_HEAD + "{query}" + rest, Placeholder("query"), query) == URL_HEAD + query + rest
  {
    assert Placeholder("query") == "{query}";
    PiecesHaveNoBrace();
    ReplaceAtFirstBrace(URL_HEAD, "{query}", rest, query);
  }

  /**
   * The request URL both widgets build: with the keys in the order the source
   * lists them (appid, callback, query), the template's three placeholders are
   * filled in place, provided the encoded app id holds no `{` (the other two
   * values need no such condition).
   */
  lemma BossRequestUrl(appid: string, callback: string, query: string)
    requires '{' !in appid
    ensures SubstituteAll(BOSS_URL, [("appid", appid), ("callback", callback), ("query", query)])
         == URL_HEAD + query + URL_APPID + appid + URL_CALLBACK + callback
  {
    var rest := URL_APPID + appid + URL_CALLBACK + callback;
    var t1 := URL_HEAD + "{query}" + URL_APPID + appid + (URL_CALLBACK + "{callback}");
    var t2 := URL_HEAD + "{query}" + rest;
    FillAppId(appid);
    FillCallback(appid, callback);
    FillQuery(rest, query);
    assert [("appid", appid), ("callback", callback), ("query", query)]
        == [("appid", appid)] + ([("callback", callback)] + ([("query", query)] + []));
    SubstituteAllCons(BOSS_URL, "appid", appid, [("callback", callback)] + ([("query", query)] + []));
    SubstituteAllCons(t1, "callback", callback, [("query", query)] + []);
    SubstituteAllCons(t2, "query", query, []);
    assert URL_HEAD + query + rest == URL_HEAD + query + URL_APPID + appid + URL_CALLBACK + callback;
  }

  /**
   * `substitute(BOSS_URL, {appid: ..., callback: ..., query: ...})` as both
   * widgets call it, with the values already encoded.
   */
  method FillBossUrl(appid: string, callback: string, query: string) returns (url: string)
    requires '{' !in appid
    ensures url == URL_HEAD + query + URL_APPID + appid + URL_CALLBACK + callback
  {
    url := Substitute(BOSS_URL, [("appid", appid), ("callback", callback), ("query", query)]);
    BossRequestUrl(appid, callback, query);
  }
}
