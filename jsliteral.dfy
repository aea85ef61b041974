/**
 * The callback expression fastsearch puts into each request URL,
 * `FastSearch.results['<query>']`, and how the JavaScript engine reads it back
 * when the JSONP response calls it: as a property access whose key is the
 * value of a single-quoted string literal.
 */
module JsLiteral {
  import opened Wrappers

  const CALLBACK_OPEN: string := "FastSearch.results['"
  const CALLBACK_CLOSE: string := "']"

  /**
   * The character that the escape sequence `\c` stands for, or None where the
   * sequence is one this model does not interpret (legacy octal and `\0`,
   * `\x` and `\u` escapes, line continuations).
   */
  function EscapeValue(c: char): Option<char>
  {
    if c == 'n' then Some('\n')
    else if c == 't' then Some('\t')
    else if c == 'r' then Some('\r')
    else if c == 'b' then Some('\U{8}')
    else if c == 'f' then Some('\U{C}')
    else if c == 'v' then Some('\U{B}')
    else if '0' <= c <= '9' || c == 'x' || c == 'u' || c == '\n' || c == '\r'
         || c == '\U{2028}' || c == '\U{2029}' then None
    else Some(c)
  }

  /**
   * Reads the body of a single-quoted string literal, `s` being the text after
   * the opening quote: the literal's value and the text after its closing
   * quote, or None for an unterminated literal, a raw line break, or an escape
   * the model does not interpret. Raw characters are read as ECMAScript 2019 and
   * later read them: U+2028 and U+2029 are allowed inside the literal, where
   * earlier editions reject them as line terminators.
   */
  function ParseQuoted(s: string): Option<(string, string)>
    decreases |s|
  {
    if s == [] then None
    else if s[0] == '\'' then Some(([], s[1..]))
    else if s[0] == '\n' || s[0] == '\r' then None
    else if s[0] == '\\' then
      if |s| < 2 then None
      else match EscapeValue(s[1])
        case None => None
        case Some(c) =>
          match ParseQuoted(s[2..])
          case None => None
          case Some((v, rest)) => Some(([c] + v, rest))
    else
      match ParseQuoted(s[1..])
      case None => None
      case Some((v, rest)) => Some(([s[0]] + v, rest))
  }

  /**
   * The key of `FastSearch.results` that a callback expression reads, or None
   * when the expression is not a well-formed `FastSearch.results['...']`.
   */
  function CallbackKey(expr: string): Option<string>
  {
    if CALLBACK_OPEN <= expr then
      match ParseQuoted(expr[|CALLBACK_OPEN|..])
      case Some((key, rest)) => if rest == "]" then Some(key) else None
      case None => None
    else None
  }

  // ---- As written: `query.replace(/'/g, "\\'")` ----

  /** Every `'` preceded by a backslash; nothing else is escaped. */
  function EscapeQuotes(s: string): string
  {
    if s == [] then []
    else (if s[0] == '\'' then "\\'" else [s[0]]) + EscapeQuotes(s[1..])
  }

  function CallbackExprAsWritten(query: string): string
  {
    CALLBACK_OPEN + EscapeQuotes(query) + CALLBACK_CLOSE
  }

  /**
   * The query `\q` (a backslash, then `q`) is sent with the callback
   * `FastSearch.results['\q']`, which reads the entry of the different query
   * `q`: its response would be stored under, and rendered by, the callback of
   * `q`, or fail when `q` was never searched.
   */
  lemma AsWrittenMisroutes()
    ensures CallbackKey(CallbackExprAsWritten("\\q")) == Some("q")
    ensures "\\q" != "q"
  {
    var body := "\\q']";
    assert EscapeQuotes("\\q") == "\\q" by {
      assert EscapeQuotes("q") == "q" by { assert "q"[1..] == []; }
      assert "\\q"[1..] == "q";
    }
    assert CallbackExprAsWritten("\\q") == CALLBACK_OPEN + body;
    assert ParseQuoted("']") == Some(([], "]"));
    assert body[2..] == "']";
    assert ParseQuoted(body) == Some(("q", "]"));
    assert (CALLBACK_OPEN + body)[|CALLBACK_OPEN|..] == body;
  }

  // ---- Corrected: escape the backslash and the line breaks as well ----

  /** The escape sequence of `c` inside a single-quoted literal. */
  function EscapeChar(c: char): string
  {
    if c == '\'' then "\\'"
    else if c == '\\' then "\\\\"
    else if c == '\n' then "\\n"
    else if c == '\r' then "\\r"
    else [c]
  }

  function EscapeLiteral(s: string): string
  {
    if s == [] then [] else EscapeChar(s[0]) + EscapeLiteral(s[1..])
  }

  /** The callback expression naming the cache entry of `query`. */
  function CallbackExpr(query: string): string
  {
    CALLBACK_OPEN + EscapeLiteral(query) + CALLBACK_CLOSE
  }

  /** An escaped string followed by a closing quote reads back as the string itself. */
  lemma {:induction false} ParseEscaped(s: string, rest: string)
    ensures ParseQuoted(EscapeLiteral(s) + "'" + rest) == Some((s, rest))
    decreases |s|
  {
    if s == [] {
      assert EscapeLiteral(s) + "'" + rest == ['\''] + rest;
    } else {
      var tail := EscapeLiteral(s[1..]) + "'" + rest;
      var e := EscapeChar(s[0]);
      assert EscapeLiteral(s) + "'" + rest == e + tail;
      ParseEscaped(s[1..], rest);
      var c := s[0];
      if c == '\'' || c == '\\' || c == '\n' || c == '\r' {
        assert (e + tail)[0] == '\\' && (e + tail)[2..] == tail;
        assert EscapeValue((e + tail)[1]) == Some(c);
      } else {
        assert (e + tail)[0] == c && (e + tail)[1..] == tail;
      }
      assert [c] + s[1..] == s;
    }
  }

  /** Every query's callback expression reads the cache entry of that very query. */
  lemma CallbackRoundTrip(query: string)
    ensures CallbackKey(CallbackExpr(query)) == Some(query)
  {
    var e := CallbackExpr(query);
    ParseEscaped(query, "]");
    assert e == CALLBACK_OPEN + (EscapeLiteral(query) + "'" + "]");
    assert e[|CALLBACK_OPEN|..] == EscapeLiteral(query) + "'" + "]";
  }

  /** Where the query holds no backslash and no line break, both escapings agree. */
  lemma {:induction false} EscapeQuotesAgrees(s: string)
    requires '\\' !in s && '\n' !in s && '\r' !in s
    ensures EscapeQuotes(s) == EscapeLiteral(s)
    decreases |s|
  {
    if s != [] {
      var c, t := s[0], s[1..];
      assert s == [c] + t;
      assert c != '\\' && c != '\n' && c != '\r';
      assert '\\' !in t && '\n' !in t && '\r' !in t;
      EscapeCharAgrees(c);
      EscapeQuotesAgrees(t);
    }
  }

  lemma EscapeCharAgrees(c: char)
    requires c != '\\' && c != '\n' && c != '\r'
    ensures EscapeChar(c) == if c == '\'' then "\\'" else [c]
  {
  }

  /**
   * The quote-only escaping is enough for a query without a backslash or a line
   * break: its callback expression reads the cache entry of that very query.
   */
  lemma AsWrittenRoundTrip(query: string)
    requires '\\' !in query && '\n' !in query && '\r' !in query
    ensures CallbackKey(CallbackExprAsWritten(query)) == Some(query)
  {
    EscapeQuotesAgrees(query);
    CallbackRoundTrip(query);
  }

  /** Distinct queries get distinct corrected callback expressions. */
  lemma CallbackExprInjective(a: string, b: string)
    requires CallbackExpr(a) == CallbackExpr(b)
    ensures a == b
  {
    CallbackRoundTrip(a);
    CallbackRoundTrip(b);
  }
}
