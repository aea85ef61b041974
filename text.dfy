/**
 * Query normalisation: both widgets trim the query with
 * `query.replace(/^\s+|\s+$/g, '')` before anything else.
 */
module Text {

  /**
   * The characters JavaScript's `\s` class matches: the ECMAScript WhiteSpace
   * characters (tab, vertical tab, form feed, space, no-break space, byte order
   * mark and the Unicode space separators) and the LineTerminator characters.
   */
  predicate IsSpace(c: char)
  {
    || c == ' ' || c == '\t' || c == '\n' || c == '\r' || c == '\U{B}' || c == '\U{C}'
    || c == '\U{A0}' || c == '\U{1680}' || ('\U{2000}' <= c <= '\U{200A}')
    || c == '\U{2028}' || c == '\U{2029}' || c == '\U{202F}' || c == '\U{205F}'
    || c == '\U{3000}' || c == '\U{FEFF}'
  }

  /** Every character of `s` is in the class `p`. */
  predicate All(p: char -> bool, s: string)
  {
    forall k :: 0 <= k < |s| ==> p(s[k])
  }

  lemma AllAppend(p: char -> bool, a: string, b: string)
    requires All(p, a) && All(p, b)
    ensures All(p, a + b)
  {
    forall k | 0 <= k < |a + b| ensures p((a + b)[k]) {
      if k < |a| {
        assert (a + b)[k] == a[k];
      } else {
        assert (a + b)[k] == b[k - |a|];
      }
    }
  }

  /** What `^\s+` removes, for the class `p`: the longest prefix in the class. */
  function DropWhile(p: char -> bool, s: string): (r: string)
    ensures |r| <= |s| && r == s[|s| - |r|..]
    ensures All(p, s[..|s| - |r|])
    ensures r != [] ==> !p(r[0])
  {
    if s != [] && p(s[0]) then
      var r := DropWhile(p, s[1..]);
      assert s[..|s| - |r|] == [s[0]] + s[1..][..|s| - 1 - |r|];
      AllAppend(p, [s[0]], s[1..][..|s| - 1 - |r|]);
      r
    else s
  }

  /** What `\s+$` removes, for the class `p`: the longest suffix in the class. */
  function DropLastWhile(p: char -> bool, s: string): (r: string)
    ensures |r| <= |s| && r == s[..|r|]
    ensures All(p, s[|r|..])
    ensures r != [] ==> !p(r[|r| - 1])
  {
    if s != [] && p(s[|s| - 1]) then
      var r := DropLastWhile(p, s[..|s| - 1]);
      assert s[|r|..] == s[..|s| - 1][|r|..] + [s[|s| - 1]];
      AllAppend(p, s[..|s| - 1][|r|..], [s[|s| - 1]]);
      r
    else s
  }

  /** Both margins stripped, for the class `p`. */
  function Strip(p: char -> bool, s: string): string
  {
    DropLastWhile(p, DropWhile(p, s))
  }

  /** `query.replace(/^\s+|\s+$/g, '')`. */
  function Trim(s: string): (r: string)
    ensures |r| <= |s|
    ensures r != [] ==> !IsSpace(r[0]) && !IsSpace(r[|r| - 1])
  {
    Strip(IsSpace, s)
  }

  lemma {:induction false} DropWhileSkips(p: char -> bool, lead: string, rest: string)
    requires All(p, lead)
    ensures DropWhile(p, lead + rest) == DropWhile(p, rest)
    decreases |lead|
  {
    if lead == [] {
      assert lead + rest == rest;
    } else {
      var s := lead + rest;
      assert s[0] == lead[0] && p(s[0]);
      assert s[1..] == lead[1..] + rest;
      assert DropWhile(p, s) == DropWhile(p, s[1..]);
      DropWhileSkips(p, lead[1..], rest);
    }
  }

  lemma {:induction false} DropLastWhileSkips(p: char -> bool, rest: string, trail: string)
    requires All(p, trail)
    requires rest != [] && !p(rest[|rest| - 1])
    ensures DropLastWhile(p, rest + trail) == rest
    decreases |trail|
  {
    if trail == [] {
      assert rest + trail == rest;
    } else {
      var t := trail[..|trail| - 1];
      var s := rest + trail;
      assert s[|s| - 1] == trail[|trail| - 1] && p(s[|s| - 1]);
      assert s[..|s| - 1] == rest + t;
      DropLastWhileSkips(p, rest, t);
    }
  }

  lemma {:induction false} DropAllOf(p: char -> bool, s: string)
    requires All(p, s)
    ensures DropWhile(p, s) == [] && DropLastWhile(p, []) == []
  {
    DropWhileSkips(p, s, []);
    assert s + [] == s;
  }

  /**
   * Stripping is characterised by its decomposition: margins in the class
   * around a middle that neither starts nor ends in the class leave exactly
   * that middle.
   */
  lemma {:induction false} StripDecomposition(p: char -> bool, lead: string, mid: string, trail: string)
    requires All(p, lead) && All(p, trail)
    requires mid != [] ==> !p(mid[0]) && !p(mid[|mid| - 1])
    ensures Strip(p, lead + mid + trail) == mid
  {
    assert lead + mid + trail == lead + (mid + trail);
    DropWhileSkips(p, lead, mid + trail);
    if mid == [] {
      assert mid + trail == trail;
      DropAllOf(p, trail);
    } else {
      assert DropWhile(p, mid + trail) == mid + trail;
      DropLastWhileSkips(p, mid, trail);
    }
  }

  /**
   * Trim is characterised by its decomposition: whatever a string is made of,
   * all-space margins around a middle that neither starts nor ends with a space,
   * Trim returns exactly that middle.
   */
  lemma TrimDecomposition(lead: string, mid: string, trail: string)
    requires All(IsSpace, lead) && All(IsSpace, trail)
    requires mid != [] ==> !IsSpace(mid[0]) && !IsSpace(mid[|mid| - 1])
    ensures Trim(lead + mid + trail) == mid
  {
    StripDecomposition(IsSpace, lead, mid, trail);
  }

  lemma {:induction false} StripEmptyIff(p: char -> bool, s: string)
    ensures Strip(p, s) == [] <==> All(p, s)
  {
    var t := DropWhile(p, s);
    var n := |s| - |t|;
    if Strip(p, s) == [] {
      // A non-empty `t` would start outside the class and end inside it.
      assert t[|DropLastWhile(p, t)|..] == t;
      assert t == [] && s[..n] == s;
    } else if All(p, s) {
      DropAllOf(p, s);
    }
  }

  /** A query is empty after trimming exactly when it is all whitespace. */
  lemma TrimEmptyIff(s: string)
    ensures Trim(s) == [] <==> All(IsSpace, s)
  {
    StripEmptyIff(IsSpace, s);
  }

  /** Trimming twice is trimming once. */
  lemma TrimIdempotent(s: string)
    ensures Trim(Trim(s)) == Trim(s)
  {
    var t := Trim(s);
    assert t == [] + t + [];
    assert All(IsSpace, []);
    TrimDecomposition([], t, []);
  }
}
