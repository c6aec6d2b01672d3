/** The pure helpers of `src/utils.rs`: `capitalize_first`, `escape_html` and
    `check_hash`. */
module Utils {
  import opened Strings

  /** `capitalize_first`: the first character in upper case, the rest as it is.
      Case mapping is modelled on ASCII only. */
  function CapitalizeFirst(s: string): (r: string)
    ensures |r| == |s|
    ensures s != [] ==> r[0] == AsciiUpper(s[0]) && r[1..] == s[1..]
    ensures s != [] ==> !IsAsciiLower(r[0])
    ensures s != [] && !IsAsciiLower(s[0]) ==> r == s
  {
    if s == [] then [] else [AsciiUpper(s[0])] + s[1..]
  }

  /** Capitalising twice is capitalising once. */
  lemma CapitalizeFirstIdempotent(s: string)
    ensures CapitalizeFirst(CapitalizeFirst(s)) == CapitalizeFirst(s)
  {
  }

  /** Capitalising changes at most the first character, and only a lower-case letter. */
  lemma CapitalizeFirstChanges(s: string)
    ensures CapitalizeFirst(s) != s <==> s != [] && IsAsciiLower(s[0])
  {
    if s != [] && IsAsciiLower(s[0]) {
      assert CapitalizeFirst(s)[0] != s[0];
    }
  }

  /** The seven characters `escape_html` rewrites. */
  predicate IsHtmlSpecial(c: char) {
    c == '&' || c == '<' || c == '>' || c == '"' || c == '\'' || c == '/' || c == '\n'
  }

  /** What `escape_html` turns one character into. */
  function EscapeChar(c: char): (r: string)
    ensures |r| > 0
    ensures !IsHtmlSpecial(c) <==> r == [c]
  {
    match c
    case '&' => "&amp;"
    case '<' => "&lt;"
    case '>' => "&gt;"
    case '"' => "&quot;"
    case '\'' => "&#x27;"
    case '/' => "&#x2F;"
    case '\n' => "<br>"
    case _ => [c]
  }

  /** Reference definition: escape character by character. */
  function EscapeEach(s: string): (r: string)
    ensures |r| >= |s|
  {
    if s == [] then [] else EscapeChar(s[0]) + EscapeEach(s[1..])
  }

  /** The replacements `escape_html` makes, in the order it makes them. */
  const HtmlReplacements: seq<(char, string)> := [
    ('&', "&amp;"), ('<', "&lt;"), ('>', "&gt;"), ('"', "&quot;"),
    ('\'', "&#x27;"), ('/', "&#x2F;"), ('\n', "<br>")]

  /** `escape_html` as written: a chain of single-character replacements,
      `&` first, the newline last. */
  function EscapeHtml(s: string): (r: string)
    ensures (forall i :: 0 <= i < |s| ==> !IsHtmlSpecial(s[i])) ==> r == s
  {
    ReplaceInOrder(s, HtmlReplacements)
  }

  /** The chain distributes over concatenation. */
  lemma EscapeHtmlAppend(a: string, b: string)
    ensures EscapeHtml(a + b) == EscapeHtml(a) + EscapeHtml(b)
  {
    ReplaceInOrderAppend(a, b, HtmlReplacements);
  }

  /** On one character the chain gives that character's escape: `&` goes
      first and no replacement text holds a character replaced after it. */
  lemma EscapeHtmlChar(c: char)
    ensures EscapeHtml([c]) == EscapeChar(c)
  {
    HtmlReplacementsNoLaterTarget();
    ReplaceInOrderChar(c, HtmlReplacements);
    HtmlReplacementsLookup(c);
  }

  lemma HtmlReplacementsNoLaterTarget()
    ensures NoLaterTarget(HtmlReplacements)
  {
  }

  lemma HtmlReplacementsLookup(c: char)
    ensures FirstReplacement(c, HtmlReplacements) == EscapeChar(c)
  {
    var t := HtmlReplacements;
    assert FirstReplacement(c, t[7..]) == [c];
    assert FirstReplacement(c, t[6..]) == if c == '\n' then "<br>" else [c];
    assert FirstReplacement(c, t[5..]) == if c == '/' then "&#x2F;" else FirstReplacement(c, t[6..]);
    assert FirstReplacement(c, t[4..]) == if c == '\'' then "&#x27;" else FirstReplacement(c, t[5..]);
    assert FirstReplacement(c, t[3..]) == if c == '"' then "&quot;" else FirstReplacement(c, t[4..]);
    assert FirstReplacement(c, t[2..]) == if c == '>' then "&gt;" else FirstReplacement(c, t[3..]);
    assert FirstReplacement(c, t[1..]) == if c == '<' then "&lt;" else FirstReplacement(c, t[2..]);
    assert FirstReplacement(c, t) == if c == '&' then "&amp;" else FirstReplacement(c, t[1..]);
  }

  /** `escape_html` is the per-character map: no character is escaped twice. */
  lemma EscapeHtmlIsPerChar(s: string)
    ensures EscapeHtml(s) == EscapeEach(s)
  {
    HtmlReplacementsNoLaterTarget();
    ReplaceInOrderIsLookup(s, HtmlReplacements);
    LookupIsEscape(s);
  }

  lemma {:induction false} LookupIsEscape(s: string)
    ensures LookupEach(s, HtmlReplacements) == EscapeEach(s)
  {
    if s != [] {
      HtmlReplacementsLookup(s[0]);
      LookupIsEscape(s[1..]);
    }
  }

  /** In an escaped text every `<` opens a `<br>`. */
  predicate LtOnlyInBreaks(r: string) {
    forall i :: 0 <= i < |r| && r[i] == '<' ==> i + 4 <= |r| && r[i..i + 4] == "<br>"
  }

  /** The escaped text holds no quote, apostrophe, slash or newline, and every
      `<` in it starts a `<br>`. */
  lemma {:induction false} EscapeHtmlOutput(s: string)
    ensures var r := EscapeHtml(s);
      && (forall i :: 0 <= i < |r| ==> r[i] != '"' && r[i] != '\'' && r[i] != '/' && r[i] != '\n')
      && LtOnlyInBreaks(r)
  {
    EscapeHtmlIsPerChar(s);
    EscapeEachOutput(s);
  }

  lemma {:induction false} EscapeEachOutput(s: string)
    ensures var r := EscapeEach(s);
      && (forall i :: 0 <= i < |r| ==> r[i] != '"' && r[i] != '\'' && r[i] != '/' && r[i] != '\n')
      && LtOnlyInBreaks(r)
  {
    if s != [] {
      EscapeEachOutput(s[1..]);
      LtOnlyInBreaksPrepend(EscapeChar(s[0]), EscapeEach(s[1..]));
    }
  }

  /** An escaped character in front of an escaped text keeps every `<` at
      the head of a `<br>`. */
  lemma LtOnlyInBreaksPrepend(head: string, tail: string)
    requires head == "<br>" || (|head| > 0 && '<' !in head)
    requires LtOnlyInBreaks(tail)
    ensures LtOnlyInBreaks(head + tail)
  {
    var r := head + tail;
    forall i | 0 <= i < |r| && r[i] == '<'
      ensures i + 4 <= |r| && r[i..i + 4] == "<br>"
    {
      if i < |head| {
        assert head == "<br>" && i == 0;
        assert r[..4] == head;
      } else {
        var j := i - |head|;
        assert tail[j] == '<';
        assert r[i..i + 4] == tail[j..j + 4];
      }
    }
  }

  /** Reverses `escape_html`: each entity and `<br>` back to its character. */
  function Unescape(r: string): (s: string)
    decreases |r|
  {
    if r == [] then []
    else if |r| >= 5 && r[..5] == "&amp;" then "&" + Unescape(r[5..])
    else if |r| >= 4 && r[..4] == "&lt;" then "<" + Unescape(r[4..])
    else if |r| >= 4 && r[..4] == "&gt;" then ">" + Unescape(r[4..])
    else if |r| >= 6 && r[..6] == "&quot;" then "\"" + Unescape(r[6..])
    else if |r| >= 6 && r[..6] == "&#x27;" then "'" + Unescape(r[6..])
    else if |r| >= 6 && r[..6] == "&#x2F;" then "/" + Unescape(r[6..])
    else if |r| >= 4 && r[..4] == "<br>" then "\n" + Unescape(r[4..])
    else [r[0]] + Unescape(r[1..])
  }

  lemma UnescapeChar(c: char, rest: string)
    ensures Unescape(EscapeChar(c) + rest) == [c] + Unescape(rest)
  {
    if IsHtmlSpecial(c) {
      UnescapeEntity(c, rest);
    } else {
      UnescapePlain(c, rest);
    }
  }

  lemma UnescapePlain(c: char, rest: string)
    requires !IsHtmlSpecial(c)
    ensures Unescape([c] + rest) == [c] + Unescape(rest)
  {
    var e := [c] + rest;
    assert e[0] == c && e[1..] == rest;
    assert |e| >= 4 ==> e[..4][0] == c;
    assert |e| >= 5 ==> e[..5][0] == c;
    assert |e| >= 6 ==> e[..6][0] == c;
  }

  lemma UnescapeEntity(c: char, rest: string)
    requires IsHtmlSpecial(c)
    ensures Unescape(EscapeChar(c) + rest) == [c] + Unescape(rest)
  {
    var h := EscapeChar(c);
    var e := h + rest;
    assert e[..|h|] == h && e[|h|..] == rest;
    assert e[0] == h[0] && e[1] == h[1] && e[2] == h[2] && e[3] == h[3];
    assert |h| >= 5 ==> e[4] == h[4];
    assert |e| >= 5 ==> e[..5][1] == e[1];
    assert |e| >= 4 ==> e[..4][1] == e[1] && e[..4][0] == e[0];
    assert |e| >= 6 ==> e[..6][1] == e[1] && e[..6][4] == e[4];
  }

  /** Escaping loses nothing: the original text can be read back. */
  lemma {:induction false} EscapeHtmlRoundTrip(s: string)
    ensures Unescape(EscapeHtml(s)) == s
  {
    EscapeHtmlIsPerChar(s);
    EscapeEachRoundTrip(s);
  }

  lemma {:induction false} EscapeEachRoundTrip(s: string)
    ensures Unescape(EscapeEach(s)) == s
  {
    if s != [] {
      UnescapeChar(s[0], EscapeEach(s[1..]));
      EscapeEachRoundTrip(s[1..]);
    }
  }

  /** `check_hash`: the provided hash matches the one `generateHash` computes
      for the string and key. The keyed hash (HMAC-SHA256 in hex) is a parameter. */
  function CheckHash(generateHash: (string, string) -> string,
                     s: string, providedHash: string, hashKey: string): (ok: bool)
    ensures ok ==> providedHash == generateHash(s, hashKey)
    ensures providedHash == generateHash(s, hashKey) ==> ok
  {
    generateHash(s, hashKey) == providedHash
  }

  /** A hash produced by the same function and key is always accepted, and a
      hash produced under a key that gives a different hash is rejected. */
  lemma CheckHashOfGenerated(generateHash: (string, string) -> string,
                             s: string, hashKey: string, otherKey: string)
    ensures CheckHash(generateHash, s, generateHash(s, hashKey), hashKey)
    ensures generateHash(s, otherKey) != generateHash(s, hashKey) ==>
              !CheckHash(generateHash, s, generateHash(s, otherKey), hashKey)
  {
  }
}
