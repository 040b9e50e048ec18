/**
  `highlightSQL` of the script library page: the SQL text is HTML-escaped and
  the whole-word keyword and function names are wrapped in coloured span
  elements, in two global replacements.
 */
module SqlMarkup {
  import opened Wrappers
  import opened JsText
  import opened SqlText

  // ---------------------------------------------------------------------------
  // HTML escaping
  // ---------------------------------------------------------------------------

  /** No character of `s` is `c`. */
  predicate Lacks(s: string, c: char) {
    forall k :: 0 <= k < |s| ==> s[k] != c
  }

  /** `s.replace(/c/g, sub)` for a single character `c`. */
  function ReplaceChar(s: string, c: char, sub: string): (r: string)
    ensures Lacks(sub, c) ==> Lacks(r, c)
    ensures Lacks(s, c) ==> r == s
  {
    if s == [] then [] else (if s[0] == c then sub else [s[0]]) + ReplaceChar(s[1..], c, sub)
  }

  lemma {:induction false} ReplaceCharConcat(a: string, b: string, c: char, sub: string)
    ensures ReplaceChar(a + b, c, sub) == ReplaceChar(a, c, sub) + ReplaceChar(b, c, sub)
  {
    if a != [] {
      var h := if a[0] == c then sub else [a[0]];
      assert (a + b)[0] == a[0] && (a + b)[1..] == a[1..] + b;
      assert ReplaceChar(a + b, c, sub) == h + ReplaceChar(a[1..] + b, c, sub);
      assert ReplaceChar(a, c, sub) == h + ReplaceChar(a[1..], c, sub);
      ReplaceCharConcat(a[1..], b, c, sub);
    } else {
      assert a + b == b;
    }
  }

  /** The three replacements of `highlightSQL`, ampersand first. */
  function Escape(s: string): string {
    ReplaceChar(ReplaceChar(ReplaceChar(s, '&', "&amp;"), '<', "&lt;"), '>', "&gt;")
  }

  /** The entity a single character is written as. */
  function EscapeChar(c: char): string {
    if c == '&' then "&amp;" else if c == '<' then "&lt;" else if c == '>' then "&gt;" else [c]
  }

  /** Escaping character by character; the reference `Escape` is compared with. */
  function EscapeEach(s: string): (r: string)
    ensures Lacks(r, '<') && Lacks(r, '>')
  {
    if s == [] then [] else EscapeChar(s[0]) + EscapeEach(s[1..])
  }

  lemma EscapeConcat(a: string, b: string)
    ensures Escape(a + b) == Escape(a) + Escape(b)
  {
    ReplaceCharConcat(a, b, '&', "&amp;");
    var a1, b1 := ReplaceChar(a, '&', "&amp;"), ReplaceChar(b, '&', "&amp;");
    ReplaceCharConcat(a1, b1, '<', "&lt;");
    ReplaceCharConcat(ReplaceChar(a1, '<', "&lt;"), ReplaceChar(b1, '<', "&lt;"), '>', "&gt;");
  }

  lemma ReplaceCharOne(x: char, c: char, sub: string)
    ensures ReplaceChar([x], c, sub) == if x == c then sub else [x]
  {
    assert [x][1..] == [];
  }

  lemma EscapeOne(x: char)
    ensures Escape([x]) == EscapeChar(x)
  {
    ReplaceCharOne(x, '&', "&amp;");
    if x == '&' {
      assert Lacks("&amp;", '<') && Lacks("&amp;", '>');
    } else {
      ReplaceCharOne(x, '<', "&lt;");
      if x == '<' {
        assert Lacks("&lt;", '>');
      } else {
        ReplaceCharOne(x, '>', "&gt;");
      }
    }
  }

  /**
    Because `&` is replaced first, the three passes together replace each character
    by its own entity: the `&` of an inserted `&lt;` or `&gt;` is never escaped again.
   */
  lemma {:induction false} EscapeIsPerChar(s: string)
    ensures Escape(s) == EscapeEach(s)
  {
    if s != [] {
      assert s == [s[0]] + s[1..];
      EscapeConcat([s[0]], s[1..]);
      EscapeOne(s[0]);
      EscapeIsPerChar(s[1..]);
    }
  }

  /** The HTML text escaped output stands for: each entity read back as its character. */
  function Unescape(s: string): string
    decreases |s|, 1
  {
    if s == [] then [] else UnescapeFront(s)
  }

  /** One step of `Unescape`: an entity or a plain character at the front. */
  function UnescapeFront(s: string): string
    requires s != []
    decreases |s|, 0
  {
    if IsPrefix("&amp;", s) then "&" + Unescape(s[5..])
    else if IsPrefix("&lt;", s) then "<" + Unescape(s[4..])
    else if IsPrefix("&gt;", s) then ">" + Unescape(s[4..])
    else [s[0]] + Unescape(s[1..])
  }

  /** Escaping loses nothing: every character can be read back. */
  lemma {:induction false} UnescapeEscape(s: string)
    ensures Unescape(Escape(s)) == s
  {
    EscapeIsPerChar(s);
    UnescapeEach(s);
  }

  lemma {:induction false} UnescapeEach(s: string)
    ensures Unescape(EscapeEach(s)) == s
  {
    if s != [] {
      assert EscapeEach(s) == EscapeChar(s[0]) + EscapeEach(s[1..]);
      UnescapeEach(s[1..]);
      UnescapeChar(s[0], EscapeEach(s[1..]));
      assert s == [s[0]] + s[1..];
    }
  }

  /** The escape of one character reads back as that character. */
  lemma UnescapeChar(c: char, rest: string)
    ensures Unescape(EscapeChar(c) + rest) == [c] + Unescape(rest)
  {
    if c == '&' {
      UnescapeEntity("&amp;", "&", rest);
    } else if c == '<' {
      UnescapeEntity("&lt;", "<", rest);
    } else if c == '>' {
      UnescapeEntity("&gt;", ">", rest);
    } else {
      var t := [c] + rest;
      assert Unescape(t) == UnescapeFront(t);
      assert t[1..] == rest;
    }
  }

  /** An entity at the front reads back as the character it stands for. */
  lemma UnescapeEntity(e: string, c: string, rest: string)
    requires (e, c) == ("&amp;", "&") || (e, c) == ("&lt;", "<") || (e, c) == ("&gt;", ">")
    ensures Unescape(e + rest) == c + Unescape(rest)
  {
    var t := e + rest;
    assert Unescape(t) == UnescapeFront(t);
    assert t[..|e|] == e && t[|e|..] == rest;
    assert t[1] == e[1];
  }

  // ---------------------------------------------------------------------------
  // The two highlighting passes
  // ---------------------------------------------------------------------------

  // The two opening tags are the literal tags of the highlighter, written as a
  // concatenation of chunks of at most sixteen characters: the solver reads the
  // character at a given index of a short literal directly, which the
  // `KeywordOpenQuiet…` and `FunctionOpenQuiet…` lemmas below rely on when they
  // walk a tag one index at a time.

  /** Markup before a keyword. */
  const KeywordOpen: string := "<span class=\"dar" + "k:text-blue-400" + " text-blue-600 " + "font-bold\">"
  /** Markup before a function name. */
  const FunctionOpen: string := "<span class=\"dar" + "k:text-purple-4" + "00 text-purple-" + "600\">"
  /** Markup after a keyword or a function name. */
  const SpanClose: string := "</span>"

  const Keywords: Pattern := Pattern(
    ["SELECT", "FROM", "WHERE", "INSERT", "INTO", "UPDATE", "DELETE", "JOIN", "ON",
     "GROUP BY", "ORDER BY", "HAVING", "AS", "AND", "OR", "NOT", "NULL"], true)

  const Functions: Pattern := Pattern(["COUNT", "SUM", "AVG", "MIN", "MAX", "NOW"], true)

  lemma PatternsValid()
    ensures ValidPattern(Keywords) && ValidPattern(Functions)
  {
  }

  /** `highlightSQL(sql)` */
  function Highlight(sql: string): string {
    PatternsValid();
    var marked := ReplaceAll(Escape(sql), Keywords, Wrap(KeywordOpen, SpanClose));
    ReplaceAll(marked, Functions, Wrap(FunctionOpen, SpanClose))
  }

  // ---------------------------------------------------------------------------
  // Removing the inserted markup
  // ---------------------------------------------------------------------------

  /** The text with every markup tag (`<` up to the next `>`) deleted. */
  function Strip(s: string): string
    decreases |s|, 1
  {
    if s == [] then [] else StripFront(s)
  }

  /** `Strip` of a non-empty text, by its first character. */
  function StripFront(s: string): string
    requires s != []
    decreases |s|, 0
  {
    if s[0] == '<' then Strip(SkipTag(s[1..])) else [s[0]] + Strip(s[1..])
  }

  /** The text after the first `>`; nothing when there is none. */
  function SkipTag(s: string): (r: string)
    ensures |r| <= |s|
  {
    if s == [] then [] else if s[0] == '>' then s[1..] else SkipTag(s[1..])
  }

  lemma {:induction false} SkipTagOf(mid: string, x: string)
    requires Lacks(mid, '>')
    ensures SkipTag(mid + ">" + x) == x
  {
    if mid == [] {
      assert mid + ">" + x == ">" + x;
      assert (">" + x)[1..] == x;
    } else {
      assert (mid + ">" + x)[1..] == mid[1..] + ">" + x;
      SkipTagOf(mid[1..], x);
    }
  }

  /** `<`, then characters other than `<` and `>`, then `>`. */
  predicate TagShaped(t: string) {
    && |t| >= 2 && t[0] == '<' && t[|t| - 1] == '>'
    && (forall k :: 0 < k < |t| ==> t[k] != '<')
    && (forall k :: 0 < k < |t| - 1 ==> t[k] != '>')
  }

  lemma {:induction false} StripPlain(m: string, x: string)
    requires Lacks(m, '<')
    ensures Strip(m + x) == m + Strip(x)
  {
    if m != [] {
      assert Strip(m + x) == StripFront(m + x);
      assert (m + x)[0] == m[0];
      assert (m + x)[1..] == m[1..] + x;
      StripPlain(m[1..], x);
      assert m == [m[0]] + m[1..];
    } else {
      assert m + x == x;
    }
  }

  lemma StripTag(t: string, x: string)
    requires TagShaped(t)
    ensures Strip(t + x) == Strip(x)
  {
    var mid := t[1..|t| - 1];
    assert t == "<" + mid + ">";
    assert (t + x)[1..] == mid + ">" + x;
    assert Strip(t + x) == StripFront(t + x);
    forall k | 0 <= k < |mid| ensures mid[k] != '>' {
      assert mid[k] == t[k + 1];
    }
    SkipTagOf(mid, x);
  }

  /** Every `<` of the text begins a tag inside which `p` cannot match. */
  ghost predicate AnglesInert(s: string, p: Pattern) {
    forall j :: AngleAt(s, j) ==> exists n: nat :: InertTagAt(s, j, n, p)
  }

  predicate AngleAt(s: string, j: int) {
    0 <= j < |s| && s[j] == '<'
  }

  predicate InertTagAt(s: string, j: nat, n: nat, p: Pattern) {
    j + n <= |s| && TagShaped(s[j..j + n]) && Inert(s[j..j + n], p)
  }

  lemma AnglesOfTag(t: string, p: Pattern)
    requires TagShaped(t) && Inert(t, p)
    ensures AnglesInert(t, p)
  {
    assert t[0..|t|] == t;
    assert InertTagAt(t, 0, |t|, p);
    forall j | AngleAt(t, j) ensures j == 0 {
    }
  }

  lemma AnglesOfPlain(m: string, p: Pattern)
    requires Lacks(m, '<')
    ensures AnglesInert(m, p)
  {
    forall j | AngleAt(m, j) ensures false {
    }
  }

  lemma AnglesConcat(a: string, b: string, p: Pattern)
    requires AnglesInert(a, p) && AnglesInert(b, p)
    ensures AnglesInert(a + b, p)
  {
    forall j | AngleAt(a + b, j) ensures exists n: nat :: InertTagAt(a + b, j, n, p) {
      if j < |a| {
        assert AngleAt(a, j);
        var n: nat :| InertTagAt(a, j, n, p);
        assert (a + b)[j..j + n] == a[j..j + n];
        assert InertTagAt(a + b, j, n, p);
      } else {
        assert AngleAt(b, j - |a|);
        var n: nat :| InertTagAt(b, j - |a|, n, p);
        assert (a + b)[j..j + n] == b[j - |a|..j - |a| + n];
        assert InertTagAt(a + b, j, n, p);
      }
    }
  }

  /** A pair of characters that spells the start of the word `w`. */
  predicate PairStarts(x: char, y: char, w: string, ignoreCase: bool) {
    |w| >= 2 && CharMatches(x, w[0], ignoreCase) && CharMatches(y, w[1], ignoreCase)
  }

  /**
    No alternative of `p` can match anywhere inside `t`, whatever surrounds it:
    `t` ends with a non-word character, every alternative starts with a word
    character, and no two adjacent characters of `t` spell an alternative's start.
   */
  predicate Inert(t: string, p: Pattern) {
    && |t| > 0 && !IsWordChar(t[|t| - 1])
    && (forall k :: 0 <= k < |p.alts| ==> |p.alts[k]| >= 2 && IsWordChar(p.alts[k][0]))
    && (forall j, k :: 0 <= j < |t| - 1 && 0 <= k < |p.alts| ==>
          !PairStarts(t[j], t[j + 1], p.alts[k], p.ignoreCase))
  }

  lemma CharMatchesWord(a: char, b: char, ignoreCase: bool)
    requires CharMatches(a, b, ignoreCase)
    ensures IsWordChar(a) == IsWordChar(b)
  {
  }

  lemma CharMatchesAngle(a: char, b: char, ignoreCase: bool)
    requires CharMatches(a, b, ignoreCase) && b != '<'
    ensures a != '<'
  {
  }

  lemma {:induction false} InertNoMatch(s: string, i: nat, t: string, p: Pattern, j: nat)
    requires i + |t| <= |s| && s[i..i + |t|] == t && Inert(t, p)
    requires i <= j < i + |t|
    ensures FirstMatch(s, j, p).None?
  {
    FirstMatchSpec(s, j, p);
    if FirstMatch(s, j, p).Some? {
      var w := p.alts[FirstMatch(s, j, p).value];
      assert TextAt(s, j, w, p.ignoreCase);
      TextAtChars(s, j, w, p.ignoreCase);
      assert CharMatches(s[j + 0], w[0], p.ignoreCase) && CharMatches(s[j + 1], w[1], p.ignoreCase);
      if j + 1 < i + |t| {
        assert s[j] == t[j - i] && s[j + 1] == t[j - i + 1];
        assert PairStarts(t[j - i], t[j - i + 1], w, p.ignoreCase);
        assert false;
      } else {
        assert false;
      }
    }
  }

  /** The text an alternative without `<` matches has no `<` either. */
  lemma MatchedNoAngle(s: string, i: nat, w: string, ignoreCase: bool)
    requires TextAt(s, i, w, ignoreCase) && Lacks(w, '<')
    ensures i + |w| <= |s| && Lacks(s[i..i + |w|], '<')
  {
    TextAtChars(s, i, w, ignoreCase);
    var m := s[i..i + |w|];
    forall k | 0 <= k < |m| ensures m[k] != '<' {
      assert m[k] == s[i + k];
      CharMatchesAngle(m[k], w[k], ignoreCase);
    }
  }

  predicate NoAngleAlternatives(p: Pattern) {
    forall k :: 0 <= k < |p.alts| ==> Lacks(p.alts[k], '<')
  }

  /** The scan steps over a tag it cannot match inside. */
  lemma StripReplaceTag(s: string, i: nat, p: Pattern, rep: Replacement, n: nat)
    requires ValidPattern(p) && i + n <= |s|
    requires TagShaped(s[i..i + n]) && Inert(s[i..i + n], p)
    ensures Strip(ReplaceFrom(s, i, p, rep)) == Strip(ReplaceFrom(s, i + n, p, rep))
  {
    var t := s[i..i + n];
    forall j | i <= j < i + n ensures FirstMatch(s, j, p).None? {
      InertNoMatch(s, i, t, p, j);
    }
    ReplaceSkips(s, i, n, p, rep);
    StripTag(t, ReplaceFrom(s, i + n, p, rep));
  }

  /** `Strip` deletes a tag at the front of a suffix. */
  lemma StripSuffixTag(s: string, i: nat, n: nat)
    requires i + n <= |s| && TagShaped(s[i..i + n])
    ensures Strip(s[i..]) == Strip(s[i + n..])
  {
    assert s[i..] == s[i..i + n] + s[i + n..];
    StripTag(s[i..i + n], s[i + n..]);
  }

  /** `Strip` keeps plain text at the front of a suffix. */
  lemma StripSuffixPlain(s: string, i: nat, n: nat)
    requires i + n <= |s| && Lacks(s[i..i + n], '<')
    ensures Strip(s[i..]) == s[i..i + n] + Strip(s[i + n..])
  {
    assert s[i..] == s[i..i + n] + s[i + n..];
    StripPlain(s[i..i + n], s[i + n..]);
  }

  lemma Regroup(a: string, b: string, c: string, d: string)
    ensures a + b + c + d == a + (b + (c + d))
  {
  }

  /** Two tags around plain text vanish under `Strip`. */
  lemma StripWrapped(o: string, m: string, c: string, rest: string)
    requires TagShaped(o) && TagShaped(c) && Lacks(m, '<')
    ensures Strip(o + m + c + rest) == m + Strip(rest)
  {
    Regroup(o, m, c, rest);
    StripTag(o, m + (c + rest));
    StripPlain(m, c + rest);
    StripTag(c, rest);
  }

  /** The text an alternative matches has no `<` when no alternative has one. */
  lemma MatchPlain(s: string, i: nat, p: Pattern, k: nat)
    requires NoAngleAlternatives(p) && i <= |s|
    requires FirstMatch(s, i, p) == Some(k)
    ensures i + |p.alts[k]| <= |s| && Lacks(s[i..i + |p.alts[k]|], '<')
  {
    FirstMatchSpec(s, i, p);
    MatchedNoAngle(s, i, p.alts[k], p.ignoreCase);
  }

  /** A match is wrapped in two tags, which `Strip` deletes again. */
  lemma StripReplaceMatch(s: string, i: nat, p: Pattern, o: string, c: string, k: nat, n: nat)
    requires ValidPattern(p) && i < |s|
    requires TagShaped(o) && TagShaped(c)
    requires FirstMatch(s, i, p) == Some(k) && n == |p.alts[k]|
    requires i + n <= |s| && Lacks(s[i..i + n], '<')
    ensures Strip(ReplaceFrom(s, i, p, Wrap(o, c))) == s[i..i + n] + Strip(ReplaceFrom(s, i + n, p, Wrap(o, c)))
  {
    var m, rest := s[i..i + n], ReplaceFrom(s, i + n, p, Wrap(o, c));
    ReplaceMatchStep(s, i, p, Wrap(o, c), k);
    assert ReplaceFrom(s, i, p, Wrap(o, c)) == Render(Wrap(o, c), m) + rest;
    assert Render(Wrap(o, c), m) == o + m + c;
    StripWrapped(o, m, c, rest);
  }

  /** A character that is neither a match nor a `<` is copied by the scan. */
  lemma StripReplaceCopy(s: string, i: nat, p: Pattern, rep: Replacement)
    requires ValidPattern(p) && i < |s|
    requires FirstMatch(s, i, p).None? && s[i] != '<'
    ensures Strip(ReplaceFrom(s, i, p, rep)) == [s[i]] + Strip(ReplaceFrom(s, i + 1, p, rep))
  {
    ReplaceCopyStep(s, i, p, rep);
    StripPlain([s[i]], ReplaceFrom(s, i + 1, p, rep));
  }

  /**
    A wrapping pass adds markup and nothing else: once tags are deleted, its output
    reads as its input, provided every `<` of the input begins a tag inside which the
    pattern cannot match.
   */
  lemma {:induction false} StripReplace(s: string, i: nat, p: Pattern, o: string, c: string)
    requires ValidPattern(p) && NoAngleAlternatives(p) && i <= |s|
    requires TagShaped(o) && TagShaped(c)
    requires AnglesInert(s, p)
    ensures Strip(ReplaceFrom(s, i, p, Wrap(o, c))) == Strip(s[i..])
    decreases |s| - i
  {
    if i == |s| {
      assert s[i..] == [];
    } else if s[i] == '<' {
      var n := TagLength(s, i, p);
      StripReplace(s, i + n, p, o, c);
      StripStepTag(s, i, p, o, c, n);
    } else if FirstMatch(s, i, p).Some? {
      var n := |p.alts[FirstMatch(s, i, p).value]|;
      StripReplace(s, i + n, p, o, c);
      StripStepMatch(s, i, p, o, c, n);
    } else {
      StripReplace(s, i + 1, p, o, c);
      StripStepCopy(s, i, p, o, c);
    }
  }

  /** The length of the tag a `<` begins. */
  lemma TagLength(s: string, i: nat, p: Pattern) returns (n: nat)
    requires i < |s| && s[i] == '<' && AnglesInert(s, p)
    ensures InertTagAt(s, i, n, p)
  {
    assert AngleAt(s, i);
    n :| InertTagAt(s, i, n, p);
  }

  /** At a `<` the scan steps over the whole tag, which `Strip` deletes. */
  lemma StripStepTag(s: string, i: nat, p: Pattern, o: string, c: string, n: nat)
    requires ValidPattern(p) && InertTagAt(s, i, n, p)
    requires Strip(ReplaceFrom(s, i + n, p, Wrap(o, c))) == Strip(s[i + n..])
    ensures Strip(ReplaceFrom(s, i, p, Wrap(o, c))) == Strip(s[i..])
  {
    StripReplaceTag(s, i, p, Wrap(o, c), n);
    StripSuffixTag(s, i, n);
  }

  /** At a match the scan wraps the matched word, which is all `Strip` keeps of it. */
  lemma StripStepMatch(s: string, i: nat, p: Pattern, o: string, c: string, n: nat)
    requires ValidPattern(p) && NoAngleAlternatives(p) && i < |s| && TagShaped(o) && TagShaped(c)
    requires FirstMatch(s, i, p).Some? && n == |p.alts[FirstMatch(s, i, p).value]|
    requires i + n <= |s|
    requires Strip(ReplaceFrom(s, i + n, p, Wrap(o, c))) == Strip(s[i + n..])
    ensures Strip(ReplaceFrom(s, i, p, Wrap(o, c))) == Strip(s[i..])
  {
    var k := FirstMatch(s, i, p).value;
    MatchPlain(s, i, p, k);
    StripReplaceMatch(s, i, p, o, c, k, n);
    StripSuffixPlain(s, i, n);
  }

  /** Elsewhere the scan and `Strip` both copy one character. */
  lemma StripStepCopy(s: string, i: nat, p: Pattern, o: string, c: string)
    requires ValidPattern(p) && i < |s| && FirstMatch(s, i, p).None? && s[i] != '<'
    requires Strip(ReplaceFrom(s, i + 1, p, Wrap(o, c))) == Strip(s[i + 1..])
    ensures Strip(ReplaceFrom(s, i, p, Wrap(o, c))) == Strip(s[i..])
  {
    StripReplaceCopy(s, i, p, Wrap(o, c));
    assert s[i..i + 1] == [s[i]];
    StripSuffixPlain(s, i, 1);
  }

  /** Over text without `<`, a wrapping pass adds markup and nothing else. */
  lemma {:induction false} StripReplacePlain(s: string, i: nat, p: Pattern, o: string, c: string)
    requires ValidPattern(p) && NoAngleAlternatives(p) && i <= |s|
    requires TagShaped(o) && TagShaped(c)
    requires Lacks(s, '<')
    ensures Strip(ReplaceFrom(s, i, p, Wrap(o, c))) == s[i..]
    decreases |s| - i
  {
    if i == |s| {
      assert s[i..] == [];
    } else if FirstMatch(s, i, p).Some? {
      var k := FirstMatch(s, i, p).value;
      var n := |p.alts[k]|;
      MatchPlain(s, i, p, k);
      StripReplaceMatch(s, i, p, o, c, k, n);
      StripReplacePlain(s, i + n, p, o, c);
      assert s[i..] == s[i..i + n] + s[i + n..];
    } else {
      StripReplaceCopy(s, i, p, Wrap(o, c));
      StripReplacePlain(s, i + 1, p, o, c);
      assert s[i..] == [s[i]] + s[i + 1..];
    }
  }

  /** A match wrapped in two inert tags before inert text keeps every `<` inert. */
  lemma WrapAnglesMatch(s: string, i: nat, p: Pattern, o: string, c: string, k: nat, q: Pattern)
    requires ValidPattern(p) && NoAngleAlternatives(p) && i < |s|
    requires TagShaped(o) && TagShaped(c) && Inert(o, q) && Inert(c, q)
    requires FirstMatch(s, i, p) == Some(k)
    requires AnglesInert(ReplaceFrom(s, i + |p.alts[k]|, p, Wrap(o, c)), q)
    ensures AnglesInert(ReplaceFrom(s, i, p, Wrap(o, c)), q)
  {
    var n := |p.alts[k]|;
    MatchPlain(s, i, p, k);
    var m, rest := s[i..i + n], ReplaceFrom(s, i + n, p, Wrap(o, c));
    ReplaceMatchStep(s, i, p, Wrap(o, c), k);
    assert ReplaceFrom(s, i, p, Wrap(o, c)) == Render(Wrap(o, c), m) + rest;
    assert Render(Wrap(o, c), m) == o + m + c;
    AnglesWrapped(o, m, c, rest, q);
  }

  lemma AnglesWrapped(o: string, m: string, c: string, rest: string, q: Pattern)
    requires TagShaped(o) && TagShaped(c) && Inert(o, q) && Inert(c, q)
    requires Lacks(m, '<') && AnglesInert(rest, q)
    ensures AnglesInert(o + m + c + rest, q)
  {
    AnglesOfTag(o, q);
    AnglesOfTag(c, q);
    AnglesOfPlain(m, q);
    AnglesConcat(c, rest, q);
    AnglesConcat(m, c + rest, q);
    AnglesConcat(o, m + (c + rest), q);
    Regroup(o, m, c, rest);
  }

  /**
    A wrapping pass over text without `<` leaves every `<` at the start of one of
    its own tags, so a later pass `q` that cannot match inside them skips them.
   */
  lemma {:induction false} WrapAngles(s: string, i: nat, p: Pattern, o: string, c: string, q: Pattern)
    requires ValidPattern(p) && NoAngleAlternatives(p) && i <= |s|
    requires TagShaped(o) && TagShaped(c) && Inert(o, q) && Inert(c, q)
    requires forall j :: i <= j < |s| ==> s[j] != '<'
    ensures AnglesInert(ReplaceFrom(s, i, p, Wrap(o, c)), q)
    decreases |s| - i
  {
    if i < |s| {
      if FirstMatch(s, i, p).Some? {
        var k := FirstMatch(s, i, p).value;
        WrapAngles(s, i + |p.alts[k]|, p, o, c, q);
        WrapAnglesMatch(s, i, p, o, c, k, q);
      } else {
        WrapAngles(s, i + 1, p, o, c, q);
        var rest := ReplaceFrom(s, i + 1, p, Wrap(o, c));
        AnglesOfPlain([s[i]], q);
        AnglesConcat([s[i]], rest, q);
        ReplaceCopyStep(s, i, p, Wrap(o, c));
      }
    }
  }

  // ---------------------------------------------------------------------------
  // The inserted markup
  // ---------------------------------------------------------------------------

  /** Two adjacent characters that spell the first two letters of a function name, in either case. */
  predicate FunctionPair(x: char, y: char) {
    || ((x == 'C' || x == 'c') && (y == 'O' || y == 'o'))
    || ((x == 'S' || x == 's') && (y == 'U' || y == 'u'))
    || ((x == 'A' || x == 'a') && (y == 'V' || y == 'v'))
    || ((x == 'M' || x == 'm') && (y == 'I' || y == 'i' || y == 'A' || y == 'a'))
    || ((x == 'N' || x == 'n') && (y == 'O' || y == 'o'))
  }

  /** Every function name is at least two word characters long, and `FunctionPair` lists its starts. */
  lemma FunctionStarts()
    ensures forall k :: 0 <= k < |Functions.alts| ==>
      |Functions.alts[k]| >= 2 && IsWordChar(Functions.alts[k][0])
    ensures forall x, y, k :: 0 <= k < |Functions.alts| && PairStarts(x, y, Functions.alts[k], true) ==>
      FunctionPair(x, y)
  {
  }

  /**
    From index `j` up to the last character, `t` has no `<` and no `>`, and no two
    adjacent characters of it start a function name.
   */
  predicate QuietFrom(t: string, j: nat)
    decreases |t| - j
  {
    j + 1 >= |t| || (t[j] != '<' && t[j] != '>' && !FunctionPair(t[j], t[j + 1]) && QuietFrom(t, j + 1))
  }

  lemma {:induction false} QuietChars(t: string, j: nat)
    requires QuietFrom(t, j)
    ensures forall m :: j <= m < |t| - 1 ==> t[m] != '<' && t[m] != '>' && !FunctionPair(t[m], t[m + 1])
    decreases |t| - j
  {
    if j + 1 < |t| {
      QuietChars(t, j + 1);
    }
  }

  /** A `<`, a quiet body and a `>` make a tag in which no function name can match. */
  lemma QuietTag(t: string)
    requires |t| >= 2 && t[0] == '<' && t[|t| - 1] == '>' && QuietFrom(t, 1)
    ensures TagShaped(t) && Inert(t, Functions)
  {
    QuietChars(t, 1);
    FunctionStarts();
    forall j, k | 0 <= j < |t| - 1 && 0 <= k < |Functions.alts|
      ensures !PairStarts(t[j], t[j + 1], Functions.alts[k], true)
    {
      if j == 0 {
        assert !IsWordChar(t[0]);
      }
    }
  }

  lemma KeywordOpenQuiet48()
    ensures QuietFrom(KeywordOpen, 48)
  {
    assert |KeywordOpen| == 57;
    assert QuietFrom(KeywordOpen, 55);
    assert QuietFrom(KeywordOpen, 54);
    assert QuietFrom(KeywordOpen, 53);
    assert QuietFrom(KeywordOpen, 52);
    assert QuietFrom(KeywordOpen, 51);
    assert QuietFrom(KeywordOpen, 50);
    assert QuietFrom(KeywordOpen, 49);
    assert QuietFrom(KeywordOpen, 48);
  }

  lemma KeywordOpenQuiet40()
    ensures QuietFrom(KeywordOpen, 40)
  {
    assert |KeywordOpen| == 57;
    KeywordOpenQuiet48();
    assert QuietFrom(KeywordOpen, 47);
    assert QuietFrom(KeywordOpen, 46);
    assert QuietFrom(KeywordOpen, 45);
    assert QuietFrom(KeywordOpen, 44);
    assert QuietFrom(KeywordOpen, 43);
    assert QuietFrom(KeywordOpen, 42);
    assert QuietFrom(KeywordOpen, 41);
    assert QuietFrom(KeywordOpen, 40);
  }

  lemma KeywordOpenQuiet32()
    ensures QuietFrom(KeywordOpen, 32)
  {
    assert |KeywordOpen| == 57;
    KeywordOpenQuiet40();
    assert QuietFrom(KeywordOpen, 39);
    assert QuietFrom(KeywordOpen, 38);
    assert QuietFrom(KeywordOpen, 37);
    assert QuietFrom(KeywordOpen, 36);
    assert QuietFrom(KeywordOpen, 35);
    assert QuietFrom(KeywordOpen, 34);
    assert QuietFrom(KeywordOpen, 33);
    assert QuietFrom(KeywordOpen, 32);
  }

  lemma KeywordOpenQuiet24()
    ensures QuietFrom(KeywordOpen, 24)
  {
    assert |KeywordOpen| == 57;
    KeywordOpenQuiet32();
    assert QuietFrom(KeywordOpen, 31);
    assert QuietFrom(KeywordOpen, 30);
    assert QuietFrom(KeywordOpen, 29);
    assert QuietFrom(KeywordOpen, 28);
    assert QuietFrom(KeywordOpen, 27);
    assert QuietFrom(KeywordOpen, 26);
    assert QuietFrom(KeywordOpen, 25);
    assert QuietFrom(KeywordOpen, 24);
  }

  lemma KeywordOpenQuiet16()
    ensures QuietFrom(KeywordOpen, 16)
  {
    assert |KeywordOpen| == 57;
    KeywordOpenQuiet24();
    assert QuietFrom(KeywordOpen, 23);
    assert QuietFrom(KeywordOpen, 22);
    assert QuietFrom(KeywordOpen, 21);
    assert QuietFrom(KeywordOpen, 20);
    assert QuietFrom(KeywordOpen, 19);
    assert QuietFrom(KeywordOpen, 18);
    assert QuietFrom(KeywordOpen, 17);
    assert QuietFrom(KeywordOpen, 16);
  }

  lemma KeywordOpenQuiet8()
    ensures QuietFrom(KeywordOpen, 8)
  {
    assert |KeywordOpen| == 57;
    KeywordOpenQuiet16();
    assert QuietFrom(KeywordOpen, 15);
    assert QuietFrom(KeywordOpen, 14);
    assert QuietFrom(KeywordOpen, 13);
    assert QuietFrom(KeywordOpen, 12);
    assert QuietFrom(KeywordOpen, 11);
    assert QuietFrom(KeywordOpen, 10);
    assert QuietFrom(KeywordOpen, 9);
    assert QuietFrom(KeywordOpen, 8);
  }

  lemma KeywordOpenQuiet1()
    ensures QuietFrom(KeywordOpen, 1)
  {
    assert |KeywordOpen| == 57;
    KeywordOpenQuiet8();
    assert QuietFrom(KeywordOpen, 7);
    assert QuietFrom(KeywordOpen, 6);
    assert QuietFrom(KeywordOpen, 5);
    assert QuietFrom(KeywordOpen, 4);
    assert QuietFrom(KeywordOpen, 3);
    assert QuietFrom(KeywordOpen, 2);
    assert QuietFrom(KeywordOpen, 1);
  }

  lemma FunctionOpenQuiet43()
    ensures QuietFrom(FunctionOpen, 43)
  {
    assert |FunctionOpen| == 51;
    assert QuietFrom(FunctionOpen, 49);
    assert QuietFrom(FunctionOpen, 48);
    assert QuietFrom(FunctionOpen, 47);
    assert QuietFrom(FunctionOpen, 46);
    assert QuietFrom(FunctionOpen, 45);
    assert QuietFrom(FunctionOpen, 44);
    assert QuietFrom(FunctionOpen, 43);
  }

  lemma FunctionOpenQuiet36()
    ensures QuietFrom(FunctionOpen, 36)
  {
    assert |FunctionOpen| == 51;
    FunctionOpenQuiet43();
    assert QuietFrom(FunctionOpen, 42);
    assert QuietFrom(FunctionOpen, 41);
    assert QuietFrom(FunctionOpen, 40);
    assert QuietFrom(FunctionOpen, 39);
    assert QuietFrom(FunctionOpen, 38);
    assert QuietFrom(FunctionOpen, 37);
    assert QuietFrom(FunctionOpen, 36);
  }

  lemma FunctionOpenQuiet29()
    ensures QuietFrom(FunctionOpen, 29)
  {
    assert |FunctionOpen| == 51;
    FunctionOpenQuiet36();
    assert QuietFrom(FunctionOpen, 35);
    assert QuietFrom(FunctionOpen, 34);
    assert QuietFrom(FunctionOpen, 33);
    assert QuietFrom(FunctionOpen, 32);
    assert QuietFrom(FunctionOpen, 31);
    assert QuietFrom(FunctionOpen, 30);
    assert QuietFrom(FunctionOpen, 29);
  }

  lemma FunctionOpenQuiet22()
    ensures QuietFrom(FunctionOpen, 22)
  {
    assert |FunctionOpen| == 51;
    FunctionOpenQuiet29();
    assert QuietFrom(FunctionOpen, 28);
    assert QuietFrom(FunctionOpen, 27);
    assert QuietFrom(FunctionOpen, 26);
    assert QuietFrom(FunctionOpen, 25);
    assert QuietFrom(FunctionOpen, 24);
    assert QuietFrom(FunctionOpen, 23);
    assert QuietFrom(FunctionOpen, 22);
  }

  lemma FunctionOpenQuiet15()
    ensures QuietFrom(FunctionOpen, 15)
  {
    assert |FunctionOpen| == 51;
    FunctionOpenQuiet22();
    assert QuietFrom(FunctionOpen, 21);
    assert QuietFrom(FunctionOpen, 20);
    assert QuietFrom(FunctionOpen, 19);
    assert QuietFrom(FunctionOpen, 18);
    assert QuietFrom(FunctionOpen, 17);
    assert QuietFrom(FunctionOpen, 16);
    assert QuietFrom(FunctionOpen, 15);
  }

  lemma FunctionOpenQuiet8()
    ensures QuietFrom(FunctionOpen, 8)
  {
    assert |FunctionOpen| == 51;
    FunctionOpenQuiet15();
    assert QuietFrom(FunctionOpen, 14);
    assert QuietFrom(FunctionOpen, 13);
    assert QuietFrom(FunctionOpen, 12);
    assert QuietFrom(FunctionOpen, 11);
    assert QuietFrom(FunctionOpen, 10);
    assert QuietFrom(FunctionOpen, 9);
    assert QuietFrom(FunctionOpen, 8);
  }

  lemma FunctionOpenQuiet1()
    ensures QuietFrom(FunctionOpen, 1)
  {
    assert |FunctionOpen| == 51;
    FunctionOpenQuiet8();
    assert QuietFrom(FunctionOpen, 7);
    assert QuietFrom(FunctionOpen, 6);
    assert QuietFrom(FunctionOpen, 5);
    assert QuietFrom(FunctionOpen, 4);
    assert QuietFrom(FunctionOpen, 3);
    assert QuietFrom(FunctionOpen, 2);
    assert QuietFrom(FunctionOpen, 1);
  }

  lemma SpanCloseQuiet1()
    ensures QuietFrom(SpanClose, 1)
  {
    assert |SpanClose| == 7;
    assert QuietFrom(SpanClose, 5);
    assert QuietFrom(SpanClose, 4);
    assert QuietFrom(SpanClose, 3);
    assert QuietFrom(SpanClose, 2);
    assert QuietFrom(SpanClose, 1);
  }

  /** The three tags are well formed, and the function pass cannot match inside the two it follows. */
  lemma MarkupShapes()
    ensures TagShaped(KeywordOpen) && TagShaped(FunctionOpen) && TagShaped(SpanClose)
    ensures Inert(KeywordOpen, Functions) && Inert(SpanClose, Functions)
  {
    KeywordOpenQuiet1();
    FunctionOpenQuiet1();
    SpanCloseQuiet1();
    QuietTag(KeywordOpen);
    QuietTag(FunctionOpen);
    QuietTag(SpanClose);
  }

  /** No keyword and no function name contains `<`. */
  lemma PatternsPlain()
    ensures NoAngleAlternatives(Keywords) && NoAngleAlternatives(Functions)
  {
    forall k | 0 <= k < |Keywords.alts| ensures Lacks(Keywords.alts[k], '<') {
      KeywordPlain(k);
    }
  }

  lemma KeywordPlain(k: nat)
    requires k < |Keywords.alts|
    ensures Lacks(Keywords.alts[k], '<')
  {
  }

  // ---------------------------------------------------------------------------
  // What highlighting preserves
  // ---------------------------------------------------------------------------

  /** Escaped text has no `<`: every `<` of the input became `&lt;`. */
  lemma EscapePlain(sql: string)
    ensures Lacks(Escape(sql), '<') && Lacks(Escape(sql), '>')
  {
    EscapeIsPerChar(sql);
  }

  /**
    Highlighting only inserts markup: deleting the span tags from its output gives
    exactly the escaped input, with every matched word in its original case.
   */
  lemma HighlightStrips(sql: string)
    ensures Strip(Highlight(sql)) == Escape(sql)
  {
    PatternsValid();
    PatternsPlain();
    MarkupShapes();
    var e := Escape(sql);
    EscapePlain(sql);
    var marked := ReplaceAll(e, Keywords, Wrap(KeywordOpen, SpanClose));
    StripReplacePlain(e, 0, Keywords, KeywordOpen, SpanClose);
    WrapAngles(e, 0, Keywords, KeywordOpen, SpanClose, Functions);
    StripReplace(marked, 0, Functions, FunctionOpen, SpanClose);
    assert e[0..] == e && marked[0..] == marked;
  }

  /** The text a reader sees in the highlighted HTML is the SQL that was given. */
  lemma HighlightReadsBack(sql: string)
    ensures Unescape(Strip(Highlight(sql))) == sql
  {
    HighlightStrips(sql);
    UnescapeEscape(sql);
  }

  /** `highlightSQL`, reassigning the text one replacement at a time. */
  method HighlightSql(sql: string) returns (highlighted: string)
    ensures highlighted == Highlight(sql)
    ensures Strip(highlighted) == Escape(sql)
    ensures Unescape(Strip(highlighted)) == sql
  {
    highlighted := ReplaceChar(sql, '&', "&amp;");
    highlighted := ReplaceChar(highlighted, '<', "&lt;");
    highlighted := ReplaceChar(highlighted, '>', "&gt;");
    assert highlighted == Escape(sql);
    PatternsValid();
    highlighted := ReplaceAll(highlighted, Keywords, Wrap(KeywordOpen, SpanClose));
    highlighted := ReplaceAll(highlighted, Functions, Wrap(FunctionOpen, SpanClose));
    HighlightStrips(sql);
    HighlightReadsBack(sql);
  }
}
