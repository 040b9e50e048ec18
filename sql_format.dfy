/**
  `formatSQL` of the script library page: trim, collapse white space, upper-case
  the listed keywords, start each clause keyword on a new line, and end the
  statement with a semicolon.
 */
module SqlFormat {
  import opened Wrappers
  import opened JsText
  import opened SqlText

  // ---------------------------------------------------------------------------
  // White space
  // ---------------------------------------------------------------------------

  /** `s.replace(/\s+/g, ' ')`: every run of white space becomes one space. */
  function CollapseSpace(s: string): (r: string)
    ensures |r| <= |s|
    ensures forall i :: 0 <= i < |r| && IsJsSpace(r[i]) ==> r[i] == ' '
    ensures forall i :: 0 < i < |r| && r[i - 1] == ' ' ==> r[i] != ' '
    ensures r != [] ==> (r[0] == ' ' <==> IsJsSpace(s[0]))
    decreases |s|
  {
    if s == [] then []
    else if IsJsSpace(s[0]) then " " + CollapseSpace(TrimStart(s))
    else [s[0]] + CollapseSpace(s[1..])
  }

  /** The characters of `s` that are not white space, in order. */
  function Visible(s: string): (r: string)
    ensures |r| <= |s|
  {
    if s == [] then [] else (if IsJsSpace(s[0]) then [] else [s[0]]) + Visible(s[1..])
  }

  lemma {:induction false} VisibleOfSpaces(s: string, n: nat)
    requires n <= |s| && forall i :: 0 <= i < n ==> IsJsSpace(s[i])
    ensures Visible(s) == Visible(s[n..])
    decreases n
  {
    if n > 0 {
      VisibleOfSpaces(s[1..], n - 1);
      assert s[1..][n - 1..] == s[n..];
    }
  }

  /** Collapsing white space keeps every other character, in order. */
  lemma {:induction false} CollapseKeepsText(s: string)
    ensures Visible(CollapseSpace(s)) == Visible(s)
    decreases |s|
  {
    if s != [] {
      if IsJsSpace(s[0]) {
        var t := TrimStart(s);
        CollapseKeepsText(t);
        VisibleOfSpaces(s, |s| - |t|);
        assert (" " + CollapseSpace(t))[1..] == CollapseSpace(t);
      } else {
        CollapseKeepsText(s[1..]);
        assert ([s[0]] + CollapseSpace(s[1..]))[1..] == CollapseSpace(s[1..]);
      }
    }
  }

  /** After `trim`, the collapsed text has no space at either end. */
  lemma CollapseTrimmed(s: string)
    ensures var r := CollapseSpace(Trim(s)); r == [] || (r[0] != ' ' && r[|r| - 1] != ' ')
  {
    var t := Trim(s);
    if t != [] {
      CollapseLast(t);
    }
  }

  /** The last character of the collapsed text is a space exactly when the text ends in white space. */
  lemma {:induction false} CollapseLast(s: string)
    requires s != []
    ensures var r := CollapseSpace(s); r != [] && (r[|r| - 1] == ' ' <==> IsJsSpace(s[|s| - 1]))
    decreases |s|
  {
    var r := CollapseSpace(s);
    if IsJsSpace(s[0]) {
      var t := TrimStart(s);
      if t != [] {
        CollapseLast(t);
        assert t[|t| - 1] == s[|s| - 1];
      } else {
        assert IsJsSpace(s[|s| - 1]);
      }
    } else if |s| > 1 {
      CollapseLast(s[1..]);
    }
  }

  // ---------------------------------------------------------------------------
  // The keyword passes
  // ---------------------------------------------------------------------------

  /** The keywords whose every whole-word occurrence, in any case, is upper-cased. */
  const CaseKeywords: seq<string> := [
    "SELECT", "FROM", "WHERE", "INSERT", "INTO", "UPDATE", "DELETE",
    "JOIN", "LEFT", "RIGHT", "INNER", "OUTER", "ON", "AS",
    "GROUP BY", "ORDER BY", "HAVING", "AND", "OR", "NOT", "NULL",
    "LIMIT", "OFFSET", "VALUES", "CREATE", "ALTER", "DROP", "TABLE"]

  /** The clause keywords that start a new line. */
  const ClauseKeywords: seq<string> := ["FROM", "WHERE", "GROUP BY", "ORDER BY", "HAVING"]

  predicate NonEmptyWords(kws: seq<string>) {
    forall k :: 0 <= k < |kws| ==> |kws[k]| > 0
  }

  lemma KeywordListsNonEmpty()
    ensures NonEmptyWords(CaseKeywords) && NonEmptyWords(ClauseKeywords)
  {
  }

  /** `formatted.replace(new RegExp('\\b' + kw + '\\b', 'gi'), kw)` */
  function UpcasePass(s: string, kw: string): string
    requires kw != []
  {
    ReplaceAll(s, Pattern([kw], true), Literal(kw))
  }

  /** The upper-casing passes, one keyword after the other, in list order. */
  function UpcaseAll(s: string, kws: seq<string>): string
    requires NonEmptyWords(kws)
    decreases |kws|
  {
    if kws == [] then s else UpcaseAll(UpcasePass(s, kws[0]), kws[1..])
  }

  /** `formatted.replace(new RegExp('\\b' + kw + '\\b', 'g'), '\n' + kw)` */
  function NewlinePass(s: string, kw: string): string
    requires kw != []
  {
    ReplaceAll(s, Pattern([kw], false), Literal("\n" + kw))
  }

  /** The newline passes, one clause keyword after the other, in list order. */
  function NewlineAll(s: string, kws: seq<string>): string
    requires NonEmptyWords(kws)
    decreases |kws|
  {
    if kws == [] then s else NewlineAll(NewlinePass(s, kws[0]), kws[1..])
  }

  predicate EndsWith(s: string, c: char) {
    |s| > 0 && s[|s| - 1] == c
  }

  /** Appends `;` unless the text already ends with one. */
  function Terminate(s: string): (r: string)
    ensures EndsWith(r, ';')
    ensures EndsWith(s, ';') ==> r == s
    ensures !EndsWith(s, ';') ==> r == s + ";"
  {
    if EndsWith(s, ';') then s else s + ";"
  }

  /** The keyword-processed text, before the semicolon. */
  function FormatBody(sql: string): string {
    KeywordListsNonEmpty();
    NewlineAll(UpcaseAll(CollapseSpace(Trim(sql)), CaseKeywords), ClauseKeywords)
  }

  /** `formatSQL(sql)` */
  function Format(sql: string): string {
    Terminate(FormatBody(sql))
  }

  // ---------------------------------------------------------------------------
  // The semicolon
  // ---------------------------------------------------------------------------

  /** No alternative of `p` can match the character `c`. */
  predicate Unmatchable(p: Pattern, c: char) {
    forall k, j :: 0 <= k < |p.alts| && 0 <= j < |p.alts[k]| ==> !CharMatches(c, p.alts[k][j], p.ignoreCase)
  }

  /** A match never reaches a last character that no alternative can match. */
  lemma MatchBeforeLast(s: string, i: nat, p: Pattern, k: nat)
    requires ValidPattern(p) && i < |s| && Unmatchable(p, s[|s| - 1])
    requires FirstMatch(s, i, p) == Some(k)
    ensures i + |p.alts[k]| < |s|
  {
    var w := p.alts[k];
    FirstMatchSpec(s, i, p);
    TextAtChars(s, i, w, p.ignoreCase);
    assert CharMatches(s[i + (|w| - 1)], w[|w| - 1], p.ignoreCase);
  }

  /** A replacement scan keeps a last character that no alternative can match. */
  lemma {:induction false} ReplaceKeepsLast(s: string, i: nat, p: Pattern, rep: Replacement)
    requires ValidPattern(p) && i < |s| && Unmatchable(p, s[|s| - 1])
    ensures EndsWith(ReplaceFrom(s, i, p, rep), s[|s| - 1])
    decreases |s| - i
  {
    if FirstMatch(s, i, p).Some? {
      var k := FirstMatch(s, i, p).value;
      MatchBeforeLast(s, i, p, k);
      ReplaceMatchStep(s, i, p, rep, k);
      ReplaceKeepsLast(s, i + |p.alts[k]|, p, rep);
    } else {
      ReplaceCopyStep(s, i, p, rep);
      if i + 1 < |s| {
        ReplaceKeepsLast(s, i + 1, p, rep);
      }
    }
  }

  /** A keyword contains no `;`, so no pass can match one. */
  lemma WordUnmatchable(kw: string, ignoreCase: bool)
    requires forall j :: 0 <= j < |kw| ==> IsWordChar(kw[j]) || kw[j] == ' '
    ensures Unmatchable(Pattern([kw], ignoreCase), ';')
  {
  }

  predicate WordsAndSpaces(kws: seq<string>) {
    forall k, j :: 0 <= k < |kws| && 0 <= j < |kws[k]| ==> IsWordChar(kws[k][j]) || kws[k][j] == ' '
  }

  lemma KeywordListsPlain()
    ensures WordsAndSpaces(CaseKeywords) && WordsAndSpaces(ClauseKeywords)
  {
    forall k, j | 0 <= k < |CaseKeywords| && 0 <= j < |CaseKeywords[k]|
      ensures IsWordChar(CaseKeywords[k][j]) || CaseKeywords[k][j] == ' '
    {
      CaseKeywordPlain(k);
      assert j == 5 && (k == 14 || k == 15) ==> CaseKeywords[k][j] == ' ';
    }
    assert ClauseKeywords == [CaseKeywords[1], CaseKeywords[2], CaseKeywords[14], CaseKeywords[15], CaseKeywords[16]];
  }

  /** Each keyword is upper-case letters, except the space of `GROUP BY` and `ORDER BY`. */
  lemma CaseKeywordPlain(k: nat)
    requires k < |CaseKeywords|
    ensures forall j :: 0 <= j < |CaseKeywords[k]| ==>
      IsAsciiUpper(CaseKeywords[k][j]) || (j == 5 && (k == 14 || k == 15))
    ensures k == 14 || k == 15 ==>
      |CaseKeywords[k]| == 8 && CaseKeywords[k][5] == ' ' && CaseKeywords[k][6] == 'B' && CaseKeywords[k][0] != 'B'
  {
  }

  /** Every keyword can drive an upper-casing pass. */
  lemma CaseKeywordsReady()
    ensures UpcaseReady(CaseKeywords)
  {
    forall k | 0 <= k < |CaseKeywords|
      ensures CaseKeywords[k] != [] && UpperFixed(CaseKeywords[k]) && Unoverlapping(CaseKeywords[k])
    {
      CaseKeywordPlain(k);
      var w := CaseKeywords[k];
      forall d | 0 < d < |w| && IsWordChar(w[d - 1]) != IsWordChar(w[d]) ensures !SameLetter(w[d], w[0]) {
        assert d == 5 || d == 6;
      }
    }
  }

  lemma {:induction false} UpcaseKeepsSemicolon(s: string, kws: seq<string>)
    requires NonEmptyWords(kws) && WordsAndSpaces(kws) && EndsWith(s, ';')
    ensures EndsWith(UpcaseAll(s, kws), ';')
    decreases |kws|
  {
    if kws != [] {
      WordUnmatchable(kws[0], true);
      ReplaceKeepsLast(s, 0, Pattern([kws[0]], true), Literal(kws[0]));
      UpcaseKeepsSemicolon(UpcasePass(s, kws[0]), kws[1..]);
    }
  }

  lemma {:induction false} NewlineKeepsSemicolon(s: string, kws: seq<string>)
    requires NonEmptyWords(kws) && WordsAndSpaces(kws) && EndsWith(s, ';')
    ensures EndsWith(NewlineAll(s, kws), ';')
    decreases |kws|
  {
    if kws != [] {
      WordUnmatchable(kws[0], false);
      ReplaceKeepsLast(s, 0, Pattern([kws[0]], false), Literal("\n" + kws[0]));
      NewlineKeepsSemicolon(NewlinePass(s, kws[0]), kws[1..]);
    }
  }

  /**
    The formatted statement always ends with `;`, and when the collapsed text
    already ended with one nothing is appended.
   */
  lemma FormatSemicolon(sql: string)
    ensures EndsWith(Format(sql), ';')
    ensures EndsWith(CollapseSpace(Trim(sql)), ';') ==> Format(sql) == FormatBody(sql)
  {
    var c := CollapseSpace(Trim(sql));
    if EndsWith(c, ';') {
      KeywordListsNonEmpty();
      KeywordListsPlain();
      UpcaseKeepsSemicolon(c, CaseKeywords);
      NewlineKeepsSemicolon(UpcaseAll(c, CaseKeywords), ClauseKeywords);
    }
  }

  // ---------------------------------------------------------------------------
  // Upper case
  // ---------------------------------------------------------------------------

  /** Upper-casing leaves `w` as it is. */
  predicate UpperFixed(w: string) {
    forall j :: 0 <= j < |w| ==> UpperChar(w[j]) == w[j]
  }

  /** `r` is `s` with some of its letters upper-cased and nothing else changed. */
  predicate CaseOnly(s: string, r: string) {
    |r| == |s| && forall i :: 0 <= i < |s| ==> r[i] == s[i] || r[i] == UpperChar(s[i])
  }

  /** `w` is spelt, character for character, at index `j` of `s`. */
  predicate Spelt(s: string, j: nat, w: string) {
    j + |w| <= |s| && forall k :: 0 <= k < |w| ==> s[j + k] == w[k]
  }

  /** Every whole-word occurrence of `kw` in `s`, in whatever case, is spelt exactly `kw`. */
  predicate Shouted(s: string, kw: string) {
    forall j :: 0 <= j <= |s| && OccursAt(s, j, kw, true) ==> Spelt(s, j, kw)
  }

  /**
    Two whole-word occurrences of `kw` never overlap: wherever `kw` has a word
    boundary inside it, the letter after the boundary is not its first letter.
   */
  predicate Unoverlapping(kw: string) {
    forall d :: 0 < d < |kw| && IsWordChar(kw[d - 1]) != IsWordChar(kw[d]) ==> !SameLetter(kw[d], kw[0])
  }

  lemma CaseOnlyConcat(a: string, b: string, c: string, d: string)
    requires CaseOnly(a, c) && CaseOnly(b, d)
    ensures CaseOnly(a + b, c + d)
  {
    forall i | 0 <= i < |a + b| ensures (c + d)[i] == (a + b)[i] || (c + d)[i] == UpperChar((a + b)[i]) {
      if i < |a| {
        assert (c + d)[i] == c[i] && (a + b)[i] == a[i];
      } else {
        assert (c + d)[i] == d[i - |a|] && (a + b)[i] == b[i - |a|];
      }
    }
  }

  lemma CaseOnlyTrans(a: string, b: string, c: string)
    requires CaseOnly(a, b) && CaseOnly(b, c)
    ensures CaseOnly(a, c)
  {
    forall i | 0 <= i < |a| ensures c[i] == a[i] || c[i] == UpperChar(a[i]) {
      UpperCharIdempotent(a[i]);
    }
  }

  lemma SpeltShift(a: string, b: string, j: nat, w: string)
    requires Spelt(b, j, w)
    ensures Spelt(a + b, |a| + j, w)
  {
    forall k | 0 <= k < |w| ensures (a + b)[|a| + j + k] == w[k] {
      assert (a + b)[|a| + j + k] == b[j + k];
    }
  }

  /** With a single alternative, the scan matches exactly where that word occurs. */
  lemma SingleMatch(s: string, i: nat, kw: string, ignoreCase: bool)
    requires i <= |s|
    ensures FirstMatch(s, i, Pattern([kw], ignoreCase)) == if OccursAt(s, i, kw, ignoreCase) then Some(0) else None
  {
    var p := Pattern([kw], ignoreCase);
    FirstMatchSpec(s, i, p);
    assert p.alts[0] == kw;
    if FirstMatch(s, i, p).Some? {
      assert FirstMatch(s, i, p).value < |p.alts|;
    }
  }

  /** A whole-word occurrence of an unoverlapping keyword rules out another one starting inside it. */
  lemma NoOverlap(s: string, j: nat, d: nat, kw: string)
    requires Unoverlapping(kw) && 0 < d < |kw| && j + d <= |s|
    requires OccursAt(s, j, kw, true)
    ensures !OccursAt(s, j + d, kw, true)
  {
    TextAtChars(s, j, kw, true);
    assert SameLetter(s[j + (d - 1)], kw[d - 1]) && SameLetter(s[j + d], kw[d]);
    if TextAt(s, j + d, kw, true) {
      TextAtChars(s, j + d, kw, true);
      assert SameLetter(s[(j + d) + 0], kw[0]);
    }
  }

  /** A case-insensitive match of an upper-case word, replaced by that word, only upper-cases. */
  lemma MatchedCaseOnly(s: string, i: nat, kw: string)
    requires UpperFixed(kw) && i <= |s| && TextAt(s, i, kw, true)
    ensures i + |kw| <= |s| && CaseOnly(s[i..i + |kw|], kw)
  {
    TextAtChars(s, i, kw, true);
    forall k | 0 <= k < |kw| ensures kw[k] == UpperChar(s[i..i + |kw|][k]) {
      assert SameLetter(s[i + k], kw[k]);
    }
  }

  /** The scan of an upper-casing pass changes only letter case. */
  lemma {:induction false} UpcaseScanCase(s: string, i: nat, kw: string)
    requires i <= |s| && kw != [] && UpperFixed(kw)
    ensures CaseOnly(s[i..], ReplaceFrom(s, i, Pattern([kw], true), Literal(kw)))
    decreases |s| - i
  {
    var p := Pattern([kw], true);
    if i < |s| {
      SingleMatch(s, i, kw, true);
      if OccursAt(s, i, kw, true) {
        var n := |kw|;
        ReplaceMatchStep(s, i, p, Literal(kw), 0);
        UpcaseScanCase(s, i + n, kw);
        MatchedCaseOnly(s, i, kw);
        CaseOnlyConcat(s[i..i + n], s[i + n..], kw, ReplaceFrom(s, i + n, p, Literal(kw)));
        assert s[i..] == s[i..i + n] + s[i + n..];
      } else {
        ReplaceCopyStep(s, i, p, Literal(kw));
        UpcaseScanCase(s, i + 1, kw);
        CaseOnlyConcat([s[i]], s[i + 1..], [s[i]], ReplaceFrom(s, i + 1, p, Literal(kw)));
        assert s[i..] == [s[i]] + s[i + 1..];
      }
    }
  }

  /** The scan of an upper-casing pass spells out every whole-word occurrence it passes. */
  lemma {:induction false} UpcaseScanSpelt(s: string, i: nat, kw: string)
    requires i <= |s| && kw != [] && Unoverlapping(kw)
    ensures forall j :: i <= j <= |s| && OccursAt(s, j, kw, true) ==>
      Spelt(ReplaceFrom(s, i, Pattern([kw], true), Literal(kw)), j - i, kw)
    decreases |s| - i
  {
    var p := Pattern([kw], true);
    if i < |s| {
      SingleMatch(s, i, kw, true);
      if OccursAt(s, i, kw, true) {
        ReplaceMatchStep(s, i, p, Literal(kw), 0);
        UpcaseScanSpelt(s, i + |kw|, kw);
        SpeltMatchStep(s, i, kw, ReplaceFrom(s, i + |kw|, p, Literal(kw)));
      } else {
        ReplaceCopyStep(s, i, p, Literal(kw));
        UpcaseScanSpelt(s, i + 1, kw);
        SpeltCopyStep(s, i, kw, ReplaceFrom(s, i + 1, p, Literal(kw)));
      }
    }
  }

  /** The scan step at a match of the keyword, given what the rest of the scan spells. */
  lemma SpeltMatchStep(s: string, i: nat, kw: string, rest: string)
    requires i <= |s| && kw != [] && Unoverlapping(kw) && OccursAt(s, i, kw, true)
    requires forall j :: i + |kw| <= j <= |s| && OccursAt(s, j, kw, true) ==> Spelt(rest, j - (i + |kw|), kw)
    ensures forall j :: i <= j <= |s| && OccursAt(s, j, kw, true) ==> Spelt(kw + rest, j - i, kw)
  {
    forall j | i <= j <= |s| && OccursAt(s, j, kw, true) ensures Spelt(kw + rest, j - i, kw) {
      if j == i {
        assert (kw + rest)[..|kw|] == kw;
      } else if j < i + |kw| {
        NoOverlap(s, i, j - i, kw);
      } else {
        SpeltShift(kw, rest, j - (i + |kw|), kw);
      }
    }
  }

  /** The scan step where the keyword does not occur, given what the rest of the scan spells. */
  lemma SpeltCopyStep(s: string, i: nat, kw: string, rest: string)
    requires i < |s| && !OccursAt(s, i, kw, true)
    requires forall j :: i + 1 <= j <= |s| && OccursAt(s, j, kw, true) ==> Spelt(rest, j - (i + 1), kw)
    ensures forall j :: i <= j <= |s| && OccursAt(s, j, kw, true) ==> Spelt([s[i]] + rest, j - i, kw)
  {
    forall j | i < j <= |s| && OccursAt(s, j, kw, true) ensures Spelt([s[i]] + rest, j - i, kw) {
      SpeltShift([s[i]], rest, j - (i + 1), kw);
    }
  }

  /** Upper-casing letters keeps every case-insensitive whole-word occurrence. */
  lemma OccursCaseOnly(s: string, r: string, j: nat, w: string)
    requires CaseOnly(s, r) && j <= |s| && OccursAt(r, j, w, true)
    ensures OccursAt(s, j, w, true)
  {
    TextAtChars(r, j, w, true);
    forall k | 0 <= k < |w| ensures CharMatches(s[j + k], w[k], true) {
      UpperCharIdempotent(s[j + k]);
    }
    CharsTextAt(s, j, w, true);
    assert j > 0 ==> IsWordChar(r[j - 1]) == IsWordChar(s[j - 1]);
    assert j < |s| ==> IsWordChar(r[j]) == IsWordChar(s[j]);
    assert j + |w| < |s| ==> IsWordChar(r[j + |w|]) == IsWordChar(s[j + |w|]);
    assert 0 < j + |w| ==> IsWordChar(r[j + |w| - 1]) == IsWordChar(s[j + |w| - 1]);
  }

  /** One upper-casing pass: only letter case changes, and every occurrence of the keyword is upper case. */
  lemma UpcasePassSpec(s: string, kw: string)
    requires kw != [] && UpperFixed(kw) && Unoverlapping(kw)
    ensures CaseOnly(s, UpcasePass(s, kw)) && Shouted(UpcasePass(s, kw), kw)
  {
    var r := UpcasePass(s, kw);
    UpcaseScanCase(s, 0, kw);
    UpcaseScanSpelt(s, 0, kw);
    assert s[0..] == s;
    forall j | 0 <= j <= |r| && OccursAt(r, j, kw, true) ensures Spelt(r, j, kw) {
      OccursCaseOnly(s, r, j, kw);
    }
  }

  /** Later upper-casing keeps an upper-case word upper case. */
  lemma ShoutedKept(s: string, r: string, kw: string)
    requires CaseOnly(s, r) && Shouted(s, kw) && UpperFixed(kw)
    ensures Shouted(r, kw)
  {
    forall j | 0 <= j <= |r| && OccursAt(r, j, kw, true) ensures Spelt(r, j, kw) {
      OccursCaseOnly(s, r, j, kw);
      assert Spelt(s, j, kw);
    }
  }

  predicate UpcaseReady(kws: seq<string>) {
    forall k :: 0 <= k < |kws| ==> kws[k] != [] && UpperFixed(kws[k]) && Unoverlapping(kws[k])
  }

  /** All upper-casing passes: only letter case changes, and every listed keyword is upper case. */
  lemma {:induction false} UpcaseAllSpec(s: string, kws: seq<string>)
    requires UpcaseReady(kws)
    ensures NonEmptyWords(kws)
    ensures CaseOnly(s, UpcaseAll(s, kws))
    ensures forall k :: 0 <= k < |kws| ==> Shouted(UpcaseAll(s, kws), kws[k])
    decreases |kws|
  {
    if kws == [] {
      assert CaseOnly(s, s);
    } else {
      var t := UpcasePass(s, kws[0]);
      var u := UpcaseAll(s, kws);
      UpcasePassSpec(s, kws[0]);
      assert UpcaseReady(kws[1..]) by {
        forall k | 0 <= k < |kws[1..]| ensures kws[1..][k] == kws[k + 1] { }
      }
      UpcaseAllSpec(t, kws[1..]);
      assert u == UpcaseAll(t, kws[1..]);
      CaseOnlyTrans(s, t, u);
      ShoutedKept(t, u, kws[0]);
      forall k | 1 <= k < |kws| ensures Shouted(u, kws[k]) {
        assert kws[k] == kws[1..][k - 1];
      }
    }
  }

  // ---------------------------------------------------------------------------
  // Line breaks
  // ---------------------------------------------------------------------------

  /** A keyword that begins and ends with a word character and holds no line break. */
  predicate Edged(w: string) {
    w != [] && IsWordChar(w[0]) && IsWordChar(w[|w| - 1]) && forall k :: 0 <= k < |w| ==> w[k] != '\n'
  }

  /** The indices of `s` where a whole-word occurrence of `c` starts. */
  function Starts(s: string, c: string): (marks: seq<bool>)
    ensures |marks| == |s|
  {
    seq(|s|, j requires 0 <= j < |s| => OccursAt(s, j, c, false))
  }

  lemma StartsAt(s: string, c: string, j: nat)
    requires j < |s|
    ensures Starts(s, c)[j] == OccursAt(s, j, c, false)
  {
  }

  /** What a character becomes: itself, after a line break when it is marked. */
  function Piece(ch: char, mark: bool): string {
    if mark then ['\n', ch] else [ch]
  }

  /** The pieces of the characters of `s` from index `i` on. */
  function Breaks(s: string, marks: seq<bool>, i: nat): string
    requires |marks| == |s| && i <= |s|
    decreases |s| - i, 1
  {
    if i == |s| then [] else BreaksStep(s, marks, i)
  }

  function BreaksStep(s: string, marks: seq<bool>, i: nat): string
    requires |marks| == |s| && i < |s|
    decreases |s| - i, 0
  {
    Piece(s[i], marks[i]) + Breaks(s, marks, i + 1)
  }

  /** `s` with a line break inserted before every whole-word occurrence of `c`, and nothing else changed. */
  function InsertBreaks(s: string, c: string): string {
    Breaks(s, Starts(s, c), 0)
  }

  /** The pieces of the first `m` characters of `s`. */
  function Before(s: string, marks: seq<bool>, m: nat): (r: string)
    requires |marks| == |s| && m <= |s|
    ensures |r| >= m
    decreases m, 1
  {
    if m == 0 then [] else BeforeStep(s, marks, m)
  }

  function BeforeStep(s: string, marks: seq<bool>, m: nat): (r: string)
    requires |marks| == |s| && 0 < m <= |s|
    ensures |r| >= m
    decreases m, 0
  {
    Before(s, marks, m - 1) + Piece(s[m - 1], marks[m - 1])
  }

  /** Where character `m` of `s` lands among the pieces. */
  function Slot(s: string, marks: seq<bool>, m: nat): nat
    requires |marks| == |s| && m < |s|
  {
    |Before(s, marks, m + 1)| - 1
  }

  lemma {:induction false} BreaksSkip(s: string, marks: seq<bool>, i: nat, n: nat)
    requires |marks| == |s| && i + n <= |s|
    requires forall j :: i <= j < i + n ==> !marks[j]
    ensures Breaks(s, marks, i) == s[i..i + n] + Breaks(s, marks, i + n)
    decreases n
  {
    if n == 0 {
      assert s[i..i + n] == [];
    } else {
      var head, mid, tail := [s[i]], s[i + 1..i + n], Breaks(s, marks, i + n);
      assert Piece(s[i], marks[i]) == head;
      assert Breaks(s, marks, i) == BreaksStep(s, marks, i) == head + Breaks(s, marks, i + 1);
      BreaksSkip(s, marks, i + 1, n - 1);
      assert head + (mid + tail) == (head + mid) + tail;
      assert head + mid == s[i..i + n];
    }
  }

  /** An exact whole-word occurrence is also a case-insensitive one. */
  lemma ExactFolded(s: string, j: nat, w: string)
    requires j <= |s| && OccursAt(s, j, w, false)
    ensures OccursAt(s, j, w, true)
  {
    TextAtChars(s, j, w, false);
    CharsTextAt(s, j, w, true);
  }

  /** An exact occurrence reads as the word itself. */
  lemma ExactSpelt(s: string, i: nat, c: string)
    requires i <= |s| && OccursAt(s, i, c, false)
    ensures i + |c| <= |s| && s[i..i + |c|] == c
  {
    TextAtChars(s, i, c, false);
  }

  /** No whole-word occurrence of an unoverlapping keyword starts inside another. */
  lemma InsideMatch(s: string, c: string, i: nat, j: nat)
    requires Unoverlapping(c) && i < j < i + |c| && j < |s| && OccursAt(s, i, c, false)
    ensures !Starts(s, c)[j]
  {
    StartsAt(s, c, j);
    ExactFolded(s, i, c);
    NoOverlap(s, i, j - i, c);
    if OccursAt(s, j, c, false) {
      ExactFolded(s, j, c);
    }
  }

  /** A marked character followed by `n - 1` unmarked ones becomes a line break and those `n` characters. */
  lemma BreaksAtMark(s: string, marks: seq<bool>, i: nat, n: nat)
    requires |marks| == |s| && 0 < n && i + n <= |s| && marks[i]
    requires forall j :: i < j < i + n ==> !marks[j]
    ensures Breaks(s, marks, i) == "\n" + s[i..i + n] + Breaks(s, marks, i + n)
  {
    BreaksSkip(s, marks, i + 1, n - 1);
    var head, mid, tail := ['\n', s[i]], s[i + 1..i + n], Breaks(s, marks, i + n);
    assert Piece(s[i], marks[i]) == head;
    assert Breaks(s, marks, i) == BreaksStep(s, marks, i) == head + (mid + tail);
    assert head + (mid + tail) == (head + mid) + tail;
    assert head + mid == "\n" + s[i..i + n];
  }

  /** At an occurrence of `c`, the pieces spell a line break and then `c`. */
  lemma BreaksAtMatch(s: string, c: string, i: nat)
    requires i < |s| && c != [] && Unoverlapping(c) && OccursAt(s, i, c, false)
    ensures i + |c| <= |s| && Breaks(s, Starts(s, c), i) == "\n" + c + Breaks(s, Starts(s, c), i + |c|)
  {
    ExactSpelt(s, i, c);
    StartsAt(s, c, i);
    forall j | i < j < i + |c| ensures !Starts(s, c)[j] {
      InsideMatch(s, c, i, j);
    }
    BreaksAtMark(s, Starts(s, c), i, |c|);
  }

  /** The scan of a newline pass builds `InsertBreaks` from index `i` on. */
  lemma {:induction false} NewlineScanBreaks(s: string, c: string, i: nat)
    requires i <= |s| && c != [] && Unoverlapping(c)
    ensures ReplaceFrom(s, i, Pattern([c], false), Literal("\n" + c)) == Breaks(s, Starts(s, c), i)
    decreases |s| - i
  {
    var p := Pattern([c], false);
    if i < |s| {
      SingleMatch(s, i, c, false);
      if OccursAt(s, i, c, false) {
        ReplaceMatchStep(s, i, p, Literal("\n" + c), 0);
        NewlineScanBreaks(s, c, i + |c|);
        BreaksAtMatch(s, c, i);
      } else {
        ReplaceCopyStep(s, i, p, Literal("\n" + c));
        NewlineScanBreaks(s, c, i + 1);
        StartsAt(s, c, i);
        assert Breaks(s, Starts(s, c), i) == BreaksStep(s, Starts(s, c), i);
      }
    }
  }

  /** A newline pass inserts a line break before every whole-word occurrence of its keyword, and changes nothing else. */
  lemma NewlinePassBreaks(s: string, c: string)
    requires c != [] && Unoverlapping(c)
    ensures NewlinePass(s, c) == InsertBreaks(s, c)
  {
    NewlineScanBreaks(s, c, 0);
  }

  lemma {:induction false} BreaksSplit(s: string, marks: seq<bool>, m: nat)
    requires |marks| == |s| && m <= |s|
    ensures Breaks(s, marks, 0) == Before(s, marks, m) + Breaks(s, marks, m)
  {
    if m > 0 {
      BreaksSplit(s, marks, m - 1);
      assert Breaks(s, marks, m - 1) == BreaksStep(s, marks, m - 1);
      assert Before(s, marks, m) == BeforeStep(s, marks, m);
    }
  }

  lemma BreaksLength(s: string, marks: seq<bool>)
    requires |marks| == |s|
    ensures |Breaks(s, marks, 0)| == |Before(s, marks, |s|)|
  {
    BreaksSplit(s, marks, |s|);
  }

  lemma IndexAfter(a: string, b: string, t: nat)
    requires t < |b|
    ensures (a + b)[|a| + t] == b[t]
  {
  }

  /** The piece of character `m` sits right after the pieces before it. */
  lemma PieceAt(s: string, marks: seq<bool>, m: nat)
    requires |marks| == |s| && m < |s|
    ensures var r, a := Breaks(s, marks, 0), |Before(s, marks, m)|;
      && a <= Slot(s, marks, m) < |r| && r[Slot(s, marks, m)] == s[m]
      && (marks[m] ==> r[a] == '\n' && Slot(s, marks, m) == a + 1)
      && (!marks[m] ==> Slot(s, marks, m) == a)
  {
    var pc, tail := Piece(s[m], marks[m]), Breaks(s, marks, m);
    BreaksSplit(s, marks, m);
    assert tail == BreaksStep(s, marks, m) == pc + Breaks(s, marks, m + 1);
    assert Before(s, marks, m + 1) == BeforeStep(s, marks, m + 1);
    IndexAfter(Before(s, marks, m), tail, 0);
    IndexAfter(Before(s, marks, m), tail, |pc| - 1);
  }

  /** Every index of the pieces falls within the piece of some character `m < k`. */
  lemma {:induction false} Locate(s: string, marks: seq<bool>, x: nat, k: nat) returns (m: nat)
    requires |marks| == |s| && k <= |s| && x < |Before(s, marks, k)|
    ensures m < k && |Before(s, marks, m)| <= x <= Slot(s, marks, m)
    decreases k
  {
    if x >= |Before(s, marks, k - 1)| {
      m := k - 1;
    } else {
      m := Locate(s, marks, x, k - 1);
    }
  }

  /** A character that matches one other than a line break is not a line break. */
  lemma MatchNotBreak(a: char, b: char, ignoreCase: bool)
    requires CharMatches(a, b, ignoreCase) && b != '\n'
    ensures a != '\n'
  {
  }

  /** One character of a spelt word. */
  lemma CharAt(t: string, x: nat, w: string, ignoreCase: bool, k: nat)
    requires TextAt(t, x, w, ignoreCase) && k < |w|
    ensures x + k < |t| && CharMatches(t[x + k], w[k], ignoreCase)
  {
    TextAtChars(t, x, w, ignoreCase);
  }

  /** Marked characters are word characters that start a word. */
  predicate MarkedWordStarts(s: string, marks: seq<bool>)
    requires |marks| == |s|
  {
    forall j :: 0 <= j < |s| && marks[j] ==> IsWordChar(s[j]) && Boundary(s, j)
  }

  /** The marks of whole-word occurrences of a keyword that starts with a word character. */
  lemma StartsWordStarts(s: string, c: string)
    requires Edged(c)
    ensures MarkedWordStarts(s, Starts(s, c))
  {
    forall j | 0 <= j < |s| && Starts(s, c)[j] ensures IsWordChar(s[j]) && Boundary(s, j) {
      StartsAt(s, c, j);
      CharAt(s, j, c, false, 0);
    }
  }

  /**
    Inside an occurrence of `w` among the pieces no line break was inserted: its
    characters are consecutive characters of `s`.
   */
  lemma {:induction false} Run(s: string, marks: seq<bool>, w: string, ignoreCase: bool, x: nat, m: nat, k: nat)
    requires |marks| == |s| && Edged(w) && m < |s| && Slot(s, marks, m) == x && k < |w|
    requires TextAt(Breaks(s, marks, 0), x, w, ignoreCase)
    ensures m + k < |s| && x + k < |Breaks(s, marks, 0)|
    ensures Slot(s, marks, m + k) == x + k && Breaks(s, marks, 0)[x + k] == s[m + k]
    ensures 0 < k ==> !marks[m + k]
    decreases k
  {
    if k == 0 {
      PieceAt(s, marks, m);
    } else {
      Run(s, marks, w, ignoreCase, x, m, k - 1);
      CharAt(Breaks(s, marks, 0), x, w, ignoreCase, k);
      MatchNotBreak(Breaks(s, marks, 0)[x + k], w[k], ignoreCase);
      RunStep(s, marks, x, m, k);
    }
  }

  /** One step of `Run`, from `k - 1` to `k`. */
  lemma RunStep(s: string, marks: seq<bool>, x: nat, m: nat, k: nat)
    requires |marks| == |s| && 0 < k
    requires x + k < |Breaks(s, marks, 0)| && Breaks(s, marks, 0)[x + k] != '\n'
    requires m + k - 1 < |s| && Slot(s, marks, m + k - 1) == x + k - 1
    ensures m + k < |s| && x + k < |Breaks(s, marks, 0)|
    ensures Slot(s, marks, m + k) == x + k && Breaks(s, marks, 0)[x + k] == s[m + k]
    ensures !marks[m + k]
  {
    assert |Before(s, marks, m + k)| == x + k;
    BreaksLength(s, marks);
    assert m + k < |s|;
    PieceAt(s, marks, m + k);
  }

  /** The character of `s` an occurrence among the pieces starts with. */
  lemma Anchor(s: string, marks: seq<bool>, w: string, ignoreCase: bool, x: nat) returns (m: nat)
    requires |marks| == |s| && Edged(w)
    requires TextAt(Breaks(s, marks, 0), x, w, ignoreCase)
    ensures m < |s| && Slot(s, marks, m) == x
    ensures marks[m] ==> 0 < x && Breaks(s, marks, 0)[x - 1] == '\n'
  {
    var r := Breaks(s, marks, 0);
    CharAt(r, x, w, ignoreCase, 0);
    MatchNotBreak(r[x + 0], w[0], ignoreCase);
    BreaksLength(s, marks);
    m := Locate(s, marks, x, |s|);
    SlotOfChar(s, marks, x, m);
  }

  /** Within the piece of character `m`, only its last index holds something other than the added break. */
  lemma SlotOfChar(s: string, marks: seq<bool>, x: nat, m: nat)
    requires |marks| == |s| && m < |s| && |Before(s, marks, m)| <= x <= Slot(s, marks, m)
    requires x < |Breaks(s, marks, 0)| && Breaks(s, marks, 0)[x] != '\n'
    ensures Slot(s, marks, m) == x
    ensures marks[m] ==> 0 < x && Breaks(s, marks, 0)[x - 1] == '\n'
  {
    PieceAt(s, marks, m);
  }

  /** The boundary before an occurrence among unmarked pieces is one in `s`. */
  lemma LeftEdge(s: string, marks: seq<bool>, x: nat, m: nat)
    requires |marks| == |s| && m < |s| && Slot(s, marks, m) == x && !marks[m]
    requires x <= |Breaks(s, marks, 0)| && Boundary(Breaks(s, marks, 0), x)
    ensures Boundary(s, m)
    ensures 0 < m ==> 0 < x && Breaks(s, marks, 0)[x - 1] == s[m - 1]
  {
    PieceAt(s, marks, m);
    if m > 0 {
      PieceAt(s, marks, m - 1);
    }
  }

  /** The boundary after an occurrence among the pieces is one in `s`. */
  lemma RightEdge(s: string, marks: seq<bool>, x: nat, m: nat, n: nat)
    requires |marks| == |s| && MarkedWordStarts(s, marks) && 0 < n && m + n <= |s|
    requires var r := Breaks(s, marks, 0);
      && Slot(s, marks, m + n - 1) == x + n - 1 && x + n <= |r|
      && r[x + n - 1] == s[m + n - 1] && IsWordChar(s[m + n - 1])
      && Boundary(r, x + n)
    ensures Boundary(s, m + n)
  {
    PieceAt(s, marks, m + n - 1);
    BreaksLength(s, marks);
    if m + n < |s| {
      PieceAt(s, marks, m + n);
    }
  }

  /**
    A whole-word occurrence of `w` among the pieces comes from one in `s`, spelt
    with the same characters; it is preceded by a line break when its first
    character is marked, and by the character before it in `s` otherwise.
   */
  lemma ReflectMarks(s: string, marks: seq<bool>, w: string, ignoreCase: bool, x: nat) returns (m: nat)
    requires |marks| == |s| && MarkedWordStarts(s, marks) && Edged(w)
    requires x <= |Breaks(s, marks, 0)| && OccursAt(Breaks(s, marks, 0), x, w, ignoreCase)
    ensures m + |w| <= |s| && OccursAt(s, m, w, ignoreCase)
    ensures Spelt(s, m, w) ==> Spelt(Breaks(s, marks, 0), x, w)
    ensures marks[m] ==> 0 < x && Breaks(s, marks, 0)[x - 1] == '\n'
    ensures !marks[m] && 0 < m ==> 0 < x && Breaks(s, marks, 0)[x - 1] == s[m - 1]
  {
    var r, n := Breaks(s, marks, 0), |w|;
    m := Anchor(s, marks, w, ignoreCase, x);
    RunText(s, marks, w, ignoreCase, x, m);
    CharAt(r, x, w, ignoreCase, n - 1);
    RightEdge(s, marks, x, m, n);
    if !marks[m] {
      LeftEdge(s, marks, x, m);
    }
  }

  /** The characters of an occurrence among the pieces spell the same word in `s`. */
  lemma RunText(s: string, marks: seq<bool>, w: string, ignoreCase: bool, x: nat, m: nat)
    requires |marks| == |s| && Edged(w) && m < |s| && Slot(s, marks, m) == x
    requires TextAt(Breaks(s, marks, 0), x, w, ignoreCase)
    ensures m + |w| <= |s| && TextAt(s, m, w, ignoreCase)
    ensures Spelt(s, m, w) ==> Spelt(Breaks(s, marks, 0), x, w)
    ensures Slot(s, marks, m + |w| - 1) == x + |w| - 1 && x + |w| <= |Breaks(s, marks, 0)|
    ensures Breaks(s, marks, 0)[x + |w| - 1] == s[m + |w| - 1]
  {
    var r, n := Breaks(s, marks, 0), |w|;
    Run(s, marks, w, ignoreCase, x, m, n - 1);
    forall k | 0 <= k < n
      ensures CharMatches(s[m + k], w[k], ignoreCase) && (s[m + k] == w[k] ==> r[x + k] == w[k])
    {
      Run(s, marks, w, ignoreCase, x, m, k);
      CharAt(r, x, w, ignoreCase, k);
    }
    CharsTextAt(s, m, w, ignoreCase);
  }

  /**
    A whole-word occurrence of `w` in `InsertBreaks(s, c)` comes from one in `s`,
    spelt with the same characters; it is preceded by a line break when `c` occurs
    there in `s`, and by the character before it in `s` otherwise.
   */
  lemma Reflect(s: string, c: string, w: string, ignoreCase: bool, x: nat) returns (m: nat)
    requires Edged(w) && Edged(c) && x <= |InsertBreaks(s, c)|
    requires OccursAt(InsertBreaks(s, c), x, w, ignoreCase)
    ensures m + |w| <= |s| && OccursAt(s, m, w, ignoreCase)
    ensures Spelt(s, m, w) ==> Spelt(InsertBreaks(s, c), x, w)
    ensures OccursAt(s, m, c, false) ==> 0 < x && InsertBreaks(s, c)[x - 1] == '\n'
    ensures !OccursAt(s, m, c, false) && 0 < m ==> 0 < x && InsertBreaks(s, c)[x - 1] == s[m - 1]
  {
    StartsWordStarts(s, c);
    m := ReflectMarks(s, Starts(s, c), w, ignoreCase, x);
    StartsAt(s, c, m);
  }

  /** Every exact whole-word occurrence of `c` in `t` comes right after a line break. */
  predicate BrokenBefore(t: string, c: string) {
    forall x :: 0 <= x <= |t| && OccursAt(t, x, c, false) ==> 0 < x && t[x - 1] == '\n'
  }

  /** Inserting the breaks puts one before every occurrence of the keyword. */
  lemma BreaksBreakBefore(s: string, c: string)
    requires Edged(c)
    ensures BrokenBefore(InsertBreaks(s, c), c)
  {
    var r := InsertBreaks(s, c);
    forall x | 0 <= x <= |r| && OccursAt(r, x, c, false) ensures 0 < x && r[x - 1] == '\n' {
      var m := Reflect(s, c, c, false, x);
    }
  }

  /** Inserting breaks keeps a line break before every occurrence of another keyword. */
  lemma BreaksKeepBefore(s: string, c: string, d: string)
    requires Edged(c) && Edged(d) && BrokenBefore(s, d)
    ensures BrokenBefore(InsertBreaks(s, c), d)
  {
    var r := InsertBreaks(s, c);
    forall x | 0 <= x <= |r| && OccursAt(r, x, d, false) ensures 0 < x && r[x - 1] == '\n' {
      var m := Reflect(s, c, d, false, x);
    }
  }

  /** Inserting breaks keeps every occurrence of an upper-case keyword upper case. */
  lemma BreaksShouted(s: string, c: string, w: string)
    requires Edged(c) && Edged(w) && Shouted(s, w)
    ensures Shouted(InsertBreaks(s, c), w)
  {
    var r := InsertBreaks(s, c);
    forall x | 0 <= x <= |r| && OccursAt(r, x, w, true) ensures Spelt(r, x, w) {
      var m := Reflect(s, c, w, true, x);
    }
  }

  /** Keywords a newline pass can insert breaks before. */
  predicate BreakReady(cs: seq<string>) {
    forall k :: 0 <= k < |cs| ==> Edged(cs[k]) && Unoverlapping(cs[k])
  }

  /** The later newline passes keep a keyword upper case, and keep the line break before it. */
  lemma {:induction false} NewlineAllKeeps(s: string, cs: seq<string>, w: string)
    requires BreakReady(cs) && Edged(w)
    ensures NonEmptyWords(cs)
    ensures Shouted(s, w) ==> Shouted(NewlineAll(s, cs), w)
    ensures BrokenBefore(s, w) ==> BrokenBefore(NewlineAll(s, cs), w)
    decreases |cs|
  {
    if cs != [] {
      var c, t := cs[0], NewlinePass(s, cs[0]);
      NewlinePassBreaks(s, c);
      if Shouted(s, w) {
        BreaksShouted(s, c, w);
      }
      if BrokenBefore(s, w) {
        BreaksKeepBefore(s, c, w);
      }
      assert BreakReady(cs[1..]) by {
        forall k | 0 <= k < |cs[1..]| ensures cs[1..][k] == cs[k + 1] { }
      }
      NewlineAllKeeps(t, cs[1..], w);
      assert NewlineAll(s, cs) == NewlineAll(t, cs[1..]);
    }
  }

  /** After the newline passes, every exact occurrence of every clause keyword follows a line break. */
  lemma {:induction false} NewlineAllSpec(s: string, cs: seq<string>)
    requires BreakReady(cs)
    ensures NonEmptyWords(cs)
    ensures forall k :: 0 <= k < |cs| ==> BrokenBefore(NewlineAll(s, cs), cs[k])
    decreases |cs|
  {
    if cs != [] {
      var c, t, u := cs[0], NewlinePass(s, cs[0]), NewlineAll(s, cs);
      NewlinePassBreaks(s, c);
      BreaksBreakBefore(s, c);
      assert BreakReady(cs[1..]) by {
        forall k | 0 <= k < |cs[1..]| ensures cs[1..][k] == cs[k + 1] { }
      }
      NewlineAllSpec(t, cs[1..]);
      NewlineAllKeeps(t, cs[1..], c);
      assert u == NewlineAll(t, cs[1..]);
      forall k | 1 <= k < |cs| ensures BrokenBefore(u, cs[k]) {
        assert cs[k] == cs[1..][k - 1];
      }
    }
  }

  /** An occurrence of an edged word in `t + ";"` lies within `t` and occurs there. */
  lemma SemicolonOccurs(t: string, w: string, ignoreCase: bool, x: nat)
    requires Edged(w) && x <= |t + ";"| && OccursAt(t + ";", x, w, ignoreCase)
    ensures x + |w| <= |t| && OccursAt(t, x, w, ignoreCase)
  {
    var r := t + ";";
    TextAtChars(r, x, w, ignoreCase);
    forall k | 0 <= k < |w| ensures CharMatches(t[x + k], w[k], ignoreCase) {
      assert r[x + k] == t[x + k] && CharMatches(r[x + k], w[k], ignoreCase);
    }
    CharsTextAt(t, x, w, ignoreCase);
    assert x < |t| ==> r[x] == t[x];
    assert 0 < x ==> r[x - 1] == t[x - 1];
    assert r[x + |w| - 1] == t[x + |w| - 1];
    assert x + |w| < |t| ==> r[x + |w|] == t[x + |w|];
  }

  /** Appending the semicolon keeps keywords upper case and keeps their line breaks. */
  lemma TerminateKeeps(t: string, w: string)
    requires Edged(w)
    ensures Shouted(t, w) ==> Shouted(Terminate(t), w)
    ensures BrokenBefore(t, w) ==> BrokenBefore(Terminate(t), w)
  {
    if !EndsWith(t, ';') {
      var r := t + ";";
      if Shouted(t, w) {
        forall x | 0 <= x <= |r| && OccursAt(r, x, w, true) ensures Spelt(r, x, w) {
          SemicolonOccurs(t, w, true, x);
          assert Spelt(t, x, w);
          forall k | 0 <= k < |w| ensures r[x + k] == w[k] {
            assert r[x + k] == t[x + k];
          }
        }
      }
      if BrokenBefore(t, w) {
        forall x | 0 <= x <= |r| && OccursAt(r, x, w, false) ensures 0 < x && r[x - 1] == '\n' {
          SemicolonOccurs(t, w, false, x);
          assert r[x - 1] == t[x - 1];
        }
      }
    }
  }

  /** Every keyword of the upper-casing list is an edged word. */
  lemma CaseKeywordsEdged(k: nat)
    requires k < |CaseKeywords|
    ensures Edged(CaseKeywords[k])
  {
    CaseKeywordPlain(k);
    KeywordListsNonEmpty();
    var w := CaseKeywords[k];
    assert IsAsciiUpper(w[0]) && IsAsciiUpper(w[|w| - 1]);
    forall j | 0 <= j < |w| ensures w[j] != '\n' {
      assert IsAsciiUpper(w[j]) || w[j] == ' ';
    }
  }

  /** The clause keywords are upper-casing keywords too, edged and unoverlapping. */
  lemma ClauseKeywordsReady()
    ensures BreakReady(ClauseKeywords)
    ensures forall k :: 0 <= k < |ClauseKeywords| ==> ClauseKeywords[k] in CaseKeywords
  {
    CaseKeywordsReady();
    var at := [1, 2, 14, 15, 16];
    forall k | 0 <= k < |ClauseKeywords| ensures Edged(ClauseKeywords[k]) && Unoverlapping(ClauseKeywords[k]) {
      assert ClauseKeywords[k] == CaseKeywords[at[k]];
      CaseKeywordsEdged(at[k]);
    }
  }

  /**
    What `formatSQL` promises about keywords: every whole-word occurrence of an
    upper-casing keyword, in any letter case, is spelt in upper case, and every
    occurrence of a clause keyword comes right after a line break.
   */
  lemma FormatKeywords(sql: string)
    ensures forall k :: 0 <= k < |CaseKeywords| ==> Shouted(Format(sql), CaseKeywords[k])
    ensures forall k :: 0 <= k < |ClauseKeywords| ==> BrokenBefore(Format(sql), ClauseKeywords[k])
  {
    KeywordListsNonEmpty();
    CaseKeywordsReady();
    ClauseKeywordsReady();
    var u := UpcaseAll(CollapseSpace(Trim(sql)), CaseKeywords);
    var b := NewlineAll(u, ClauseKeywords);
    assert FormatBody(sql) == b;
    UpcaseAllSpec(CollapseSpace(Trim(sql)), CaseKeywords);
    NewlineAllSpec(u, ClauseKeywords);
    forall k | 0 <= k < |CaseKeywords| ensures Shouted(Format(sql), CaseKeywords[k]) {
      CaseKeywordsEdged(k);
      NewlineAllKeeps(u, ClauseKeywords, CaseKeywords[k]);
      TerminateKeeps(b, CaseKeywords[k]);
    }
    forall k | 0 <= k < |ClauseKeywords| ensures BrokenBefore(Format(sql), ClauseKeywords[k]) {
      TerminateKeeps(b, ClauseKeywords[k]);
    }
  }

  // ---------------------------------------------------------------------------
  // The method
  // ---------------------------------------------------------------------------

  /** `formatSQL`: trim and collapse, the two `forEach` loops, then the semicolon. */
  method FormatSql(sql: string) returns (formatted: string)
    ensures formatted == Format(sql)
    ensures EndsWith(formatted, ';')
    ensures forall k :: 0 <= k < |CaseKeywords| ==> Shouted(formatted, CaseKeywords[k])
    ensures forall k :: 0 <= k < |ClauseKeywords| ==> BrokenBefore(formatted, ClauseKeywords[k])
  {
    KeywordListsNonEmpty();
    FormatKeywords(sql);
    FormatSemicolon(sql);
    formatted := CollapseSpace(Trim(sql));
    formatted := UpcaseEach(formatted, CaseKeywords);
    formatted := NewlineEach(formatted, ClauseKeywords);
    if !EndsWith(formatted, ';') {
      formatted := formatted + ";";
    }
  }

  /** The first `forEach`: one upper-casing replacement per keyword, in order. */
  method UpcaseEach(s: string, kws: seq<string>) returns (formatted: string)
    requires NonEmptyWords(kws)
    ensures formatted == UpcaseAll(s, kws)
  {
    formatted := s;
    var i := 0;
    while i < |kws|
      invariant 0 <= i <= |kws|
      invariant UpcaseAll(formatted, kws[i..]) == UpcaseAll(s, kws)
    {
      assert kws[i..][1..] == kws[i + 1..];
      formatted := UpcasePass(formatted, kws[i]);
      i := i + 1;
    }
  }

  /** The second `forEach`: one newline replacement per clause keyword, in order. */
  method NewlineEach(s: string, kws: seq<string>) returns (formatted: string)
    requires NonEmptyWords(kws)
    ensures formatted == NewlineAll(s, kws)
  {
    formatted := s;
    var i := 0;
    while i < |kws|
      invariant 0 <= i <= |kws|
      invariant NewlineAll(formatted, kws[i..]) == NewlineAll(s, kws)
    {
      assert kws[i..][1..] == kws[i + 1..];
      formatted := NewlinePass(formatted, kws[i]);
      i := i + 1;
    }
  }
}
