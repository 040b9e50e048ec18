/**
  The regular-expression replacements that the script library applies to SQL text.

  Every pattern in those rules has the shape `\b(w1|w2|...)\b`, with or without the
  `i` flag, used with the `g` flag. `ReplaceAll` is the scan that
  `String.prototype.replace` performs for such a pattern: at each position it
  tries the alternatives in order, takes the first one that matches between two
  word boundaries, emits the replacement and resumes after the match; with no
  match it copies one character and moves on.
 */
module SqlText {
  import opened Wrappers
  import opened JsText

  // ---------------------------------------------------------------------------
  // Word-bounded alternatives
  // ---------------------------------------------------------------------------

  /** `\b(alts[0]|alts[1]|...)\b`, case-insensitive when `ignoreCase` (the `i` flag). */
  datatype Pattern = Pattern(alts: seq<string>, ignoreCase: bool)

  /** What replaces a match: `open + "$1" + close`, or a fixed text. */
  datatype Replacement = Wrap(open: string, close: string) | Literal(text: string)

  /** No alternative is empty (an empty alternative would match between every two characters). */
  predicate ValidPattern(p: Pattern) {
    forall k :: 0 <= k < |p.alts| ==> |p.alts[k]| > 0
  }

  /** `\b` at index `i`: exactly one of the characters around `i` is a word character. */
  predicate Boundary(s: string, i: nat)
    requires i <= |s|
  {
    (i > 0 && IsWordChar(s[i - 1])) != (i < |s| && IsWordChar(s[i]))
  }

  predicate CharMatches(a: char, b: char, ignoreCase: bool) {
    if ignoreCase then SameLetter(a, b) else a == b
  }

  /** The text at index `i` of `s` spells `w`. */
  predicate TextAt(s: string, i: nat, w: string, ignoreCase: bool)
    decreases |w|
  {
    if w == [] then i <= |s|
    else i < |s| && CharMatches(s[i], w[0], ignoreCase) && TextAt(s, i + 1, w[1..], ignoreCase)
  }

  /** Where `w` is spelt, it fits in `s` and each of its characters matches. */
  lemma {:induction false} TextAtChars(s: string, i: nat, w: string, ignoreCase: bool)
    requires TextAt(s, i, w, ignoreCase)
    ensures i + |w| <= |s|
    ensures forall k :: 0 <= k < |w| ==> CharMatches(s[i + k], w[k], ignoreCase)
    decreases |w|
  {
    if w != [] {
      TextAtChars(s, i + 1, w[1..], ignoreCase);
      forall k | 1 <= k < |w| ensures CharMatches(s[i + k], w[k], ignoreCase) {
        assert s[i + k] == s[(i + 1) + (k - 1)] && w[k] == w[1..][k - 1];
      }
    }
  }

  /** Where each character of `w` matches, `w` is spelt. */
  lemma {:induction false} CharsTextAt(s: string, i: nat, w: string, ignoreCase: bool)
    requires i + |w| <= |s|
    requires forall k :: 0 <= k < |w| ==> CharMatches(s[i + k], w[k], ignoreCase)
    ensures TextAt(s, i, w, ignoreCase)
    decreases |w|
  {
    if w != [] {
      assert CharMatches(s[i + 0], w[0], ignoreCase);
      forall k | 0 <= k < |w| - 1 ensures CharMatches(s[i + 1 + k], w[1..][k], ignoreCase) {
        assert s[i + 1 + k] == s[i + (k + 1)] && w[1..][k] == w[k + 1];
      }
      CharsTextAt(s, i + 1, w[1..], ignoreCase);
    }
  }

  /** `\bw\b` matches at index `i` of `s`. */
  predicate OccursAt(s: string, i: nat, w: string, ignoreCase: bool)
    requires i <= |s|
  {
    TextAt(s, i, w, ignoreCase) && i + |w| <= |s| && Boundary(s, i) && Boundary(s, i + |w|)
  }

  /** The first alternative, from index `k` on, that matches at index `i`. */
  function FirstMatchFrom(s: string, i: nat, p: Pattern, k: nat): (r: Option<nat>)
    requires i <= |s|
    ensures r.Some? ==> k <= r.value < |p.alts| && i + |p.alts[r.value]| <= |s|
    decreases |p.alts| - k, 1
  {
    if k >= |p.alts| then None else FirstMatchTry(s, i, p, k)
  }

  /** Alternative `k` if it matches at index `i`, else the first later one that does. */
  function FirstMatchTry(s: string, i: nat, p: Pattern, k: nat): (r: Option<nat>)
    requires i <= |s| && k < |p.alts|
    ensures r.Some? ==> k <= r.value < |p.alts| && i + |p.alts[r.value]| <= |s|
    decreases |p.alts| - k, 0
  {
    if OccursAt(s, i, p.alts[k], p.ignoreCase) then
      TextAtChars(s, i, p.alts[k], p.ignoreCase);
      Some(k)
    else FirstMatchFrom(s, i, p, k + 1)
  }

  /** The alternative the regular expression picks at index `i`, if any. */
  function FirstMatch(s: string, i: nat, p: Pattern): Option<nat>
    requires i <= |s|
  {
    FirstMatchFrom(s, i, p, 0)
  }

  lemma {:induction false} FirstMatchFromSpec(s: string, i: nat, p: Pattern, k: nat)
    requires i <= |s|
    ensures var r := FirstMatchFrom(s, i, p, k);
      && (r.Some? ==> OccursAt(s, i, p.alts[r.value], p.ignoreCase))
      && (r.Some? ==> forall m :: k <= m < r.value ==> !OccursAt(s, i, p.alts[m], p.ignoreCase))
      && (r.None? ==> forall m :: k <= m < |p.alts| ==> !OccursAt(s, i, p.alts[m], p.ignoreCase))
    decreases |p.alts| - k
  {
    if k < |p.alts| {
      assert FirstMatchFrom(s, i, p, k) == FirstMatchTry(s, i, p, k);
      if !OccursAt(s, i, p.alts[k], p.ignoreCase) {
        FirstMatchFromSpec(s, i, p, k + 1);
      }
    }
  }

  /**
    The alternation picks the first alternative, in the order written, that matches
    between two word boundaries at index `i`; it finds none only when none matches.
   */
  lemma FirstMatchSpec(s: string, i: nat, p: Pattern)
    requires i <= |s|
    ensures FirstMatch(s, i, p).Some? ==>
      var k := FirstMatch(s, i, p).value;
      && OccursAt(s, i, p.alts[k], p.ignoreCase)
      && forall m :: 0 <= m < k ==> !OccursAt(s, i, p.alts[m], p.ignoreCase)
    ensures FirstMatch(s, i, p).None? <==>
      forall m :: 0 <= m < |p.alts| ==> !OccursAt(s, i, p.alts[m], p.ignoreCase)
  {
    FirstMatchFromSpec(s, i, p, 0);
  }

  /** The text a match of `matched` is replaced by. */
  function Render(rep: Replacement, matched: string): string {
    match rep
    case Wrap(open, close) => open + matched + close
    case Literal(text) => text
  }

  /** The output of the global replace for the part of `s` from index `i` on. */
  function ReplaceFrom(s: string, i: nat, p: Pattern, rep: Replacement): string
    requires i <= |s| && ValidPattern(p)
    decreases |s| - i, 1
  {
    if i == |s| then [] else ReplaceStep(s, i, p, rep)
  }

  /** The output of the scan at a position where text remains. */
  function ReplaceStep(s: string, i: nat, p: Pattern, rep: Replacement): string
    requires i < |s| && ValidPattern(p)
    decreases |s| - i, 0
  {
    match FirstMatch(s, i, p)
    case Some(k) =>
      var n := |p.alts[k]|;
      Render(rep, s[i..i + n]) + ReplaceFrom(s, i + n, p, rep)
    case None => [s[i]] + ReplaceFrom(s, i + 1, p, rep)
  }

  /** `s.replace(pattern, replacement)` with the `g` flag. */
  function ReplaceAll(s: string, p: Pattern, rep: Replacement): string
    requires ValidPattern(p)
  {
    ReplaceFrom(s, 0, p, rep)
  }

  /** Where no alternative matches, the scan copies the text unchanged. */
  lemma {:induction false} ReplaceSkips(s: string, i: nat, n: nat, p: Pattern, rep: Replacement)
    requires ValidPattern(p) && i + n <= |s|
    requires forall j :: i <= j < i + n ==> FirstMatch(s, j, p).None?
    ensures ReplaceFrom(s, i, p, rep) == s[i..i + n] + ReplaceFrom(s, i + n, p, rep)
    decreases n
  {
    if n == 0 {
      assert s[i..i + n] == [];
    } else {
      ReplaceCopyStep(s, i, p, rep);
      ReplaceSkips(s, i + 1, n - 1, p, rep);
      assert s[i..i + n] == [s[i]] + s[i + 1..i + n];
    }
  }

  /** A text in which the pattern matches nowhere is left unchanged. */
  lemma ReplaceNoMatch(s: string, p: Pattern, rep: Replacement)
    requires ValidPattern(p)
    requires forall j :: 0 <= j < |s| ==> FirstMatch(s, j, p).None?
    ensures ReplaceAll(s, p, rep) == s
  {
    ReplaceSkips(s, 0, |s|, p, rep);
    assert s[0..|s|] == s;
  }

  /** One step of the scan at a match. */
  lemma ReplaceMatchStep(s: string, i: nat, p: Pattern, rep: Replacement, k: nat)
    requires ValidPattern(p) && i < |s| && FirstMatch(s, i, p) == Some(k)
    ensures i + |p.alts[k]| <= |s|
    ensures ReplaceFrom(s, i, p, rep)
         == Render(rep, s[i..i + |p.alts[k]|]) + ReplaceFrom(s, i + |p.alts[k]|, p, rep)
  {
    assert ReplaceFrom(s, i, p, rep) == ReplaceStep(s, i, p, rep);
  }

  /** One step of the scan where nothing matches. */
  lemma ReplaceCopyStep(s: string, i: nat, p: Pattern, rep: Replacement)
    requires ValidPattern(p) && i < |s| && FirstMatch(s, i, p).None?
    ensures ReplaceFrom(s, i, p, rep) == [s[i]] + ReplaceFrom(s, i + 1, p, rep)
  {
    assert ReplaceFrom(s, i, p, rep) == ReplaceStep(s, i, p, rep);
  }
}
