/**
  `getInitials`, written identically in the settings page and in the header:
  the first character of each space-separated word, uppercased, at most two
  of them, and "U" for an empty name.
 */
module Initials {
  import opened JsText

  /** `word[0]` joined as text: the first character, or nothing for an empty word (`undefined` joins as ""). */
  function Head(word: string): (h: string)
    ensures |h| <= 1
    ensures word != [] ==> h == [word[0]]
  {
    if word == [] then [] else [word[0]]
  }

  /** `parts.map((n) => n[0]).join("")` */
  function Heads(parts: seq<string>): string {
    if parts == [] then [] else Head(parts[0]) + Heads(parts[1..])
  }

  /**
    Reference definition: the characters of `s` that start a run of
    non-space characters. `atStart` says whether the previous character was
    a space (or there was none).
   */
  function WordStarts(s: string, atStart: bool): string {
    if s == [] then []
    else if s[0] == ' ' then WordStarts(s[1..], true)
    else (if atStart then [s[0]] else []) + WordStarts(s[1..], false)
  }

  /**
    The heads of the space-separated pieces are exactly the word starts; in the
    middle of a word, the first piece's head is already taken.
   */
  lemma {:induction false} HeadsOfSplit(s: string)
    ensures Heads(Split(s, ' ')) == WordStarts(s, true)
    ensures Heads(Split(s, ' ')[1..]) == WordStarts(s, false)
  {
    if s != [] {
      var rest := Split(s[1..], ' ');
      HeadsOfSplit(s[1..]);
      var parts := Split(s, ' ');
      if s[0] == ' ' {
        assert parts == [[]] + rest;
        assert parts[1..] == rest;
        assert Heads(parts) == Head([]) + Heads(rest);
      } else {
        assert parts == [[s[0]] + rest[0]] + rest[1..];
        assert parts[1..] == rest[1..];
        assert Heads(parts) == [s[0]] + Heads(rest[1..]);
      }
    }
  }

  /** A word start is never a space. */
  lemma {:induction false} WordStartsNoSpace(s: string, atStart: bool)
    ensures ' ' !in WordStarts(s, atStart)
  {
    if s != [] {
      WordStartsNoSpace(s[1..], s[0] == ' ');
      WordStartsNoSpace(s[1..], false);
    }
  }

  /** `t.substring(0, 2)` */
  function TakeTwo(t: string): (r: string)
    ensures |r| <= 2
    ensures IsPrefix(r, t)
    ensures |t| >= 2 ==> |r| == 2
  {
    if |t| <= 2 then t else t[..2]
  }

  /** `getInitials` */
  function GetInitials(name: string): (initials: string)
    ensures name == [] ==> initials == "U"
    ensures |initials| <= 2
    ensures name != [] ==> initials == TakeTwo(Upper(WordStarts(name, true)))
  {
    if name == [] then "U"
    else
      var heads := Heads(Split(name, ' '));
      HeadsOfSplit(name);
      TakeTwo(Upper(heads))
  }

  /** The initials hold no space: empty words from repeated spaces add nothing. */
  lemma InitialsHaveNoSpace(name: string)
    ensures ' ' !in GetInitials(name)
  {
    if name != [] {
      var starts := WordStarts(name, true);
      WordStartsNoSpace(name, true);
      var up := Upper(starts);
      forall i | 0 <= i < |up| ensures up[i] != ' ' {
        assert starts[i] != ' ';
      }
    }
  }

  /** Two words give their two first letters, uppercased. */
  lemma TwoWords(first: string, second: string)
    requires first != [] && second != [] && ' ' !in first && ' ' !in second
    ensures GetInitials(first + " " + second) == [UpperChar(first[0]), UpperChar(second[0])]
  {
    var name := first + " " + second;
    SplitConcat(first, ' ', second);
    assert first + [' '] + second == name;
    SplitWithoutSeparator(first, ' ');
    SplitWithoutSeparator(second, ' ');
    var parts := Split(name, ' ');
    assert parts == [first, second];
    assert Heads(parts) == [first[0]] + Heads([second]);
    assert Heads([second]) == [second[0]] + Heads([]);
    HeadsOfSplit(name);
  }

  /** A name made only of spaces is not empty, so it gets no "U" but empty initials. */
  lemma {:induction false} BlankNameHasEmptyInitials(name: string)
    requires name != [] && forall i :: 0 <= i < |name| ==> name[i] == ' '
    ensures GetInitials(name) == []
  {
    BlankStarts(name, true);
  }

  lemma {:induction false} BlankStarts(s: string, atStart: bool)
    requires forall i :: 0 <= i < |s| ==> s[i] == ' '
    ensures WordStarts(s, atStart) == []
  {
    if s != [] {
      BlankStarts(s[1..], true);
    }
  }
}
