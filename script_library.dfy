/**
  The script library page: the rows it loads from the `script_library` table,
  the record it inserts for a new script, the update it sends when an edited
  script is saved, the format button and the title search.

  The table itself lives in the backend: each handler receives what the backend
  answered as a parameter and returns what it sends.
 */
module ScriptLibrary {
  import opened Wrappers
  import opened JsText
  import SqlFormat

  // ---------------------------------------------------------------------------
  // Rows and scripts
  // ---------------------------------------------------------------------------

  /** A row of the `script_library` table as `select("*")` returns it. */
  datatype StoredRow = StoredRow(
    id: string,
    title: string,
    description: string,
    sqlScript: string,
    categories: Option<seq<string>>,
    tags: seq<string>,
    version: Option<string>)

  /**
    A script as the page holds it: the SQL under `content`, one category and a
    numeric version (`None` is the number NaN).
   */
  datatype Script = Script(
    id: string,
    title: string,
    description: string,
    content: string,
    category: string,
    tags: seq<string>,
    version: Option<int>)

  /** `row.version ? parseInt(row.version) : 1`: a missing or empty version reads as 1. */
  function LoadVersion(stored: Option<string>): Option<int> {
    if stored.Some? && stored.value != [] then ParseInt(stored.value) else Some(1)
  }

  /** `row.categories?.[0] || ""` */
  function FirstCategory(categories: Option<seq<string>>): (c: string)
    ensures c == [] || (categories.Some? && |categories.value| > 0 && c == categories.value[0])
  {
    if categories.Some? && |categories.value| > 0 then categories.value[0] else ""
  }

  /** The mapping `fetchScripts` applies to each loaded row. */
  function LoadRow(row: StoredRow): (s: Script)
    ensures s.id == row.id && s.title == row.title && s.content == row.sqlScript && s.tags == row.tags
  {
    Script(row.id, row.title, row.description, row.sqlScript,
      FirstCategory(row.categories), row.tags, LoadVersion(row.version))
  }

  function LoadRows(rows: seq<StoredRow>): (scripts: seq<Script>)
    ensures |scripts| == |rows|
    ensures forall i :: 0 <= i < |rows| ==> scripts[i] == LoadRow(rows[i])
  {
    seq(|rows|, i requires 0 <= i < |rows| => LoadRow(rows[i]))
  }

  /** A row without a version, or with an empty one, loads as version 1. */
  lemma LoadMissingVersion(row: StoredRow)
    requires row.version.None? || row.version == Some("")
    ensures LoadRow(row).version == Some(1)
  {
  }

  /** A row whose version is the decimal text of `n` loads as version `n`. */
  lemma LoadDecimalVersion(row: StoredRow, n: int)
    requires row.version == Some(IntToDecimal(n))
    ensures LoadRow(row).version == Some(n)
  {
    ParseIntOfDecimal(n);
    assert IntToDecimal(n) != [] by {
      if n < 0 { assert IntToDecimal(n)[0] == '-'; }
    }
  }

  // ---------------------------------------------------------------------------
  // Records sent to the table
  // ---------------------------------------------------------------------------

  /** The new-script form. */
  datatype Draft = Draft(title: string, description: string, category: string, tags: string, content: string)

  const EmptyDraft: Draft := Draft("", "", "", "", "")

  /** The record `handleNewScriptSubmit` inserts. */
  datatype NewRecord = NewRecord(
    userId: string,
    title: string,
    description: string,
    sqlScript: string,
    categories: seq<string>,
    tags: seq<string>,
    version: string)

  /** `newScript.tags.split(",").map(t => t.trim())` */
  function TagList(tags: string): (r: seq<string>)
    ensures |r| == |Split(tags, ',')|
    ensures forall i :: 0 <= i < |r| ==> r[i] == Trim(Split(tags, ',')[i])
  {
    var parts := Split(tags, ',');
    seq(|parts|, i requires 0 <= i < |parts| => Trim(parts[i]))
  }

  /** The record built from the form for the signed-in user. */
  function NewRecordOf(userId: string, d: Draft): (r: NewRecord)
    ensures r.userId == userId && r.sqlScript == d.content && r.version == "1"
    ensures r.categories == [d.category] && r.tags == TagList(d.tags)
  {
    NewRecord(userId, d.title, d.description, d.content, [d.category], TagList(d.tags), "1")
  }

  /** A new record loads back as version 1 with the form's category. */
  lemma NewRecordLoads(userId: string, d: Draft, id: string)
    ensures var r := NewRecordOf(userId, d);
      var s := LoadRow(StoredRow(id, r.title, r.description, r.sqlScript, Some(r.categories), r.tags, Some(r.version)));
      s.version == Some(1) && s.category == d.category && s.content == d.content
  {
    LoadDecimalVersion(StoredRow(id, d.title, d.description, d.content, Some([d.category]), TagList(d.tags), Some("1")), 1);
  }

  /** Tags are chunks without a comma, and with no space around them. */
  lemma TagsAreClean(tags: string, i: nat)
    requires i < |TagList(tags)|
    ensures var t := TagList(tags)[i];
      ',' !in t && (t == [] || (!IsJsSpace(t[0]) && !IsJsSpace(t[|t| - 1])))
  {
    var p := Split(tags, ',')[i];
    assert p in Split(tags, ',');
    var u := TrimStart(p);
    var t := TrimEnd(u);
    assert t == TagList(tags)[i];
  }

  /** A tag text without white space is exactly its tags joined again with commas. */
  lemma TagsJoin(tags: string)
    requires forall i :: 0 <= i < |tags| ==> !IsJsSpace(tags[i])
    ensures Join(TagList(tags), ",") == tags
  {
    var parts := Split(tags, ',');
    forall i | 0 <= i < |parts| ensures TagList(tags)[i] == parts[i] {
      PartHasNoSpace(tags, i);
      TrimNoSpace(parts[i]);
    }
    assert TagList(tags) == parts;
    JoinSplit(tags, ',');
  }

  /** Pieces of a split contain only characters of the text split. */
  lemma {:induction false} PartHasNoSpace(s: string, i: nat)
    requires forall k :: 0 <= k < |s| ==> !IsJsSpace(s[k])
    requires i < |Split(s, ',')|
    ensures forall k :: 0 <= k < |Split(s, ',')[i]| ==> !IsJsSpace(Split(s, ',')[i][k])
    decreases |s|
  {
    if s != [] {
      var rest := Split(s[1..], ',');
      assert forall k :: 0 <= k < |s[1..]| ==> !IsJsSpace(s[1..][k]) by {
        forall k | 0 <= k < |s[1..]| ensures !IsJsSpace(s[1..][k]) { assert s[1..][k] == s[k + 1]; }
      }
      if s[0] == ',' {
        if i > 0 { PartHasNoSpace(s[1..], i - 1); }
      } else if i == 0 {
        PartHasNoSpace(s[1..], 0);
      } else {
        PartHasNoSpace(s[1..], i);
        assert Split(s, ',')[i] == rest[i];
      }
    }
  }

  /** The change `handleScriptEditSave` sends: new SQL and new version for one id. */
  datatype Update = Update(id: string, sqlScript: string, version: string)

  /** `String(v)` for a version number. */
  function NumberText(v: Option<int>): string {
    match v
    case Some(n) => IntToDecimal(n)
    case None => "NaN"
  }

  /** `(parseInt(selectedScript.version) + 1).toString()`, step by step. */
  function SourceNextVersion(v: Option<int>): string {
    match ParseInt(NumberText(v))
    case Some(n) => IntToDecimal(n + 1)
    case None => "NaN"
  }

  /** The version text an edit saves: one more than the version held, and NaN stays NaN. */
  function NextVersion(v: Option<int>): string {
    match v
    case Some(n) => IntToDecimal(n + 1)
    case None => "NaN"
  }

  /** Reading the version back with `parseInt` gives the number held, so the two agree. */
  lemma NextVersionIsSource(v: Option<int>)
    ensures NextVersion(v) == SourceNextVersion(v)
  {
    if v.Some? {
      SourceNextOfNumber(v.value);
    } else {
      ParseIntOfNaN();
    }
  }

  lemma SourceNextOfNumber(n: int)
    ensures SourceNextVersion(Some(n)) == IntToDecimal(n + 1)
  {
    var t := NumberText(Some(n));
    assert t == IntToDecimal(n);
    ParseIntOfDecimal(n);
  }

  /** A script whose version is NaN saves NaN, which reads back as NaN again. */
  lemma NextVersionOfNaN()
    ensures LoadVersion(Some(NextVersion(None))) == None
  {
    ParseIntOfNaN();
  }

  /** After a save, the row loads back one version higher. */
  lemma SaveThenLoad(s: Script, n: int)
    requires s.version == Some(n)
    ensures LoadVersion(Some(NextVersion(s.version))) == Some(n + 1)
  {
    LoadDecimalVersion(StoredRow(s.id, s.title, s.description, s.content, None, s.tags, Some(IntToDecimal(n + 1))), n + 1);
  }

  // ---------------------------------------------------------------------------
  // The title search
  // ---------------------------------------------------------------------------

  /** `script.title.toLowerCase().includes(searchQuery.toLowerCase())` */
  predicate TitleMatches(s: Script, query: string) {
    Contains(Lower(s.title), Lower(query))
  }

  /** The scripts the list shows for `query`. */
  function TitleFilter(scripts: seq<Script>, query: string): (shown: seq<Script>)
    ensures |shown| <= |scripts|
    ensures forall x :: x in shown ==> x in scripts && TitleMatches(x, query)
  {
    if scripts == [] then []
    else (if TitleMatches(scripts[0], query) then [scripts[0]] else []) + TitleFilter(scripts[1..], query)
  }

  /** Filtering keeps the order: the filter of a concatenation is the concatenation of the filters. */
  lemma {:induction false} FilterConcat(a: seq<Script>, b: seq<Script>, query: string)
    ensures TitleFilter(a + b, query) == TitleFilter(a, query) + TitleFilter(b, query)
    decreases |a|
  {
    if a != [] {
      assert (a + b)[1..] == a[1..] + b;
      FilterConcat(a[1..], b, query);
    } else {
      assert a + b == b;
    }
  }

  /** Every matching script is shown. */
  lemma {:induction false} FilterComplete(scripts: seq<Script>, query: string, x: Script)
    requires x in scripts && TitleMatches(x, query)
    ensures x in TitleFilter(scripts, query)
    decreases |scripts|
  {
    if scripts[0] != x {
      assert x in scripts[1..];
      FilterComplete(scripts[1..], query, x);
    }
  }

  /** An empty search shows the whole list. */
  lemma {:induction false} FilterEmptyQuery(scripts: seq<Script>)
    ensures TitleFilter(scripts, "") == scripts
    decreases |scripts|
  {
    if scripts != [] {
      ContainsEmpty(Lower(scripts[0].title));
      FilterEmptyQuery(scripts[1..]);
    }
  }

  /** Lower-casing forgets the case the text was written in. */
  lemma LowerOfUpper(s: string)
    ensures Lower(Upper(s)) == Lower(s)
  {
  }

  /** The search ignores the case of the query. */
  lemma FilterIgnoresCase(scripts: seq<Script>, query: string)
    ensures TitleFilter(scripts, Upper(query)) == TitleFilter(scripts, query)
  {
    LowerOfUpper(query);
    FilterSameFold(scripts, Upper(query), query);
  }

  lemma {:induction false} FilterSameFold(scripts: seq<Script>, q: string, q': string)
    requires Lower(q) == Lower(q')
    ensures TitleFilter(scripts, q) == TitleFilter(scripts, q')
    decreases |scripts|
  {
    if scripts != [] {
      FilterSameFold(scripts[1..], q, q');
    }
  }

  // ---------------------------------------------------------------------------
  // The page
  // ---------------------------------------------------------------------------

  datatype View = List | New | Editor

  /** What a `select("*")` on the table answered. */
  datatype FetchReply = Rows(rows: seq<StoredRow>) | FetchFailed

  /** The state of the script library page. */
  class Library {
    var scripts: seq<Script>
    var view: View
    var selected: Option<Script>
    var draft: Draft
    var searchQuery: string

    constructor ()
      ensures scripts == [] && view == List && selected == None
      ensures draft == EmptyDraft && searchQuery == ""
    {
      scripts := [];
      view := List;
      selected := None;
      draft := EmptyDraft;
      searchQuery := "";
    }

    /** The cards of the list view. */
    function Shown(): (shown: seq<Script>)
      reads this
      ensures forall x :: x in shown ==> x in scripts && TitleMatches(x, searchQuery)
      ensures forall x :: x in scripts && TitleMatches(x, searchQuery) ==> x in shown
    {
      forall x | x in scripts && TitleMatches(x, searchQuery) ensures x in TitleFilter(scripts, searchQuery) {
        FilterComplete(scripts, searchQuery, x);
      }
      TitleFilter(scripts, searchQuery)
    }

    /** `fetchScripts`: on success the list becomes the loaded rows; on failure it stays. */
    method Fetch(reply: FetchReply)
      modifies this
      ensures scripts == (if reply.Rows? then LoadRows(reply.rows) else old(scripts))
      ensures view == old(view) && selected == old(selected)
      ensures draft == old(draft) && searchQuery == old(searchQuery)
    {
      if reply.Rows? {
        scripts := LoadRows(reply.rows);
      }
    }

    /**
      `handleNewScriptSubmit`: without a signed-in user nothing happens. Otherwise the
      record is inserted, the list is refetched when the insert succeeded, and the
      form is cleared and the list shown either way.
     */
    method SubmitNew(user: Option<string>, insertFailed: bool, refetch: FetchReply) returns (inserted: Option<NewRecord>)
      modifies this
      ensures user.None? ==> inserted.None? && unchanged(this)
      ensures user.Some? ==> inserted == Some(NewRecordOf(user.value, old(draft)))
      ensures user.Some? ==> draft == EmptyDraft && view == List && selected == old(selected)
      ensures user.Some? ==> scripts == (if !insertFailed && refetch.Rows? then LoadRows(refetch.rows) else old(scripts))
      ensures searchQuery == old(searchQuery)
    {
      if user.None? {
        return None;
      }
      inserted := Some(NewRecordOf(user.value, draft));
      if !insertFailed {
        Fetch(refetch);
      }
      draft := EmptyDraft;
      view := List;
    }

    /**
      `handleScriptEditSave`: the selected row gets the edited SQL and the next
      version; the list is refetched when the update succeeded; the list is shown
      with nothing selected either way.
     */
    method EditSave(updateFailed: bool, refetch: FetchReply) returns (sent: Update)
      requires selected.Some?
      modifies this
      ensures sent == Update(old(selected).value.id, old(selected).value.content, NextVersion(old(selected).value.version))
      ensures scripts == (if !updateFailed && refetch.Rows? then LoadRows(refetch.rows) else old(scripts))
      ensures view == List && selected == None
      ensures draft == old(draft) && searchQuery == old(searchQuery)
    {
      var s := selected.value;
      sent := Update(s.id, s.content, NextVersion(s.version));
      if !updateFailed {
        Fetch(refetch);
      }
      view := List;
      selected := None;
    }

    /** `handleFormat`: the selected script's SQL is replaced by its formatted text (which ends with `;`, see `SqlFormat.FormatSemicolon`). */
    method Format()
      modifies this
      ensures selected == if old(selected).None? then None else Some(old(selected).value.(content := SqlFormat.Format(old(selected).value.content)))
      ensures unchanged(this`scripts, this`view, this`draft, this`searchQuery)
    {
      if selected.Some? {
        var s := selected.value;
        selected := Some(s.(content := SqlFormat.Format(s.content)));
      }
    }

    /** Clicking a card opens a copy of that script in the editor. */
    method Open(s: Script)
      modifies this
      ensures selected == Some(s) && view == Editor
      ensures scripts == old(scripts) && draft == old(draft) && searchQuery == old(searchQuery)
    {
      selected := Some(s);
      view := Editor;
    }

    /** Typing in the editor replaces the selected script's SQL. */
    method EditContent(text: string)
      requires selected.Some?
      modifies this
      ensures selected == Some(old(selected).value.(content := text))
      ensures scripts == old(scripts) && view == old(view)
      ensures draft == old(draft) && searchQuery == old(searchQuery)
    {
      selected := Some(selected.value.(content := text));
    }

    /** The editor's Cancel button: back to the list with nothing selected. */
    method CancelEdit()
      modifies this
      ensures view == List && selected == None
      ensures scripts == old(scripts) && draft == old(draft) && searchQuery == old(searchQuery)
    {
      view := List;
      selected := None;
    }

    /** The New Script button and the form's Back and Cancel buttons. */
    method Show(v: View)
      requires v != Editor
      modifies this
      ensures view == v
      ensures scripts == old(scripts) && selected == old(selected)
      ensures draft == old(draft) && searchQuery == old(searchQuery)
    {
      view := v;
    }

    /** Typing in the search box. */
    method Search(query: string)
      modifies this
      ensures searchQuery == query
      ensures scripts == old(scripts) && view == old(view)
      ensures selected == old(selected) && draft == old(draft)
    {
      searchQuery := query;
    }
  }
}
