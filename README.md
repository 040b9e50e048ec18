# Reportly rules, modelled in Dafny

Reportly is a web application with two jobs. It stores SQL scripts in a
script library, and it turns an uploaded CSV or XLSX table into a branded
Excel report. It also meters both jobs against plan quotas and sells plan
upgrades. Most of it is user interface and calls to a hosted backend. Around
those calls sit a few self-contained rule sets, and this project models them:

- **Script library** (`app/scripts/page.tsx`):
  - the HTML highlighter for SQL (escaping, then span markup around keywords and function names);
  - the SQL formatter (white space, upper-case keywords, clause line breaks, final `;`);
  - the record rules of the library: new scripts start at version `"1"`, an edit saves `parseInt(version) + 1`, loaded rows are normalised, and the search keeps titles that contain the query in any letter case.
- **Report designer** (`app/reports/page.tsx`):
  - the spreadsheet layout: a row cursor places the logo, the header banner, the table, the borders, the auto-fit column widths and the footer banner;
  - the upload extension dispatch;
  - restoring, creating and updating design templates.
- **Quotas and usage**:
  - the free-tier quotas and the remaining-count arithmetic (`lib/usage-limits.ts`);
  - the usage summary and its fallbacks (`lib/supabaseClient.ts`);
  - the usage alert and the plan card (`components/ui/usage-limit-alert.tsx`, `components/ui/plan-info-card.tsx`).
- **Pricing**:
  - the plan list built from the `plan_features` table, the current/upgrade/downgrade labels and the subscribe guard (`app/pricing/page.tsx`);
  - the pricing cards and their monthly/annual switch (`components/ui/pricing.tsx`).
- **Account**:
  - `getInitials` (`app/settings/page.tsx` and `components/header.tsx`);
  - the settings page's form loading, avatar size and storage-key rules, password check and theme handling;
  - the header's name, avatar and theme-switch rules;
  - the toast list (`components/ui/use-toast.tsx`).

Every answer from the backend is an ordinary input. This covers table rows,
counts, errors, thrown exceptions, storage uploads, RPC results and the
checkout endpoint's JSON. Every request a handler sends is returned as a
value. Page state that the handlers update in place is a Dafny `class`:

- `ScriptLibrary.Library`;
- `Reports.ReportDesigner` and `Reports.Worksheet`;
- `Pricing.PricingView`;
- `SettingsPage.AccountSettings`;
- `Header.HeaderState`;
- `Toast.ToastProvider`.

Loops in the code are loops here too: `formatSQL`'s two `forEach` passes, and
`generateReport`'s border and auto-fit loops. Each is proved against a
function that states what it computes.

JavaScript's string semantics live in one module, `JsText`:

- `split`, `trim`, `toUpperCase`/`toLowerCase` on ASCII letters;
- `parseInt`;
- number-to-text conversion;
- word characters and white space.

Regular expressions of the form `\b(a|b|…)\b` with the `g` flag (with or
without `i`) are modelled by one scanner, `SqlText.ReplaceAll`.

Modules: `Wrappers`, `JsText`, `SqlText`, `SqlMarkup`, `SqlFormat`,
`ScriptLibrary`, `Reports`, `UsageLimits`, `SupabaseClient`,
`UsageLimitAlert`, `PlanInfoCard`, `PricingPage`, `Pricing`, `SettingsPage`,
`Initials`, `Header`, `Toast`. All `.dfy` files are verified together.

Two facts about the code that a reader might expect otherwise:

- The download is always named `report.xlsx`; the name carries no date (`app/reports/page.tsx:358`).
- Script versions are a field of the script's own row. There is no table of earlier versions, and an edit always updates the same row and bumps its version.

## Model

| member | source | states |
|---|---|---|
| SqlText.FirstMatchSpec | project/app/scripts/page.tsx:15-16 | The alternation picks the first alternative, in written order, that matches between two word boundaries at a position. It finds none exactly when no alternative matches there. |
| SqlText.ReplaceNoMatch | project/app/scripts/page.tsx:15-18 | A global `\b…\b` replace leaves a text in which the pattern matches nowhere unchanged. |
| SqlMarkup.ReplaceChar | project/app/scripts/page.tsx:11-13 | A one-character global replace removes every `c` when the substitute has none, and is the identity on text without `c`. |
| SqlMarkup.EscapeIsPerChar | project/app/scripts/page.tsx:11-14 | The three chained replacements, `&` first, equal replacing each character by its own entity. An inserted `&lt;`/`&gt;` is never escaped twice. |
| SqlMarkup.EscapeEach | project/app/scripts/page.tsx:11-14 | Per-character escaping leaves no `<` and no `>`. |
| SqlMarkup.EscapePlain | project/app/scripts/page.tsx:11-14 | After escaping, no raw `<` or `>` from the input survives. |
| SqlMarkup.UnescapeEscape | project/app/scripts/page.tsx:11-14 | Escaping loses nothing: reading the entities back gives the input, so every `&` became `&amp;` and every `<`, `>` an entity. |
| SqlMarkup.HighlightStrips | project/app/scripts/page.tsx:10-20 | Deleting the span tags from the highlighted output gives exactly the escaped input. Matched words keep their original case (`$1`). |
| SqlMarkup.HighlightReadsBack | project/app/scripts/page.tsx:10-20 | The text a reader sees in the highlighted HTML is the SQL given. |
| SqlMarkup.StripReplace | project/app/scripts/page.tsx:15-18 | A wrapping pass adds markup and nothing else, provided every `<` of its input begins a tag inside which its pattern cannot match. |
| SqlMarkup.WrapAngles | project/app/scripts/page.tsx:15-18 | After the keyword pass, every `<` starts one of its own tags, so the later function pass cannot match inside the markup. |
| SqlMarkup.MarkupShapes | project/app/scripts/page.tsx:15-18 | The keyword and function span tags are well formed, and no function name can match inside the tags the function pass runs over. |
| SqlMarkup.HighlightSql | project/app/scripts/page.tsx:10-20 | `highlightSQL`, reassigning the text one replacement at a time, computes `Highlight`. Stripped of tags it is the escaped input and reads back as the SQL. |
| SqlFormat.CollapseSpace | project/app/scripts/page.tsx:25 | `\s+` → `" "` leaves only single spaces as white space, never two in a row, and starts with a space exactly when the input starts with white space. |
| SqlFormat.CollapseKeepsText | project/app/scripts/page.tsx:25 | Collapsing white space keeps every other character, in order. |
| SqlFormat.CollapseTrimmed | project/app/scripts/page.tsx:25 | Collapsing after `trim` leaves no space at either end. |
| SqlFormat.CollapseLast | project/app/scripts/page.tsx:25 | The collapsed text ends in a space exactly when the input ends in white space. |
| SqlFormat.Terminate | project/app/scripts/page.tsx:48-50 | The result ends with `;`; a text already ending with `;` is unchanged, any other gets one `;` appended. |
| SqlFormat.FormatSemicolon | project/app/scripts/page.tsx:25 | `formatSQL` output always ends with `;`. When the collapsed text already ends with `;`, nothing is appended. (Also lines 48-50.) |
| SqlFormat.UpcasePassSpec | project/app/scripts/page.tsx:36-38 | One case-insensitive keyword replace only changes letter case, and leaves every whole-word occurrence of the keyword spelt in upper case. |
| SqlFormat.UpcaseAllSpec | project/app/scripts/page.tsx:28-39 | All keyword passes together only change letter case, and every listed keyword is upper case everywhere it occurs as a whole word. |
| SqlFormat.NewlinePassBreaks | project/app/scripts/page.tsx:42-45 | A clause pass inserts a line break before every exact whole-word occurrence of its keyword and changes nothing else. |
| SqlFormat.NewlineAllKeeps | project/app/scripts/page.tsx:42-45 | Later clause passes keep keywords upper case and keep the line breaks already inserted. |
| SqlFormat.NewlineAllSpec | project/app/scripts/page.tsx:42-45 | After the clause passes, every exact occurrence of FROM, WHERE, GROUP BY, ORDER BY and HAVING comes right after a line break. |
| SqlFormat.FormatKeywords | project/app/scripts/page.tsx:23-53 | In `formatSQL` output every whole-word occurrence of a listed keyword, in any case, is upper case, and each clause keyword is preceded by `\n`. |
| SqlFormat.FormatSql | project/app/scripts/page.tsx:23-53 | `formatSQL` (trim and collapse, the two `forEach` loops, the semicolon) computes `Format`. It ends with `;`, all keywords are upper case, and clause keywords follow line breaks. |
| SqlFormat.UpcaseEach | project/app/scripts/page.tsx:28-39 | The first `forEach` computes the passes one keyword after the other, in list order. |
| SqlFormat.NewlineEach | project/app/scripts/page.tsx:42-45 | The second `forEach` computes the clause passes in list order. |
| ScriptLibrary.FirstCategory | project/app/scripts/page.tsx:127 | `categories?.[0] \|\| ""` is empty or the first stored category. |
| ScriptLibrary.LoadRow | project/app/scripts/page.tsx:123-129 | A loaded row keeps its id, title, tags and SQL (as `content`). |
| ScriptLibrary.LoadRows | project/app/scripts/page.tsx:123-129 | Loading maps the rows one for one, in order. |
| ScriptLibrary.LoadMissingVersion | project/app/scripts/page.tsx:128 | A row with a missing or empty version loads as version 1. |
| ScriptLibrary.LoadDecimalVersion | project/app/scripts/page.tsx:128 | A row whose version is the decimal text of `n` loads as version `n`. |
| ScriptLibrary.TagList | project/app/scripts/page.tsx:180 | The tags are the comma-split pieces, one for one, each trimmed. |
| ScriptLibrary.NewRecordOf | project/app/scripts/page.tsx:174-182 | A new record has the user's id, the form's SQL, version `"1"`, categories `[category]` and the trimmed tags. |
| ScriptLibrary.NewRecordLoads | project/app/scripts/page.tsx:123-129 | A new record loads back as version 1 with the form's category. (Also lines 174-182.) |
| ScriptLibrary.TagsAreClean | project/app/scripts/page.tsx:180 | Each tag has no comma and no white space at either end. |
| ScriptLibrary.TagsJoin | project/app/scripts/page.tsx:180 | A tag text without white space is exactly its tags joined again with commas. |
| ScriptLibrary.NextVersionIsSource | project/app/scripts/page.tsx:197 | The saved version text equals `(parseInt(version) + 1).toString()` on the version held. |
| ScriptLibrary.SaveThenLoad | project/app/scripts/page.tsx:128 | After an edit is saved, the row loads back exactly one version higher. (Also line 197.) |
| ScriptLibrary.NextVersionOfNaN | project/app/scripts/page.tsx:197 | A NaN version saves as `"NaN"`, which loads back as NaN. |
| ScriptLibrary.TitleFilter | project/app/scripts/page.tsx:393 | The search shows only scripts of the list whose lower-cased title contains the lower-cased query. |
| ScriptLibrary.FilterComplete | project/app/scripts/page.tsx:393 | Every matching script is shown. |
| ScriptLibrary.FilterConcat | project/app/scripts/page.tsx:393 | The search keeps the list order: filtering distributes over concatenation. |
| ScriptLibrary.FilterEmptyQuery | project/app/scripts/page.tsx:393 | An empty search shows the whole list. |
| ScriptLibrary.FilterIgnoresCase | project/app/scripts/page.tsx:393 | Upper-casing the query does not change what is shown. |
| ScriptLibrary.Library.constructor | project/app/scripts/page.tsx:56-68 | The page starts on the empty list view with nothing selected, an empty form and an empty search. |
| ScriptLibrary.Library.Shown | project/app/scripts/page.tsx:393 | The cards shown are exactly the scripts whose titles match the search. |
| ScriptLibrary.Library.Fetch | project/app/scripts/page.tsx:118-131 | On success the list becomes the loaded rows; on failure it stays. Nothing else changes. |
| ScriptLibrary.Library.SubmitNew | project/app/scripts/page.tsx:166-193 | Without a user nothing is inserted and nothing changes. Otherwise the record is built from the form, and the list is refetched only when the insert succeeded. The form is cleared and the list view shown either way. |
| ScriptLibrary.Library.EditSave | project/app/scripts/page.tsx:196-212 | The update sends only the selected id, the edited SQL and the next version. The list is refetched only on success, and the page returns to the list with no selection either way. |
| ScriptLibrary.Library.Format | project/app/scripts/page.tsx:215-222 | The selected script's SQL is replaced by its formatted text; without a selection nothing changes. |
| ScriptLibrary.Library.Open | project/app/scripts/page.tsx:397 | Clicking a card opens a copy of it in the editor. |
| ScriptLibrary.Library.EditContent | project/app/scripts/page.tsx:345 | Typing in the editor replaces only the selected script's SQL. |
| ScriptLibrary.Library.CancelEdit | project/app/scripts/page.tsx:364 | Cancel returns to the list with nothing selected. |
| ScriptLibrary.Library.Show | project/app/scripts/page.tsx:242 | The New Script and Back buttons switch the view and change nothing else. (Also line 380.) |
| ScriptLibrary.Library.Search | project/app/scripts/page.tsx:387 | Typing in the search box sets the query and changes nothing else. |
| Reports.MaxOfIsMaximum | project/app/reports/page.tsx:329-338 | The running `Math.max` from 0 bounds every width and is one of them. |
| Reports.ColumnMaxIsMaximum | project/app/reports/page.tsx:327-341 | A column's width bounds the widest `\n`-separated line of that column in every row and is attained; an empty table has width 0. |
| Reports.LineWidthOfOneLine | project/app/reports/page.tsx:331-335 | Text without a line break is one line as wide as the text. |
| Reports.FitWidthIsCeiling | project/app/reports/page.tsx:339 | The whole-number width `(6m + 4) / 5 + 2` is two more than the least whole number at or above `1.2 · m`. |
| Reports.ExtensionOf | project/app/reports/page.tsx:101 | A name `base.ext` with a dot-free `ext` has `ext`, lower-cased, as its extension. |
| Reports.ExtensionOfDotless | project/app/reports/page.tsx:101 | A name without a dot is its own extension, lower-cased. |
| Reports.PreviewOf | project/app/reports/page.tsx:97-121 | A `csv` or `xlsx` file previews as its parsed rows; any other extension previews as the one-cell notice "Unsupported file type.". |
| Reports.PreviewByExtension | project/app/reports/page.tsx:101-119 | The preview of `base.ext` depends on the extension alone, compared without regard to case. |
| Reports.FirstRowClearsLogo | project/app/reports/page.tsx:277 | With 20-pixel rows, the cursor after a logo (`ceil(h / 20) + 1`) is the first row that starts at or below the image's bottom edge. |
| Reports.BannersClearOfTable | project/app/reports/page.tsx:283-289 | No banner falls on the table's rows. The header is above them with a blank row between, and the footer is two rows below the last one. (Also lines 325, 344-349.) |
| Reports.BordersOnTable | project/app/reports/page.tsx:309-323 | With `showBorders`, exactly the cells in rows cursor … cursor + len − 1 and columns 1 … header width get borders; without it none do. |
| Reports.WidthsFitColumns | project/app/reports/page.tsx:327-341 | With auto-fit, each column named by the first row gets `ceil(1.2 · m) + 2`, where `m` is its widest line across all rows with names included. No other column gets a width. |
| Reports.WidthsSpec | project/app/reports/page.tsx:328-340 | The widths are set for columns 1 … count and no other, each from its own maximum. |
| Reports.ColumnNames | project/app/reports/page.tsx:292-300 | One column name per header cell: the cell's text, or `Column i+1` for a falsy cell. |
| Reports.Box | project/app/reports/page.tsx:310-322 | The border box holds exactly the cells of the given rows and columns. |
| Reports.Worksheet.constructor | project/app/reports/page.tsx:260-261 | A new worksheet holds no banners, borders, widths, images or tables. |
| Reports.Worksheet.AddBanner | project/app/reports/page.tsx:284-287 | One banner (text, font, merge) is appended; nothing else changes. (Also lines 344-349.) |
| Reports.Worksheet.SetBorder | project/app/reports/page.tsx:313-318 | One cell gets a border; nothing else changes. |
| Reports.Worksheet.SetWidth | project/app/reports/page.tsx:339 | One column's width is set; nothing else changes. |
| Reports.Worksheet.AddImage | project/app/reports/page.tsx:269-276 | One image is appended; nothing else changes. |
| Reports.Worksheet.AddTable | project/app/reports/page.tsx:295-306 | One table is appended; nothing else changes. |
| Reports.Generate | project/app/reports/page.tsx:255-361 | No report without a preview table. There is also none when a header or footer must be merged across an empty table, where the code throws. Otherwise the report is `report.xlsx`, and its worksheet holds exactly the logo, the banners, the one table, the borders and the widths the layout functions give. |
| Reports.DrawTop | project/app/reports/page.tsx:262-289 | The logo is anchored at the top-left corner, and the header banner sits on the cursor row. The returned row is where the table goes. |
| Reports.DrawTable | project/app/reports/page.tsx:291-349 | The worksheet gets the table, its borders, its column widths and the footer banner. |
| Reports.DrawBorders | project/app/reports/page.tsx:309-323 | The nested border loops add exactly the cells of the box. |
| Reports.AutoFit | project/app/reports/page.tsx:327-341 | The auto-fit loop sets column `c + 1` to the fitted width of column `c`'s widest line, for the first `count` columns. |
| Reports.WidestLine | project/app/reports/page.tsx:329-337 | The running `maxWidth` over every line of every row of a column is that column's maximum. |
| Reports.WidenToLines | project/app/reports/page.tsx:332-335 | The innermost loop raises `maxWidth` to the longest of the lines. |
| Reports.Restored | project/app/reports/page.tsx:188-193 | A restored layout always has a table theme. Absent fields take their defaults. |
| Reports.RestoreSaved | project/app/reports/page.tsx:188-193 | A layout saved with a theme is restored exactly. |
| Reports.RestoreDefaults | project/app/reports/page.tsx:188-205 | A missing, unreadable or blank layout restores `""`, `""`, `"TableStyleMedium2"`, false, false. |
| Reports.FindTemplate | project/app/reports/page.tsx:184 | The template found has the id and is in the list; none is found only when no template has it. |
| Reports.FindFirst | project/app/reports/page.tsx:184 | The first template with the id is found, even when a later one has it too. |
| Reports.LogoUrlOf | project/app/reports/page.tsx:195 | `logo_url \|\| null` keeps a non-empty address and drops an empty one. |
| Reports.LogoPath | project/app/reports/page.tsx:31 | A logo is stored under the user's own folder. |
| Reports.ReportDesigner.constructor | project/app/reports/page.tsx:52-71 | The designer starts with no file, preview, logo or templates, and the default layout. |
| Reports.ReportDesigner.UploadFile | project/app/reports/page.tsx:97-121 | A chosen file replaces the file name and the preview; choosing none changes nothing. |
| Reports.ReportDesigner.UploadLogo | project/app/reports/page.tsx:123-130 | A chosen logo is kept and its note shows loading; choosing none changes nothing. |
| Reports.ReportDesigner.LogoTimerFired | project/app/reports/page.tsx:128 | When the timer fires, the logo note shows success. |
| Reports.ReportDesigner.Refresh | project/app/reports/page.tsx:74-86 | For a signed-in user the list becomes `data \|\| []`, and stays on an error; without a user nothing changes. |
| Reports.ReportDesigner.SelectTemplate | project/app/reports/page.tsx:182-206 | The id is selected. A found template puts its layout and logo address in the designer and drops the chosen logo file. An unreadable layout resets the options and the logo address and keeps the file. No match changes nothing else. |
| Reports.ReportDesigner.ApplyTemplate | project/app/reports/page.tsx:186-205 | The branch of template selection after a template is found. |
| Reports.ReportDesigner.CreateTemplate | project/app/reports/page.tsx:133-180 | No user or a blank trimmed name gives its alert and no upload or insert. A failed logo upload aborts before the insert. The insert carries the user, the name, the layout and the uploaded address. Only a successful insert clears the name and refetches. |
| Reports.ReportDesigner.InsertTemplate | project/app/reports/page.tsx:143-179 | Upload the logo if one is chosen, then insert, with the alerts and refetch above. |
| Reports.ReportDesigner.UpdateTemplate | project/app/reports/page.tsx:208-252 | No user or no selection gives its alert. A logo is uploaded only when chosen, and a failed upload stops before the update. The update carries the layout and a new address only when one was uploaded. Only success refetches. |
| Reports.ReportDesigner.GenerateReport | project/app/reports/page.tsx:255-361 | The designer's download is laid out exactly as `Generate` lays out its preview table and options. |
| UsageLimits.PlanLimit | project/lib/usage-limits.ts:51-52 | The limit is finite, and equal to the quota, exactly on the free tier: no settings row, or `current_plan === 'free'`. (Also lines 109-110, 170-171.) |
| UsageLimits.Remaining | project/lib/usage-limits.ts:128 | Remaining is finite exactly when the limit is. (Also line 191.) |
| UsageLimits.RemainingComplements | project/lib/usage-limits.ts:128 | `remaining + count = limit` when count ≤ limit; 0 once the count reaches it; never more than the limit. (Also line 191.) |
| UsageLimits.CheckLimit | project/lib/usage-limits.ts:101-145 | An error is attached exactly when a query failed or threw. The limit is reached exactly when a free-tier user's count (`null` as 0) meets the quota. Without an error the limit is the plan's and the count is the query's. A failed count keeps the plan's limit, and an exception reports the bare quota. Remaining always complements them. (Also lines 162-208.) |
| UsageLimits.CheckReportGenerationLimit | project/lib/usage-limits.ts:92-146 | The report check's finite limit is always 10, and an exception reports the finite limit 10 even for a paid plan (lines 137-145). |
| UsageLimits.GetScriptUsage | project/lib/usage-limits.ts:153-209 | The script check's finite limit is always 5, and an exception reports the finite limit 5 even for a paid plan (lines 199-208). |
| UsageLimits.PaidNeverLimited | project/lib/usage-limits.ts:131 | A paid plan never reaches a limit and, once counted, has no limit. (Also line 194.) |
| UsageLimits.NullPlanIsPaid | project/lib/usage-limits.ts:109 | A row whose plan is `null` counts as paid, unlike a missing row. (Also line 170.) |
| UsageLimits.FailOpen | project/lib/usage-limits.ts:116-125 | A failed or throwing query allows the action: not reached, count 0, remaining equal to the limit. That limit is the bare quota after an exception and the plan's limit after a count error. (Also lines 137-145, 179-188, 199-208.) |
| UsageLimits.ReachedIffNoneRemaining | project/lib/usage-limits.ts:127-134 | With a count in hand, the limit is reached exactly when nothing remains of a finite quota. (Also lines 190-197.) |
| UsageLimits.GenerationOf | project/lib/usage-limits.ts:64-73 | The inserted row carries the user, the export type and the file name, and is scheduled only when asked (`isScheduled \|\| false`). |
| UsageLimits.RecordReportGeneration | project/lib/usage-limits.ts:11-85 | Success exactly when no error, and exactly when the insert was sent and succeeded. An empty user id is refused before any query. The row is inserted exactly when the count answered, the settings lookup did not throw and the user is not free tier at 10 or more. A failed settings lookup counts as free tier. |
| UsageLimits.RecordAgreesWithCheck | project/lib/usage-limits.ts:50-59 | On the same answers, `recordReportGeneration` refuses for the quota exactly when `checkReportGenerationLimit` says the limit is reached. (Also lines 127-131.) |
| SupabaseClient.RoundIsNearest | project/lib/supabaseClient.ts:66 | `Round`, which stands for `Math.round` of a quotient, is the whole number nearest to the exact quotient, a half going up. (Also lines 69, 72.) |
| SupabaseClient.Percent | project/lib/supabaseClient.ts:66 | The percentage is `null` exactly when the limit is `null` or 0. (Also line 72.) |
| SupabaseClient.Usage | project/lib/supabaseClient.ts:62-73 | A resource's usage keeps its count and limit; it is unlimited exactly when the limit is `null`. |
| SupabaseClient.TotalKbAppend | project/lib/supabaseClient.ts:54 | The storage total of two runs of rows is the sum of their totals. |
| SupabaseClient.TotalKbOfMissing | project/lib/supabaseClient.ts:54 | Rows without a size add nothing. |
| SupabaseClient.GetUserUsageInfo | project/lib/supabaseClient.ts:10-77 | No settings row gives the fallback: zero usage, limit 0, `'free'`, active. A failed report count gives zero usage with the row's tier and raw active flag. Otherwise the count (`null` as 0) and the rounded MB are measured against the row's limits, and `isActive` defaults to true. Unlimited exactly when the limit is `null`. |
| SupabaseClient.ZeroLimitHasNoPercent | project/lib/supabaseClient.ts:65-66 | A zero limit is not "unlimited", yet it has no percentage. |
| SupabaseClient.ReportPercentNearest | project/lib/supabaseClient.ts:66 | The report percentage is the nearest whole percent of usage over limit. |
| SupabaseClient.StoragePercentOfKb | project/lib/supabaseClient.ts:55 | The storage percentage is measured on the unrounded KB, not on the rounded MB shown. (Also line 72.) |
| UsageLimitAlert.Alert | project/components/ui/usage-limit-alert.tsx:15-44 | Shown exactly when usage is limited and the percentage is non-null, non-zero and at least the threshold. It is destructive ("limit reached") exactly at 100% or more, and a warning otherwise. The upgrade button appears only at the limit. The progress is `min(percent, 100)`. |
| UsageLimitAlert.ResourceWording | project/components/ui/usage-limit-alert.tsx:22-25 | Reports are named "Report" with the monthly wording; storage "Storage" with the MB wording. |
| UsageLimitAlert.DefaultThreshold | project/components/ui/usage-limit-alert.tsx:15-21 | With the default threshold 80, below 80% shows nothing and 100% or more shows the limit alert. |
| UsageLimitAlert.ZeroPercentNeverAlerts | project/components/ui/usage-limit-alert.tsx:17 | 0% never alerts, even with a zero threshold, since 0 is falsy. |
| PlanInfoCard.PlanDetails | project/components/ui/plan-info-card.tsx:46-67 | `'professional'` → Professional, `'enterprise'` → Enterprise, any other tier → Free. |
| PlanInfoCard.FormatDate | project/components/ui/plan-info-card.tsx:36-43 | A missing or empty date shows `N/A`, any other a formatted date. |
| PlanInfoCard.Line | project/components/ui/plan-info-card.tsx:92-128 | "Unlimited" exactly when unlimited; the bar is shown exactly when not, with value `percent \|\| 0`, and amber exactly when the percentage exceeds 80. |
| PlanInfoCard.PlanCard | project/components/ui/plan-info-card.tsx:71-158 | The inactive notice shows exactly when inactive. The dates block shows exactly when a start date is truthy, and the end date only inside it. The footer says "Upgrade Plan" exactly for `'free'`. |
| PlanInfoCard.UnknownTier | project/components/ui/plan-info-card.tsx:60-66 | An unknown tier shows the Free badge but "Manage Subscription". (Also line 152.) |
| PlanInfoCard.DatesNeverNotAvailable | project/components/ui/plan-info-card.tsx:131-144 | The dates block never shows `N/A`. |
| PlanInfoCard.AmberAbove80 | project/components/ui/plan-info-card.tsx:106 | 80% itself is not amber; 81% is. (Also line 125.) |
| PricingPage.Capitalize | project/app/pricing/page.tsx:39 | The name is the tier with its first letter upper-cased and the rest unchanged. |
| PricingPage.FormatPlan | project/app/pricing/page.tsx:38-51 | A row becomes:<br>- the capitalised name;<br>- the monthly price, with ten times it as the yearly price;<br>- period "month";<br>- features `[]` unless an array is stored;<br>- button text and link by tier (free, enterprise, other);<br>- popular exactly for professional. |
| PricingPage.YearlyIsTenMonths | project/app/pricing/page.tsx:40-41 | The yearly price reads back as ten times the monthly price. |
| PricingPage.FormatPlans | project/app/pricing/page.tsx:38-51 | The rows are formatted one for one, in order. |
| PricingPage.FetchPlans | project/app/pricing/page.tsx:22-60 | Data replaces the plans with the formatted rows; an error, an exception or `null` data keeps them. |
| PricingPage.FetchUserSettings | project/app/pricing/page.tsx:63-75 | Only a signed-in user's row, fetched without error, replaces the settings. |
| PricingPage.Customize | project/app/pricing/page.tsx:126-157 | The matching tier becomes "Current Plan" and disabled, checked first. Then come "Downgrade" and "Upgrade" under their conditions, each with a click that subscribes to the plan's tier. Anything else is unchanged. Only the button text changes on the card. |
| PricingPage.GetCustomizedPlans | project/app/pricing/page.tsx:123-158 | Without settings or plans the list is returned unchanged. Otherwise every plan is customised, and the length and order are kept. |
| PricingPage.LabelsFollowTierOrder | project/app/pricing/page.tsx:128-154 | Between known tiers, the user's tier is current, a lower tier is a downgrade and a higher one an upgrade. |
| PricingPage.MissingTier | project/app/pricing/page.tsx:137-154 | Settings without a tier are not free: free reads "Downgrade", enterprise "Upgrade", professional is unchanged. |
| PricingPage.UnknownPlanTierUnchanged | project/app/pricing/page.tsx:136-156 | A plan of an unknown tier is relabelled only when it is the user's own. |
| PricingPage.ProfessionalAlwaysGetStarted | project/app/pricing/page.tsx:123-158 | Whatever the user's tier, the professional card shows "Get Started": the component's fixed label hides the page's relabelling. |
| PricingPage.HandleSubscribe | project/app/pricing/page.tsx:82-120 | With no user: a redirect to login and no checkout request. Otherwise a request for the tier and the user, with the success and cancel URLs. The page navigates only to a non-empty returned URL with no error. |
| Pricing.ButtonLabel | project/components/ui/pricing.tsx:245-265 | "Professional" always shows "Get Started"; otherwise "contact sales" in any case shows "Upgrade", any other text as given. |
| Pricing.CardOf | project/components/ui/pricing.tsx:158-272 | The amount is the price when monthly and the yearly price otherwise, with the caption to match. The suffix is hidden exactly for "Next 3 months". The badge and highlighting appear exactly when popular. |
| Pricing.NoContactSalesButton | project/components/ui/pricing.tsx:245-265 | No card ever shows "contact sales", in any case. |
| Pricing.ContactSalesShownAsUpgrade | project/components/ui/pricing.tsx:262-264 | "Contact Sales" is shown as "Upgrade". |
| Pricing.Cards | project/components/ui/pricing.tsx:158 | One card per plan, in order. |
| Pricing.PricingView.constructor | project/components/ui/pricing.tsx:92 | The view starts on monthly prices. |
| Pricing.PricingView.SwitchChecked | project/components/ui/pricing.tsx:144 | The switch is on exactly when prices are not monthly. |
| Pricing.PricingView.HandleToggle | project/components/ui/pricing.tsx:96-97 | The switch's new position sets `isMonthly = !checked`, and the switch then shows it. |
| Initials.HeadsOfSplit | project/app/settings/page.tsx:382-384 | The first characters of the space-separated pieces are exactly the characters that start a word. |
| Initials.TakeTwo | project/app/settings/page.tsx:386 | `substring(0, 2)` is a prefix of at most two characters, exactly two when the text has them. |
| Initials.GetInitials | project/app/settings/page.tsx:379-387 | "U" for an empty name; otherwise the word starts, in order, upper-cased, at most two. |
| Initials.InitialsHaveNoSpace | project/app/settings/page.tsx:382-386 | Empty words from repeated spaces add nothing: the initials hold no space. |
| Initials.TwoWords | project/components/header.tsx:32-40 | Two words give their two first letters, upper-cased. |
| Initials.BlankNameHasEmptyInitials | project/components/header.tsx:32-40 | A name of spaces only is not empty, so it gets empty initials rather than "U". |
| SettingsPage.Or | project/app/settings/page.tsx:132-134 | `a \|\| b` is `a` when truthy, else `b`. |
| SettingsPage.ThemeName | project/app/settings/page.tsx:173 | The theme is "dark" exactly for dark mode. (Also lines 501, 549.) |
| SettingsPage.InitialDarkMode | project/app/settings/page.tsx:144-147 | With the override flag, dark exactly when the theme is; otherwise the stored mode or a dark theme. |
| SettingsPage.OverrideIgnoresStoredMode | project/app/settings/page.tsx:146 | With the flag the stored mode does not matter; without it a stored dark mode wins over a light theme. |
| SettingsPage.AvatarChange | project/app/settings/page.tsx:325-342 | Nothing without a file. A refusal exactly when the first file exceeds 2 MiB. Otherwise the first file is uploaded. |
| SettingsPage.AvatarLimitBoundary | project/app/settings/page.tsx:331 | Exactly 2 MiB is accepted; one byte more is refused. |
| SettingsPage.UntilQuery | project/app/settings/page.tsx:278 | `[^?]+` stops at the first `?`. |
| SettingsPage.MatchFrom | project/app/settings/page.tsx:278 | The match found is the leftmost. |
| SettingsPage.AvatarKey | project/app/settings/page.tsx:278-279 | A key exists exactly when the URL holds `avatars/` followed by a non-`?` character. Such a key is non-empty, has no `?`, and follows an `avatars/` in the URL. |
| SettingsPage.KeyStopsAtQuery | project/app/settings/page.tsx:278 | `avatars/name?query` gives the key `name`. |
| SettingsPage.AccountSettings.constructor | project/app/settings/page.tsx:65-88 | The profile form starts from the auth user. Notifications start on, and everything else off or empty. |
| SettingsPage.AccountSettings.SettingsLoaded | project/app/settings/page.tsx:130-158 | The stored values win over the auth profile in the form. The switch follows `InitialDarkMode`. The avatar is the auth photo first, then the stored one, else unchanged. (Also lines 110-112.) |
| SettingsPage.AccountSettings.SyncTheme | project/app/settings/page.tsx:169-182 | Without the flag the theme follows the stored mode; with it the switch follows the theme. |
| SettingsPage.AccountSettings.RemoveAvatar | project/app/settings/page.tsx:271-322 | No user or no avatar: nothing. Otherwise the key's file is deleted if the URL has one. The avatar is then cleared unless that delete failed, and the local avatar and the profile photo are reset only when the update succeeds. A failed profile reset shows "Action failed" with the avatar already cleared. The dialog closes either way. |
| SettingsPage.AccountSettings.HandlePasswordUpdate | project/app/settings/page.tsx:432-464 | A confirmation that differs is refused before saving starts. An accepted update clears all three fields. |
| SettingsPage.AccountSettings.HandleDarkModeToggle | project/app/settings/page.tsx:541-553 | The switch and the theme follow at once, and the override flag is removed. |
| SettingsPage.AccountSettings.HandleAppearanceUpdate | project/app/settings/page.tsx:496-538 | A failed save flips the switch back; a successful one updates the kept row's mode. The theme always ends agreeing with the switch. |
| Header.ShownName | project/components/header.tsx:162 | `displayName \|\| user.displayName \|\| "User"`, never empty. (Also lines 165-166.) |
| Header.FallbackInitials | project/components/header.tsx:166 | The avatar fallback is the initials of the shown name; "U" when neither name is set. |
| Header.HeaderState.constructor | project/components/header.tsx:22-24 | No avatar, no name, not mounted. |
| Header.HeaderState.Mount | project/components/header.tsx:27-29 | The first effect marks the header mounted. |
| Header.HeaderState.AvatarSource | project/components/header.tsx:165 | The image source is the avatar when truthy, else empty. |
| Header.HeaderState.FetchUserSettings | project/components/header.tsx:44-89 | The auth photo and name are taken first, then replaced by the stored ones only when truthy. The stored theme applies only once mounted and without the override flag. An error keeps the auth values. |
| Header.HeaderState.HandleThemeChange | project/components/header.tsx:95-118 | The override flag is set before anything else, then the theme. A signed-in user's choice is saved as `newTheme === 'dark'`. |
| Header.ThemeChangeSurvivesFetch | project/components/header.tsx:81-84 | After a theme change in the header, a later settings fetch leaves the theme alone. (Also lines 97-98.) |
| Toast.Without | project/components/ui/use-toast.tsx:27 | Removing keeps exactly the toasts with another id and never lengthens the list. |
| Toast.WithoutKeepsOrder | project/components/ui/use-toast.tsx:27 | The toasts kept stay in order. |
| Toast.WithoutAbsent | project/components/ui/use-toast.tsx:27 | Removing an absent id leaves the list as it was. |
| Toast.WithoutPresent | project/components/ui/use-toast.tsx:27 | Removing a present id shortens the list. |
| Toast.WithoutAppend | project/components/ui/use-toast.tsx:27 | Removal distributes over appending. |
| Toast.ToastProvider.constructor | project/components/ui/use-toast.tsx:19 | The provider starts with no toasts. |
| Toast.ToastProvider.AddToast | project/components/ui/use-toast.tsx:21-24 | One toast is appended at the end, with the clock reading as its id; earlier toasts are unchanged. |
| Toast.ToastProvider.RemoveToast | project/components/ui/use-toast.tsx:26-28 | Every toast with the id goes; the others stay in order. |
| Toast.SameInstantRemovedTogether | project/components/ui/use-toast.tsx:22 | Two toasts added at the same instant share an id and are removed together. (Also line 27.) |
| Toast.UseToast | project/components/ui/use-toast.tsx:38-44 | Outside a provider the hook throws "useToast must be used within a ToastProvider"; inside it returns the context. |

## Left out

- Backend and payment services are not modelled: the Supabase tables, storage and RPC functions, and Stripe (`lib/stripe.ts`, the checkout and webhook routes, the product set-up script). Their answers are inputs and the requests sent are outputs.
- The checkout endpoint is represented only by its JSON answer to `handleSubscribe`.
- Spreadsheet and browser libraries are not modelled: XLSX parsing, ExcelJS serialisation and `writeBuffer`, the Blob download, and image decoding. The parsed table and the logo's pixel size are inputs.
- The layout is stored as JSON text and read back with `JSON.parse`. This is modelled as a stored object, an absent value or unparsable text; fields of unexpected JSON types are not modelled.
- Floating point is not modelled. `Math.round` and `Math.ceil` are computed exactly on whole numbers (`Round`, `FitWidth`, `FirstRow`), and so is `Math.round` of the storage MB. Non-integer prices and image heights do not arise.
- SupabaseClient.Round and SupabaseClient.Percent round the exact quotient, so they differ from JavaScript's doubles where the double product falls just below a half: `Math.round(23 / 40 * 100)` is 57 in JavaScript, because `23 / 40 * 100` is `57.49999999999999`, while `Percent` gives 58. The same holds for 29/200 (14 against 15) and 57/200 (28 against 29).
- Reports.Cell has only blank, text and whole-number cells. A truthy boolean or fractional cell from `sheet_to_json` is represented by the text `String(v)` prints for it (`Text("true")`, `Text("3.5")`), and a falsy one (`false`, `0`, `""`) by `Blank`, as `row[col] ? String(row[col]) : ""` reads them for the widths. The cell's JavaScript type in the written sheet is therefore not modelled for those values.
- Reports.LineWidths, Reports.WidenToLines, Reports.LineWidthOfOneLine, Reports.WidestLine, Reports.AutoFit, Reports.ColumnMaxIsMaximum, Reports.WidthsFitColumns, Initials.Head, Initials.TakeTwo, Initials.GetInitials and Header.FallbackInitials count lengths and take first characters in Unicode scalar values, while JavaScript's `length`, `[0]` and `substring` count UTF-16 code units. A cell holding one emoji has width 5 in the code (length 2) and 4 here, and a name starting with an emoji gives a lone high surrogate as its first initial in the code but the whole emoji here.
- Number-to-text conversion covers whole numbers written in decimal. JavaScript's exponent notation from 1e21 on is not modelled.
- Upper- and lower-casing act on ASCII letters only; other Unicode case mappings are not modelled.
- `toLocaleDateString` depends on the locale; only whether a date shows `N/A` or a formatted date is modelled.
- Timers and delays are not modelled beyond their effect: the logo-status timer (1.5 s) is the method `LogoTimerFired`, and the password update's one-second delay is skipped.
- Loading flags, toasts other than the avatar removal's, console logging, confetti, animations, media queries, scroll syncing and URL-query toasts are not modelled.
- Plain form setters with no rule of their own are not modelled as methods: the header, footer and theme inputs, the checkboxes, the template name, and the profile and notification fields.
- The settings page's `uploadAvatar`, `getAvatarUrl`, `handleProfileUpdate`, `handleNotificationUpdate` and `handleSecurityUpdate` are not modelled: they only forward form values to the backend.
- In `getUserUsageInfo`, an exception thrown by a query propagates to the caller; the model covers only answered queries.
- `addToast` and `removeToast` read the list from the render they were created in. Two calls within one render therefore lose one update; the model applies calls one after the other.
- ScriptLibrary.Library.EditSave requires a selected script: the code would throw reading the version of `null`, and the Save button only exists in the editor, which always has a selection.
- ScriptLibrary.Library.EditContent requires a selected script for the same reason.
- Reports.ReportDesigner.GenerateReport does not embed a logo restored from a template's `logo_url` without a chosen file, because the code only embeds the chosen file.
- Pricing.CardOf keeps the amount as the plan's price text; the `Number` conversion and the currency formatting of the animated figure are not modelled.
- The `Pricing` component's sample plans and default title and description are not modelled. So are the page's `buttonDisabled` and `onClick` fields, which the component does not read; they are kept in `PricingPage.PagePlan`.
- Pure presentation and routing files have no rules of their own and are not part of this model: the landing, auth, unauthorized and layout pages, hero sections, sidebars, skeleton and decoration components, the conditional header and the version dropdown.
- `lib/types.ts` only declares types; its row shapes appear as datatypes.
