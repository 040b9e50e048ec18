/**
  The report designer: the spreadsheet `generateReport` lays out from the
  preview table and the branding options, the upload of the data file, and the
  design templates that store the branding.

  The spreadsheet library, the file parsers, the image decoder and the backend
  are outside the model: the parsed table, the logo's pixel size and every
  backend answer are inputs, and the worksheet is a class recording what the
  report asks the library to do.
 */
module Reports {
  import opened Wrappers
  import opened JsText

  // ---------------------------------------------------------------------------
  // The preview table
  // ---------------------------------------------------------------------------

  /** A cell value of the parsed sheet: empty, a text or a whole number. */
  datatype Cell = Blank | Text(s: string) | Number(n: int)

  /** JavaScript truthiness of a cell value. */
  predicate Truthy(c: Cell) {
    match c
    case Blank => false
    case Text(s) => s != []
    case Number(n) => n != 0
  }

  /** `String(value)` for a truthy value. */
  function CellString(c: Cell): string {
    match c
    case Blank => ""
    case Text(s) => s
    case Number(n) => IntToDecimal(n)
  }

  /** `row[col] ? String(row[col]) : ""`, where an index past the row's end reads as undefined. */
  function CellText(row: seq<Cell>, col: nat): string {
    if col < |row| && Truthy(row[col]) then CellString(row[col]) else ""
  }

  function Max(a: nat, b: nat): nat {
    if a < b then b else a
  }

  /** The greatest of some widths, 0 when there are none: a running `Math.max` from 0. */
  function MaxOf(xs: seq<nat>): nat {
    if xs == [] then 0 else Max(MaxOf(xs[..|xs| - 1]), xs[|xs| - 1])
  }

  /** `MaxOf` bounds every width and is one of them. */
  lemma {:induction false} MaxOfIsMaximum(xs: seq<nat>)
    ensures forall k :: 0 <= k < |xs| ==> xs[k] <= MaxOf(xs)
    ensures xs != [] ==> exists k :: 0 <= k < |xs| && xs[k] == MaxOf(xs)
  {
    if xs != [] {
      var init, last := xs[..|xs| - 1], |xs| - 1;
      MaxOfIsMaximum(init);
      assert forall k :: 0 <= k < |init| ==> init[k] == xs[k];
      if MaxOf(init) < xs[last] || init == [] {
        assert xs[last] == MaxOf(xs);
      } else {
        var k :| 0 <= k < |init| && init[k] == MaxOf(init);
        assert xs[k] == MaxOf(xs);
      }
    }
  }

  /** One more step of the running maximum. */
  lemma MaxOfStep(xs: seq<nat>, i: nat)
    requires i < |xs|
    ensures MaxOf(xs[..i + 1]) == Max(MaxOf(xs[..i]), xs[i])
  {
    assert xs[..i + 1][..i] == xs[..i];
  }

  function Lengths(lines: seq<string>): (lengths: seq<nat>)
    ensures |lengths| == |lines| && forall k :: 0 <= k < |lines| ==> lengths[k] == |lines[k]|
  {
    seq(|lines|, k requires 0 <= k < |lines| => |lines[k]|)
  }

  /** The longest `\n`-separated line of the text of column `col` in `row`. */
  function LineWidth(row: seq<Cell>, col: nat): nat {
    MaxOf(Lengths(Split(CellText(row, col), '\n')))
  }

  /** The line width of column `col` in each row of the table. */
  function LineWidths(table: seq<seq<Cell>>, col: nat): (widths: seq<nat>)
    ensures |widths| == |table| && forall r :: 0 <= r < |table| ==> widths[r] == LineWidth(table[r], col)
  {
    seq(|table|, r requires 0 <= r < |table| => LineWidth(table[r], col))
  }

  /** The widest line of column `col` over all rows of the table. */
  function ColumnMax(table: seq<seq<Cell>>, col: nat): nat {
    MaxOf(LineWidths(table, col))
  }

  /** `ColumnMax` bounds the line width of the column in every row, and an empty table has width 0. */
  lemma ColumnMaxIsMaximum(table: seq<seq<Cell>>, col: nat)
    ensures forall r :: 0 <= r < |table| ==> LineWidth(table[r], col) <= ColumnMax(table, col)
    ensures table != [] ==> exists r :: 0 <= r < |table| && LineWidth(table[r], col) == ColumnMax(table, col)
    ensures table == [] ==> ColumnMax(table, col) == 0
  {
    MaxOfIsMaximum(LineWidths(table, col));
  }

  /** Text without a line break is one line as wide as the text. */
  lemma LineWidthOfOneLine(row: seq<Cell>, col: nat)
    requires '\n' !in CellText(row, col)
    ensures LineWidth(row, col) == |CellText(row, col)|
  {
    var text := CellText(row, col);
    SplitWithoutSeparator(text, '\n');
    var lengths := Lengths([text]);
    assert lengths == [|text|];
    assert lengths[..0] == [];
    assert MaxOf(lengths) == Max(MaxOf(lengths[..0]), |text|);
  }

  /** `Math.ceil(m * 1.2) + 2`, in whole numbers: `ceil(6m / 5) = (6m + 4) / 5`. */
  function FitWidth(m: nat): nat {
    (6 * m + 4) / 5 + 2
  }

  /** Two more than the least whole number at or above `1.2 * m`. */
  lemma FitWidthIsCeiling(m: nat)
    ensures 5 * (FitWidth(m) - 2) >= 6 * m
    ensures 5 * (FitWidth(m) - 3) < 6 * m
  {
  }

  // ---------------------------------------------------------------------------
  // The worksheet
  // ---------------------------------------------------------------------------

  datatype Font = Font(bold: bool, italic: bool, size: nat)

  /**
    Text in column 1 of a row, a font for the whole row, and the row's columns
    1 to `lastCol` merged into one cell.
   */
  datatype Banner = Banner(row: nat, text: string, font: Font, lastCol: nat)

  /** An image anchored with its top-left corner at a zero-based column and row. */
  datatype Image = Image(extension: string, col: nat, row: nat, width: nat, height: nat)

  /** `addTable`: the table's top-left cell is `A{refRow}`. */
  datatype Table = Table(
    name: string,
    refRow: nat,
    headerRow: bool,
    theme: string,
    rowStripes: bool,
    columns: seq<string>,
    rows: seq<seq<Cell>>)

  /** What the report asks of the spreadsheet library, one field per kind of request. */
  class Worksheet {
    var banners: seq<Banner>
    var borders: set<(nat, nat)>
    var widths: map<nat, nat>
    var images: seq<Image>
    var tables: seq<Table>

    constructor ()
      ensures banners == [] && borders == {} && widths == map[] && images == [] && tables == []
    {
      banners, borders, widths, images, tables := [], {}, map[], [], [];
    }

    method AddBanner(banner: Banner)
      modifies this
      ensures banners == old(banners) + [banner]
      ensures unchanged(this`borders, this`widths, this`images, this`tables)
    {
      banners := banners + [banner];
    }

    /** A thin border on all four sides of one cell. */
    method SetBorder(row: nat, col: nat)
      modifies this
      ensures borders == old(borders) + {(row, col)}
      ensures unchanged(this`banners, this`widths, this`images, this`tables)
    {
      borders := borders + {(row, col)};
    }

    /** `getColumn(col).width = width` */
    method SetWidth(col: nat, width: nat)
      modifies this
      ensures widths == old(widths)[col := width]
      ensures unchanged(this`banners, this`borders, this`images, this`tables)
    {
      widths := widths[col := width];
    }

    method AddImage(image: Image)
      modifies this
      ensures images == old(images) + [image]
      ensures unchanged(this`banners, this`borders, this`widths, this`tables)
    {
      images := images + [image];
    }

    method AddTable(table: Table)
      modifies this
      ensures tables == old(tables) + [table]
      ensures unchanged(this`banners, this`borders, this`widths, this`images)
    {
      tables := tables + [table];
    }
  }

  // ---------------------------------------------------------------------------
  // The layout
  // ---------------------------------------------------------------------------

  /** The logo file: its name and the pixel size the image decoder reports. */
  datatype Logo = Logo(name: string, width: nat, height: nat)

  /** The branding options of the designer. */
  datatype Branding = Branding(
    logo: Option<Logo>,
    headerText: string,
    footerText: string,
    tableTheme: string,
    showBorders: bool,
    autoFitColumns: bool)

  /** `name.split(".").pop().toLowerCase()`: the text after the last dot, or the whole name. */
  function Extension(name: string): string {
    var parts := Split(name, '.');
    Lower(parts[|parts| - 1])
  }

  /** A name ending in a dot and a dot-free suffix has that suffix, in lower case, as its extension. */
  lemma ExtensionOf(base: string, ext: string)
    requires '.' !in ext
    ensures Extension(base + "." + ext) == Lower(ext)
  {
    SplitConcat(base, '.', ext);
    SplitWithoutSeparator(ext, '.');
  }

  /** A name without a dot is its own extension. */
  lemma ExtensionOfDotless(name: string)
    requires '.' !in name
    ensures Extension(name) == Lower(name)
  {
    SplitWithoutSeparator(name, '.');
  }

  /** The image type the logo is embedded as. */
  function ImageType(name: string): string {
    if Extension(name) == "png" then "png" else "jpeg"
  }

  /** The row the cursor stands on after the logo: `Math.ceil(height / 20) + 1`, or 1. */
  function FirstRow(logo: Option<Logo>): nat {
    if logo.Some? then (logo.value.height + 19) / 20 + 1 else 1
  }

  /** The row of the table's column names. */
  function TableRow(b: Branding): nat {
    FirstRow(b.logo) + if b.headerText != [] then 2 else 0
  }

  /** The row of the footer: two rows below the row after the table. */
  function FooterRow(b: Branding, table: seq<seq<Cell>>): nat {
    TableRow(b) + |table| + 2
  }

  /** `previewTable[0] || []` */
  function HeaderCells(table: seq<seq<Cell>>): seq<Cell> {
    if table == [] then [] else table[0]
  }

  /** `previewTable.slice(1)` */
  function DataRows(table: seq<seq<Cell>>): seq<seq<Cell>> {
    if table == [] then [] else table[1..]
  }

  /** `col || "Column " + (i + 1)` for every column name. */
  function ColumnNames(header: seq<Cell>): (names: seq<string>)
    ensures |names| == |header|
    ensures forall i :: 0 <= i < |header| ==> names[i] == ColumnName(header, i)
  {
    seq(|header|, i requires 0 <= i < |header| => ColumnName(header, i))
  }

  function ColumnName(header: seq<Cell>, i: nat): string
    requires i < |header|
  {
    if Truthy(header[i]) then CellString(header[i]) else "Column " + NatToDecimal(i + 1)
  }

  /** The cells of rows `top .. top + height - 1` and columns `1 .. width`. */
  function Box(top: nat, height: nat, width: nat): (box: set<(nat, nat)>)
    ensures forall r: nat, c: nat :: (r, c) in box <==> top <= r < top + height && 1 <= c <= width
  {
    set r: nat, c: nat | top <= r < top + height && 1 <= c <= width :: (r, c)
  }

  /** Column `c` (one-based) gets `FitWidth(maxes[c - 1])`, for every column `1 .. count`, set in order. */
  function Widths(maxes: seq<nat>, count: nat): map<nat, nat>
    requires count <= |maxes|
  {
    if count == 0 then map[] else Widths(maxes, count - 1)[count := FitWidth(maxes[count - 1])]
  }

  /** The widths are set for columns `1 .. count` and no other, each from its own maximum. */
  lemma {:induction false} WidthsSpec(maxes: seq<nat>, count: nat, c: nat)
    requires count <= |maxes|
    ensures c in Widths(maxes, count) <==> 1 <= c <= count
    ensures 1 <= c <= count ==> Widths(maxes, count)[c] == FitWidth(maxes[c - 1])
  {
    if count > 0 {
      WidthsSpec(maxes, count - 1, c);
    }
  }

  /** The widest line of each of the first `count` columns. */
  function ColumnMaxes(table: seq<seq<Cell>>, count: nat): (maxes: seq<nat>)
    ensures |maxes| == count && forall c :: 0 <= c < count ==> maxes[c] == ColumnMax(table, c)
  {
    seq(count, c requires 0 <= c < count => ColumnMax(table, c))
  }

  /** Setting the next column's width extends the widths set so far by one column. */
  lemma WidthsStep(before: map<nat, nat>, maxes: seq<nat>, col: nat)
    requires col < |maxes|
    ensures before + Widths(maxes, col + 1) == (before + Widths(maxes, col))[col + 1 := FitWidth(maxes[col])]
  {
  }

  lemma NoWidthsBefore(widths: map<nat, nat>)
    ensures map[] + widths == widths
  {
  }

  const HeaderFont := Font(true, false, 16)
  const FooterFont := Font(false, true, 12)

  /** A banner for a non-empty text, none for an empty one. */
  function BannerOf(row: nat, text: string, font: Font, lastCol: nat): seq<Banner> {
    if text != [] then [Banner(row, text, font, lastCol)] else []
  }

  /** The width of the first row, up to which the banners are merged. */
  function LastColumn(table: seq<seq<Cell>>): nat {
    if table == [] then 0 else |table[0]|
  }

  /** The logo at the top-left corner, at its own pixel size. */
  function SheetImages(b: Branding): seq<Image> {
    if b.logo.Some? then [Image(ImageType(b.logo.value.name), 0, 0, b.logo.value.width, b.logo.value.height)] else []
  }

  /** The header banner on the first row below the logo, the footer banner below the table. */
  function SheetBanners(b: Branding, table: seq<seq<Cell>>): seq<Banner> {
    BannerOf(FirstRow(b.logo), b.headerText, HeaderFont, LastColumn(table))
      + BannerOf(FooterRow(b, table), b.footerText, FooterFont, LastColumn(table))
  }

  /** The one table: the first row names the columns, the rest are its data. */
  function SheetTable(b: Branding, table: seq<seq<Cell>>): Table {
    Table("DataTable", TableRow(b), true, b.tableTheme, true, ColumnNames(HeaderCells(table)), DataRows(table))
  }

  /** Borders on the table's rows (as many as the preview has, names included) and columns. */
  function SheetBorders(b: Branding, table: seq<seq<Cell>>): set<(nat, nat)> {
    if b.showBorders then Box(TableRow(b), |table|, |HeaderCells(table)|) else {}
  }

  function SheetWidths(b: Branding, table: seq<seq<Cell>>): map<nat, nat> {
    var count := |HeaderCells(table)|;
    if b.autoFitColumns then Widths(ColumnMaxes(table, count), count) else map[]
  }

  /** The worksheet holds exactly what `generateReport` puts on it. */
  predicate LaidOut(ws: Worksheet, b: Branding, table: seq<seq<Cell>>)
    reads ws
  {
    && ws.images == SheetImages(b)
    && ws.banners == SheetBanners(b, table)
    && ws.tables == [SheetTable(b, table)]
    && ws.borders == SheetBorders(b, table)
    && ws.widths == SheetWidths(b, table)
  }

  /**
    With rows 20 pixels high, the cursor after a logo stands on the first row
    that starts at or below the image's bottom edge.
   */
  lemma FirstRowClearsLogo(logo: Logo)
    ensures 20 * (FirstRow(Some(logo)) - 1) >= logo.height
    ensures 20 * (FirstRow(Some(logo)) - 2) < logo.height
  {
  }

  /**
    No banner falls on the table's rows: the header is above them, with a blank
    row between, and the footer two blank rows below them.
   */
  lemma BannersClearOfTable(b: Branding, table: seq<seq<Cell>>, k: nat)
    requires k < |SheetBanners(b, table)|
    ensures var row := SheetBanners(b, table)[k].row;
      row + 1 < TableRow(b) || TableRow(b) + |table| + 1 < row
  {
  }

  /** The borders cover exactly the table's rows and columns, with the column names' row first. */
  lemma BordersOnTable(b: Branding, table: seq<seq<Cell>>, r: nat, c: nat)
    ensures (r, c) in SheetBorders(b, table) <==>
      b.showBorders && TableRow(b) <= r < TableRow(b) + |table| && 1 <= c <= |HeaderCells(table)|
  {
  }

  /**
    With auto-fit on, each column named by the first row gets a width from the
    widest line in that column across all rows, names included, and no other
    column gets one.
   */
  lemma WidthsFitColumns(b: Branding, table: seq<seq<Cell>>, c: nat)
    ensures c in SheetWidths(b, table) <==> b.autoFitColumns && 1 <= c <= |HeaderCells(table)|
    ensures c in SheetWidths(b, table) ==> SheetWidths(b, table)[c] == FitWidth(ColumnMax(table, c - 1))
  {
    var count := |HeaderCells(table)|;
    if b.autoFitColumns {
      WidthsSpec(ColumnMaxes(table, count), count, c);
    }
  }

  /** What the download holds: the worksheet and the file name. */
  datatype Report = Report(sheet: Worksheet, fileName: string)

  /**
    `generateReport`: with no preview table, or with a header or footer to merge
    across the first row of an empty table (where reading that row's length
    throws), there is no report; otherwise the cursor starts at row 1 and moves
    below the logo, the header banner and the table in turn.
   */
  method Generate(b: Branding, preview: Option<seq<seq<Cell>>>) returns (report: Option<Report>)
    ensures report.None? <==> preview.None? || (preview.value == [] && (b.headerText != [] || b.footerText != []))
    ensures report.Some? ==> fresh(report.value.sheet) && report.value.fileName == "report.xlsx"
    ensures report.Some? ==> report.value.sheet.images == SheetImages(b)
    ensures report.Some? ==> report.value.sheet.banners == SheetBanners(b, preview.value)
    ensures report.Some? ==> report.value.sheet.tables == [SheetTable(b, preview.value)]
    ensures report.Some? ==> report.value.sheet.borders == SheetBorders(b, preview.value)
    ensures report.Some? ==> report.value.sheet.widths == SheetWidths(b, preview.value)
  {
    if preview.None? || (preview.value == [] && (b.headerText != [] || b.footerText != [])) {
      return None;
    }
    var table := preview.value;
    var ws := new Worksheet();
    var row := DrawTop(ws, b, table);
    DrawTable(ws, b, table, row);
    report := Some(Report(ws, "report.xlsx"));
  }

  /** The first part of `generateReport`: the logo, then the header banner; `row` is where the table goes. */
  method DrawTop(ws: Worksheet, b: Branding, table: seq<seq<Cell>>) returns (row: nat)
    requires b.headerText != [] ==> table != []
    requires ws.images == [] && ws.banners == []
    modifies ws
    ensures row == TableRow(b) && ws.images == SheetImages(b)
    ensures ws.banners == BannerOf(FirstRow(b.logo), b.headerText, HeaderFont, LastColumn(table))
    ensures unchanged(ws`borders, ws`widths, ws`tables)
  {
    row := 1;
    if b.logo.Some? {
      var logo := b.logo.value;
      ws.AddImage(Image(ImageType(logo.name), 0, 0, logo.width, logo.height));
      row := (logo.height + 19) / 20 + 1;
    }
    if b.headerText != [] {
      ws.AddBanner(Banner(row, b.headerText, HeaderFont, |table[0]|));
      row := row + 2;
    }
  }

  /** The rest of `generateReport`: the table, its borders, the column widths and the footer banner. */
  method DrawTable(ws: Worksheet, b: Branding, table: seq<seq<Cell>>, row: nat)
    requires b.footerText != [] ==> table != []
    requires row == TableRow(b) && ws.tables == [] && ws.borders == {} && ws.widths == map[]
    requires ws.banners == BannerOf(FirstRow(b.logo), b.headerText, HeaderFont, LastColumn(table))
    modifies ws
    ensures ws.tables == [SheetTable(b, table)] && ws.banners == SheetBanners(b, table)
    ensures ws.borders == SheetBorders(b, table) && ws.widths == SheetWidths(b, table)
    ensures unchanged(ws`images)
  {
    var header := HeaderCells(table);
    ws.AddTable(Table("DataTable", row, true, b.tableTheme, true, ColumnNames(header), DataRows(table)));
    if b.showBorders {
      DrawBorders(ws, row, |table|, |header|);
    }
    var footerRow := row + |table| + 2;
    if b.autoFitColumns {
      AutoFit(ws, table, |header|);
      NoWidthsBefore(Widths(ColumnMaxes(table, |header|), |header|));
    }
    if b.footerText != [] {
      ws.AddBanner(Banner(footerRow, b.footerText, FooterFont, |table[0]|));
    }
  }

  /** The border loops: every cell of the given rows and columns gets a border. */
  method DrawBorders(ws: Worksheet, top: nat, height: nat, width: nat)
    modifies ws
    ensures ws.borders == old(ws.borders) + Box(top, height, width)
    ensures unchanged(ws`banners, ws`widths, ws`images, ws`tables)
  {
    var r := top;
    while r < top + height
      invariant top <= r <= top + height
      invariant ws.borders == old(ws.borders) + Box(top, r - top, width)
      invariant unchanged(ws`banners, ws`widths, ws`images, ws`tables)
    {
      var c := 1;
      while c <= width
        invariant 1 <= c <= width + 1
        invariant ws.borders == old(ws.borders) + Box(top, r - top, width) + Box(r, 1, c - 1)
        invariant unchanged(ws`banners, ws`widths, ws`images, ws`tables)
      {
        assert Box(r, 1, c) == Box(r, 1, c - 1) + {(r, c)};
        ws.SetBorder(r, c);
        c := c + 1;
      }
      assert Box(top, r + 1 - top, width) == Box(top, r - top, width) + Box(r, 1, width);
      r := r + 1;
    }
  }

  /** The auto-fit loop: column `col + 1` gets the fitted width of the widest line of column `col`. */
  method AutoFit(ws: Worksheet, table: seq<seq<Cell>>, count: nat)
    modifies ws
    ensures ws.widths == old(ws.widths) + Widths(ColumnMaxes(table, count), count)
    ensures unchanged(ws`banners, ws`borders, ws`images, ws`tables)
  {
    ghost var maxes := ColumnMaxes(table, count);
    var col := 0;
    while col < count
      invariant col <= count
      invariant ws.widths == old(ws.widths) + Widths(maxes, col)
      invariant unchanged(ws`banners, ws`borders, ws`images, ws`tables)
    {
      var maxWidth := WidestLine(table, col);
      WidthsStep(old(ws.widths), maxes, col);
      ws.SetWidth(col + 1, FitWidth(maxWidth));
      col := col + 1;
    }
  }

  /** The running `maxWidth` over every line of every row of one column. */
  method WidestLine(table: seq<seq<Cell>>, col: nat) returns (maxWidth: nat)
    ensures maxWidth == ColumnMax(table, col)
  {
    ghost var widths := LineWidths(table, col);
    maxWidth := 0;
    var r := 0;
    while r < |table|
      invariant r <= |table|
      invariant maxWidth == MaxOf(widths[..r])
    {
      var lines := Split(CellText(table[r], col), '\n');
      maxWidth := WidenToLines(maxWidth, lines);
      MaxOfStep(widths, r);
      r := r + 1;
    }
    assert widths[..|table|] == widths;
  }

  /** The innermost loop: `maxWidth` grows to the longest of the lines. */
  method WidenToLines(before: nat, lines: seq<string>) returns (maxWidth: nat)
    ensures maxWidth == Max(before, MaxOf(Lengths(lines)))
  {
    ghost var lengths := Lengths(lines);
    maxWidth := before;
    var i := 0;
    while i < |lines|
      invariant i <= |lines|
      invariant maxWidth == Max(before, MaxOf(lengths[..i]))
    {
      MaxOfStep(lengths, i);
      maxWidth := Max(maxWidth, |lines[i]|);
      i := i + 1;
    }
    assert lengths[..|lines|] == lengths;
  }

  // ---------------------------------------------------------------------------
  // The data file
  // ---------------------------------------------------------------------------

  /** A chosen data file: its name and the rows the spreadsheet parser reads from its first sheet. */
  datatype DataFile = DataFile(name: string, parsed: seq<seq<Cell>>)

  /** The preview of an uploaded file: the parsed rows of a `csv` or `xlsx` file, else a one-cell notice. */
  function PreviewOf(file: DataFile): (table: seq<seq<Cell>>)
    ensures Extension(file.name) == "csv" || Extension(file.name) == "xlsx" ==> table == file.parsed
    ensures Extension(file.name) != "csv" && Extension(file.name) != "xlsx" ==> table == [[Text("Unsupported file type.")]]
  {
    var extension := Extension(file.name);
    if extension == "csv" || extension == "xlsx" then file.parsed else [[Text("Unsupported file type.")]]
  }

  /** The preview of a file named `base.ext` depends on the extension alone, compared without regard to case. */
  lemma PreviewByExtension(base: string, ext: string, parsed: seq<seq<Cell>>)
    requires '.' !in ext
    ensures PreviewOf(DataFile(base + "." + ext, parsed))
         == if Lower(ext) == "csv" || Lower(ext) == "xlsx" then parsed else [[Text("Unsupported file type.")]]
  {
    ExtensionOf(base, ext);
  }

  // ---------------------------------------------------------------------------
  // Design templates
  // ---------------------------------------------------------------------------

  const DefaultTheme := "TableStyleMedium2"

  /** The branding options a template stores as its layout. */
  datatype LayoutConfig = LayoutConfig(
    headerText: string,
    footerText: string,
    tableTheme: string,
    showBorders: bool,
    autoFitColumns: bool)

  /** A stored `layout_config`: missing or empty, a JSON object of the layout fields, or text that is not JSON. */
  datatype StoredLayout = Absent | Stored(config: LayoutConfig) | Unparsable

  /** A row of `design_templates`. */
  datatype TemplateRow = TemplateRow(id: string, name: string, layout: StoredLayout, logoUrl: Option<string>)

  /** The inserted template row. */
  datatype NewTemplate = NewTemplate(userId: string, name: string, layout: LayoutConfig, logoUrl: Option<string>)

  /** The update of template `id`: its layout, and a new logo only when one was uploaded. */
  datatype TemplateUpdate = TemplateUpdate(id: string, layout: LayoutConfig, logoUrl: Option<string>)

  /** The answer to the template query: the rows (possibly `null`), or an error. */
  datatype TemplatesReply = Listed(rows: Option<seq<TemplateRow>>) | ListFailed

  /** The template list after a query: `data || []` when it answers, the old list on an error. */
  function Listing(reply: TemplatesReply, before: seq<TemplateRow>): seq<TemplateRow> {
    match reply
    case Listed(rows) => if rows.Some? then rows.value else []
    case ListFailed => before
  }

  /** The layout a template puts in the designer, with every absent field at its default. */
  function Restored(stored: StoredLayout): (layout: LayoutConfig)
    ensures layout.tableTheme != []
  {
    match stored
    case Stored(c) => c.(tableTheme := if c.tableTheme != [] then c.tableTheme else DefaultTheme)
    case _ => LayoutConfig("", "", DefaultTheme, false, false)
  }

  /** A layout saved with a theme is restored exactly. */
  lemma RestoreSaved(c: LayoutConfig)
    requires c.tableTheme != []
    ensures Restored(Stored(c)) == c
  {
  }

  /** A missing layout and an unreadable one both restore the defaults; so does a saved blank one. */
  lemma RestoreDefaults()
    ensures Restored(Absent) == Restored(Unparsable) == LayoutConfig("", "", DefaultTheme, false, false)
    ensures Restored(Stored(LayoutConfig("", "", "", false, false))) == Restored(Absent)
  {
  }

  /** `templates.find(t => t.id === id)`: the first template with that id. */
  function FindTemplate(templates: seq<TemplateRow>, id: string): (found: Option<TemplateRow>)
    ensures found.Some? ==> found.value in templates && found.value.id == id
    ensures found.None? <==> forall k :: 0 <= k < |templates| ==> templates[k].id != id
  {
    if templates == [] then None
    else if templates[0].id == id then Some(templates[0])
    else FindTemplate(templates[1..], id)
  }

  /** The first template with the id is found even when a later one has it too. */
  lemma {:induction false} FindFirst(templates: seq<TemplateRow>, id: string, k: nat)
    requires k < |templates| && templates[k].id == id
    requires forall j :: 0 <= j < k ==> templates[j].id != id
    ensures FindTemplate(templates, id) == Some(templates[k])
  {
    if k > 0 {
      FindFirst(templates[1..], id, k - 1);
    }
  }

  /** `template.logo_url || null` */
  function LogoUrlOf(url: Option<string>): (r: Option<string>)
    ensures r.Some? <==> url.Some? && url.value != []
    ensures r.Some? ==> r == url
  {
    if url.Some? && url.value != [] then url else None
  }

  /** Where an uploaded logo is stored: the user's own folder, then the upload time and the file name. */
  function LogoPath(userId: string, now: nat, name: string): (path: string)
    ensures IsPrefix(userId + "/", path)
  {
    assert (userId + "/" + NatToDecimal(now) + "-" + name)[..|userId + "/"|] == userId + "/";
    userId + "/" + NatToDecimal(now) + "-" + name
  }

  /** The note the logo upload shows: loading at first, a tick once the timer fires. */
  datatype LogoStatus = Idle | Loading | Success

  const LoginToCreate := "You must be logged in to create templates."
  const NameMissing := "Please enter a template name."
  const LogoUploadFailed := "Failed to upload logo."
  const CreateFailed := "Failed to create template."
  const Created := "Template created successfully."
  const LoginToUpdate := "You must be logged in to update templates."
  const NoneSelected := "No template selected."
  const LogoUpdateFailed := "Failed to update logo."
  const UpdateFailed := "Failed to update template."
  const Updated := "Template updated successfully."

  /** The state of the report designer page. */
  class ReportDesigner {
    var fileName: Option<string>
    var previewTable: Option<seq<seq<Cell>>>
    var headerText: string
    var footerText: string
    var logo: Option<Logo>
    var logoUrl: Option<string>
    var logoStatus: LogoStatus
    var tableTheme: string
    var showBorders: bool
    var autoFitColumns: bool
    var templates: seq<TemplateRow>
    var selectedTemplate: string
    var newTemplateName: string

    constructor ()
      ensures fileName.None? && previewTable.None? && logo.None? && logoUrl.None? && logoStatus == Idle
      ensures Layout() == LayoutConfig("", "", DefaultTheme, false, false)
      ensures templates == [] && selectedTemplate == "" && newTemplateName == ""
    {
      fileName, previewTable := None, None;
      headerText, footerText := "", "";
      logo, logoUrl, logoStatus := None, None, Idle;
      tableTheme, showBorders, autoFitColumns := DefaultTheme, false, false;
      templates, selectedTemplate, newTemplateName := [], "", "";
    }

    /** The branding options as a template stores them. */
    function Layout(): LayoutConfig
      reads this
    {
      LayoutConfig(headerText, footerText, tableTheme, showBorders, autoFitColumns)
    }

    /** The branding options the report is generated with. */
    function Options(): Branding
      reads this
    {
      Branding(logo, headerText, footerText, tableTheme, showBorders, autoFitColumns)
    }

    /** `handleFileUpload`: a chosen file replaces the preview; choosing none changes nothing. */
    method UploadFile(file: Option<DataFile>)
      modifies this
      ensures file.None? ==> fileName == old(fileName) && previewTable == old(previewTable)
      ensures file.Some? ==> fileName == Some(file.value.name) && previewTable == Some(PreviewOf(file.value))
      ensures unchanged(this`headerText, this`footerText, this`logo, this`logoUrl, this`logoStatus, this`tableTheme)
      ensures unchanged(this`showBorders, this`autoFitColumns, this`templates, this`selectedTemplate, this`newTemplateName)
    {
      if file.Some? {
        fileName := Some(file.value.name);
        previewTable := Some(PreviewOf(file.value));
      }
    }

    /** `handleLogoUpload`: a chosen logo is kept and its note shows loading. */
    method UploadLogo(chosen: Option<Logo>)
      modifies this`logo, this`logoStatus
      ensures chosen.None? ==> logo == old(logo) && logoStatus == old(logoStatus)
      ensures chosen.Some? ==> logo == chosen && logoStatus == Loading
    {
      if chosen.Some? {
        logo := chosen;
        logoStatus := Loading;
      }
    }

    /** The timer set by the logo upload fires. */
    method LogoTimerFired()
      modifies this`logoStatus
      ensures logoStatus == Success
    {
      logoStatus := Success;
    }

    /** `refreshTemplates`: the signed-in user's templates replace the list unless the query fails. */
    method Refresh(user: Option<string>, reply: TemplatesReply)
      modifies this`templates
      ensures templates == if user.Some? then Listing(reply, old(templates)) else old(templates)
    {
      if user.None? {
        return;
      }
      if reply.Listed? {
        templates := if reply.rows.Some? then reply.rows.value else [];
      }
    }

    /**
      `handleSelectTemplate`: the id is selected; a template with that id puts
      its layout and logo address in the designer and drops the chosen logo
      file, and an unreadable layout resets the options and the logo address
      but keeps the chosen logo file.
     */
    method SelectTemplate(id: string)
      modifies this
      ensures selectedTemplate == id
      ensures var found := FindTemplate(old(templates), id);
        if found.None? then Layout() == old(Layout()) && logoUrl == old(logoUrl) && logo == old(logo)
        else if found.value.layout.Unparsable? then Layout() == Restored(Unparsable) && logoUrl.None? && logo == old(logo)
        else Layout() == Restored(found.value.layout) && logoUrl == LogoUrlOf(found.value.logoUrl) && logo.None?
      ensures unchanged(this`fileName, this`previewTable, this`logoStatus, this`templates, this`newTemplateName)
    {
      selectedTemplate := id;
      var found := FindTemplate(templates, id);
      if found.Some? {
        ApplyTemplate(found.value);
      }
    }

    /** The part of `handleSelectTemplate` after a template with the id is found. */
    method ApplyTemplate(template: TemplateRow)
      modifies this`headerText, this`footerText, this`tableTheme, this`showBorders, this`autoFitColumns, this`logoUrl, this`logo
      ensures template.layout.Unparsable? ==> Layout() == Restored(Unparsable) && logoUrl.None? && logo == old(logo)
      ensures !template.layout.Unparsable? ==> Layout() == Restored(template.layout) && logoUrl == LogoUrlOf(template.logoUrl) && logo.None?
    {
      if !template.layout.Unparsable? {
        var layout := Restored(template.layout);
        headerText, footerText, tableTheme := layout.headerText, layout.footerText, layout.tableTheme;
        showBorders, autoFitColumns := layout.showBorders, layout.autoFitColumns;
        logoUrl := LogoUrlOf(template.logoUrl);
        logo := None;
      } else {
        headerText, footerText, tableTheme := "", "", DefaultTheme;
        showBorders, autoFitColumns := false, false;
        logoUrl := None;
      }
    }

    /**
      `handleCreateTemplate`, with the outcomes of the backend as parameters:
      `uploaded` is the logo's public address (none when the upload fails),
      `insertFailed` the insert's error. Returns the alert shown, the storage
      path of the logo upload asked for and the row to insert.
     */
    method CreateTemplate(user: Option<string>, now: nat, uploaded: Option<string>, insertFailed: bool, reply: TemplatesReply)
      returns (alert: string, upload: Option<string>, insert: Option<NewTemplate>)
      modifies this`newTemplateName, this`templates
      ensures user.None? ==> alert == LoginToCreate && upload.None? && insert.None?
      ensures user.Some? && Trim(old(newTemplateName)) == [] ==> alert == NameMissing && upload.None? && insert.None?
      ensures user.Some? && Trim(old(newTemplateName)) != [] ==>
        && upload == (if logo.Some? then Some(LogoPath(user.value, now, logo.value.name)) else None)
        && (upload.Some? && uploaded.None? ==> alert == LogoUploadFailed && insert.None?)
        && ((logo.Some? ==> uploaded.Some?) ==> insert == Some(NewTemplate(user.value, old(newTemplateName), Layout(), if logo.Some? then uploaded else None)))
      ensures insert.Some? && insertFailed ==> alert == CreateFailed
      ensures insert.Some? && !insertFailed ==> alert == Created && newTemplateName == "" && templates == Listing(reply, old(templates))
      ensures insert.None? || insertFailed ==> unchanged(this`newTemplateName, this`templates)
    {
      upload, insert := None, None;
      if user.None? {
        return LoginToCreate, upload, insert;
      }
      if Trim(newTemplateName) == [] {
        return NameMissing, upload, insert;
      }
      alert, upload, insert := InsertTemplate(user.value, now, uploaded, insertFailed, reply);
    }

    /** `handleCreateTemplate` once the user is signed in and the name is given: upload the logo, then insert. */
    method InsertTemplate(userId: string, now: nat, uploaded: Option<string>, insertFailed: bool, reply: TemplatesReply)
      returns (alert: string, upload: Option<string>, insert: Option<NewTemplate>)
      modifies this`newTemplateName, this`templates
      ensures upload == if logo.Some? then Some(LogoPath(userId, now, logo.value.name)) else None
      ensures upload.Some? && uploaded.None? ==> alert == LogoUploadFailed && insert.None?
      ensures (logo.Some? ==> uploaded.Some?) ==> insert == Some(NewTemplate(userId, old(newTemplateName), Layout(), if logo.Some? then uploaded else None))
      ensures insert.Some? && insertFailed ==> alert == CreateFailed
      ensures insert.Some? && !insertFailed ==> alert == Created && newTemplateName == "" && templates == Listing(reply, old(templates))
      ensures insert.None? || insertFailed ==> unchanged(this`newTemplateName, this`templates)
    {
      upload, insert := None, None;
      var logoAddress: Option<string> := None;
      if logo.Some? {
        upload := Some(LogoPath(userId, now, logo.value.name));
        if uploaded.None? {
          return LogoUploadFailed, upload, insert;
        }
        logoAddress := uploaded;
      }
      insert := Some(NewTemplate(userId, newTemplateName, Layout(), logoAddress));
      if insertFailed {
        return CreateFailed, upload, insert;
      }
      newTemplateName := "";
      Refresh(Some(userId), reply);
      alert := Created;
    }

    /**
      `handleUpdateTemplate`, with the backend's outcomes as parameters, as for
      `CreateTemplate`. Returns the alert, the logo upload asked for and the
      update sent.
     */
    method UpdateTemplate(user: Option<string>, now: nat, uploaded: Option<string>, updateFailed: bool, reply: TemplatesReply)
      returns (alert: string, upload: Option<string>, update: Option<TemplateUpdate>)
      modifies this`templates
      ensures user.None? ==> alert == LoginToUpdate && upload.None? && update.None?
      ensures user.Some? && selectedTemplate == [] ==> alert == NoneSelected && upload.None? && update.None?
      ensures upload.Some? <==> user.Some? && selectedTemplate != [] && logo.Some?
      ensures upload.Some? ==> upload == Some(LogoPath(user.value, now, logo.value.name))
      ensures upload.Some? && uploaded.None? ==> alert == LogoUpdateFailed && update.None?
      ensures update.Some? <==> user.Some? && selectedTemplate != [] && (logo.Some? ==> uploaded.Some?)
      ensures update.Some? ==> update == Some(TemplateUpdate(selectedTemplate, Layout(), if logo.Some? then uploaded else None))
      ensures update.Some? && updateFailed ==> alert == UpdateFailed
      ensures update.Some? && !updateFailed ==> alert == Updated
      ensures templates == if update.Some? && !updateFailed then Listing(reply, old(templates)) else old(templates)
    {
      upload, update := None, None;
      if user.None? {
        return LoginToUpdate, upload, update;
      }
      if selectedTemplate == [] {
        return NoneSelected, upload, update;
      }
      var logoAddress: Option<string> := None;
      if logo.Some? {
        upload := Some(LogoPath(user.value, now, logo.value.name));
        if uploaded.None? {
          return LogoUpdateFailed, upload, update;
        }
        logoAddress := uploaded;
      }
      update := Some(TemplateUpdate(selectedTemplate, Layout(), logoAddress));
      if updateFailed {
        return UpdateFailed, upload, update;
      }
      Refresh(user, reply);
      alert := Updated;
    }

    /**
      `generateReport` on the designer's preview table and branding options.
      A logo address restored from a template without a chosen logo file is not
      embedded.
     */
    method GenerateReport() returns (report: Option<Report>)
      ensures report.None? <==> previewTable.None? || (previewTable.value == [] && (headerText != [] || footerText != []))
      ensures report.Some? ==> fresh(report.value.sheet) && report.value.fileName == "report.xlsx"
      ensures report.Some? ==> LaidOut(report.value.sheet, Options(), previewTable.value)
    {
      report := Generate(Options(), previewTable);
    }
  }
}
